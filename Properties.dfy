/**
 * Properties of the player that relate several operations: how `next` and
 * `previous` walk the playlist, what polling does, what undoes what, how a
 * seek shows up in the normalised position, what a title edit shows, and
 * how the time getters split a position into minutes and seconds.
 */
module PlaybackProperties {
  import opened AudioHandle
  import opened Paths
  import opened Playback
  import PlayerStatus

  // ---------------------------------------------------------------------
  // Arithmetic used by the wrap-around statements

  /** Quotient and remainder are the only ones: `a == q * n + r` with `0 <= r < n` fixes both. */
  lemma ModUnique(a: int, n: int, q: int, r: int)
    requires n > 0 && 0 <= r < n && a == q * n + r
    ensures a % n == r && a / n == q
  {
    var q', r' := a / n, a % n;
    assert a == q' * n + r';
    if q > q' {
      MulNonneg(q - q' - 1, n);
    } else if q < q' {
      MulNonneg(q' - q - 1, n);
    }
  }

  /** A product of non-negative factors is non-negative. */
  lemma {:induction false} MulNonneg(k: int, n: int)
    ensures k >= 0 && n >= 0 ==> k * n >= 0
  {
    if k > 0 && n >= 0 {
      MulNonneg(k - 1, n);
      assert k * n == (k - 1) * n + n;
    }
  }

  // ---------------------------------------------------------------------
  // Guarded transport operations: what undoes what

  /** Pausing and then playing resumes where the track was: the same as playing directly. */
  lemma PauseThenPlay(s: State)
    requires InRange(s)
    ensures Play(Pause(s).0) == Play(s)
  {
    if IsOpened(s) {
      var c := s.current;
      var h := Active(s);
      assert s.tracks[c := h.Paused()][c := h.Paused().Played()] == s.tracks[c := h.Played()];
    }
  }

  /** Stopping and then playing starts the track over: the same as `playFromBegin`. */
  lemma StopThenPlay(s: State)
    requires InRange(s)
    ensures Play(Stop(s).0) == PlayFromBegin(s)
  {
    if IsOpened(s) {
      var c := s.current;
      var h := Active(s);
      assert h.Stopped().Played() == h.WithPosSample(0).Played();
      assert s.tracks[c := h.Stopped()][c := h.Stopped().Played()] == s.tracks[c := h.WithPosSample(0).Played()];
    }
  }

  // ---------------------------------------------------------------------
  // Track movement

  /**
   * With two or more tracks, `next` moves to the following index on a ring:
   * the active track becomes the next one, at its start, playing exactly
   * when the player was playing; Stop and Pause both end in Pause; every
   * other track is left stopped at its start.
   */
  lemma NextAdvances(s: State)
    requires Valid(s) && IsOpened(s) && |s.tracks| >= 2
    ensures Next(s).current == (s.current + 1) % |s.tracks|
    ensures Next(s).status == (if s.status == PlayerStatus.Play then PlayerStatus.Play else PlayerStatus.Pause)
    ensures Active(Next(s)).pos == 0 && Active(Next(s)).playing == (s.status == PlayerStatus.Play)
    ensures Active(Next(s)) == s.tracks[Next(s).current].(pos := 0, playing := s.status == PlayerStatus.Play)
    ensures forall i :: 0 <= i < |s.tracks| && i != Next(s).current ==> Next(s).tracks[i] == s.tracks[i].Stopped()
  {
    var n := |s.tracks|;
    if s.current + 1 == n {
      ModUnique(s.current + 1, n, 1, 0);
    } else {
      ModUnique(s.current + 1, n, 0, s.current + 1);
    }
  }

  /**
   * Under one second into the track, `previous` moves to the preceding
   * index on a ring (before the first comes the last), with the same
   * status rule as `next`.
   */
  lemma PreviousRetreats(s: State)
    requires Valid(s) && IsOpened(s) && Active(s).PosSec() < 1.0
    ensures Previous(s).current == (s.current - 1 + |s.tracks|) % |s.tracks|
    ensures Previous(s).status == (if s.status == PlayerStatus.Play then PlayerStatus.Play else PlayerStatus.Pause)
    ensures Active(Previous(s)).pos == 0 && Active(Previous(s)).playing == (s.status == PlayerStatus.Play)
    ensures Active(Previous(s)) == s.tracks[Previous(s).current].(pos := 0, playing := s.status == PlayerStatus.Play)
    ensures forall i :: 0 <= i < |s.tracks| && i != Previous(s).current ==> Previous(s).tracks[i] == s.tracks[i].Stopped()
  {
    var n := |s.tracks|;
    if s.current == 0 {
      ModUnique(n - 1, n, 0, n - 1);
    } else {
      ModUnique(s.current - 1 + n, n, 1, s.current - 1);
    }
  }

  /** One second or more into the track, `previous` only rewinds it: index and status stay. */
  lemma PreviousRestarts(s: State)
    requires Valid(s) && IsOpened(s) && Active(s).PosSec() >= 1.0
    ensures Previous(s) == WithActive(s, Active(s).(pos := 0))
  {
    var r := Previous(s);
    assert r.tracks == s.tracks[s.current := Active(s).(pos := 0)];
  }

  /**
   * With a single track, `next` rewinds it and keeps it active; the player
   * ends playing when loop is on and paused when it is off.
   */
  lemma NextSingleTrack(s: State)
    requires Valid(s) && |s.tracks| == 1
    ensures Next(s).current == 0 && |Next(s).tracks| == 1
    ensures Next(s).status == (if s.loop then PlayerStatus.Play else PlayerStatus.Pause)
    ensures Next(s).tracks[0] == s.tracks[0].(pos := 0, playing := s.loop)
  {
    assert s.current == 0;
  }

  /** Pressing `next` k times. */
  function NextN(s: State, k: nat): (r: State)
    requires Valid(s)
    ensures Valid(r) && IsOpened(r) == IsOpened(s) && |r.tracks| == |s.tracks| && r.loop == s.loop
  {
    if k == 0 then s else Next(NextN(s, k - 1))
  }

  /**
   * On a single track, any number of `next` presses leaves it active and
   * at its start, playing with loop on and paused with loop off.
   */
  lemma {:induction false} NextNSingleTrack(s: State, k: nat)
    requires Valid(s) && |s.tracks| == 1 && k >= 1
    ensures NextN(s, k).current == 0
    ensures NextN(s, k).status == (if s.loop then PlayerStatus.Play else PlayerStatus.Pause)
    ensures NextN(s, k).tracks[0].pos == 0 && NextN(s, k).tracks[0].playing == s.loop
  {
    if k == 1 {
      NextSingleTrack(s);
    } else {
      NextNSingleTrack(s, k - 1);
      NextSingleTrack(NextN(s, k - 1));
    }
  }

  /** `previous` right after `next` returns to the track `next` left, at its start. */
  lemma PreviousUndoesNext(s: State)
    requires Valid(s) && IsOpened(s) && |s.tracks| >= 2
    ensures Previous(Next(s)).current == s.current
    ensures Previous(Next(s)).status == (if s.status == PlayerStatus.Play then PlayerStatus.Play else PlayerStatus.Pause)
    ensures Active(Previous(Next(s))).pos == 0
  {
    var n := |s.tracks|;
    var t := Next(s);
    NextAdvances(s);
    assert Active(t).PosSec() == 0.0;
    PreviousRetreats(t);
    if s.current + 1 == n {
      ModUnique(n - 1, n, 0, n - 1);
    } else {
      ModUnique(s.current + n, n, 1, s.current);
    }
  }

  /** `next` right after a `previous` that changed track returns to the track it left. */
  lemma NextUndoesPrevious(s: State)
    requires Valid(s) && IsOpened(s) && |s.tracks| >= 2 && Active(s).PosSec() < 1.0
    ensures Next(Previous(s)).current == s.current
    ensures Next(Previous(s)).status == (if s.status == PlayerStatus.Play then PlayerStatus.Play else PlayerStatus.Pause)
  {
    var n := |s.tracks|;
    PreviousRetreats(s);
    var t := Previous(s);
    NextAdvances(t);
    if s.current == 0 {
      ModUnique(n - 1, n, 0, n - 1);
      ModUnique(n, n, 1, 0);
    } else {
      ModUnique(s.current - 1 + n, n, 1, s.current - 1);
      ModUnique(s.current, n, 0, s.current);
    }
  }

  // ---------------------------------------------------------------------
  // Polling

  /**
   * A poll that finds the active track finished while the player is
   * playing advances with `next`: the player keeps playing on the following
   * track when there are several, and with a single track it keeps playing
   * from the start only when loop is on.
   */
  lemma PollAfterFinish(s: State)
    requires Valid(s) && IsOpened(s) && s.status == PlayerStatus.Play && !Active(s).playing
    ensures Playing(s).0.current == (s.current + 1) % |s.tracks|
    ensures Playing(s).1 <==> |s.tracks| >= 2 || s.loop
    ensures Active(Playing(s).0).pos == 0
  {
    if |s.tracks| >= 2 {
      NextAdvances(s);
    } else {
      NextSingleTrack(s);
      ModUnique(1, 1, 1, 0);
    }
  }

  /** Polling twice is polling once: the first poll leaves nothing for a second to advance. */
  lemma PollIdempotent(s: State)
    requires Valid(s)
    ensures Playing(Playing(s).0) == Playing(s)
  {
    if IsOpened(s) && s.status == PlayerStatus.Play && !Active(s).playing {
      if |s.tracks| >= 2 {
        NextAdvances(s);
      } else {
        NextSingleTrack(s);
      }
    }
  }

  // ---------------------------------------------------------------------
  // Seeking, volume and loop

  /**
   * After a successful seek to fraction `f`, the normalised position reads
   * back `f` truncated to a whole sample: at most `f` and less than one
   * sample short of it.
   */
  lemma SeekThenNorm(s: State, f: real)
    requires Valid(s) && IsOpened(s) && 0.0 <= f <= 1.0 && Active(s).samples > 0
    ensures SeekTo(s, f).1
    ensures PlayPosNorm(SeekTo(s, f).0).Fraction?
    ensures var q := PlayPosNorm(SeekTo(s, f).0).value;
            q <= f < q + 1.0 / Active(s).samples as real
  {
    var r := SeekTo(s, f).0;
    var n := SeekTarget(f, Active(s).samples);
    assert Active(r).pos == n;
    QuotientBounds(n as real, f, Active(s).samples as real);
  }

  /** From `n <= f * S < n + 1` with `S` positive: `n / S <= f < n / S + 1 / S`. */
  lemma QuotientBounds(n: real, f: real, S: real)
    requires S > 0.0 && n <= f * S < n + 1.0
    ensures n / S <= f < n / S + 1.0 / S
  {
    assert n / S + 1.0 / S == (n + 1.0) / S;
    assert f == (f * S) / S;
  }

  /** Only the last volume change counts: changing to `v` and then to `w` is changing to `w`. */
  lemma VolumeLastWins(s: State, v: real, w: real)
    requires Valid(s) && 0.0 <= v <= 1.0 && 0.0 <= w <= 1.0
    ensures ChangeVolumeTo(ChangeVolumeTo(s, v).0, w) == ChangeVolumeTo(s, w)
  {
    var s1 := ChangeVolumeTo(s, v).0;
    var a := ChangeVolumeTo(s1, w).0;
    var b := ChangeVolumeTo(s, w).0;
    assert |a.tracks| == |s1.tracks| == |s.tracks| == |b.tracks|;
    forall i | 0 <= i < |s.tracks|
      ensures a.tracks[i] == b.tracks[i]
    {
      assert a.tracks[i] == s1.tracks[i].(volume := w);
      assert s1.tracks[i] == s.tracks[i].(volume := v);
    }
    assert a.tracks == b.tracks;
  }

  /**
   * Toggling loop and toggling it back restores the player exactly, as long
   * as the player was not left in Play with its track already finished (the
   * toggle puts such a track back into play).  Outside Play the position is
   * not saved across the handles' loop change, so the active track comes
   * back at its start and is otherwise restored.
   */
  lemma LoopToggleRestores(s: State, e: bool)
    requires Valid(s)
    requires IsOpened(s) && s.status == PlayerStatus.Play ==> Active(s).playing
    ensures SetLoop(SetLoop(s, e), s.loop) ==
              if e != s.loop && IsOpened(s) && s.status != PlayerStatus.Play
              then WithActive(s, Active(s).(pos := 0)) else s
  {
    if e != s.loop {
      var r := SetLoop(SetLoop(s, e), s.loop);
      var t := if IsOpened(s) && s.status != PlayerStatus.Play then WithActive(s, Active(s).(pos := 0)) else s;
      assert |r.tracks| == |t.tracks| == |s.tracks|;
      forall i | 0 <= i < |s.tracks|
        ensures r.tracks[i] == t.tracks[i]
      {
        if IsOpened(s) && i == s.current {
          assert Active(r) == Active(s).(loop := s.loop, playing := s.status == PlayerStatus.Play,
                                         pos := if s.status == PlayerStatus.Play then Active(s).pos else 0);
        }
      }
      assert r.tracks == t.tracks;
    }
  }

  /**
   * A loop toggle while playing keeps the active track sounding from the
   * sample it had reached: the handles' loop change rewinds them, and the
   * player puts the active one back at the saved sample.
   */
  lemma LoopToggleKeepsPosition(s: State, e: bool)
    requires Valid(s) && IsOpened(s) && s.status == PlayerStatus.Play
    ensures Active(SetLoop(s, e)).pos == Active(s).pos
    ensures e != s.loop ==> Active(SetLoop(s, e)).playing && Active(SetLoop(s, e)).loop == e
  {
    assert |SetLoop(s, e).tracks| == |s.tracks|;
  }

  // ---------------------------------------------------------------------
  // Titles

  /**
   * After `editTitle(t)` with a track open, the title shown is `t`, or the
   * file's base name when `t` is empty.
   */
  lemma TitleAfterEdit(s: State, t: string)
    requires Valid(s) && IsOpened(s)
    ensures Title(EditTitle(s, t)) == (if |t| > 0 then t else BaseName(s.paths[s.current]))
  {
    var r := EditTitle(s, t);
    assert r.currentHash == s.currentHash && r.paths == s.paths && r.current == s.current;
    assert r.profiles[s.currentHash].title == t;
  }

  /** A newly opened track whose content has no stored profile shows its file's base name. */
  lemma TitleOfNewTrack(s: State, path: string, hash: Hash, samples: nat, rate: nat)
    requires Valid(s) && rate > 0 && hash !in s.profiles
    ensures Title(Open(s, path, hash, samples, rate)) == BaseName(path)
  {
    var r := Open(s, path, hash, samples, rate);
    assert r.paths[r.current] == path;
  }

  // ---------------------------------------------------------------------
  // Time

  /** Truncating the real quotient of naturals is integer division. */
  lemma FloorOfQuotient(a: nat, b: nat)
    requires b > 0
    ensures (a as real / b as real).Floor == a / b
  {
    var q, m := a / b, a % b;
    assert a == q * b + m && 0 <= m < b;
    var x := a as real / b as real;
    assert x * b as real == a as real;
    assert (q * b) as real == q as real * b as real;
    assert x == q as real + m as real / b as real;
    assert 0.0 <= m as real / b as real < 1.0;
  }

  /** Whole seconds played is the sample position divided by the rate. */
  lemma PlayPosSecIsQuotient(s: State)
    requires Valid(s) && IsOpened(s)
    ensures PlayPosSec(s) == Active(s).pos / Active(s).rate
  {
    FloorOfQuotient(Active(s).pos, Active(s).rate);
  }

  /**
   * The minute and second getters split the whole seconds played, and the
   * whole seconds of the track's length, into minutes and a second count
   * below 60; the position never reads past the length.
   */
  lemma TimeDecomposition(s: State)
    requires Valid(s)
    ensures PlayPosSec(s) >= 0
    ensures 0 <= PlayPosTimeSec(s) < 60 && PlayPosTimeMin(s) * 60 + PlayPosTimeSec(s) == PlayPosSec(s)
    ensures 0 <= TotalTimeSec(s) < 60
    ensures IsOpened(s) ==>
              TotalTimeMin(s) * 60 + TotalTimeSec(s) == Active(s).samples / Active(s).rate
    ensures PlayPosSec(s) <= TotalTimeMin(s) * 60 + TotalTimeSec(s)
  {
    if IsOpened(s) {
      var h := Active(s);
      FloorOfQuotient(h.pos, h.rate);
      FloorOfQuotient(h.samples, h.rate);
      DivMonotone(h.pos, h.samples, h.rate);
    }
  }

  /** Integer division by a positive number keeps order. */
  lemma DivMonotone(a: nat, b: nat, d: nat)
    requires a <= b && d > 0
    ensures a / d <= b / d
  {
    var qa, qb := a / d, b / d;
    assert a == qa * d + a % d && b == qb * d + b % d;
    if qa > qb {
      MulNonneg(qa - qb - 1, d);
    }
  }
}
