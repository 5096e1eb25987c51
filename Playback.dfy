/**
 * The playback controller as a state machine over values.
 *
 * `State` is everything the player holds: the playlist (one audio handle,
 * one path and one content hash per track, kept in parallel), the index of
 * the active track (-1 when nothing has been opened), the transport status,
 * the volume, the loop and show-wave flags, the content hash of the active
 * track and the profile store keyed by content hash.
 *
 * Every player operation is a function from the state before to the state
 * after (paired with the operation's boolean answer where it has one).  Each
 * is written as the same sequence of steps as the player's own code, so that
 * a composite operation such as `Next` is built from `Stop`, `Move`,
 * `PlayFromBegin` and `Pause` exactly as the player calls them.
 */
module Playback {
  import opened AudioHandle
  import opened Paths
  import PlayerStatus

  /** A 64-bit content hash. */
  type Hash = h: int | 0 <= h < 0x1_0000_0000_0000_0000


  /** User-editable metadata of one track, keyed by the track's content hash. */
  datatype Profile = Profile(title: string, artistName: string, thumbnailImageFilepath: string)

  /** The record a lookup of a missing key creates: every field empty. */
  const EmptyProfile := Profile("", "", "")

  datatype State = State(
    tracks: seq<Handle>,
    paths: seq<string>,
    hashes: seq<Hash>,
    current: int,
    currentHash: Hash,
    status: PlayerStatus.Type,
    volume: real,
    loop: bool,
    showWave: bool,
    profiles: map<Hash, Profile>)

  /** Something is opened; in a valid state, exactly when the list is non-empty. */
  predicate IsOpened(s: State)
    ensures Valid(s) ==> (IsOpened(s) <==> |s.tracks| > 0)
  {
    s.current != -1
  }

  /** The active index is -1 or names a track. */
  ghost predicate InRange(s: State) {
    -1 <= s.current < |s.tracks|
  }

  /**
   * The invariant every operation keeps:
   *  - the three per-track lists have one entry per track;
   *  - nothing is active exactly when the list is empty, and then the
   *    transport is stopped;
   *  - the cached hash is the active track's hash;
   *  - the active handle sounds only while the status is Play;
   *  - every handle carries the player's volume and loop flag;
   *  - every track other than the active one is stopped at its start;
   *  - the volume lies in [0, 1].
   */
  ghost predicate Valid(s: State) {
    && InRange(s)
    && |s.paths| == |s.tracks|
    && |s.hashes| == |s.tracks|
    && (s.current == -1 <==> |s.tracks| == 0)
    && (s.current == -1 ==> s.status == PlayerStatus.Stop)
    && (s.current >= 0 ==> s.currentHash == s.hashes[s.current])
    && (s.current >= 0 && s.status != PlayerStatus.Play ==> !s.tracks[s.current].playing)
    && (forall i :: 0 <= i < |s.tracks| ==>
          s.tracks[i].Valid() && s.tracks[i].volume == s.volume && s.tracks[i].loop == s.loop)
    && (forall i :: 0 <= i < |s.tracks| && i != s.current ==> s.tracks[i].Parked())
    && 0.0 <= s.volume <= 1.0
  }

  function Active(s: State): Handle
    requires 0 <= s.current < |s.tracks|
  {
    s.tracks[s.current]
  }

  /** `s` with the active handle replaced by `h`. */
  function WithActive(s: State, h: Handle): State
    requires 0 <= s.current < |s.tracks|
  {
    s.(tracks := s.tracks[s.current := h])
  }

  /** `r` differs from `s` at most in the status and in the active handle. */
  ghost predicate OnlyActiveChanged(s: State, r: State)
    requires 0 <= s.current < |s.tracks|
  {
    && |r.tracks| == |s.tracks|
    && r == s.(status := r.status, tracks := r.tracks)
    && forall i :: 0 <= i < |s.tracks| && i != s.current ==> r.tracks[i] == s.tracks[i]
  }

  // ---------------------------------------------------------------------
  // Start-up

  /**
   * The player as constructed when there is no settings file: nothing
   * opened, stopped, volume 1.0, wave shown, loop off.  `store` is the
   * profile store read at start-up.
   */
  function Initial(store: map<Hash, Profile>): (s: State)
    ensures Valid(s) && !IsOpened(s)
    ensures s.volume == 1.0 && s.showWave && !s.loop && s.status == PlayerStatus.Stop
    ensures s.profiles == store
  {
    State([], [], [], -1, 0, PlayerStatus.Stop, 1.0, false, true, store)
  }

  // ---------------------------------------------------------------------
  // Guarded transport operations on the active handle

  function Play(s: State): (r: (State, bool))
    requires InRange(s)
    ensures r.1 == IsOpened(s)
    ensures !r.1 ==> r.0 == s
    ensures r.1 ==> r.0.status == PlayerStatus.Play && OnlyActiveChanged(s, r.0)
                    && Active(r.0) == Active(s).(playing := true)
    ensures InRange(r.0) && (Valid(s) ==> Valid(r.0))
  {
    if !IsOpened(s) then (s, false)
    else (WithActive(s.(status := PlayerStatus.Play), Active(s).Played()), true)
  }

  function PlayFromBegin(s: State): (r: (State, bool))
    requires InRange(s)
    ensures r.1 == IsOpened(s)
    ensures !r.1 ==> r.0 == s
    ensures r.1 ==> r.0.status == PlayerStatus.Play && OnlyActiveChanged(s, r.0)
                    && Active(r.0) == Active(s).(pos := 0, playing := true)
    ensures InRange(r.0) && (Valid(s) ==> Valid(r.0))
  {
    if !IsOpened(s) then (s, false)
    else (WithActive(s.(status := PlayerStatus.Play), Active(s).WithPosSample(0).Played()), true)
  }

  function Pause(s: State): (r: (State, bool))
    requires InRange(s)
    ensures r.1 == IsOpened(s)
    ensures !r.1 ==> r.0 == s
    ensures r.1 ==> r.0.status == PlayerStatus.Pause && OnlyActiveChanged(s, r.0)
                    && Active(r.0) == Active(s).(playing := false)
    ensures InRange(r.0) && (Valid(s) ==> Valid(r.0))
  {
    if !IsOpened(s) then (s, false)
    else (WithActive(s.(status := PlayerStatus.Pause), Active(s).Paused()), true)
  }

  function Stop(s: State): (r: (State, bool))
    requires InRange(s)
    ensures r.1 == IsOpened(s)
    ensures !r.1 ==> r.0 == s
    ensures r.1 ==> r.0.status == PlayerStatus.Stop && OnlyActiveChanged(s, r.0)
                    && Active(r.0) == Active(s).(pos := 0, playing := false)
    ensures InRange(r.0) && (Valid(s) ==> Valid(r.0))
  {
    if !IsOpened(s) then (s, false)
    else (WithActive(s.(status := PlayerStatus.Stop), Active(s).Stopped()), true)
  }

  /** Rewinds the active handle to 0.0 seconds, leaving everything else. */
  function Rewind(s: State): (r: State)
    requires Valid(s) && IsOpened(s)
    ensures Valid(r) && OnlyActiveChanged(s, r) && r.status == s.status
    ensures Active(r) == Active(s).(pos := 0)
  {
    WithActive(s, Active(s).WithPosSec(0.0))
  }

  /** Track change bookkeeping: refresh the cached hash of the active track. */
  function Move(s: State): (r: State)
    requires 0 <= s.current < |s.hashes|
    ensures r.currentHash == s.hashes[s.current]
    ensures r == s.(currentHash := r.currentHash)
  {
    s.(currentHash := s.hashes[s.current])
  }

  /**
   * Stop has just parked the active track; make track `j` active.  The
   * result is again a valid state, stopped, with track `j` at its start.
   */
  function SwitchTo(s: State, j: int): (r: State)
    requires Valid(s) && IsOpened(s) && s.status == PlayerStatus.Stop && Active(s).Parked()
    requires 0 <= j < |s.tracks|
    ensures Valid(r) && r.current == j && r.status == PlayerStatus.Stop
    ensures r == s.(current := j, currentHash := s.hashes[j])
    ensures forall i :: 0 <= i < |r.tracks| ==> r.tracks[i].Parked()
  {
    Move(s.(current := j))
  }

  /**
   * After a track change: resume from the start when the transport was
   * playing before the change, pause otherwise.
   */
  function Resume(s: State, before: PlayerStatus.Type): (r: State)
    requires Valid(s) && IsOpened(s)
    ensures Valid(r) && r.current == s.current
    ensures r.status == (if before == PlayerStatus.Play then PlayerStatus.Play else PlayerStatus.Pause)
    ensures OnlyActiveChanged(s, r)
    ensures Active(r) == (if before == PlayerStatus.Play then Active(s).(pos := 0, playing := true)
                          else Active(s).(playing := false))
  {
    if before == PlayerStatus.Play then PlayFromBegin(s).0 else Pause(s).0
  }

  // ---------------------------------------------------------------------
  // Track movement

  /**
   * The track change shared by `next()` and `previous()`: stop the active
   * track, make track `j` active, then play it from its start if the
   * player was playing and pause on it otherwise.
   */
  function ChangeTrack(s: State, j: int): (r: State)
    requires Valid(s) && IsOpened(s) && 0 <= j < |s.tracks|
    ensures Valid(r) && r.current == j
    ensures r.status == (if s.status == PlayerStatus.Play then PlayerStatus.Play else PlayerStatus.Pause)
    ensures Active(r).pos == 0 && Active(r).playing == (s.status == PlayerStatus.Play)
    ensures |r.tracks| == |s.tracks|
    ensures r.tracks[j] == s.tracks[j].(pos := 0, playing := s.status == PlayerStatus.Play)
    ensures forall i :: 0 <= i < |r.tracks| && i != j ==> r.tracks[i] == s.tracks[i].Stopped()
    ensures r == s.(tracks := r.tracks, current := j, currentHash := s.hashes[j], status := r.status)
  {
    var before := s.status;
    var s1 := Stop(s).0;
    Resume(SwitchTo(s1, j), before)
  }

  /**
   * `next()`.  A single-track list rewinds and then plays (loop on) or
   * pauses (loop off); otherwise the active track is stopped and the next
   * one, wrapping past the end to the first, becomes active.
   */
  function Next(s: State): (r: State)
    requires Valid(s)
    ensures Valid(r)
    ensures !IsOpened(s) ==> r == s
    ensures IsOpened(r) == IsOpened(s) && |r.tracks| == |s.tracks|
    ensures r.paths == s.paths && r.hashes == s.hashes && r.profiles == s.profiles
    ensures r.volume == s.volume && r.loop == s.loop && r.showWave == s.showWave
  {
    if !IsOpened(s) then s
    else if s.current == 0 && |s.tracks| == 1 && s.loop then
      Play(Rewind(s)).0
    else if s.current == 0 && |s.tracks| == 1 && !s.loop then
      Pause(Rewind(s)).0
    else
      var i := s.current + 1;
      ChangeTrack(s, if i == |s.tracks| then 0 else i)
  }

  /**
   * `previous()`.  At one second or more into the track it only rewinds;
   * otherwise the active track is stopped and the previous one, wrapping
   * before the first to the last, becomes active.
   */
  function Previous(s: State): (r: State)
    requires Valid(s)
    ensures Valid(r)
    ensures !IsOpened(s) ==> r == s
    ensures IsOpened(r) == IsOpened(s) && |r.tracks| == |s.tracks|
    ensures r.paths == s.paths && r.hashes == s.hashes && r.profiles == s.profiles
    ensures r.volume == s.volume && r.loop == s.loop && r.showWave == s.showWave
  {
    if !IsOpened(s) then s
    else if Active(s).PosSec() >= 1.0 then
      Rewind(s)
    else
      var i := s.current - 1;
      ChangeTrack(s, if i == -1 then |s.tracks| - 1 else i)
  }

  /**
   * `playing()`: whether the player is playing.  Polling is also what
   * drives auto-advance: when the status is Play but the active handle has
   * finished, the player moves on with `Next` before answering.
   */
  function Playing(s: State): (r: (State, bool))
    requires Valid(s)
    ensures Valid(r.0)
    ensures !IsOpened(s) ==> r == (s, false)
    ensures r.1 <==> IsOpened(s) && r.0.status == PlayerStatus.Play
    ensures IsOpened(s) && s.status == PlayerStatus.Play && !Active(s).playing ==> r.0 == Next(s)
    ensures !(s.status == PlayerStatus.Play && IsOpened(s) && !Active(s).playing) ==> r.0 == s
  {
    if !IsOpened(s) then (s, false)
    else
      var s1 := if s.status == PlayerStatus.Play && !Active(s).playing then Next(s) else s;
      (s1, s1.status == PlayerStatus.Play)
  }

  // ---------------------------------------------------------------------
  // Opening a track

  /** Adds a track (handle, path, hash) at the end of the list. */
  function Append(s: State, h: Handle, path: string, hash: Hash): (r: State)
    ensures |r.tracks| == |s.tracks| + 1 && r.tracks[..|s.tracks|] == s.tracks && r.tracks[|s.tracks|] == h
    ensures r.paths == s.paths + [path] && r.hashes == s.hashes + [hash]
    ensures r == s.(tracks := r.tracks, paths := r.paths, hashes := r.hashes)
  {
    s.(tracks := s.tracks + [h], paths := s.paths + [path], hashes := s.hashes + [hash])
  }

  /**
   * `open(path)`: append a freshly decoded handle (given the player's volume
   * and loop flag), its path and its content hash; stop the previously
   * active track; make the new track active and play it.
   */
  function Open(s: State, path: string, hash: Hash, samples: nat, rate: nat): (r: State)
    requires Valid(s) && rate > 0
    ensures Valid(r)
    ensures |r.tracks| == |s.tracks| + 1
    ensures r.paths == s.paths + [path] && r.hashes == s.hashes + [hash]
    ensures r.current == |r.tracks| - 1 && r.status == PlayerStatus.Play && r.currentHash == hash
    ensures Active(r) == Handle(0, samples, rate, s.volume, s.loop, true)
    ensures forall i :: 0 <= i < |s.tracks| ==> r.tracks[i] == s.tracks[i].Stopped()
    ensures r.volume == s.volume && r.loop == s.loop && r.showWave == s.showWave
    ensures r.profiles == s.profiles
  {
    Play(Admit(s, Loaded(samples, rate).WithVolume(s.volume).WithLoop(s.loop), path, hash)).0
  }

  /**
   * The first part of `open`: the new handle is appended, the active track
   * stopped and the new track selected, still stopped.
   */
  function Admit(s: State, h: Handle, path: string, hash: Hash): (r: State)
    requires Valid(s) && h.Valid() && h.Parked() && h.volume == s.volume && h.loop == s.loop
    ensures Valid(r) && IsOpened(r)
    ensures r == s.(tracks := r.tracks, paths := s.paths + [path], hashes := s.hashes + [hash],
                    current := |s.tracks|, currentHash := hash, status := PlayerStatus.Stop)
    ensures |r.tracks| == |s.tracks| + 1 && r.tracks[|s.tracks|] == h
    ensures forall i :: 0 <= i < |s.tracks| ==> r.tracks[i] == s.tracks[i].Stopped()
  {
    var s2 := Stop(Append(s, h, path, hash)).0;
    AppendThenStop(s, h, path, hash);
    var s3 := Move(s2.(current := |s2.tracks| - 1));
    assert Valid(s3);
    s3
  }

  /** Appending a parked handle and stopping leaves every track parked. */
  lemma AppendThenStop(s: State, h: Handle, path: string, hash: Hash)
    requires Valid(s) && h.Valid() && h.Parked() && h.volume == s.volume && h.loop == s.loop
    ensures var s2 := Stop(Append(s, h, path, hash)).0;
            && s2 == s.(tracks := s2.tracks, paths := s.paths + [path], hashes := s.hashes + [hash],
                        status := PlayerStatus.Stop)
            && |s2.tracks| == |s.tracks| + 1 && s2.tracks[|s.tracks|] == h
            && (forall i :: 0 <= i < |s.tracks| ==> s2.tracks[i] == s.tracks[i].Stopped())
            && (forall i :: 0 <= i < |s2.tracks| ==>
                  s2.tracks[i].Parked() && s2.tracks[i].Valid()
                  && s2.tracks[i].volume == s.volume && s2.tracks[i].loop == s.loop)
  {
    var s1 := Append(s, h, path, hash);
    var s2 := Stop(s1).0;
    if IsOpened(s) {
      assert s2.tracks == s1.tracks[s.current := s1.tracks[s.current].Stopped()];
    } else {
      assert s2 == s1 && |s.tracks| == 0;
    }
  }

  // ---------------------------------------------------------------------
  // Seeking, volume and loop

  /** The sample a seek to fraction `f` of a track of `samples` samples targets. */
  function SeekTarget(f: real, samples: nat): (n: nat)
    requires 0.0 <= f <= 1.0
    ensures n <= samples
    ensures n as real <= f * samples as real < n as real + 1.0
  {
    assert 0.0 <= f * samples as real <= samples as real;
    (f * samples as real).Floor
  }

  /**
   * `seekTo(f)`: fails unless a track is open and 0 <= f <= 1; otherwise
   * moves the active handle to the fraction `f` of its length.
   */
  function SeekTo(s: State, f: real): (r: (State, bool))
    requires Valid(s)
    ensures Valid(r.0)
    ensures r.1 <==> IsOpened(s) && 0.0 <= f <= 1.0
    ensures !r.1 ==> r.0 == s
    ensures r.1 ==> OnlyActiveChanged(s, r.0) && r.0.status == s.status
                    && Active(r.0) == Active(s).(pos := SeekTarget(f, Active(s).samples))
  {
    if !IsOpened(s) then (s, false)
    else if f < 0.0 || f > 1.0 then (s, false)
    else (WithActive(s, Active(s).WithPosSample(SeekTarget(f, Active(s).samples))), true)
  }

  function VolumeAll(ts: seq<Handle>, v: real): (r: seq<Handle>)
    ensures |r| == |ts|
    ensures forall i :: 0 <= i < |ts| ==> r[i] == ts[i].(volume := v)
  {
    seq(|ts|, i requires 0 <= i < |ts| => ts[i].WithVolume(v))
  }

  function LoopAll(ts: seq<Handle>, e: bool): (r: seq<Handle>)
    ensures |r| == |ts|
    ensures forall i :: 0 <= i < |ts| ==> r[i] == ts[i].(loop := e, pos := 0)
  {
    seq(|ts|, i requires 0 <= i < |ts| => ts[i].WithLoop(e))
  }

  /**
   * `changeVolumeTo(v)`: fails for v outside [0, 1]; otherwise sets the
   * volume and gives it to every handle, active or not.  It does not
   * require an open track.
   */
  function ChangeVolumeTo(s: State, v: real): (r: (State, bool))
    requires Valid(s)
    ensures Valid(r.0)
    ensures r.1 <==> 0.0 <= v <= 1.0
    ensures !r.1 ==> r.0 == s
    ensures r.1 ==> r.0 == s.(volume := v, tracks := r.0.tracks)
    ensures r.1 ==> |r.0.tracks| == |s.tracks| &&
                    forall i :: 0 <= i < |s.tracks| ==> r.0.tracks[i] == s.tracks[i].(volume := v)
  {
    if v < 0.0 || v > 1.0 then (s, false)
    else
      var s1 := s.(volume := v);
      (s1.(tracks := VolumeAll(s1.tracks, s1.volume)), true)
  }

  /**
   * `setLoop(e)`: nothing when the flag is already `e`.  Otherwise the flag
   * changes (even with nothing open); with a track open the active handle
   * is paused, every handle gets the flag, and when the player is playing
   * the active handle is put back at the sample it was at and played.
   */
  function SetLoop(s: State, e: bool): (r: State)
    requires Valid(s)
    ensures Valid(r)
    ensures e == s.loop ==> r == s
    ensures r.loop == e
    ensures r == s.(loop := e, tracks := r.tracks)
    ensures |r.tracks| == |s.tracks|
    ensures e != s.loop ==> forall i :: 0 <= i < |s.tracks| && i != s.current ==>
              r.tracks[i] == s.tracks[i].(loop := e)
    ensures e != s.loop && IsOpened(s) ==>
              Active(r) == Active(s).(loop := e, playing := s.status == PlayerStatus.Play,
                                      pos := if s.status == PlayerStatus.Play then Active(s).pos else 0)
  {
    if e == s.loop then s
    else
      var s0 := s.(loop := e);
      if !IsOpened(s0) then s0
      else
        var s1 := WithActive(s0, Active(s0).Paused());
        var playSamples := Active(s1).pos;
        var s2 := s1.(tracks := LoopAll(s1.tracks, s1.loop));
        if s2.status == PlayerStatus.Play then
          WithActive(s2, Active(s2).WithPosSample(playSamples).Played())
        else s2
  }

  // ---------------------------------------------------------------------
  // Profiles

  /** The profile stored under `h`, or the empty record a lookup creates. */
  function ProfileAt(m: map<Hash, Profile>, h: Hash): (p: Profile)
    ensures h in m ==> p == m[h]
    ensures h !in m ==> p == EmptyProfile
  {
    if h in m then m[h] else EmptyProfile
  }

  /**
   * `getTitle()`: "" with nothing open; the stored title of the active
   * track's hash when there is a non-empty one; else the base name of the
   * active track's path.
   */
  function Title(s: State): (t: string)
    requires Valid(s)
    ensures !IsOpened(s) ==> t == ""
    ensures IsOpened(s) && s.currentHash in s.profiles && |s.profiles[s.currentHash].title| > 0 ==>
              t == s.profiles[s.currentHash].title
    ensures IsOpened(s) && t != BaseName(s.paths[s.current]) ==>
              s.currentHash in s.profiles && |t| > 0 && t == s.profiles[s.currentHash].title
  {
    if !IsOpened(s) then ""
    else if s.currentHash !in s.profiles then BaseName(s.paths[s.current])
    else if |s.profiles[s.currentHash].title| > 0 then s.profiles[s.currentHash].title
    else BaseName(s.paths[s.current])
  }

  /**
   * `editTitle(t)`: sets the title stored under the cached hash, creating
   * the record when absent.  There is no check that a track is open.
   */
  function EditTitle(s: State, t: string): (r: State)
    requires Valid(s)
    ensures Valid(r)
    ensures r == s.(profiles := r.profiles)
    ensures r.profiles.Keys == s.profiles.Keys + {s.currentHash}
    ensures r.profiles[s.currentHash] == ProfileAt(s.profiles, s.currentHash).(title := t)
    ensures forall h :: h in s.profiles && h != s.currentHash ==> r.profiles[h] == s.profiles[h]
  {
    s.(profiles := s.profiles[s.currentHash := ProfileAt(s.profiles, s.currentHash).(title := t)])
  }

  // ---------------------------------------------------------------------
  // Position and time queries (all 0 with nothing open)

  /** `getPlayPosSample()`. */
  function PlayPosSample(s: State): (n: nat)
    requires Valid(s)
    ensures !IsOpened(s) ==> n == 0
    ensures IsOpened(s) ==> n == Active(s).pos && n <= Active(s).samples
  {
    if !IsOpened(s) then 0 else Active(s).pos
  }

  /** Whole seconds played: the position in seconds truncated to an integer. */
  function PlayPosSec(s: State): (n: int)
    requires Valid(s)
    ensures !IsOpened(s) ==> n == 0
    ensures IsOpened(s) ==> 0 <= n && n as real <= Active(s).PosSec() < n as real + 1.0
  {
    if !IsOpened(s) then 0 else Active(s).PosSec().Floor
  }

  /** The whole minutes of `n` seconds bracket `n` within a minute. */
  lemma WholeMinutes(n: int)
    requires n >= 0
    ensures 0 <= n / 60 && (n / 60) * 60 <= n < (n / 60) * 60 + 60
  {
  }

  /** The same for a real number of seconds, through its whole part. */
  lemma WholeMinutesOf(x: real)
    requires x >= 0.0
    ensures var m := x.Floor / 60;
            0 <= m && (m * 60) as real <= x < (m * 60 + 60) as real
  {
    var n := x.Floor;
    WholeMinutes(n);
    assert n as real <= x < n as real + 1.0;
  }

  /** The whole minutes of the position. */
  function PlayPosTimeMin(s: State): (m: int)
    requires Valid(s)
    ensures 0 <= m && m * 60 <= PlayPosSec(s) < m * 60 + 60
  {
    if !IsOpened(s) then 0
    else
      var n := Active(s).PosSec().Floor;
      WholeMinutes(n);
      n / 60
  }

  /** The seconds left over after the whole minutes of the position. */
  function PlayPosTimeSec(s: State): (sec: int)
    requires Valid(s)
    ensures 0 <= sec < 60 && PlayPosTimeMin(s) * 60 + sec == PlayPosSec(s)
  {
    if !IsOpened(s) then 0 else Active(s).PosSec().Floor % 60
  }

  /** The whole minutes of the track's length. */
  function TotalTimeMin(s: State): (m: int)
    requires Valid(s)
    ensures !IsOpened(s) ==> m == 0
    ensures IsOpened(s) ==> 0 <= m && (m * 60) as real <= Active(s).LengthSec() < (m * 60 + 60) as real
  {
    if !IsOpened(s) then 0
    else
      var x := Active(s).LengthSec();
      WholeMinutesOf(x);
      x.Floor / 60
  }

  /** The whole seconds of the track's length left over after its whole minutes. */
  function TotalTimeSec(s: State): (sec: int)
    requires Valid(s)
    ensures 0 <= sec < 60
    ensures !IsOpened(s) ==> sec == 0
    ensures IsOpened(s) ==> (TotalTimeMin(s) * 60 + sec) as real <= Active(s).LengthSec()
                                              < (TotalTimeMin(s) * 60 + sec) as real + 1.0
  {
    if !IsOpened(s) then 0 else Active(s).LengthSec().Floor % 60
  }

  /**
   * `getPlayPosNorm()`: position over length.  For a track of no samples
   * the division has no value (the source gets NaN), shown as `Undefined`.
   */
  datatype Ratio = Undefined | Fraction(value: real)

  function PlayPosNorm(s: State): (q: Ratio)
    requires Valid(s)
    ensures !IsOpened(s) ==> q == Fraction(0.0)
    ensures q.Fraction? ==> 0.0 <= q.value <= 1.0
    ensures q.Undefined? <==> IsOpened(s) && Active(s).samples == 0
    ensures IsOpened(s) && q.Fraction? ==> q.value * Active(s).samples as real == Active(s).pos as real
  {
    if !IsOpened(s) then Fraction(0.0)
    else if Active(s).samples == 0 then Undefined
    else
      var h := Active(s);
      assert h.pos as real <= h.samples as real;
      Fraction(h.pos as real / h.samples as real)
  }
}
