/**
 * The player object.  Its fields are those of the player: the list of
 * owned audio handles and the parallel lists of their paths and content
 * hashes, the active index (-1 = nothing opened), the cached hash of the
 * active track, the transport status, volume, loop and show-wave flags and
 * the profile store.  The ghost field `tracks` mirrors the handles' states.
 *
 * Every method is proved against the function of the same name in module
 * Playback: `Abs()` after the call is that function applied to `Abs()`
 * before it.  The queries are methods that change nothing.
 */
module Controller {
  import opened AudioHandle
  import opened Paths
  import opened Playback
  import PlayerStatus

  class Player {
    var audioFiles: seq<Audio>
    var audioFilesPath: seq<string>
    var trackHashes: seq<Hash>
    var currentTrack: int
    var currentTrackHash: Hash
    var status: PlayerStatus.Type
    var volume: real
    var loop: bool
    var showWave: bool
    var audioFilesProfile: map<Hash, Profile>
    ghost var tracks: seq<Handle>

    /** The player's state as a value. */
    ghost function Abs(): State
      reads this
    {
      State(tracks, audioFilesPath, trackHashes, currentTrack, currentTrackHash,
            status, volume, loop, showWave, audioFilesProfile)
    }

    /** No handle is owned twice. */
    ghost predicate Distinct()
      reads this
    {
      forall i, j :: 0 <= i < j < |audioFiles| ==> audioFiles[i] != audioFiles[j]
    }

    /** The handle objects are what `tracks` says they are. */
    ghost predicate Coupled()
      reads this, audioFiles
    {
      && |audioFiles| == |tracks|
      && Distinct()
      && (forall i :: 0 <= i < |audioFiles| ==> audioFiles[i].View() == tracks[i])
      && InRange(Abs())
    }

    ghost predicate Valid()
      reads this, audioFiles
    {
      Coupled() && Playback.Valid(Abs())
    }

    /** Something is opened; in a valid player, exactly when it holds a track. */
    predicate IsOpened()
      reads this
      ensures IsOpened() <==> Playback.IsOpened(Abs())
      ensures Playback.Valid(Abs()) ==> (IsOpened() <==> |audioFilesPath| > 0)
    {
      currentTrack != -1
    }

    /**
     * A new player with nothing opened.  The settings take their defaults
     * (no settings file); `store` is the profile store read at start-up.
     */
    constructor (store: map<Hash, Profile>)
      ensures Valid() && Abs() == Initial(store)
    {
      audioFiles := [];
      audioFilesPath := [];
      trackHashes := [];
      tracks := [];
      currentTrack := -1;
      currentTrackHash := 0;
      status := PlayerStatus.Stop;
      volume := 1.0;
      showWave := true;
      loop := false;
      audioFilesProfile := store;
    }

    // -------------------------------------------------------------------
    // Guarded transport

    method Play() returns (ok: bool)
      requires Coupled()
      modifies this, audioFiles
      ensures Coupled() && audioFiles == old(audioFiles)
      ensures (Abs(), ok) == Playback.Play(old(Abs()))
    {
      if !IsOpened() {
        return false;
      }
      status := PlayerStatus.Play;
      audioFiles[currentTrack].Play();
      tracks := tracks[currentTrack := audioFiles[currentTrack].View()];
      return true;
    }

    method PlayFromBegin() returns (ok: bool)
      requires Coupled()
      modifies this, audioFiles
      ensures Coupled() && audioFiles == old(audioFiles)
      ensures (Abs(), ok) == Playback.PlayFromBegin(old(Abs()))
    {
      if !IsOpened() {
        return false;
      }
      status := PlayerStatus.Play;
      audioFiles[currentTrack].SetPosSample(0);
      audioFiles[currentTrack].Play();
      tracks := tracks[currentTrack := audioFiles[currentTrack].View()];
      return true;
    }

    method Pause() returns (ok: bool)
      requires Coupled()
      modifies this, audioFiles
      ensures Coupled() && audioFiles == old(audioFiles)
      ensures (Abs(), ok) == Playback.Pause(old(Abs()))
    {
      if !IsOpened() {
        return false;
      }
      status := PlayerStatus.Pause;
      audioFiles[currentTrack].Pause();
      tracks := tracks[currentTrack := audioFiles[currentTrack].View()];
      return true;
    }

    method Stop() returns (ok: bool)
      requires Coupled()
      modifies this, audioFiles
      ensures Coupled() && audioFiles == old(audioFiles)
      ensures (Abs(), ok) == Playback.Stop(old(Abs()))
    {
      if !IsOpened() {
        return false;
      }
      status := PlayerStatus.Stop;
      audioFiles[currentTrack].Stop();
      tracks := tracks[currentTrack := audioFiles[currentTrack].View()];
      return true;
    }

    /** Refreshes the cached hash after the active index changed. */
    method Move()
      requires Coupled() && 0 <= currentTrack < |trackHashes|
      modifies this
      ensures Coupled() && audioFiles == old(audioFiles)
      ensures Abs() == Playback.Move(old(Abs()))
    {
      currentTrackHash := trackHashes[currentTrack];
    }

    /** Sets the active handle to 0.0 seconds. */
    method RewindActive()
      requires Valid() && IsOpened()
      modifies audioFiles, this`tracks
      ensures Valid() && audioFiles == old(audioFiles)
      ensures Abs() == Rewind(old(Abs()))
    {
      audioFiles[currentTrack].SetPosSec(0.0);
      tracks := tracks[currentTrack := audioFiles[currentTrack].View()];
    }

    // -------------------------------------------------------------------
    // Track movement

    /** Stops the active track, makes track `j` active and resumes as before. */
    method ChangeTrack(j: int)
      requires Valid() && IsOpened() && 0 <= j < |audioFiles|
      modifies this, audioFiles
      ensures Valid() && audioFiles == old(audioFiles)
      ensures Abs() == Playback.ChangeTrack(old(Abs()), j)
    {
      var beforeStatus := status;
      var _ := Stop();
      ghost var s1 := Abs();
      currentTrack := j;
      Move();
      assert Abs() == SwitchTo(s1, j);
      ResumeAt(beforeStatus);
    }

    /** After a track change: play from the start if `before` was Play, else pause. */
    method ResumeAt(before: PlayerStatus.Type)
      requires Valid() && IsOpened()
      modifies this, audioFiles
      ensures Valid() && audioFiles == old(audioFiles)
      ensures Abs() == Resume(old(Abs()), before)
    {
      if before == PlayerStatus.Play {
        var _ := PlayFromBegin();
      } else {
        var _ := Pause();
      }
    }

    method Next()
      requires Valid()
      modifies this, audioFiles
      ensures Valid() && audioFiles == old(audioFiles)
      ensures Abs() == Playback.Next(old(Abs()))
    {
      if !IsOpened() {
        return;
      }
      if currentTrack == 0 && |audioFiles| == 1 && loop {
        RewindActive();
        var _ := Play();
        return;
      } else if currentTrack == 0 && |audioFiles| == 1 && !loop {
        RewindActive();
        var _ := Pause();
        return;
      }
      var j := currentTrack + 1;
      if j == |audioFiles| {
        j := 0;
      }
      ChangeTrack(j);
    }

    method Previous()
      requires Valid()
      modifies this, audioFiles
      ensures Valid() && audioFiles == old(audioFiles)
      ensures Abs() == Playback.Previous(old(Abs()))
    {
      if !IsOpened() {
        return;
      }
      if audioFiles[currentTrack].PosSec() >= 1.0 {
        RewindActive();
        return;
      }
      var j := currentTrack - 1;
      if j == -1 {
        j := |audioFiles| - 1;
      }
      ChangeTrack(j);
    }

    /** Polls for "still playing", advancing when the active track has ended. */
    method Playing() returns (r: bool)
      requires Valid()
      modifies this, audioFiles
      ensures Valid() && audioFiles == old(audioFiles)
      ensures (Abs(), r) == Playback.Playing(old(Abs()))
    {
      if !IsOpened() {
        return false;
      }
      if status == PlayerStatus.Play && !audioFiles[currentTrack].playing {
        Next();
      }
      return status == PlayerStatus.Play;
    }

    // -------------------------------------------------------------------
    // Opening

    /**
     * Opens the track at `path`.  Decoding is outside the model: the caller
     * supplies what decoding yields (length and rate) and the content hash
     * of the file.
     */
    method Open(path: string, hash: Hash, samples: nat, rate: nat)
      requires Valid() && rate > 0
      modifies this, audioFiles
      ensures Valid()
      ensures |audioFiles| == |old(audioFiles)| + 1 && audioFiles[..|old(audioFiles)|] == old(audioFiles)
      ensures fresh(audioFiles[|audioFiles| - 1])
      ensures Abs() == Playback.Open(old(Abs()), path, hash, samples, rate)
    {
      ghost var s0 := Abs();
      ghost var h := Loaded(samples, rate).WithVolume(volume).WithLoop(loop);
      AppendTrack(path, hash, samples, rate);
      ghost var files := audioFiles;
      SelectLast(s0, h, path, hash);
      var _ := Play();
      assert audioFiles == files;
    }

    /** The middle of `open`: stop the active track and make the appended one current. */
    method SelectLast(ghost s0: State, ghost h: Handle, ghost path: string, ghost hash: Hash)
      requires Playback.Valid(s0) && h.Valid() && h.Parked() && h.volume == s0.volume && h.loop == s0.loop
      requires Coupled() && Abs() == Append(s0, h, path, hash)
      modifies this, audioFiles
      ensures Coupled() && audioFiles == old(audioFiles)
      ensures Abs() == Admit(s0, h, path, hash)
    {
      var _ := Stop();
      ghost var s2 := Abs();
      currentTrack := |audioFiles| - 1;
      Move();
      assert Abs() == Playback.Move(s2.(current := |s2.tracks| - 1));
    }

    /** The first half of `open`: a new handle, given the player's volume and loop, joins the list. */
    method AppendTrack(path: string, hash: Hash, samples: nat, rate: nat)
      requires Coupled() && rate > 0
      modifies this
      ensures Coupled()
      ensures |audioFiles| == |old(audioFiles)| + 1 && audioFiles[..|old(audioFiles)|] == old(audioFiles)
      ensures fresh(audioFiles[|audioFiles| - 1])
      ensures Abs() == Append(old(Abs()), Loaded(samples, rate).WithVolume(old(volume)).WithLoop(old(loop)), path, hash)
    {
      ghost var s0 := Abs();
      var a := new Audio(samples, rate);
      a.SetVolume(volume);
      a.SetLoop(loop);
      ghost var files := audioFiles;
      assert forall i :: 0 <= i < |files| ==> files[i] != a;
      audioFiles := audioFiles + [a];
      assert audioFiles[..|files|] == files;
      tracks := tracks + [a.View()];
      audioFilesPath := audioFilesPath + [path];
      trackHashes := trackHashes + [hash];
      assert Abs() == Append(s0, a.View(), path, hash);
      assert Distinct() by {
        forall i, j | 0 <= i < j < |audioFiles|
          ensures audioFiles[i] != audioFiles[j]
        {
          if j < |files| {
            assert audioFiles[i] == files[i] && audioFiles[j] == files[j];
          }
        }
      }
    }

    // -------------------------------------------------------------------
    // Seeking, volume and loop

    method SeekTo(f: real) returns (ok: bool)
      requires Valid()
      modifies this, audioFiles
      ensures Valid() && audioFiles == old(audioFiles)
      ensures (Abs(), ok) == Playback.SeekTo(old(Abs()), f)
    {
      if !IsOpened() {
        return false;
      }
      if f < 0.0 || f > 1.0 {
        return false;
      }
      var a := audioFiles[currentTrack];
      a.SetPosSample(SeekTarget(f, a.samples));
      tracks := tracks[currentTrack := a.View()];
      return true;
    }

    method ChangeVolumeTo(v: real) returns (ok: bool)
      requires Valid()
      modifies this, audioFiles
      ensures Valid() && audioFiles == old(audioFiles)
      ensures (Abs(), ok) == Playback.ChangeVolumeTo(old(Abs()), v)
    {
      if v < 0.0 || v > 1.0 {
        return false;
      }
      volume := v;
      SetVolumeOfAll(volume);
      return true;
    }

    /** Gives every handle, active or not, the volume `v`. */
    method SetVolumeOfAll(v: real)
      requires Coupled()
      modifies audioFiles, this`tracks
      ensures Coupled() && tracks == VolumeAll(old(tracks), v)
    {
      var i := 0;
      while i < |audioFiles|
        modifies audioFiles
        invariant 0 <= i <= |audioFiles|
        invariant forall j :: 0 <= j < i ==> audioFiles[j].View() == tracks[j].WithVolume(v)
        invariant forall j :: i <= j < |audioFiles| ==> audioFiles[j].View() == tracks[j]
      {
        audioFiles[i].SetVolume(v);
        i := i + 1;
      }
      tracks := VolumeAll(tracks, v);
    }

    method SetLoop(e: bool)
      requires Valid()
      modifies this, audioFiles
      ensures Valid() && audioFiles == old(audioFiles)
      ensures Abs() == Playback.SetLoop(old(Abs()), e)
    {
      if e == loop {
        return;
      }
      ghost var s := Abs();
      loop := e;
      if !IsOpened() {
        return;
      }
      PauseActiveHandle();
      var playSamples := audioFiles[currentTrack].pos;
      ghost var s1 := Abs();

      SetLoopOfAll(loop);
      ghost var s2 := Abs();
      assert s2 == s1.(tracks := LoopAll(s1.tracks, e));

      if status == PlayerStatus.Play {
        ReplayActiveHandleAt(playSamples);
      }
      assert Abs() == Playback.SetLoop(s, e);
    }

    /** Pauses the active handle without touching the player's status. */
    method PauseActiveHandle()
      requires Coupled() && IsOpened()
      modifies audioFiles, this`tracks
      ensures Coupled() && Abs() == WithActive(old(Abs()), Active(old(Abs())).Paused())
    {
      audioFiles[currentTrack].Pause();
      tracks := tracks[currentTrack := audioFiles[currentTrack].View()];
    }

    /** Puts the active handle at sample `n` and plays it. */
    method ReplayActiveHandleAt(n: nat)
      requires Coupled() && IsOpened()
      modifies audioFiles, this`tracks
      ensures Coupled() && Abs() == WithActive(old(Abs()), Active(old(Abs())).WithPosSample(n).Played())
    {
      audioFiles[currentTrack].SetPosSample(n);
      audioFiles[currentTrack].Play();
      tracks := tracks[currentTrack := audioFiles[currentTrack].View()];
    }

    /** Gives every handle, active or not, the loop flag `e`. */
    method SetLoopOfAll(e: bool)
      requires Coupled()
      modifies audioFiles, this`tracks
      ensures Coupled() && tracks == LoopAll(old(tracks), e)
    {
      var i := 0;
      while i < |audioFiles|
        modifies audioFiles
        invariant 0 <= i <= |audioFiles|
        invariant forall j :: 0 <= j < i ==> audioFiles[j].View() == tracks[j].WithLoop(e)
        invariant forall j :: i <= j < |audioFiles| ==> audioFiles[j].View() == tracks[j]
      {
        audioFiles[i].SetLoop(e);
        i := i + 1;
      }
      tracks := LoopAll(tracks, e);
    }

    // -------------------------------------------------------------------
    // Profiles

    method GetTitle() returns (t: string)
      requires Valid()
      ensures t == Title(Abs())
    {
      if !IsOpened() {
        return "";
      }
      if currentTrackHash !in audioFilesProfile {
        return BaseName(audioFilesPath[currentTrack]);
      }
      if |audioFilesProfile[currentTrackHash].title| > 0 {
        return audioFilesProfile[currentTrackHash].title;
      }
      return BaseName(audioFilesPath[currentTrack]);
    }

    /** Sets the title under the cached hash; writing the store to disk is not modelled. */
    method EditTitle(t: string)
      requires Valid()
      modifies this
      ensures Valid() && audioFiles == old(audioFiles)
      ensures Abs() == Playback.EditTitle(old(Abs()), t)
    {
      audioFilesProfile := audioFilesProfile[currentTrackHash := ProfileAt(audioFilesProfile, currentTrackHash).(title := t)];
    }

    // -------------------------------------------------------------------
    // Position and time queries

    method GetPlayPosSample() returns (n: nat)
      requires Valid()
      ensures n == PlayPosSample(Abs())
    {
      if !IsOpened() {
        return 0;
      }
      return audioFiles[currentTrack].pos;
    }

    method GetPlayPosSec() returns (n: int)
      requires Valid()
      ensures n == PlayPosSec(Abs())
    {
      if !IsOpened() {
        return 0;
      }
      return audioFiles[currentTrack].PosSec().Floor;
    }

    method GetPlayPosTimeMin() returns (m: int)
      requires Valid()
      ensures m == PlayPosTimeMin(Abs())
    {
      if !IsOpened() {
        return 0;
      }
      return audioFiles[currentTrack].PosSec().Floor / 60;
    }

    method GetPlayPosTimeSec() returns (sec: int)
      requires Valid()
      ensures sec == PlayPosTimeSec(Abs())
    {
      if !IsOpened() {
        return 0;
      }
      return audioFiles[currentTrack].PosSec().Floor % 60;
    }

    method GetPlayPosNorm() returns (q: Ratio)
      requires Valid()
      ensures q == PlayPosNorm(Abs())
    {
      if !IsOpened() {
        return Fraction(0.0);
      }
      var a := audioFiles[currentTrack];
      if a.samples == 0 {
        return Undefined;
      }
      return Fraction(a.pos as real / a.samples as real);
    }

    method GetTotalTimeMin() returns (m: int)
      requires Valid()
      ensures m == TotalTimeMin(Abs())
    {
      if !IsOpened() {
        return 0;
      }
      return audioFiles[currentTrack].LengthSec().Floor / 60;
    }

    method GetTotalTimeSec() returns (sec: int)
      requires Valid()
      ensures sec == TotalTimeSec(Abs())
    {
      if !IsOpened() {
        return 0;
      }
      return audioFiles[currentTrack].LengthSec().Floor % 60;
    }

    // -------------------------------------------------------------------
    // Settings accessors

    /** The volume, which the range check of `ChangeVolumeTo` keeps in [0, 1]. */
    method GetVolume() returns (v: real)
      requires Valid()
      ensures v == Abs().volume && 0.0 <= v <= 1.0
    {
      return volume;
    }

    method IsShowWaveEnabled() returns (e: bool)
      requires Valid()
      ensures e == Abs().showWave
    {
      return showWave;
    }

    /** The show-wave flag changes and nothing else. */
    method SetShowWave(e: bool)
      requires Valid()
      modifies this
      ensures Valid() && audioFiles == old(audioFiles)
      ensures Abs() == old(Abs()).(showWave := e)
    {
      showWave := e;
    }

    method IsLoopEnabled() returns (e: bool)
      requires Valid()
      ensures e == Abs().loop
    {
      return loop;
    }
  }
}
