# Albus-Box player, modelled in Dafny

Albus-Box is a desktop music player. Its core is the `Player` controller
(`src/Player.cpp`), a small state machine over a playlist. The player keeps
two parallel lists: the owned audio handles and their file paths. It
recomputes the active track's content hash from its file on every `move`.
The model keeps a third parallel list, one content hash per track, fixed when
the track is opened. `move` then reads the active track's entry from it, so
the file contents are treated as unchanging while the player runs.

The controller also holds:
- the active index, where -1 means nothing has been opened;
- the transport status (Stop, Play or Pause);
- the volume;
- the loop and show-wave flags;
- the cached hash of the active track;
- a profile store mapping content hashes to a title, an artist name and a
  thumbnail path.

All transport operations are guarded by "is something opened". `next` and
`previous` walk the playlist as a ring. They handle two special cases: a
single-track list, and a "restart the track when at least one second in"
rule. Polling `playing()` advances to the next track when the active one has
finished. The volume and seek setters reject values outside [0, 1]. Toggling
loop hands the flag to every handle; while playing, the player puts the
active handle back at the sample it had reached, since the handles' own loop
change rewinds them. A track's
title comes from its profile, falling back to the file's base name.

The project has six files:

- `AudioHandle.dfy` has the audio handle the player drives. `Handle` is a
  value view of it: sample position, length in samples, sample rate, volume,
  loop flag, and whether it is sounding. `Audio` is the mutable object whose
  methods are stated against the `Handle` functions.
- `PlayerStatus.dfy` has the transport status.
- `Paths.dfy` has the file-name and base-name helpers the title fallback uses.
- `Playback.dfy` models the controller as functions over a `State` value.
  There is one function per player operation, written as the same sequence of
  steps the player performs. Alongside them is the invariant `Valid`, which
  every operation keeps:
  - the handle, path and hash lists have equal lengths;
  - the index is -1 exactly when the list is empty, and then the player is
    stopped;
  - the cached hash is the active track's hash;
  - the active handle sounds only in Play;
  - every handle has the player's volume and loop flag;
  - every inactive handle is stopped at its start;
  - the volume lies in [0, 1].
- `Controller.dfy` has the `Player` class with the player's own fields. Each
  method is imperative: it assigns fields, calls the handles' methods, and
  loops over the handles for the volume and loop changes. Each method proves
  that its new abstract state is the matching `Playback` function applied to
  the old state.
- `Properties.dfy` has lemmas that relate several operations.

## Model

| member | source | states |
|---|---|---|
| Controller.Player.constructor | src/Player.cpp:10-20 | a new player has nothing opened, is stopped, has the default settings and holds the given profile store; the invariant holds |
| Playback.Initial | src/Player.cpp:388-394 | with no settings file the volume is 1.0, the wave is shown and loop is off; the player is stopped with nothing opened and the invariant holds |
| Controller.Player.Play | src/Player.cpp:35-44 | the answer and the new state are those of `Playback.Play`; the handle list is the same |
| Playback.Play | src/Player.cpp:35-44 | with nothing opened: answers false and changes nothing; otherwise: answers true, the status becomes Play, the active handle sounds from where it was and nothing else changes; the invariant is kept |
| Controller.Player.PlayFromBegin | src/Player.cpp:46-56 | the answer and the new state are those of `Playback.PlayFromBegin` |
| Playback.PlayFromBegin | src/Player.cpp:46-56 | with nothing opened: false and no change; otherwise: status Play and the active handle sounds from sample 0; only the active handle changes; the invariant is kept |
| Controller.Player.Pause | src/Player.cpp:70-79 | the answer and the new state are those of `Playback.Pause` |
| Playback.Pause | src/Player.cpp:70-79 | with nothing opened: false and no change; otherwise: status Pause, the active handle is silent at the same position and only it changes; the invariant is kept |
| Controller.Player.Stop | src/Player.cpp:81-90 | the answer and the new state are those of `Playback.Stop` |
| Playback.Stop | src/Player.cpp:81-90 | with nothing opened: false and no change; otherwise: status Stop, the active handle is silent at sample 0 and only it changes; the invariant is kept |
| PlaybackProperties.PauseThenPlay | src/Player.cpp:35-79 | pausing and then playing gives the same answer and state as playing directly (the position is kept) |
| PlaybackProperties.StopThenPlay | src/Player.cpp:35-90 | stopping and then playing gives the same answer and state as `playFromBegin` |
| Controller.Player.Playing | src/Player.cpp:58-68 | the answer and the new state are those of `Playback.Playing` |
| Playback.Playing | src/Player.cpp:58-68 | with nothing opened: false and no change; when the status is Play but the active handle has finished, the new state is that of `next`; otherwise nothing changes; the answer is "opened and status Play" afterwards |
| PlaybackProperties.PollAfterFinish | src/Player.cpp:58-68 | a poll that finds the playing track finished moves to index (i+1) mod n at sample 0; it keeps playing when there are two or more tracks or loop is on, and answers false otherwise |
| PlaybackProperties.PollIdempotent | src/Player.cpp:58-68 | polling twice gives the same answer and state as polling once |
| Controller.Player.Previous | src/Player.cpp:92-123 | the new state is that of `Playback.Previous`; the handle list is the same |
| Playback.Previous | src/Player.cpp:92-123 | with nothing opened, no change; otherwise the invariant is kept, something stays opened, the list length is the same, and paths, hashes, profiles, volume, loop and show-wave are unchanged |
| PlaybackProperties.PreviousRestarts | src/Player.cpp:97-101 | at one second or more into the track, `previous` only sets the active handle to sample 0; the index, status and everything else stay |
| PlaybackProperties.PreviousRetreats | src/Player.cpp:103-122 | under one second in, the index becomes (i-1+n) mod n; the new active track is the old one at that index moved to sample 0 and sounding exactly when the status was Play, otherwise unchanged; the status is Play if it was Play and Pause otherwise (Stop also becomes Pause); every other track is the old one stopped, so only the old active track changes among them |
| Controller.Player.Next | src/Player.cpp:125-160 | the new state is that of `Playback.Next`; the handle list is the same |
| Playback.Next | src/Player.cpp:125-160 | with nothing opened, no change; otherwise the invariant is kept, something stays opened, the list length is the same, and paths, hashes, profiles, volume, loop and show-wave are unchanged |
| PlaybackProperties.NextAdvances | src/Player.cpp:141-159 | with two or more tracks the index becomes (i+1) mod n; the new active track is the old one at that index moved to sample 0 and sounding exactly when the status was Play, otherwise unchanged; the status is Play if it was Play and Pause otherwise; every other track is the old one stopped, so only the old active track changes among them |
| PlaybackProperties.NextSingleTrack | src/Player.cpp:130-139 | with a single track, `next` keeps index 0 and rewinds to sample 0; the player ends in Play and sounding with loop on, and in Pause and silent with loop off |
| PlaybackProperties.NextN | src/Player.cpp:125-160 | pressing `next` k times keeps the invariant, the list length, the loop flag and whether something is opened |
| PlaybackProperties.NextNSingleTrack | src/Player.cpp:130-139 | on a single track, any positive number of `next` presses leaves index 0 at sample 0, in Play and sounding with loop on, and in Pause and silent with loop off |
| PlaybackProperties.PreviousUndoesNext | src/Player.cpp:92-160 | with two or more tracks, `previous` right after `next` returns to the original index at sample 0; the status is Play if it was Play and Pause otherwise |
| PlaybackProperties.NextUndoesPrevious | src/Player.cpp:92-160 | with two or more tracks and under one second in, `next` right after `previous` returns to the original index with the same status rule |
| Playback.ChangeTrack | src/Player.cpp:105-122 | the track change shared by `next` and `previous` keeps the invariant and makes track j active; track j is the old track j moved to sample 0 and sounding exactly when the status was Play, with its length, rate, volume and loop unchanged; the status is Play if it was Play and Pause otherwise; every other track is the old one stopped; the cached hash is track j's; nothing else changes |
| Controller.Player.ChangeTrack | src/Player.cpp:141-159 | the new state is `Playback.ChangeTrack` of the old one |
| Playback.SwitchTo | src/Player.cpp:109-114 | once the active track is stopped, making track j active keeps the invariant and leaves every track stopped at its start |
| Playback.Resume | src/Player.cpp:116-122 | after a change, the player is in Play if it was playing before and in Pause otherwise; in Play the active handle is rewound to sample 0 and sounds, in Pause it is silenced where it is; only the status and the active handle change, and the invariant is kept |
| Controller.Player.ResumeAt | src/Player.cpp:116-122 | the new state is `Playback.Resume` of the old one |
| Controller.Player.RewindActive | src/Player.cpp:98-99 | the new state is `Playback.Rewind` of the old one |
| Playback.Rewind | src/Player.cpp:98-99 | setting the active handle to 0.0 seconds puts it at sample 0, changes nothing else and keeps the invariant |
| Controller.Player.Move | src/Player.cpp:162-170 | the new state is `Playback.Move` of the old one |
| Playback.Move | src/Player.cpp:162-170 | the cached hash becomes the active track's hash; nothing else changes |
| Controller.Player.Open | src/Player.cpp:22-33 | the new state is `Playback.Open` of the old one; the old handles keep their places and the new last handle is a fresh object |
| Playback.Open | src/Player.cpp:22-33 | exactly one handle, one path and one hash are appended, so the lists keep equal lengths; the new track is active, has the player's volume and loop flag, and sounds from sample 0 in Play; the cached hash is the new one; every older track is stopped; the settings and profiles are unchanged; the invariant is kept |
| Playback.Admit | src/Player.cpp:23-31 | appending a stopped handle, stopping the active track and selecting the new last track keeps the invariant and leaves the player stopped |
| Playback.Append | src/Player.cpp:23-26 | the handle list grows by one, keeping the old handles in their places and ending with the new one; the path and hash lists grow by the new path and hash; nothing else changes |
| Controller.Player.AppendTrack | src/Player.cpp:23-26 | a fresh handle with the player's volume and loop flag is appended with its path and hash; the older handles keep their places |
| Controller.Player.SelectLast | src/Player.cpp:28-30 | the new state is `Playback.Admit` of the state before the append |
| Controller.Player.SeekTo | src/Player.cpp:172-186 | the answer and the new state are those of `Playback.SeekTo` |
| Playback.SeekTo | src/Player.cpp:172-186 | answers true exactly when something is opened and 0 <= f <= 1; on failure nothing changes; on success only the active handle's position changes, to the target sample |
| Playback.SeekTarget | src/Player.cpp:183 | the target sample is f·samples truncated: at most `samples`, at most f·samples, and less than one sample below it |
| PlaybackProperties.SeekThenNorm | src/Player.cpp:172-186 | after a successful seek to f, the normalised position is at most f and less than one sample's fraction below it |
| Controller.Player.ChangeVolumeTo | src/Player.cpp:192-206 | the answer and the new state are those of `Playback.ChangeVolumeTo` |
| Playback.ChangeVolumeTo | src/Player.cpp:192-206 | answers true exactly when 0 <= v <= 1; otherwise nothing changes; on success the volume is v, every handle (not only the active one) has volume v, and nothing else changes |
| Controller.Player.SetVolumeOfAll | src/Player.cpp:200-203 | the loop over the handles gives each handle volume v and changes nothing else |
| Playback.VolumeAll | src/Player.cpp:200-203 | every handle in the list gets volume v and keeps everything else |
| PlaybackProperties.VolumeLastWins | src/Player.cpp:192-206 | changing the volume to v and then to w is the same as changing it to w |
| Controller.Player.GetVolume | src/Player.cpp:188-190 | returns the volume, which lies in [0, 1] |
| Controller.Player.SetLoop | src/Player.cpp:350-372 | the new state is `Playback.SetLoop` of the old one |
| Playback.SetLoop | src/Player.cpp:350-372 | no change when the flag already has value e; otherwise the flag becomes e even with nothing opened, and every handle gets loop e; the active handle sounds exactly when the status is Play, keeps its sample position in Play (restored after the handles' loop change) and is left at sample 0 otherwise; the inactive handles stay at their start; nothing else changes; the invariant is kept |
| Controller.Player.PauseActiveHandle | src/Player.cpp:359 | the active handle is paused and nothing else changes |
| Controller.Player.SetLoopOfAll | src/Player.cpp:363-365 | the loop over the handles gives each handle loop e, which rewinds it to sample 0, and changes nothing else |
| Playback.LoopAll | src/Player.cpp:363-365 | every handle in the list gets loop e and is rewound to sample 0; everything else is kept |
| Controller.Player.ReplayActiveHandleAt | src/Player.cpp:369-370 | the active handle is put back at the saved sample and played; nothing else changes |
| PlaybackProperties.LoopToggleRestores | src/Player.cpp:350-372 | toggling loop and toggling it back restores the state exactly when the player is in Play (unless its track had already finished); outside Play it restores everything except the active track's position, which comes back at sample 0 |
| PlaybackProperties.LoopToggleKeepsPosition | src/Player.cpp:359-371 | while playing, a loop toggle leaves the active track at the sample it had reached, which rests on the save at line 361 and the restore at line 369; after an actual change it is sounding with the new flag |
| Controller.Player.IsLoopEnabled | src/Player.cpp:346-348 | returns the loop flag |
| Controller.Player.IsShowWaveEnabled | src/Player.cpp:338-340 | returns the show-wave flag |
| Controller.Player.SetShowWave | src/Player.cpp:342-344 | the show-wave flag changes and nothing else |
| Controller.Player.GetTitle | src/Player.cpp:208-225 | returns `Playback.Title` of the state |
| Playback.Title | src/Player.cpp:208-225 | "" with nothing opened; the stored title when the active track's hash has a profile with a non-empty title; any other answer is the base name of the active track's path |
| Controller.Player.EditTitle | src/Player.cpp:227-233 | the new state is `Playback.EditTitle` of the old one |
| Playback.EditTitle | src/Player.cpp:227-233 | only the profile store changes: the cached hash gains an entry, created empty when missing, whose title is t; every other entry is unchanged; no check that a track is opened |
| PlaybackProperties.TitleAfterEdit | src/Player.cpp:208-233 | after `editTitle(t)` with a track opened, the title is t when t is non-empty and the file's base name when t is empty |
| PlaybackProperties.TitleOfNewTrack | src/Player.cpp:208-216 | a newly opened track whose content hash has no profile shows its file's base name |
| Paths.BaseName | src/Player.cpp:215 | the base name has no separator and is the part of the last path component before its last '.': a prefix of the component, the whole component exactly when it has no '.', and otherwise followed in it by a '.' after which no '.' occurs |
| Paths.FileName | src/Player.cpp:215 | the last path component is a suffix of the path with no separator, preceded by a separator whenever it is not the whole path |
| Paths.LastDot | src/Player.cpp:215 | the index of the last '.' in the name, or -1 when there is none |
| Paths.StripExtension | src/Player.cpp:215 | the part of the name before its last '.': a prefix of the name, the whole name exactly when it has no '.', and otherwise followed by a '.' after which the name has no further '.' |
| Controller.Player.GetPlayPosSample | src/Player.cpp:317-322 | returns `Playback.PlayPosSample` of the state |
| Playback.PlayPosSample | src/Player.cpp:317-322 | 0 with nothing opened; otherwise the active handle's sample position, which never exceeds the track's length |
| Playback.IsOpened | src/Player.cpp:381-386 | in a valid state, something is opened exactly when the playlist is non-empty |
| Controller.Player.IsOpened | src/Player.cpp:381-386 | agrees with `Playback.IsOpened` of the state; in a valid state, true exactly when the player holds at least one path |
| Playback.PlayPosSec | src/Player.cpp:289-294 | 0 with nothing opened; otherwise the non-negative whole number of seconds n with n <= position in seconds < n + 1 |
| Playback.PlayPosTimeMin | src/Player.cpp:296-301 | the non-negative whole minutes m of the position: m·60 <= whole seconds played < m·60 + 60 |
| Playback.PlayPosTimeSec | src/Player.cpp:303-308 | the leftover seconds lie in [0, 60) and, added to the minutes times 60, give the whole seconds played |
| Playback.TotalTimeMin | src/Player.cpp:324-329 | 0 with nothing opened; otherwise the non-negative whole minutes m of the length: m·60 <= length in seconds < m·60 + 60 |
| Playback.TotalTimeSec | src/Player.cpp:331-336 | 0 with nothing opened; the leftover seconds lie in [0, 60); with a track opened, minutes·60 + seconds is the whole number of seconds in the length: at most the length and less than one second below it |
| Controller.Player.GetPlayPosSec | src/Player.cpp:289-294 | returns `Playback.PlayPosSec` of the state |
| PlaybackProperties.PlayPosSecIsQuotient | src/Player.cpp:289-294 | the whole seconds played are the sample position divided by the rate |
| Controller.Player.GetPlayPosTimeMin | src/Player.cpp:296-301 | returns `Playback.PlayPosTimeMin` of the state |
| Controller.Player.GetPlayPosTimeSec | src/Player.cpp:303-308 | returns `Playback.PlayPosTimeSec` of the state |
| Controller.Player.GetTotalTimeMin | src/Player.cpp:324-329 | returns `Playback.TotalTimeMin` of the state |
| Controller.Player.GetTotalTimeSec | src/Player.cpp:331-336 | returns `Playback.TotalTimeSec` of the state |
| PlaybackProperties.TimeDecomposition | src/Player.cpp:296-336 | minutes·60 + seconds equals the whole seconds played, with 0 <= seconds < 60; the same holds for the length, whose whole seconds are samples divided by rate; the position never reads past the length |
| PlaybackProperties.FloorOfQuotient | src/Player.cpp:293 | truncating the real quotient of two naturals gives their integer quotient |
| Controller.Player.GetPlayPosNorm | src/Player.cpp:310-315 | returns `Playback.PlayPosNorm` of the state |
| Playback.PlayPosNorm | src/Player.cpp:310-315 | 0 with nothing opened; undefined exactly when the active track has no samples; otherwise the fraction in [0, 1] that, multiplied by the track's length in samples, gives the sample position |

## Left out

- Thumbnails and textures (`src/Player.cpp:17-19`, `235-287`, `setThumbnailImage`) are left out. They use a foreign graphics library and floating-point colour maths. The default gradient's parameter (x+y)/(w+h-2) runs from 0 at the top-left to 1 at the bottom-right.
- `move` still refreshes the cached hash, but the thumbnail load it also does is not modelled.
- Reading the settings and profile files and writing them back (`src/Player.cpp:397-457`) is JSON file I/O.
  - Only the no-settings-file defaults are modelled.
  - The profile store read at start-up is a constructor parameter.
  - `editTitle` saving the store is not modelled.
- Content hashing (`src/Player.cpp:469-471`) reads the file. The hash of a track is a parameter of `Open`, stored with the path, so `getXXHash` becomes a lookup in that list.
- Decoding is not modelled. `Open` receives the decoded length in samples and the sample rate.
- The passing of time is not modelled: a handle's position and sounding flag change only through the player's calls. `playing()` observes "finished" as a handle that is not sounding.
- `fft` (`src/Player.cpp:374-379`), the debug print in `setLoop`, and `free` (`src/Player.cpp:459-467`) are left out. They are a foreign analysis call, console output and memory release.
- The audio handle comes from an external library. The model assumes the following about it:
  - `stop` rewinds to sample 0;
  - `setPosSample` past the end lands on the end;
  - `posSec` is position / rate;
  - `lengthSec` is samples / rate;
  - a new handle is at sample 0, silent, at volume 1.0, with loop off;
  - `setLoop` rewinds the handle to sample 0 and leaves it sounding or silent as it was. This is why the player saves the position before it and restores it afterwards. The library's exact landing position is not part of this model; rewinding is the case the player guards against;
  - `pause` keeps the position;
  - the rate is positive.
- Playback.PlayPosSec, Playback.PlayPosTimeMin, Playback.TotalTimeMin: floating-point seconds are exact rationals here. Their truncation to `int` is `Floor`, which agrees with C++ truncation because the values are non-negative. `int` overflow for very long tracks is not modelled.
- Playback.PlayPosNorm: the NaN that the source computes for a track of no samples is the value `Undefined`.
- Playback.SeekTarget: the target sample is the exact product f·samples truncated. The source computes the product in double precision (`src/Player.cpp:183`), and rounding can lift it to a whole number that the exact product falls just short of: for the double nearest 0.7 and 10 samples the exact product lies below 7 while the double product is 7.0. The model can therefore target one sample before the source, never after it, since rounding to nearest never falls below a whole number the exact product reaches. A NaN fraction passes the range check of line 178 in the source and reaches the seek, while a real number here always compares. The quotient of `getPlayPosNorm` (line 314) is likewise exact here and rounded in the source.
- Playback.SetLoop: outside Play, the active handle is left at sample 0 because the model's handle rewinds on a loop change. If the library's `setLoop` kept the position, the source would leave it in place. The save at line 361 and the restore at line 369 are what keep the position in Play.
- PlaybackProperties.LoopToggleRestores: outside Play, the double toggle restores everything but the active track's position, which comes back at sample 0. It rests on the same rewinding assumption, since the source restores the position only in Play (lines 367-371).
- Playback.ChangeVolumeTo: NaN volumes are not modelled, since a real number always compares.
- Controller.Player.constructor: the source leaves the cached hash uninitialised until the first track is opened. The model starts it at 0, so an `editTitle` before any `open` writes under hash 0.
- Playback.Open: the open operation always appends and has no failure path, and the model follows that code. A failing decode, which the source does not check, is not modelled.
- Paths.BaseName: the library's base-name function is modelled as the last component after '/' or '\\' with the part from its last '.' removed.
- `src/OtherFunctions.hpp` (declarations only) and `Windows/Albus-Box/Albus-Box/Specific.hpp` (platform paths and window glue) are not part of this model.
