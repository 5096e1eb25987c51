/**
 * The audio playback primitive the player drives: one decoded track that can
 * be played, paused, stopped and repositioned.  Decoding and real time are not
 * modelled; a handle is its sample position, its length in samples, its
 * sample rate, its volume, its loop flag and whether it is currently sounding.
 *
 * `Handle` is the value view of a handle; `Audio` is the mutable object the
 * player owns, whose methods are stated in terms of the `Handle` functions.
 */
module AudioHandle {

  datatype Handle = Handle(
    pos: nat,        // current sample position
    samples: nat,    // length of the track in samples
    rate: nat,       // samples per second
    volume: real,
    loop: bool,
    playing: bool)
  {
    /** A position never lies past the end; a rate is positive. */
    ghost predicate Valid() {
      pos <= samples && rate > 0
    }

    /** Stopped at the start of the track: the state `stop()` leaves a handle in. */
    predicate Parked() {
      pos == 0 && !playing
    }

    /** Position in seconds. */
    function PosSec(): real
      requires rate > 0
    {
      pos as real / rate as real
    }

    /** Length in seconds. */
    function LengthSec(): real
      requires rate > 0
    {
      samples as real / rate as real
    }

    function Played(): Handle {
      this.(playing := true)
    }

    function Paused(): Handle {
      this.(playing := false)
    }

    /** Stopping halts playback and returns to the start of the track. */
    function Stopped(): (r: Handle)
      ensures r.Parked()
    {
      this.(pos := 0, playing := false)
    }

    /** Seeking to a sample offset; an offset past the end lands on the end. */
    function WithPosSample(n: nat): (r: Handle)
      ensures r.pos <= samples
      ensures n <= samples ==> r.pos == n
      ensures r == this.(pos := r.pos)
    {
      this.(pos := if n <= samples then n else samples)
    }

    /** Seeking to a time in seconds: the sample at `sec * rate`, truncated. */
    function WithPosSec(sec: real): (r: Handle)
      requires sec >= 0.0
      ensures r == this.(pos := r.pos)
      ensures sec == 0.0 ==> r.pos == 0
    {
      var t := (sec * rate as real).Floor;
      assert t >= 0;
      WithPosSample(t)
    }

    function WithVolume(v: real): Handle {
      this.(volume := v)
    }

    /** The loop change: the flag is set and the handle goes back to its start. */
    function WithLoop(e: bool): Handle {
      this.(loop := e, pos := 0)
    }
  }

  /** A freshly decoded track: at its start, silent, full volume, not looping. */
  function Loaded(samples: nat, rate: nat): (h: Handle)
    requires rate > 0
    ensures h.Valid() && h.Parked()
  {
    Handle(0, samples, rate, 1.0, false, false)
  }

  class Audio {
    var pos: nat
    var samples: nat
    var rate: nat
    var volume: real
    var loop: bool
    var playing: bool

    function View(): Handle
      reads this
    {
      Handle(pos, samples, rate, volume, loop, playing)
    }

    function PosSec(): real
      reads this
      requires rate > 0
    {
      View().PosSec()
    }

    function LengthSec(): real
      reads this
      requires rate > 0
    {
      View().LengthSec()
    }

    /** Decodes a track of `samples` samples at `rate` samples per second. */
    constructor (samples: nat, rate: nat)
      requires rate > 0
      ensures View() == Loaded(samples, rate)
    {
      this.pos := 0;
      this.samples := samples;
      this.rate := rate;
      this.volume := 1.0;
      this.loop := false;
      this.playing := false;
    }

    method Play()
      modifies this
      ensures View() == old(View()).Played()
    {
      playing := true;
    }

    method Pause()
      modifies this
      ensures View() == old(View()).Paused()
    {
      playing := false;
    }

    method Stop()
      modifies this
      ensures View() == old(View()).Stopped()
    {
      playing := false;
      pos := 0;
    }

    method SetPosSample(n: nat)
      modifies this
      ensures View() == old(View()).WithPosSample(n)
    {
      pos := if n <= samples then n else samples;
    }

    method SetPosSec(sec: real)
      requires sec >= 0.0
      modifies this
      ensures View() == old(View()).WithPosSec(sec)
    {
      var t := (sec * rate as real).Floor;
      SetPosSample(t);
    }

    method SetVolume(v: real)
      modifies this
      ensures View() == old(View()).WithVolume(v)
    {
      volume := v;
    }

    method SetLoop(e: bool)
      modifies this
      ensures View() == old(View()).WithLoop(e)
    {
      loop := e;
      pos := 0;
    }
  }
}
