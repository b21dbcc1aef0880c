/**
 * The busy indicator of src/widgets/loader.rs: a tick counter and the throbber animation,
 * which moves one frame every sixth tick.
 */
module LoaderWidget {

  /** The loader's state: ticks counted, and frames the throbber has advanced. */
  datatype LoaderState = LoaderState(tick: nat, frames: nat)

  /** `Loader::default()`. */
  const Initial := LoaderState(0, 0)

  /** Ticks per throbber frame. */
  const TicksPerFrame := 6

  /** One `calc_next` on a state. */
  function Next(s: LoaderState): (r: LoaderState)
    ensures r.tick == s.tick + 1
    ensures s.frames <= r.frames <= s.frames + 1
    ensures r.frames == s.frames + 1 <==> r.tick % TicksPerFrame == 0
  {
    var tick := s.tick + 1;
    LoaderState(tick, if tick % TicksPerFrame == 0 then s.frames + 1 else s.frames)
  }

  /** n calls of `calc_next` from the default state. */
  function After(n: nat): LoaderState
  {
    if n == 0 then Initial else Next(After(n - 1))
  }

  /** After n ticks from a fresh loader the throbber has advanced exactly n / 6 frames. */
  lemma {:induction false} FramesAfter(n: nat)
    ensures After(n) == LoaderState(n, n / TicksPerFrame)
  {
    if n > 0 {
      FramesAfter(n - 1);
      var q, r := (n - 1) / 6, (n - 1) % 6;
      assert n - 1 == 6 * q + r;
      if r == 5 {
        assert n == 6 * (q + 1);
      } else {
        assert n == 6 * q + (r + 1);
      }
    }
  }

  /** A reset loader shows its first frame for the first five ticks and moves on the sixth. */
  lemma FirstFrameHeld()
    ensures forall n :: 0 <= n < TicksPerFrame ==> After(n).frames == 0
    ensures After(TicksPerFrame).frames == 1
  {
    forall n | 0 <= n < TicksPerFrame
      ensures After(n).frames == 0
    {
      FramesAfter(n);
    }
    FramesAfter(TicksPerFrame);
  }

  /** `Loader`: the tick counter and the throbber's frame count. */
  class Loader {
    var tick: nat
    var frames: nat

    /** The loader's fields as a value. */
    function State(): LoaderState
      reads this
    {
      LoaderState(tick, frames)
    }

    /** `Loader::default()`. */
    constructor ()
      ensures State() == Initial
    {
      tick := 0;
      frames := 0;
    }

    /** `calc_next`: count a tick, and advance the throbber when the count is a multiple of six. */
    method CalcNext()
      modifies this
      ensures State() == Next(old(State()))
    {
      tick := tick + 1;
      if tick % TicksPerFrame == 0 {
        frames := frames + 1;
      }
    }
  }
}
