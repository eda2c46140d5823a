/** The delay timer of `src/timer.go`: a `uint` counter that a 60 Hz ticker
    decrements while it is nonzero. The ticker goroutine and the mutex are not
    modelled; one tick is a discrete step. */
module DelayTimer {
  import opened Common

  /** Go's `uint` on a 64-bit platform. */
  type Uint = n: nat | n < 0x1_0000_0000_0000_0000

  /** One tick of the ticker loop: a nonzero counter drops by one, zero stays zero. */
  function Ticked(t: Uint): (r: Uint)
    ensures r <= t
    ensures t != 0 ==> r + 1 == t
  {
    if t != 0 then t - 1 else t
  }

  /** The counter after `k` ticks of the ticker. */
  function Ticks(t: Uint, k: nat): Uint
  {
    if k == 0 then t else Ticked(Ticks(t, k - 1))
  }

  /** After k ticks the counter is t - k, held at 0 once it gets there: it never wraps. */
  lemma {:induction false} TicksSettle(t: Uint, k: nat)
    ensures Ticks(t, k) == if k >= t then 0 else t - k
  {
    if k > 0 {
      TicksSettle(t, k - 1);
    }
  }

  /** Setting the timer to 5 and letting five ticks pass leaves 0, and further ticks keep it there. */
  lemma FiveTicksReachZero(extra: nat)
    ensures Ticks(5, 5) == 0
    ensures Ticks(5, 5 + extra) == 0
  {
    TicksSettle(5, 5);
    TicksSettle(5, 5 + extra);
  }

  class Timer {
    var timer: Uint

    /** NewTimer: the counter starts at 0 (the ticker goroutine is not modelled). */
    constructor ()
      ensures timer == 0
    {
      timer := 0;
    }

    /** One iteration of the Tick loop body, run when the ticker fires. */
    method Tick()
      modifies this
      ensures timer == Ticked(old(timer))
    {
      if timer != 0 {
        timer := timer - 1;
      }
    }

    /** Set assigns the counter and always returns a nil error. */
    method Set(n: Uint) returns (err: Status)
      modifies this
      ensures timer == n && err == Ok
    {
      timer := n;
      return Ok;
    }

    /** Get returns the counter, always with a nil error, and changes nothing. */
    method Get() returns (v: Uint, err: Status)
      ensures v == timer && err == Ok
    {
      v := timer;
      return v, Ok;
    }
  }
}
