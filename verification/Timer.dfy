/** The millisecond timer every other component is built on: a 32-bit tick
    counter that is 0 when stopped and counts up from 1 when running. */
module Timer {

  const U32 := 0x1_0000_0000
  const U64 := 0x1_0000_0000_0000_0000
  const TICKS_PER_SEC: uint32 := 1000

  type uint32 = x: int | 0 <= x < 0x1_0000_0000

  /** The two mutable words of a timer. */
  datatype Ticks = Ticks(timeout: uint32, timer: uint32) {

    predicate Running() {
      timer > 0
    }

    predicate Expired() {
      timeout != 0 && timer != 0 && timer >= timeout
    }

    function Started(): Ticks {
      if timeout > 0 then this.(timer := 1) else this
    }

    function Stopped(): Ticks {
      this.(timer := 0)
    }

    /** Unsigned 32-bit addition: the counter wraps. */
    function Clocked(t: nat): Ticks {
      if timer > 0 && timeout > 0 then this.(timer := (timer + t) % U32) else this
    }

    function WithTimeout(ticksPerSec: uint32, secs: uint32, msecs: uint32): Ticks {
      if secs > 0 || msecs > 0
      then this.(timeout := TimeoutTicks(ticksPerSec, secs, msecs))
      else Ticks(0, 0)
    }
  }

  /** The tick count asked for, before any truncation. */
  function Requested(ticksPerSec: nat, secs: nat, msecs: nat): nat {
    (secs * 1000 + msecs) * ticksPerSec / 1000
  }

  /** The stored timeout: a 64-bit product, then a truncating cast to 32 bits. */
  function TimeoutTicks(ticksPerSec: uint32, secs: uint32, msecs: uint32): uint32 {
    ((secs * 1000 + msecs) * ticksPerSec % U64 / 1000 + 1) % U32
  }

  /** A millisecond timer of whole seconds, stopped. */
  function Seconds(secs: uint32): (t: Ticks)
    ensures 1000 * secs + 1 < U32 ==> t == Ticks(if secs > 0 then 1000 * secs + 1 else 0, 0)
  {
    Ticks(0, 0).WithTimeout(TICKS_PER_SEC, secs, 0)
  }

  function Sum(steps: seq<nat>): nat {
    if steps == [] then 0 else Sum(steps[..|steps| - 1]) + steps[|steps| - 1]
  }

  function ClockedAll(t: Ticks, steps: seq<nat>): Ticks {
    if steps == [] then t else ClockedAll(t, steps[..|steps| - 1]).Clocked(steps[|steps| - 1])
  }

  /** However the time is cut into steps, a running timer has counted their sum. */
  lemma {:induction false} CountsTheSum(t: Ticks, steps: seq<nat>)
    requires t.Running() && t.timeout > 0
    requires t.timer + Sum(steps) < U32
    ensures ClockedAll(t, steps) == t.(timer := t.timer + Sum(steps))
  {
    if steps != [] {
      CountsTheSum(t, steps[..|steps| - 1]);
    }
  }

  /** A started timer has expired exactly when the clocked ticks reach the time
      asked for, whatever the steps, as long as neither counter overflows. */
  lemma ExpiresExactly(ticksPerSec: uint32, secs: uint32, msecs: uint32, steps: seq<nat>)
    requires 0 < secs || 0 < msecs
    requires (secs * 1000 + msecs) * ticksPerSec < U64
    requires Requested(ticksPerSec, secs, msecs) + 1 < U32
    requires Sum(steps) + 1 < U32
    ensures var t := Ticks(0, 0).WithTimeout(ticksPerSec, secs, msecs).Started();
            ClockedAll(t, steps).Expired() <==> Sum(steps) >= Requested(ticksPerSec, secs, msecs)
  {
    hide TimeoutTicks, Requested;
    TimeoutExact(ticksPerSec, secs, msecs);
    var t := Ticks(0, 0).WithTimeout(ticksPerSec, secs, msecs).Started();
    CountsTheSum(t, steps);
  }

  lemma TimeoutExact(ticksPerSec: uint32, secs: uint32, msecs: uint32)
    requires (secs * 1000 + msecs) * ticksPerSec < U64
    requires Requested(ticksPerSec, secs, msecs) + 1 < U32
    ensures TimeoutTicks(ticksPerSec, secs, msecs) == Requested(ticksPerSec, secs, msecs) + 1
  {
    var product := (secs * 1000 + msecs) * ticksPerSec;
    assert product % U64 == product;
  }

  /** For whole seconds on the millisecond clock the overflow condition is
      exact: a longer timeout is truncated and expires too early. */
  lemma SecondsExactIff(secs: uint32)
    requires secs > 0
    ensures (forall steps: seq<nat> | Sum(steps) + 1 < U32 ::
               ClockedAll(Seconds(secs).Started(), steps).Expired() <==> Sum(steps) >= 1000 * secs)
       <==> 1000 * secs + 1 < U32
  {
    var t := Seconds(secs).Started();
    assert TimeoutTicks(TICKS_PER_SEC, secs, 0) == (1000 * secs + 1) % U32;
    if 1000 * secs + 1 < U32 {
      forall steps: seq<nat> | Sum(steps) + 1 < U32
        ensures ClockedAll(t, steps).Expired() <==> Sum(steps) >= 1000 * secs
      {
        CountsTheSum(t, steps);
      }
    } else {
      var early: seq<nat> := [t.timeout - 1];
      assert early[..0] == [];
      CountsTheSum(t, early);
      assert ClockedAll(t, early).Expired() && Sum(early) < 1000 * secs;
    }
  }

  /** A timer object. */
  class CTimer {
    const ticksPerSec: uint32
    var timeout: uint32
    var timer: uint32

    ghost function View(): Ticks
      reads this
    {
      Ticks(timeout, timer)
    }

    constructor (ticksPerSec: uint32, secs: uint32, msecs: uint32)
      requires ticksPerSec > 0
      ensures this.ticksPerSec == ticksPerSec
      ensures View() == Ticks(0, 0).WithTimeout(ticksPerSec, secs, msecs)
    {
      this.ticksPerSec := ticksPerSec;
      timeout := 0;
      timer := 0;
      if secs > 0 || msecs > 0 {
        var temp := (secs * 1000 + msecs) * ticksPerSec % U64;
        timeout := (temp / 1000 + 1) % U32;
      }
    }

    method SetTimeout(secs: uint32, msecs: uint32)
      modifies this
      ensures View() == old(View()).WithTimeout(ticksPerSec, secs, msecs)
    {
      if secs > 0 || msecs > 0 {
        var temp := (secs * 1000 + msecs) * ticksPerSec % U64;
        timeout := (temp / 1000 + 1) % U32;
      } else {
        timeout := 0;
        timer := 0;
      }
    }

    method Start()
      modifies this
      ensures View() == old(View()).Started()
    {
      if timeout > 0 {
        timer := 1;
      }
    }

    method StartFor(secs: uint32, msecs: uint32)
      modifies this
      ensures View() == old(View()).WithTimeout(ticksPerSec, secs, msecs).Started()
    {
      SetTimeout(secs, msecs);
      Start();
    }

    method Stop()
      modifies this
      ensures View() == old(View()).Stopped()
    {
      timer := 0;
    }

    method Clock(t: uint32)
      modifies this
      ensures View() == old(View()).Clocked(t)
    {
      if timer > 0 && timeout > 0 {
        timer := (timer + t) % U32;
      }
    }

    method HasExpired() returns (r: bool)
      ensures r <==> View().Expired()
    {
      if timeout == 0 || timer == 0 {
        return false;
      }
      return timer >= timeout;
    }

    /** The whole seconds in the timeout, without the tick that setting it adds. */
    method GetTimeout() returns (r: uint32)
      requires ticksPerSec > 0
      ensures timeout == 0 ==> r == 0
      ensures timeout > 0 ==> r * ticksPerSec + 1 <= timeout <= (r + 1) * ticksPerSec
    {
      if timeout == 0 {
        return 0;
      }
      r := (timeout - 1) / ticksPerSec;
    }
  }
}
