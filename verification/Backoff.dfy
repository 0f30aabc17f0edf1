/** Retrying a reflector link: exponential backoff inside an inactivity window. */
module Backoff {
  import opened Timer

  function Pow2(n: nat): (r: nat)
    ensures r >= 1
  {
    if n == 0 then 1 else 2 * Pow2(n - 1)
  }

  lemma {:induction false} Pow2Grows(m: nat, n: nat)
    requires m <= n
    ensures Pow2(m) <= Pow2(n)
  {
    if m < n {
      Pow2Grows(m, n - 1);
    }
  }

  function Min(a: nat, b: nat): nat {
    if a < b then a else b
  }

  /** The seconds to wait after the retry that finds the counter at tries. */
  function Delay(tries: nat): (secs: nat)
    ensures 1 <= secs <= 60
  {
    Min(Pow2(tries), 60)
  }

  /** One, two, four, eight, sixteen and thirty-two seconds, and then a minute each
      time. */
  lemma Waits(n: nat)
    ensures Delay(n) == if n == 0 then 1 else if n == 1 then 2 else if n == 2 then 4 else if n == 3 then 8
                        else if n == 4 then 16 else if n == 5 then 32 else 60
  {
    assert Pow2(3) == 8 && Pow2(6) == 8 * Pow2(3);
    if n >= 6 {
      Pow2Grows(6, n);
    }
  }

  /** The two timers and the counter of a link that is trying to connect, or to
      disconnect: the inactivity window it is in, and the wait for its next try. */
  datatype Phase = Phase(window: Ticks, retry: Ticks, tries: nat)

  datatype Action = Wait | Retry | WindowEnds

  /** One clock step. The end of the window is looked at first. */
  function Clocked(p: Phase, ms: nat): (Phase, Action) {
    var q := p.(window := p.window.Clocked(ms), retry := p.retry.Clocked(ms));
    if q.window.Running() && q.window.Expired() then (q.(window := q.window.Started()), WindowEnds)
    else if q.retry.Running() && q.retry.Expired() then
      (q.(retry := q.retry.WithTimeout(TICKS_PER_SEC, Delay(p.tries), 0).Started(), tries := p.tries + 1), Retry)
    else (q, Wait)
  }

  /** A phase as it starts, some way into a window of secs seconds. */
  predicate Fresh(p: Phase, secs: nat) {
    && p.window.timeout == 1000 * secs + 1 && 1 <= p.window.timer <= 1000 * secs
    && p.retry == Ticks(1001, 1) && p.tries == 0
  }

  /** age is the time since the phase started. The tries made so far needed at
      least 1, 1, 2, 4, ... seconds, and the current wait comes on top. */
  predicate InPhase(p: Phase, secs: nat, age: nat) {
    && p.window.timeout == 1000 * secs + 1 && 1 + age <= p.window.timer <= 1000 * secs
    && 1 <= p.retry.timer
    && (if p.tries == 0 then p.retry.timeout == 1001 && p.retry.timer <= 1 + age
        else p.retry.timeout == 1000 * Delay(p.tries - 1) + 1
             && 1000 * Pow2(p.tries - 1) + p.retry.timer <= 1 + age)
  }

  /** While the window lasts a step keeps the schedule: try number k comes no
      earlier than 2 to the power k - 1 seconds after the start. */
  lemma StepsInPhase(p: Phase, secs: nat, age: nat, ms: nat)
    requires 0 < secs <= 60 && InPhase(p, secs, age) && ms + 60001 < U32
    ensures var (q, act) := Clocked(p, ms);
            act.WindowEnds? || (InPhase(q, secs, age + ms) && q.tries == p.tries + if act.Retry? then 1 else 0)
  {
    hide Pow2, Delay, Ticks.WithTimeout;
    SetDelay(p.retry.Clocked(ms), Delay(p.tries));
    if p.tries > 0 {
      Doubles(p.tries);
      WithinWindow(p.tries - 1, secs, age);
    } else {
      PowZero();
    }
  }

  lemma SetDelay(t: Ticks, secs: nat)
    requires 1 <= secs <= 60
    ensures t.WithTimeout(TICKS_PER_SEC, secs, 0).Started() == Ticks(1000 * secs + 1, 1)
  {
  }

  lemma PowZero()
    ensures Pow2(0) == 1
  {
  }

  lemma Doubles(n: nat)
    requires n > 0
    ensures Pow2(n) == 2 * Pow2(n - 1)
  {
  }

  /** The cap of a minute is not reached inside a window of a minute. */
  lemma WithinWindow(n: nat, secs: nat, age: nat)
    requires secs <= 60 && 1000 * Pow2(n) <= age && age <= 1000 * secs
    ensures Delay(n) == Pow2(n)
  {
  }

  /** How many tries a phase makes before its window ends. */
  function Tries(p: Phase, steps: seq<nat>): nat
    decreases |steps|
  {
    if steps == [] then 0
    else
      var (q, act) := Clocked(p, steps[0]);
      if act.WindowEnds? then 0 else (if act.Retry? then 1 else 0) + Tries(q, steps[1..])
  }

  predicate Small(steps: seq<nat>) {
    forall ms | ms in steps :: ms + 60001 < U32
  }

  /** lead is the time of the window that had passed when the phase started. */
  lemma {:induction false} TriesInPhase(p: Phase, secs: nat, age: nat, lead: nat, steps: seq<nat>)
    requires 0 < secs <= 60 && InPhase(p, secs, age) && p.window.timer >= 1 + lead + age && Small(steps)
    ensures var n := p.tries + Tries(p, steps); n == 0 || lead + 1000 * Pow2(n - 1) < 1000 * secs
    decreases |steps|
  {
    hide Pow2;
    if steps != [] {
      assert steps[0] in steps && forall ms | ms in steps[1..] :: ms in steps;
      StepsInPhase(p, secs, age, steps[0]);
      WindowCounts(p, secs, steps[0]);
      var (q, act) := Clocked(p, steps[0]);
      if !act.WindowEnds? {
        TriesInPhase(q, secs, age + steps[0], lead, steps[1..]);
      }
    }
  }

  lemma WindowCounts(p: Phase, secs: nat, ms: nat)
    requires 0 < secs <= 60 && p.window.timeout == 1000 * secs + 1 && 1 <= p.window.timer <= 1000 * secs
             && ms + 60001 < U32
    ensures var (q, act) := Clocked(p, ms); act.WindowEnds? || q.window == p.window.(timer := p.window.timer + ms)
  {
    hide Delay, Ticks.WithTimeout;
  }

  /** The steps that fit n more tries in the least time, after k tries. */
  function Fastest(k: nat, n: nat): seq<nat>
    decreases n
  {
    if n == 0 then [] else [1000 * Delay(if k == 0 then 0 else k - 1)] + Fastest(k + 1, n - 1)
  }

  /** The phase stands exactly at its try number k. */
  predicate OnSchedule(p: Phase, secs: nat, lead: nat, k: nat) {
    && p.tries == k && p.window.timeout == 1000 * secs + 1
    && p.window.timer == 1 + lead + (if k == 0 then 0 else 1000 * Pow2(k - 1)) <= 1000 * secs
    && p.retry == Ticks(1000 * Delay(if k == 0 then 0 else k - 1) + 1, 1)
  }

  lemma OneFaster(p: Phase, secs: nat, lead: nat, k: nat)
    requires 0 < secs <= 60 && OnSchedule(p, secs, lead, k) && lead + 1000 * Pow2(k) < 1000 * secs
    ensures var (q, act) := Clocked(p, 1000 * Delay(if k == 0 then 0 else k - 1));
            act.Retry? && OnSchedule(q, secs, lead, k + 1)
  {
    hide Pow2, Delay, Ticks.WithTimeout;
    var ms := 1000 * Delay(if k == 0 then 0 else k - 1);
    SetDelay(p.retry.Clocked(ms), Delay(k));
    PowZero();
    if k == 0 {
      WithinWindow(0, secs, 1000);
    } else {
      Doubles(k);
      WithinWindow(k - 1, secs, 1000 * Pow2(k - 1));
    }
  }

  lemma {:induction false} FastestTries(p: Phase, secs: nat, lead: nat, k: nat, n: nat)
    requires 0 < secs <= 60 && OnSchedule(p, secs, lead, k) && (n == 0 || lead + 1000 * Pow2(k + n - 1) < 1000 * secs)
    ensures Tries(p, Fastest(k, n)) == n && Small(Fastest(k, n))
    ensures !Over(p, Fastest(k, n)) && OnSchedule(After(p, Fastest(k, n)), secs, lead, k + n)
    decreases n
  {
    hide Pow2, Delay, OnSchedule;
    if n > 0 {
      Pow2Grows(k, k + n - 1);
      OneFaster(p, secs, lead, k);
      var (q, act) := Clocked(p, 1000 * Delay(if k == 0 then 0 else k - 1));
      FastestTries(q, secs, lead, k + 1, n - 1);
      assert Fastest(k, n)[1..] == Fastest(k + 1, n - 1);
    }
  }

  /** The window ends on the way. */
  predicate Over(p: Phase, steps: seq<nat>)
    decreases |steps|
  {
    steps != [] && var (q, act) := Clocked(p, steps[0]); act.WindowEnds? || Over(q, steps[1..])
  }

  function After(p: Phase, steps: seq<nat>): Phase
    decreases |steps|
  {
    if steps == [] then p else After(Clocked(p, steps[0]).0, steps[1..])
  }

  lemma {:induction false} AfterInPhase(p: Phase, secs: nat, age: nat, steps: seq<nat>)
    requires 0 < secs <= 60 && InPhase(p, secs, age) && p.window.timer == 1 + age && Small(steps) && !Over(p, steps)
    ensures var q := After(p, steps);
            && q.window.timeout == p.window.timeout && 1 <= q.window.timer <= 1000 * secs
            && q.tries == p.tries + Tries(p, steps)
            && (q.tries == 0 || 1000 * Pow2(q.tries - 1) <= q.window.timer - 1)
    decreases |steps|
  {
    hide Pow2;
    if steps != [] {
      assert steps[0] in steps && forall ms | ms in steps[1..] :: ms in steps;
      StepsInPhase(p, secs, age, steps[0]);
      WindowCounts(p, secs, steps[0]);
      AfterInPhase(Clocked(p, steps[0]).0, secs, age + steps[0], steps[1..]);
    }
  }

  /** A phase that starts with its window can make n tries exactly when the n-th
      is due inside it, however the time is cut into clock steps. */
  lemma TriesIff(p: Phase, secs: nat, n: nat)
    requires 0 < secs <= 60 && Fresh(p, secs) && p.window.timer == 1
    ensures (exists steps: seq<nat> :: Small(steps) && Tries(p, steps) == n) <==> n == 0 || Pow2(n - 1) < secs
  {
    hide Pow2, Fastest, Tries, Small, Over, After;
    if steps: seq<nat> :| Small(steps) && Tries(p, steps) == n {
      TriesInPhase(p, secs, 0, 0, steps);
    }
    if n == 0 || Pow2(n - 1) < secs {
      DelayZero();
      FastestTries(p, secs, 0, 0, n);
      var steps := Fastest(0, n);
      assert Small(steps) && Tries(p, steps) == n;
    }
  }

  lemma DelayZero()
    ensures Delay(0) == 1
  {
  }

  /** With the connect that starts it, a DExtra window of 60 seconds sees at most
      7 connects, and a DCS window of 30 seconds at most 6; both do happen. */
  lemma RetryBound(p: Phase)
    requires p.window.timer == 1
    ensures Fresh(p, 60) ==> forall steps: seq<nat> | Small(steps) :: 1 + Tries(p, steps) <= 7
    ensures Fresh(p, 60) ==> exists steps: seq<nat> :: Small(steps) && 1 + Tries(p, steps) == 7
    ensures Fresh(p, 30) ==> forall steps: seq<nat> | Small(steps) :: 1 + Tries(p, steps) <= 6
    ensures Fresh(p, 30) ==> exists steps: seq<nat> :: Small(steps) && 1 + Tries(p, steps) == 6
  {
    hide Tries, Small, Fresh, Pow2;
    SmallPowers();
    if Fresh(p, 60) {
      TriesIff(p, 60, 6);
      forall steps: seq<nat> | Small(steps)
        ensures 1 + Tries(p, steps) <= 7
      {
        var n := Tries(p, steps);
        TriesIff(p, 60, n);
        if n > 6 {
          Pow2Grows(6, n - 1);
        }
      }
    }
    if Fresh(p, 30) {
      TriesIff(p, 30, 5);
      forall steps: seq<nat> | Small(steps)
        ensures 1 + Tries(p, steps) <= 6
      {
        var n := Tries(p, steps);
        TriesIff(p, 30, n);
        if n > 5 {
          Pow2Grows(5, n - 1);
        }
      }
    }
  }

  lemma SmallPowers()
    ensures Pow2(3) == 8 && Pow2(4) == 16 && Pow2(5) == 32 && Pow2(6) == 64
  {
    assert Pow2(2) == 4 && Pow2(3) == 8;
  }

  /** A DCS link that is being unlinked keeps its window, so wherever in it the
      unlinking starts it makes at most 5 tries more. */
  lemma UnlinkBound(p: Phase, steps: seq<nat>)
    requires Fresh(p, 30) && Small(steps)
    ensures Tries(p, steps) <= 5
  {
    hide Pow2, Tries;
    TriesInPhase(p, 30, 0, 0, steps);
    SmallPowers();
    if Tries(p, steps) > 5 {
      Pow2Grows(5, Tries(p, steps) - 1);
    }
  }

  /** Unlinking starts a new phase inside the same window. */
  function Unlinking(p: Phase): Phase {
    p.(retry := Ticks(1001, 1), tries := 0)
  }

  /** All that is written in a DCS window in which the link is unlinked: the connect
      that starts it, its retries, the disconnect, and the retries of that. */
  function Written(p: Phase, before: seq<nat>, after: seq<nat>): nat {
    1 + Tries(p, before) + 1 + Tries(Unlinking(After(p, before)), after)
  }

  lemma UnlinkedWindow(p: Phase, before: seq<nat>, after: seq<nat>)
    requires Fresh(p, 30) && p.window.timer == 1 && Small(before) && Small(after) && !Over(p, before)
    ensures Written(p, before, after) <= 11
  {
    hide Pow2, Tries, Over, After, Small;
    SmallPowers();
    AfterInPhase(p, 30, 0, before);
    var q := After(p, before);
    var m, n := Tries(p, before), Tries(Unlinking(q), after);
    TriesInPhase(Unlinking(q), 30, 0, q.window.timer - 1, after);
    if m > 4 {
      Pow2Grows(4, m - 1);
    }
    if m > 5 {
      Pow2Grows(5, m - 1);
    }
    if n > 4 {
      Pow2Grows(4, n - 1);
    }
    if n > 5 {
      Pow2Grows(5, n - 1);
    }
  }

  /** And eleven do happen: six connects, the disconnect, and four more. */
  lemma UnlinkedWindowFull(p: Phase)
    requires Fresh(p, 30) && p.window.timer == 1
    ensures exists before: seq<nat>, after: seq<nat> ::
              Small(before) && Small(after) && !Over(p, before) && Written(p, before, after) == 11
  {
    hide Pow2, Tries, Over, After, Small, Fastest;
    SmallPowers();
    DelayZero();
    FastestTries(p, 30, 0, 0, 5);
    var q := After(p, Fastest(0, 5));
    FastestTries(Unlinking(q), 30, 16000, 0, 4);
    assert Written(p, Fastest(0, 5), Fastest(0, 4)) == 11;
  }
}
