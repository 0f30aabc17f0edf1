/** What becomes of a record that is left to the clock while other things happen,
    and of a user who comes back before it is gone. */
module GroupWaits {
  import opened Timer
  import opened Caches
  import opened Group
  import opened GroupRuns
  import opened GroupTiming
  import opened GroupSubscription

  // ---- one record among other events ----

  /** Remote control takes record x away. */
  predicate DropsRecord(s: State, callsign: string, x: nat) {
    callsign == ALL
    || (callsign in s.users
        && var recs := RecordsOf(s, s.users[callsign]);
        (recs != {} && First(recs) == x) || s.users - {callsign} == map[])
  }

  /** A packet of stream x from G2, or a remote logoff that takes its record. */
  predicate Touches(s: State, e: Event, x: nat) {
    match e
    case G2HeaderArrives(_, _, id, _) => id == x
    case G2VoiceArrives(id, _) => id == x
    case Dropped(callsign) => DropsRecord(s, callsign, x)
    case _ => false
  }

  predicate Untouched(s: State, es: seq<Event>, x: nat)
    requires Wf(s) && Legal(s, es)
    decreases |es|
  {
    es == [] || (!Touches(s, es[0], x) && (StepWf(s, es[0]); Untouched(Step(s, es[0]).0, es[1..], x)))
  }

  /** The record of x is as it was, or still not there. */
  predicate Kept1(s: State, t: State, x: nat) {
    && (Live(t, x) <==> Live(s, x))
    && (Live(s, x) ==> t.ids[x] == s.ids[x])
  }

  lemma HeaderKeepsRecord(s: State, my: string, your: string, id: nat, cs: Pair, x: nat)
    requires Wf(s) && id != x
    ensures Kept1(s, G2Header(s, my, your, id, cs).0, x)
  {
    hide Wf, TakeG2;
    if your == s.config.callsign {
      if my !in s.users {
        TimeoutFits(s);
        TakeG2Keeps(PutRecord(AddUser(s, my), id, NewRecord(s.next, true, false)), id, my, true, cs);
      } else {
        HeldTalker(s, my);
        TakeG2Keeps(PutRecord(ResetUser(s, s.users[my]), id, NewRecord(s.users[my], false, false)), id, my, false, cs);
      }
    }
  }

  lemma DropKeepsRecord(s: State, callsign: string, x: nat)
    requires !DropsRecord(s, callsign, x)
    ensures Kept1(s, Drop(s, callsign).0, x)
  {
    hide First, RecordsOf;
  }

  lemma StepKeepsRecord(s: State, e: Event, x: nat)
    requires Wf(s) && Proper(s, e) && !Touches(s, e, x) && !e.Clocked?
    ensures Kept1(s, Step(s, e).0, x)
  {
    hide Wf, G2Header, Drop, FanOut, Relay, Texts, Sorted, DropsRecord;
    match e
    case G2HeaderArrives(my, your, id, cs) => if Routed(s, e) { HeaderKeepsRecord(s, my, your, id, cs, x); }
    case Dropped(callsign) => DropKeepsRecord(s, callsign, x);
    case _ =>
  }

  // ---- a login or logoff record left to the clock ----

  /** Record x is that of a login or logoff, time ticks into its first or, once
      ended, its second phase. */
  predicate Phase(s: State, x: nat, time: nat, end: bool) {
    && Live(s, x) && 1 <= time <= 4000
    && var r := s.ids[x].value;
    (r.login || r.logoff) && r.timer == Ticks(4001, time) && r.end == end
  }

  lemma PhaseTick(s: State, x: nat, time: nat, end: bool, ms: nat, gone: set<string>)
    requires Wf(s) && Phase(s, x, time, end) && ms + 4001 < U32
    ensures Wf(Tick(s, ms, gone).0)
    ensures var t := Tick(s, ms, gone).0;
            if time + ms <= 4000 then Phase(t, x, time + ms, end)
            else if !end then Phase(t, x, 1, true)
            else !Live(t, x)
  {
    hide Tick, Wf;
    WfTick(s, ms, gone);
    TickRecord(s, ms, gone, x);
  }

  lemma GoneTick(s: State, x: nat, ms: nat, gone: set<string>)
    requires Wf(s) && !Live(s, x)
    ensures !Live(Tick(s, ms, gone).0, x)
  {
    hide Tick, Wf;
    TickRecord(s, ms, gone, x);
  }

  lemma {:induction false} StaysGone(s: State, es: seq<Event>, x: nat)
    requires Wf(s) && Legal(s, es) && Untouched(s, es, x) && !Live(s, x)
    ensures !Live(Run(s, es).0, x)
    decreases |es|
  {
    hide Wf, Step, Touches;
    if es != [] {
      StepWf(s, es[0]);
      GoneStep(s, es[0], x);
      StaysGone(Step(s, es[0]).0, es[1..], x);
    }
  }

  lemma GoneStep(s: State, e: Event, x: nat)
    requires Wf(s) && Proper(s, e) && !Touches(s, e, x) && !Live(s, x)
    ensures !Live(Step(s, e).0, x)
  {
    hide Wf, Tick;
    if e.Clocked? {
      GoneTick(s, x, e.ms, e.gone);
    } else {
      StepKeepsRecord(s, e, x);
    }
  }

  lemma PhaseStep(s: State, e: Event, x: nat, time: nat, end: bool)
    requires Wf(s) && Proper(s, e) && !Touches(s, e, x) && Phase(s, x, time, end)
    ensures Wf(Step(s, e).0)
    ensures var (t, ms) := (Step(s, e).0, if e.Clocked? then e.ms else 0);
            if time + ms <= 4000 then Phase(t, x, time + ms, end)
            else if !end then Phase(t, x, 1, true)
            else !Live(t, x)
  {
    hide Wf, Tick;
    StepWf(s, e);
    if e.Clocked? {
      PhaseTick(s, x, time, end, e.ms, e.gone);
    } else {
      StepKeepsRecord(s, e, x);
    }
  }

  /** An ended record goes when four seconds have passed, however they are cut. */
  lemma {:induction false} SecondPhase(s: State, es: seq<Event>, x: nat, time: nat)
    requires Wf(s) && Legal(s, es) && Untouched(s, es, x) && Phase(s, x, time, true)
    ensures Live(Run(s, es).0, x) <==> time + Elapsed(es) <= 4000
    decreases |es|
  {
    hide Wf, Step, Touches, Phase;
    if es == [] {
      PhaseLive(s, x, time, true);
    } else {
      var e := es[0];
      StepWf(s, e);
      PhaseStep(s, e, x, time, true);
      var ms := if e.Clocked? then e.ms else 0;
      if time + ms <= 4000 {
        SecondPhase(Step(s, e).0, es[1..], x, time + ms);
      } else {
        StaysGone(Step(s, e).0, es[1..], x);
      }
    }
  }

  lemma PhaseLive(s: State, x: nat, time: nat, end: bool)
    requires Phase(s, x, time, end)
    ensures Live(s, x) && time <= 4000
  {
  }

  /** The run falls into two parts, the first of at least four seconds, counted from
      time, and the second of four seconds too. */
  predicate Splits(es: seq<Event>, time: nat) {
    exists i | 0 <= i <= |es| :: SplitAt(es, time, i)
  }

  predicate SplitAt(es: seq<Event>, time: nat, i: nat)
    requires i <= |es|
  {
    time + Elapsed(es[..i]) >= 4001 && Elapsed(es[i..]) >= 4000
  }

  lemma {:induction false} ElapsedSplit(es: seq<Event>, i: nat)
    requires i <= |es|
    ensures Elapsed(es) == Elapsed(es[..i]) + Elapsed(es[i..])
    decreases |es|
  {
    if i == 0 {
      assert es[..0] == [] && es[0..] == es;
    } else {
      ElapsedSplit(es[1..], i - 1);
      assert es[..i][1..] == es[1..][..i - 1] && es[1..][i - 1..] == es[i..];
    }
  }

  function Time(e: Event): nat {
    if e.Clocked? then e.ms else 0
  }

  lemma ElapsedFrom(es: seq<Event>, later: seq<Event>, i: nat)
    requires es != [] && later == es[1..] && 1 <= i <= |es|
    ensures Elapsed(es[..i]) == Time(es[0]) + Elapsed(later[..i - 1]) && es[i..] == later[i - 1..]
    ensures Elapsed(es[i..]) <= Elapsed(later)
  {
    assert es[..i][1..] == later[..i - 1];
    ElapsedSplit(later, i - 1);
  }

  lemma SplitAtLater(es: seq<Event>, later: seq<Event>, time: nat, i: nat)
    requires es != [] && later == es[1..] && i <= |es| && time <= 4000
    ensures SplitAt(es, time, i) <==> i >= 1 && SplitAt(later, time + Time(es[0]), i - 1)
    ensures SplitAt(es, time, i) ==> Elapsed(later) >= 4000
  {
    hide Elapsed;
    if i == 0 {
      assert es[..0] == [];
      NothingElapsed();
    } else {
      ElapsedFrom(es, later, i);
    }
  }

  lemma NothingElapsed()
    ensures Elapsed([]) == 0
  {
  }

  /** While the first phase lasts the first event only moves it on. */
  lemma SplitsLater(es: seq<Event>, later: seq<Event>, time: nat)
    requires es != [] && later == es[1..] && time <= 4000
    ensures Splits(es, time) <==>
            if time + Time(es[0]) <= 4000 then Splits(later, time + Time(es[0])) else 1 + Elapsed(later) > 4000
  {
    hide SplitAt, Elapsed;
    var now := time + Time(es[0]);
    if i :| 0 <= i <= |es| && SplitAt(es, time, i) {
      SplitAtLater(es, later, time, i);
      assert SplitAt(later, now, i - 1);
    }
    if now <= 4000 {
      if i :| 0 <= i <= |later| && SplitAt(later, now, i) {
        SplitAtLater(es, later, time, i + 1);
        assert SplitAt(es, time, i + 1);
      }
    } else if 1 + Elapsed(later) > 4000 {
      SplitNow(later, now);
      SplitAtLater(es, later, time, 1);
      assert SplitAt(es, time, 1);
    }
  }

  lemma SplitNow(later: seq<Event>, now: nat)
    requires now > 4000 && Elapsed(later) >= 4000
    ensures SplitAt(later, now, 0)
  {
    assert later[..0] == [] && later[0..] == later;
  }

  /** Left to the clock, whatever else happens, a login or logoff record is gone
      exactly when the time since falls into two parts of four seconds. */
  lemma {:induction false} TwoPhases(s: State, es: seq<Event>, x: nat, time: nat)
    requires Wf(s) && Legal(s, es) && Untouched(s, es, x) && Phase(s, x, time, false)
    ensures Live(Run(s, es).0, x) <==> !Splits(es, time)
    decreases |es|
  {
    hide Wf, Step, Touches, Phase, Splits;
    PhaseLive(s, x, time, false);
    if es == [] {
      NoSplit(time);
    } else {
      var e := es[0];
      StepWf(s, e);
      PhaseStep(s, e, x, time, false);
      SplitsLater(es, es[1..], time);
      var ms := Time(e);
      if time + ms <= 4000 {
        TwoPhases(Step(s, e).0, es[1..], x, time + ms);
      } else {
        SecondPhase(Step(s, e).0, es[1..], x, 1);
      }
    }
  }

  lemma NoSplit(time: nat)
    requires time <= 4000
    ensures !Splits([], time)
  {
  }

  // ---- logoff records of one user ----

  /** Of the records of a logoff by c only j may be left. */
  ghost predicate OnlyLogoff(s: State, c: string, j: nat)
    requires Wf(s)
  {
    forall id | LogoffOf(s, id, c) :: id == j
  }

  predicate NotHeader(e: Event, c: string) {
    e.G2HeaderArrives? ==> e.my != c
  }

  /** Without a header of his own no logoff record of c comes up. */
  ghost predicate NoNewLogoff(s: State, t: State, c: string)
    requires Wf(s)
  {
    Wf(t) && forall id | LogoffOf(t, id, c) :: LogoffOf(s, id, c)
  }

  lemma HeaderNoLogoff(s: State, my: string, your: string, id: nat, cs: Pair, c: string)
    requires Wf(s) && (my != c || your == s.config.callsign)
    ensures NoNewLogoff(s, G2Header(s, my, your, id, cs).0, c)
  {
    hide TakeG2;
    WfG2Header(s, my, your, id, cs);
    if your == s.config.callsign {
      if my !in s.users {
        TakeG2Keeps(PutRecord(AddUser(s, my), id, NewRecord(s.next, true, false)), id, my, true, cs);
      } else {
        TakeG2Keeps(PutRecord(ResetUser(s, s.users[my]), id, NewRecord(s.users[my], false, false)), id, my, false, cs);
      }
    }
  }

  /** A voice frame changes no record's kind. */
  lemma VoiceKinds(s: State, id: nat, end: bool, i: nat)
    requires Wf(s) && Live(s, id) && Live(G2Voice(s, id, end).0, i)
    ensures var (q, r) := (s.ids, G2Voice(s, id, end).0.ids[i].value);
            && Live(s, i) && r.user == q[i].value.user && r.user in s.heap
            && r.login == q[i].value.login && r.logoff == q[i].value.logoff
  {
    hide Relay;
  }

  lemma VoiceNoLogoff(s: State, id: nat, end: bool, c: string)
    requires Wf(s) && (id in s.ids ==> s.ids[id].Some?)
    ensures NoNewLogoff(s, G2Voice(s, id, end).0, c)
  {
    hide Relay, Wf;
    WfG2Voice(s, id, end);
    if id in s.ids {
      VoiceCallsigns(s, id, end);
      forall i | LogoffOf(G2Voice(s, id, end).0, i, c)
        ensures LogoffOf(s, i, c)
      {
        VoiceKinds(s, id, end, i);
      }
    }
  }

  lemma OthersNoLogoff(s: State, e: Event, c: string)
    requires Wf(s) && Proper(s, e) && (e.RefHeaderArrives? || e.RefVoiceArrives? || e.Dropped? || e.Linked?)
    ensures NoNewLogoff(s, Step(s, e).0, c)
  {
    hide FanOut, Relay, Texts, Sorted, First, RecordsOf, Drop, Wf;
    if e.Dropped? {
      DropNoLogoff(s, e.callsign, c);
    } else {
      StepWf(s, e);
      var t := Step(s, e).0;
      assert t.heap == s.heap && forall id | Live(t, id) :: Live(s, id) && t.ids[id] == s.ids[id];
    }
  }

  lemma DropNoLogoff(s: State, callsign: string, c: string)
    requires Wf(s)
    ensures Wf(Drop(s, callsign).0) && NoNewLogoff(s, Drop(s, callsign).0, c)
  {
    hide FanOut, Relay, Texts, Sorted, First, RecordsOf;
    var t := Drop(s, callsign).0;
    StepWf(s, Dropped(callsign));
    assert forall id | Live(t, id) :: Live(s, id) && t.ids[id] == s.ids[id];
  }

  lemma TickNoLogoff(s: State, ms: nat, gone: set<string>, c: string)
    requires Wf(s)
    ensures NoNewLogoff(s, Tick(s, ms, gone).0, c)
  {
    hide Tick, Wf, Kept, ClockRecord;
    WfTick(s, ms, gone);
    var t := Tick(s, ms, gone).0;
    forall id | LogoffOf(t, id, c)
      ensures LogoffOf(s, id, c)
    {
      TickRecord(s, ms, gone, id);
      SameKind(s.ids[id], ms);
    }
  }

  lemma StepNoLogoff(s: State, e: Event, c: string)
    requires Wf(s) && Proper(s, e) && NotHeader(e, c)
    ensures NoNewLogoff(s, Step(s, e).0, c)
  {
    hide Wf, LogoffOf, G2Header, G2Voice, Tick;
    match e
    case G2HeaderArrives(my, your, id, cs) => if Routed(s, e) { HeaderNoLogoff(s, my, your, id, cs, c); }
    case G2VoiceArrives(id, end) => if Routed(s, e) { VoiceNoLogoff(s, id, end, c); }
    case Clocked(ms, gone) => TickNoLogoff(s, ms, gone, c);
    case _ => OthersNoLogoff(s, e, c);
  }

  /** Record j is that of a logoff by c, in its first phase. */
  predicate Pending(s: State, c: string, j: nat, time: nat)
    requires Wf(s)
  {
    LogoffOf(s, j, c) && Phase(s, j, time, false)
  }

  /** No logoff record of c is in its first phase. */
  ghost predicate NonePending(s: State, c: string, j: nat)
    requires Wf(s)
  {
    LogoffOf(s, j, c) ==> s.ids[j].value.end
  }

  lemma CallsignKept(s: State, e: Event, j: nat, c: string)
    requires Wf(s) && Proper(s, e) && !Touches(s, e, j) && LogoffOf(s, j, c)
    ensures Wf(Step(s, e).0)
    ensures Live(Step(s, e).0, j) ==> LogoffOf(Step(s, e).0, j, c)
  {
    hide Wf, Tick, ClockRecord, Kept;
    StepWf(s, e);
    LogoffLive(s, j, c);
    StepCallsigns(s, e);
    if e.Clocked? {
      TickRecord(s, e.ms, e.gone, j);
      SameKind(s.ids[j], e.ms);
    } else {
      StepKeepsRecord(s, e, j);
    }
  }

  lemma LogoffLive(s: State, j: nat, c: string)
    requires Wf(s) && LogoffOf(s, j, c)
    ensures Live(s, j) && s.ids[j].value.user in s.heap
  {
  }

  /** No user object changes its callsign. */
  predicate SameCallsigns(s: State, t: State) {
    forall u | u in s.heap :: u in t.heap && t.heap[u].callsign == s.heap[u].callsign
  }

  lemma HeaderCallsigns(s: State, my: string, your: string, id: nat, cs: Pair)
    requires Wf(s)
    ensures SameCallsigns(s, G2Header(s, my, your, id, cs).0)
  {
    hide TakeG2;
    if your == s.config.callsign {
      if my !in s.users {
        TakeG2Keeps(PutRecord(AddUser(s, my), id, NewRecord(s.next, true, false)), id, my, true, cs);
      } else {
        TakeG2Keeps(PutRecord(ResetUser(s, s.users[my]), id, NewRecord(s.users[my], false, false)), id, my, false, cs);
      }
    }
  }

  lemma VoiceCallsigns(s: State, id: nat, end: bool)
    requires Wf(s) && (id in s.ids ==> s.ids[id].Some?)
    ensures SameCallsigns(s, G2Voice(s, id, end).0)
  {
    hide Relay;
    if id in s.ids {
      assert Live(s, id);
    }
  }

  lemma StepCallsigns(s: State, e: Event)
    requires Wf(s) && Proper(s, e)
    ensures SameCallsigns(s, Step(s, e).0)
  {
    hide Wf, FanOut, Relay, Texts, Sorted, First, RecordsOf, Tick, G2Header, G2Voice;
    match e
    case G2HeaderArrives(my, your, id, cs) => HeaderCallsigns(s, my, your, id, cs);
    case G2VoiceArrives(id, end) => if Routed(s, e) { VoiceCallsigns(s, id, end); }
    case Clocked(ms, gone) => TickIds(s, ms, gone);
    case _ =>
  }

  lemma PendingStep(s: State, e: Event, c: string, j: nat, time: nat)
    requires Wf(s) && Proper(s, e) && !Touches(s, e, j) && NotHeader(e, c)
    requires Pending(s, c, j, time) && OnlyLogoff(s, c, j)
    ensures Wf(Step(s, e).0)
    ensures var t := Step(s, e).0;
            OnlyLogoff(t, c, j) && (if time + Time(e) <= 4000 then Pending(t, c, j, time + Time(e))
                                    else NonePending(t, c, j))
  {
    hide Wf, Step, LogoffOf, Touches, NotHeader;
    PhaseStep(s, e, j, time, false);
    CallsignKept(s, e, j, c);
    StepNoLogoff(s, e, c);
  }

  lemma NonePendingStep(s: State, e: Event, c: string, j: nat)
    requires Wf(s) && Proper(s, e) && !Touches(s, e, j) && NotHeader(e, c)
    requires NonePending(s, c, j) && OnlyLogoff(s, c, j)
    ensures Wf(Step(s, e).0)
    ensures NonePending(Step(s, e).0, c, j) && OnlyLogoff(Step(s, e).0, c, j)
  {
    hide Wf, Step, LogoffOf, Touches, NotHeader;
    StepWf(s, e);
    StepNoLogoff(s, e, c);
    if LogoffOf(Step(s, e).0, j, c) {
      LogoffLive(s, j, c);
      LogoffLive(Step(s, e).0, j, c);
      EndedStep(s, e, j);
    }
  }

  lemma EndedStep(s: State, e: Event, j: nat)
    requires Wf(s) && Proper(s, e) && !Touches(s, e, j) && Live(s, j) && s.ids[j].value.end
    ensures Live(Step(s, e).0, j) ==> Step(s, e).0.ids[j].value.end
  {
    hide Wf, Tick;
    if e.Clocked? {
      TickRecord(s, e.ms, e.gone, j);
    } else {
      StepKeepsRecord(s, e, j);
    }
  }

  /** What is left of the logoff after a run. */
  lemma {:induction false} PendingRun(s: State, es: seq<Event>, c: string, j: nat, time: nat)
    requires Wf(s) && Legal(s, es) && Untouched(s, es, j) && (forall e | e in es :: NotHeader(e, c))
    requires Pending(s, c, j, time) && OnlyLogoff(s, c, j)
    ensures var t := Run(s, es).0;
            OnlyLogoff(t, c, j)
            && (if time + Elapsed(es) <= 4000 then Pending(t, c, j, time + Elapsed(es)) else NonePending(t, c, j))
    decreases |es|
  {
    hide Wf, Step, Touches, Pending, NonePending, OnlyLogoff, NotHeader;
    if es == [] {
      PendingTime(s, c, j, time);
    } else {
      var e := es[0];
      assert e in es && forall f | f in es[1..] :: f in es;
      StepWf(s, e);
      PendingStep(s, e, c, j, time);
      if time + Time(e) <= 4000 {
        PendingRun(Step(s, e).0, es[1..], c, j, time + Time(e));
      } else {
        NonePendingRun(Step(s, e).0, es[1..], c, j);
      }
    }
  }

  lemma PendingTime(s: State, c: string, j: nat, time: nat)
    requires Wf(s) && Pending(s, c, j, time)
    ensures 1 <= time <= 4000
  {
  }

  lemma {:induction false} NonePendingRun(s: State, es: seq<Event>, c: string, j: nat)
    requires Wf(s) && Legal(s, es) && Untouched(s, es, j) && (forall e | e in es :: NotHeader(e, c))
    requires NonePending(s, c, j) && OnlyLogoff(s, c, j)
    ensures NonePending(Run(s, es).0, c, j) && OnlyLogoff(Run(s, es).0, c, j)
    decreases |es|
  {
    hide Wf, Step, Touches, NonePending, OnlyLogoff, NotHeader;
    if es != [] {
      assert es[0] in es && forall f | f in es[1..] :: f in es;
      StepWf(s, es[0]);
      NonePendingStep(s, es[0], c, j);
      NonePendingRun(Step(s, es[0]).0, es[1..], c, j);
    }
  }

  // ---- a quick return ----

  /** Some clock step leaves the floor free when at least the user timeout has
      passed, heard ms of it before the run. */
  predicate TimesUp(s: State, es: seq<Event>, heard: nat)
    requires Wf(s) && Legal(s, es)
    decreases |es|
  {
    es != []
    && (StepWf(s, es[0]);
        (es[0].Clocked? && s.config.userTimeout > 0 && Step(s, es[0]).0.floor == 0 && heard + es[0].ms >= Limit(s))
        || TimesUp(Step(s, es[0]).0, es[1..], heard + Time(es[0])))
  }

  lemma RunsOutIff(s: State, c: string, j: nat, time: nat, ms: nat)
    requires Wf(s) && Pending(s, c, j, time) && OnlyLogoff(s, c, j) && ms + 4001 < U32
    ensures RunsOut(s, c, ms) <==> time + ms > 4000
  {
    if time + ms > 4000 {
      assert LogsOff(s, j, ms);
    }
  }

  lemma NoneRunsOut(s: State, c: string, j: nat, ms: nat)
    requires Wf(s) && NonePending(s, c, j) && OnlyLogoff(s, c, j)
    ensures !RunsOut(s, c, ms)
  {
  }

  lemma ErasesPending(s: State, e: Event, c: string, j: nat, time: nat, heard: nat)
    requires Wf(s) && Proper(s, e) && !Touches(s, e, j) && Pending(s, c, j, time) && OnlyLogoff(s, c, j)
    ensures Erases(s, e, c, heard) <==>
            time + Time(e) > 4000
            || (e.Clocked? && s.config.userTimeout > 0 && Step(s, e).0.floor == 0 && heard + e.ms >= Limit(s))
  {
    hide Wf, Step, RunsOut, LogoffOf, Phase;
    PendingTime(s, c, j, time);
    if e.Clocked? {
      RunsOutIff(s, c, j, time, e.ms);
    }
  }

  lemma ErasesNone(s: State, e: Event, c: string, j: nat, heard: nat)
    requires Wf(s) && Proper(s, e) && !Touches(s, e, j) && NonePending(s, c, j) && OnlyLogoff(s, c, j)
    ensures Erases(s, e, c, heard) <==>
            e.Clocked? && s.config.userTimeout > 0 && Step(s, e).0.floor == 0 && heard + e.ms >= Limit(s)
  {
    hide Wf, Step, RunsOut, LogoffOf;
    if e.Clocked? {
      NoneRunsOut(s, c, j, e.ms);
    }
  }

  /** Past the logoff record only the user timeout erases. */
  lemma {:induction false} ErasedNone(s: State, es: seq<Event>, c: string, j: nat, heard: nat)
    requires Wf(s) && Legal(s, es) && Untouched(s, es, j) && (forall e | e in es :: NotHeader(e, c))
    requires NonePending(s, c, j) && OnlyLogoff(s, c, j)
    ensures ErasedIn(s, es, c, heard) <==> TimesUp(s, es, heard)
    decreases |es|
  {
    hide Wf, Step, Touches, NonePending, OnlyLogoff, NotHeader, Erases;
    if es != [] {
      var e := es[0];
      assert e in es && forall f | f in es[1..] :: f in es;
      StepWf(s, e);
      ErasesNone(s, e, c, j, heard);
      NonePendingStep(s, e, c, j);
      ErasedNone(Step(s, e).0, es[1..], c, j, heard + Time(e));
    }
  }

  /** Until then the record does too, once its four seconds are over. */
  lemma {:induction false} ErasedPending(s: State, es: seq<Event>, c: string, j: nat, time: nat, heard: nat)
    requires Wf(s) && Legal(s, es) && Untouched(s, es, j) && (forall e | e in es :: NotHeader(e, c))
    requires Pending(s, c, j, time) && OnlyLogoff(s, c, j)
    ensures ErasedIn(s, es, c, heard) <==> time + Elapsed(es) > 4000 || TimesUp(s, es, heard)
    decreases |es|
  {
    hide Wf, Step, Touches, Pending, OnlyLogoff, NotHeader, Erases;
    PendingTime(s, c, j, time);
    if es != [] {
      var e := es[0];
      assert e in es && forall f | f in es[1..] :: f in es;
      StepWf(s, e);
      ErasesPending(s, e, c, j, time, heard);
      PendingStep(s, e, c, j, time);
      if time + Time(e) <= 4000 {
        ErasedPending(Step(s, e).0, es[1..], c, j, time + Time(e), heard + Time(e));
      }
    }
  }

  lemma LeavingHeader(s: State, c: string, j: nat, cs: Pair)
    requires Wf(s) && c in s.users && s.config.callsign != s.config.offCallsign && OnlyLogoff(s, c, j)
    ensures Wf(G2Header(s, c, s.config.offCallsign, j, cs).0)
    ensures var t := G2Header(s, c, s.config.offCallsign, j, cs).0;
            Pending(t, c, j, 1) && OnlyLogoff(t, c, j) && c !in t.users && t.config == s.config
  {
    WfG2Header(s, c, s.config.offCallsign, j, cs);
    var t := G2Header(s, c, s.config.offCallsign, j, cs).0;
    assert forall i | LogoffOf(t, i, c) && i != j :: LogoffOf(s, i, c);
  }

  lemma ReturningHeader(s: State, c: string, j: nat, k: nat, cs: Pair)
    requires Wf(s) && OnlyLogoff(s, c, j) && c !in s.users && j != k
    ensures Wf(G2Header(s, c, s.config.callsign, k, cs).0)
    ensures var t := G2Header(s, c, s.config.callsign, k, cs).0;
            && OnlyLogoff(t, c, j) && c in t.users && t.config == s.config
            && (LogoffOf(t, j, c) <==> LogoffOf(s, j, c)) && Kept1(s, t, j)
            && (s.config.userTimeout > 0 ==> Heard(t, c) == 1)
  {
    hide TakeG2;
    WfG2Header(s, c, s.config.callsign, k, cs);
    HeaderNoLogoff(s, c, s.config.callsign, k, cs, c);
    HeaderKeepsRecord(s, c, s.config.callsign, k, cs, j);
    HeaderCallsigns(s, c, s.config.callsign, k, cs);
    TakeG2Keeps(PutRecord(AddUser(s, c), k, NewRecord(s.next, true, false)), k, c, true, cs);
    var t := G2Header(s, c, s.config.callsign, k, cs).0;
    assert Live(s, j) ==> s.ids[j].value.user in s.heap;
  }

  lemma {:induction false} AwayRun(s: State, es: seq<Event>, c: string)
    requires Wf(s) && Legal(s, es) && (forall e | e in es :: NotHeader(e, c)) && c !in s.users
    ensures c !in Run(s, es).0.users && Run(s, es).0.config == s.config
    decreases |es|
  {
    hide Wf, Step;
    if es != [] {
      assert es[0] in es && forall f | f in es[1..] :: f in es;
      StepWf(s, es[0]);
      AwayStep(s, es[0], c);
      StepConfig(s, es[0]);
      AwayRun(Step(s, es[0]).0, es[1..], c);
    }
  }

  lemma {:induction false} ApartHeaders(s: State, es: seq<Event>, c: string)
    requires Wf(s) && Legal(s, es) && AllApart(s, es, c)
    ensures forall e | e in es :: NotHeader(e, c)
    decreases |es|
  {
    hide Wf, Step, Hears;
    if es != [] {
      StepWf(s, es[0]);
      ApartHeaders(Step(s, es[0]).0, es[1..], c);
      assert forall e | e in es :: e == es[0] || e in es[1..];
    }
  }

  lemma PendingKept(s: State, t: State, c: string, j: nat)
    requires Wf(s) && Wf(t) && Kept1(s, t, j) && (LogoffOf(t, j, c) <==> LogoffOf(s, j, c))
    ensures forall time: nat :: Pending(s, c, j, time) ==> Pending(t, c, j, time)
    ensures NonePending(s, c, j) ==> NonePending(t, c, j)
  {
  }

  /** A subscriber logs off under j, and subscribes again under k. In between and
      afterwards anything may happen that leaves his logoff record to the clock.
      Then he is dropped exactly when he came back within four seconds and they are
      over, or when his time is up. */
  lemma QuickReturnIff(s: State, c: string, j: nat, k: nat, cs: Pair, away: seq<Event>, back: seq<Event>)
    requires Wf(s) && c in s.users && s.config.callsign != s.config.offCallsign && OnlyLogoff(s, c, j)
    requires j != 0 && k != 0 && j != k && forall e | e in away :: NotHeader(e, c)
    requires var s1 := G2Header(s, c, s.config.offCallsign, j, cs).0;
             Wf(s1) && Legal(s1, away) && Untouched(s1, away, j)
    requires var s3 := G2Header(Run(G2Header(s, c, s.config.offCallsign, j, cs).0, away).0, c, s.config.callsign, k,
                                cs).0;
             Wf(s3) && Legal(s3, back) && Untouched(s3, back, j) && AllApart(s3, back, c) && 1 + Elapsed(back) < U32
    ensures var s3 := G2Header(Run(G2Header(s, c, s.config.offCallsign, j, cs).0, away).0, c, s.config.callsign, k,
                               cs).0;
            c in Run(s3, back).0.users <==>
            !(Elapsed(away) < 4000 <= Elapsed(away) + Elapsed(back)) && !TimesUp(s3, back, 0)
  {
    hide Wf, G2Header, Legal, Run, Untouched, Pending, NonePending, OnlyLogoff, Heard, AllApart, TimesUp, ErasedIn,
         LogoffOf, Kept1;
    LeavingHeader(s, c, j, cs);
    var s1 := G2Header(s, c, s.config.offCallsign, j, cs).0;
    PendingRun(s1, away, c, j, 1);
    AwayRun(s1, away, c);
    var s2 := Run(s1, away).0;
    ReturningHeader(s2, c, j, k, cs);
    var s3 := G2Header(s2, c, s.config.callsign, k, cs).0;
    PendingKept(s2, s3, c, j);
    SubscriptionLasts(s3, back, c);
    ApartHeaders(s3, back, c);
    if Elapsed(away) < 4000 {
      ErasedPending(s3, back, c, j, 1 + Elapsed(away), 0);
    } else {
      ErasedNone(s3, back, c, j, 0);
    }
  }

  // ---- runs of the clock alone ----

  /** Clock steps, of any length that does not overflow a timer. */
  predicate OnlyClock(es: seq<Event>) {
    forall e | e in es :: e.Clocked? && e.gone == {} && e.ms + 4001 < U32
  }

  lemma {:induction false} ClockLegal(s: State, es: seq<Event>, x: nat, c: string)
    requires Wf(s) && OnlyClock(es)
    ensures Legal(s, es) && Untouched(s, es, x) && AllApart(s, es, c)
    decreases |es|
  {
    hide Wf, Step;
    if es != [] {
      assert es[0] in es && forall f | f in es[1..] :: f in es;
      StepWf(s, es[0]);
      ClockLegal(Step(s, es[0]).0, es[1..], x, c);
    }
  }

  /** Four seconds of it free the floor. */
  lemma {:induction false} ClockFrees(s: State, es: seq<Event>)
    requires Wf(s) && OnlyClock(es) && Legal(s, es) && Backed(s) && (s.floor == 0 || Elapsed(es) >= Left(s))
    ensures var t := Run(s, es).0; t.floor == 0 && t.linkType == s.linkType
    decreases |es|
  {
    hide Wf, Tick, Backed, Left;
    if es == [] {
      LeftPositive(s);
    } else {
      var e := es[0];
      assert e in es && forall f | f in es[1..] :: f in es;
      StepWf(s, e);
      TickBacked(s, e.ms, e.gone);
      TickFloor(s, e.ms, e.gone);
      TickLinkType(s, e.ms, e.gone);
      ClockFrees(Step(s, e).0, es[1..]);
    }
  }

  lemma LeftPositive(s: State)
    requires Backed(s)
    ensures s.floor != 0 ==> Left(s) > 0
  {
  }

  lemma TickLinkType(s: State, ms: nat, gone: set<string>)
    requires Wf(s)
    ensures Tick(s, ms, gone).0.linkType == s.linkType
  {
    hide Wf;
  }

  lemma {:induction false} TooEarly(s: State, es: seq<Event>, heard: nat)
    requires Wf(s) && Legal(s, es) && (s.config.userTimeout > 0 ==> heard + Elapsed(es) < Limit(s))
    ensures !TimesUp(s, es, heard)
    decreases |es|
  {
    hide Wf, Step;
    if es != [] {
      StepWf(s, es[0]);
      StepConfig(s, es[0]);
      TooEarly(Step(s, es[0]).0, es[1..], heard + Time(es[0]));
    }
  }
}
