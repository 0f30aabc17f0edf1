/** When a G2 stream is forwarded: never while its record is that of a login. */
module GroupSilence {
  import opened Timer
  import opened Caches
  import opened Group
  import opened GroupRuns
  import opened GroupTiming
  import opened GroupFanOut
  import opened GroupSubscription
  import opened GroupWaits

  // ---- exactly what is forwarded ----

  /** A frame of stream x that came in over G2. */
  predicate OfStream(o: Out, x: nat) {
    o.Sent? && o.source.FromG2? && o.id == x
  }

  predicate Forwarded(outs: seq<Out>, x: nat) {
    exists o :: o in outs && OfStream(o, x)
  }

  /** A repeater is on the list, or at the start of the way to a subscriber and not
      the talker's own. */
  ghost predicate Reaches(s: State, my: string, cs: Pair) {
    exists k :: k in s.repeaters || (Wanted(s, cs, k) && !cs.HomeIs(my, k))
  }

  lemma ReachesIff(s: State, my: string, cs: Pair)
    ensures FanOut(s.repeaters, cs, Sorted(s.users.Keys), Some(cs.Home(my))) != map[] <==> Reaches(s, my, cs)
  {
    hide FanOut, Sorted, Wanted;
    var reps := FanOut(s.repeaters, cs, Sorted(s.users.Keys), Some(cs.Home(my)));
    forall k
      ensures k in reps <==> k in s.repeaters || (Wanted(s, cs, k) && !cs.HomeIs(my, k))
    {
      HomeKept(s, cs, my, k);
    }
    if reps != map[] {
      var k :| k in reps;
    }
  }

  /** The event forwards something of stream x: a talk header that takes the floor,
      or a voice frame of the stream on it whose record is not that of a login; and
      there is somewhere to send it. */
  ghost predicate Forwards(s: State, e: Event, x: nat)
    requires Wf(s)
  {
    match e
    case G2HeaderArrives(my, your, id, cs) =>
      && your == s.config.callsign && id == x && my in s.users && !Live(s, id) && s.floor == 0 && !s.config.listenOnly
      && (s.linkType != LT_NONE || Reaches(s, my, cs))
    case G2VoiceArrives(id, _) =>
      && id == x && id == s.floor && Live(s, id) && !LoginRecord(s, id) && !s.config.listenOnly
      && (s.linkType != LT_NONE || s.repeaters != map[])
    case _ => false
  }

  lemma ForwardedConcat(a: seq<Out>, b: seq<Out>, x: nat)
    ensures Forwarded(a + b, x) <==> Forwarded(a, x) || Forwarded(b, x)
  {
    if o :| o in a && OfStream(o, x) {
      assert o in a + b;
    }
    if o :| o in b && OfStream(o, x) {
      assert o in a + b;
    }
    if o :| o in a + b && OfStream(o, x) {
      assert o in a || o in b;
    }
  }

  lemma ForwardedOne(o: Out, x: nat)
    ensures Forwarded([o], x) <==> OfStream(o, x)
  {
    assert o in [o];
  }

  lemma {:induction false} RelayToForwards(source: Source, reps: map<string, Repeater>, keys: seq<string>, id: nat,
                                           kind: Kind, x: nat)
    requires forall k | k in keys :: k in reps
    ensures Forwarded(RelayTo(source, reps, keys, id, kind), x) <==> source.FromG2? && id == x && keys != []
  {
    hide Forwarded;
    if keys == [] {
      NothingForwarded(x);
    } else {
      var k := keys[|keys| - 1];
      var o := Sent(source, ToRepeater(k, reps[k].addr), id, kind);
      RelayToForwards(source, reps, keys[..|keys| - 1], id, kind, x);
      ForwardedOne(o, x);
      ForwardedConcat(RelayTo(source, reps, keys[..|keys| - 1], id, kind), [o], x);
    }
  }

  lemma NothingForwarded(x: nat)
    ensures !Forwarded([], x)
  {
  }

  lemma RelayForwards(source: Source, reps: map<string, Repeater>, id: nat, kind: Kind, x: nat)
    ensures Forwarded(Relay(source, reps, id, kind), x) <==> source.FromG2? && id == x && reps != map[]
  {
    hide Forwarded, RelayTo;
    RelayToForwards(source, reps, Sorted(reps.Keys), id, kind, x);
    NoKeys(reps);
  }

  lemma NoKeys(reps: map<string, Repeater>)
    ensures Sorted(reps.Keys) == [] <==> reps == map[]
  {
    if reps != map[] {
      var k :| k in reps;
      assert k in Sorted(reps.Keys);
    }
  }

  lemma {:induction false} TextsForward(source: Source, reps: map<string, Repeater>, id: nat, n: nat, x: nat)
    ensures Forwarded(Texts(source, reps, id, n), x) ==> source.FromG2? && id == x && reps != map[]
  {
    hide Forwarded, Relay;
    if n == 0 {
      NothingForwarded(x);
    } else {
      TextsForward(source, reps, id, n - 1, x);
      RelayForwards(source, reps, id, Text(n - 1), x);
      ForwardedConcat(Texts(source, reps, id, n - 1), Relay(source, reps, id, Text(n - 1)), x);
    }
  }

  /** A frame for the reflector, and one for each repeater. */
  lemma BothForward(s: State, reps: map<string, Repeater>, id: nat, kind: Kind, x: nat)
    ensures Forwarded(Forward(s, reps, id, kind), x) <==> id == x && (s.linkType != LT_NONE || reps != map[])
  {
    hide Forwarded, Relay;
    RelayForwards(FromG2, reps, id, kind, x);
    NothingForwarded(x);
    ForwardedOne(Sent(FromG2, ToReflector, id, kind), x);
    ForwardedConcat(if s.linkType != LT_NONE then [Sent(FromG2, ToReflector, id, kind)] else [],
                    Relay(FromG2, reps, id, kind), x);
  }

  lemma TakeForwards(s: State, id: nat, my: string, login: bool, cs: Pair, x: nat)
    ensures Forwarded(TakeG2(s, id, my, login, cs).1, x) <==>
            s.floor == 0 && !login && !s.config.listenOnly && id == x
            && (s.linkType != LT_NONE || FanOut(s.repeaters, cs, Sorted(s.users.Keys), Some(cs.Home(my))) != map[])
  {
    hide Forwarded, FanOut, Relay, Texts, Sorted;
    NothingForwarded(x);
    if s.floor == 0 {
      var reps := FanOut(s.repeaters, cs, Sorted(s.users.Keys), Some(cs.Home(my)));
      var take := Take(id, reps, login || s.config.listenOnly);
      var both, texts := Forward(s, reps, id, Header), Texts(FromG2, reps, id, TEXT_FRAMES);
      BothForward(s, reps, id, Header, x);
      TextsForward(FromG2, reps, id, TEXT_FRAMES, x);
      ForwardedOne(take, x);
      ForwardedConcat(both, texts, x);
      ForwardedConcat([take], both + texts, x);
      ForwardedConcat([take], [], x);
    }
  }

  lemma VoiceForwards(s: State, id: nat, end: bool, x: nat)
    requires Wf(s) && (id in s.ids ==> s.ids[id].Some?)
    ensures Forwarded(G2Voice(s, id, end).1, x) <==>
            id == x && id == s.floor && Live(s, id) && !LoginRecord(s, id) && !s.config.listenOnly
            && (s.linkType != LT_NONE || s.repeaters != map[])
  {
    hide Forwarded, Relay;
    NothingForwarded(x);
    if id in s.ids {
      var r := s.ids[id].value;
      var sent := if id == s.floor && !r.login && !s.config.listenOnly then Forward(s, s.repeaters, id, Voice) else [];
      var rest := if end && id == s.floor then ReleaseOf(id) else [];
      assert G2Voice(s, id, end).1 == sent + rest;
      BothForward(s, s.repeaters, id, Voice, x);
      ForwardedOne(Release, x);
      ForwardedConcat(sent, rest, x);
    }
  }

  lemma RefForwards(s: State, e: Event, x: nat)
    requires Wf(s) && Proper(s, e) && (e.RefHeaderArrives? || e.RefVoiceArrives?)
    ensures !Forwarded(Step(s, e).1, x)
  {
    hide FanOut, RelayTo, Texts, Sorted, Wf;
    match e
    case RefHeaderArrives(id, cs) =>
      var reps := FanOut(s.repeaters, cs, Sorted(s.users.Keys), None);
      RelaySource(FromReflector, reps, Sorted(reps.Keys), id, Header);
      TextsSource(FromReflector, reps, id, TEXT_FRAMES);
    case RefVoiceArrives(id, _) => RelaySource(FromReflector, s.repeaters, Sorted(s.repeaters.Keys), id, Voice);
  }

  /** Every event: exactly when it forwards something of stream x. */
  lemma ForwardIff(s: State, e: Event, x: nat)
    requires Wf(s) && Proper(s, e)
    ensures Forwarded(Step(s, e).1, x) <==> Forwards(s, e, x)
  {
    hide Forwarded, FanOut, Relay, Texts, Sorted, TakeG2, First, RecordsOf, G2Voice, RefHeader, RefVoice,
         Reaches;
    NothingForwarded(x);
    ForwardedOne(Release, x);
    match e
    case G2HeaderArrives(my, your, id, cs) =>
      if your == s.config.callsign {
        if my !in s.users {
          TakeForwards(PutRecord(AddUser(s, my), id, NewRecord(s.next, true, false)), id, my, true, cs, x);
        } else if !Live(s, id) {
          ReachesIff(s, my, cs);
          TakeForwards(PutRecord(ResetUser(s, s.users[my]), id, NewRecord(s.users[my], false, false)), id, my, false,
                       cs, x);
        }
      }
    case G2VoiceArrives(id, end) => if Routed(s, e) { VoiceForwards(s, id, end, x); }
    case RefHeaderArrives(_, _) => RefForwards(s, e, x);
    case RefVoiceArrives(_, _) => RefForwards(s, e, x);
    case Clocked(ms, gone) => TickFloor(s, ms, gone);
    case _ =>
  }

  // ---- subscribing is silent ----

  /** What takes a login record away: a logoff under its id, remote control, or the
      end of its acknowledgement. */
  predicate Loses(s: State, e: Event, x: nat)
    requires Wf(s)
  {
    match e
    case G2HeaderArrives(my, your, id, _) => Routed(s, e) && your != s.config.callsign && id == x && my in s.users
    case Dropped(callsign) =>
      callsign == ALL
      || (callsign in s.users
          && var recs := RecordsOf(s, s.users[callsign]);
          (recs != {} && First(recs) == x) || s.users.Keys == {callsign})
    case Clocked(ms, _) => x in s.ids && !Kept(s.ids[x], ms)
    case _ => false
  }

  lemma LoginLostIff(s: State, e: Event, x: nat)
    requires Wf(s) && Proper(s, e) && LoginRecord(s, x)
    ensures !LoginRecord(Step(s, e).0, x) <==> Loses(s, e, x)
  {
    hide Wf, TakeG2, Drop, Tick, FanOut, Relay, Texts, Sorted;
    match e
    case G2HeaderArrives(my, your, id, cs) =>
      if Routed(s, e) && your == s.config.callsign {
        if my !in s.users {
          TimeoutFits(s);
          TakeG2Keeps(PutRecord(AddUser(s, my), id, NewRecord(s.next, true, false)), id, my, true, cs);
        } else {
          HeldTalker(s, my);
          TakeG2Keeps(PutRecord(ResetUser(s, s.users[my]), id, NewRecord(s.users[my], false, false)), id, my, false,
                      cs);
        }
      }
    case Dropped(callsign) => DropLoses(s, callsign, x);
    case Clocked(ms, gone) => TickIds(s, ms, gone);
    case _ =>
  }

  lemma DropLoses(s: State, callsign: string, x: nat)
    requires LoginRecord(s, x)
    ensures !LoginRecord(Drop(s, callsign).0, x) <==>
            callsign == ALL
            || (callsign in s.users
                && var recs := RecordsOf(s, s.users[callsign]);
                (recs != {} && First(recs) == x) || s.users.Keys == {callsign})
  {
    hide First, RecordsOf;
    if callsign in s.users {
      LastUser(s.users, callsign);
    }
  }

  /** The login record of x is there whenever an event of the run arrives. */
  predicate LoginThroughout(s: State, es: seq<Event>, x: nat)
    requires Wf(s) && Legal(s, es)
    decreases |es|
  {
    es == [] || (LoginRecord(s, x) && (StepWf(s, es[0]); LoginThroughout(Step(s, es[0]).0, es[1..], x)))
  }

  lemma {:induction false} LoginRunSilent(s: State, es: seq<Event>, x: nat)
    requires Wf(s) && Legal(s, es) && LoginThroughout(s, es, x)
    ensures !Forwarded(Run(s, es).1, x)
    decreases |es|
  {
    hide Wf, Step, Forwarded;
    if es == [] {
      NothingForwarded(x);
    } else {
      StepWf(s, es[0]);
      ForwardIff(s, es[0], x);
      LoginRunSilent(Step(s, es[0]).0, es[1..], x);
      ForwardedConcat(Step(s, es[0]).1, Run(Step(s, es[0]).0, es[1..]).1, x);
    }
  }

  /** Subscribing is silent: from the header that subscribes its user, whether or
      not the stream takes the floor, until its login record is gone, nothing of the
      stream is forwarded. */
  lemma SubscribingIsSilent(s: State, my: string, x: nat, cs: Pair, es: seq<Event>)
    requires Wf(s) && x != 0 && my !in s.users
    requires var e := G2HeaderArrives(my, s.config.callsign, x, cs);
             && Wf(Step(s, e).0) && Legal(Step(s, e).0, es) && LoginThroughout(Step(s, e).0, es, x)
    ensures var e := G2HeaderArrives(my, s.config.callsign, x, cs);
            && Legal(s, [e] + es) && LoginRecord(Step(s, e).0, x)
            && !Forwarded(Run(s, [e] + es).1, x)
  {
    hide Wf, Forwarded, Legal, Run, LoginThroughout, G2Header;
    var e := G2HeaderArrives(my, s.config.callsign, x, cs);
    ForwardIff(s, e, x);
    LoginRecorded(s, my, x, cs);
    LoginRunSilent(Step(s, e).0, es, x);
    RunStep(s, e, es);
    ForwardedConcat(Step(s, e).1, Run(Step(s, e).0, es).1, x);
  }

  lemma LoginRecorded(s: State, my: string, x: nat, cs: Pair)
    requires Wf(s) && my !in s.users
    ensures var t := G2Header(s, my, s.config.callsign, x, cs).0;
            LoggingIn(t, x) && my in t.users && t.config == s.config && t.linkType == s.linkType
  {
    hide FanOut, Relay, Texts, Sorted;
  }

  // ---- and no longer than the record lasts ----

  /** A further header of the subscriber under the same id, after anything that left
      his login record to the clock, is forwarded exactly when both phases of the
      record are over, the floor is free, and there is somewhere to send it. */
  lemma ReturnForwardIff(s: State, my: string, x: nat, es: seq<Event>, cs: Pair)
    requires Wf(s) && LoginRecord(s, x) && Phase(s, x, 1, false) && x != 0
    requires Legal(s, es) && Untouched(s, es, x)
    ensures var t := Run(s, es).0;
            Forwarded(G2Header(t, my, t.config.callsign, x, cs).1, x) <==>
            Splits(es, 1) && t.floor == 0 && my in t.users && !t.config.listenOnly
            && (t.linkType != LT_NONE || Reaches(t, my, cs))
  {
    hide Wf, Phase, G2Header, Forwarded, FanOut, Sorted, Legal, Run, Untouched, Splits;
    TwoPhases(s, es, x, 1);
    var t := Run(s, es).0;
    ForwardIff(t, G2HeaderArrives(my, t.config.callsign, x, cs), x);
  }

  lemma FirstLogin(c: Config, other: string, y: nat, cs: Pair)
    requires c.userTimeout * 60000 + 1 < U32
    ensures var t := G2Header(Init(c, LT_DEXTRA), other, c.callsign, y, cs).0;
            && t.floor == y && t.users.Keys == {other} && (forall id | Live(t, id) :: !t.ids[id].value.logoff)
            && t.config == c && t.linkType == LT_DEXTRA
  {
    hide FanOut, Relay, Texts, Sorted;
  }

  lemma SecondLogin(s: State, my: string, x: nat, cs: Pair)
    requires Wf(s) && s.floor != 0 && my !in s.users && forall id | Live(s, id) :: !s.ids[id].value.logoff
    ensures Wf(G2Header(s, my, s.config.callsign, x, cs).0)
    ensures var t := G2Header(s, my, s.config.callsign, x, cs).0;
            && LoginRecord(t, x) && Phase(t, x, 1, false) && my in t.users
            && OnlyLogoff(t, my, x) && NonePending(t, my, x)
            && t.config == s.config && t.linkType == s.linkType
            && (s.config.userTimeout > 0 ==> Heard(t, my) == 1)
  {
    hide TakeG2;
    WfG2Header(s, my, s.config.callsign, x, cs);
    TakeHeld(PutRecord(AddUser(s, my), x, NewRecord(s.next, true, false)), x, my, true, cs);
    var t := G2Header(s, my, s.config.callsign, x, cs).0;
    assert forall id | Live(t, id) && id != x :: Live(s, id);
  }

  lemma {:induction false} ClockSilent(s: State, es: seq<Event>, x: nat)
    requires Wf(s) && Legal(s, es) && OnlyClock(es)
    ensures !Forwarded(Run(s, es).1, x)
    decreases |es|
  {
    hide Wf, Step, Forwarded;
    if es == [] {
      NothingForwarded(x);
    } else {
      assert es[0] in es && forall f | f in es[1..] :: f in es;
      StepWf(s, es[0]);
      ForwardIff(s, es[0], x);
      ClockSilent(Step(s, es[0]).0, es[1..], x);
      ForwardedConcat(Step(s, es[0]).1, Run(Step(s, es[0]).0, es[1..]).1, x);
    }
  }

  /** After a blocked login and any clock steps that let both phases pass, inside the
      user timeout, the subscriber is there, the floor is free and the record gone. */
  lemma BlockedReturns(s: State, my: string, x: nat, waits: seq<Event>, cs: Pair)
    requires Wf(s) && Backed(s) && LoginRecord(s, x) && Phase(s, x, 1, false) && x != 0 && my in s.users
    requires OnlyLogoff(s, my, x) && NonePending(s, my, x) && s.linkType == LT_DEXTRA && !s.config.listenOnly
    requires s.config.userTimeout > 0 ==> Heard(s, my) == 1
    requires s.config.userTimeout * 60000 + 1 < U32
    requires OnlyClock(waits) && Splits(waits, 1) && (s.config.userTimeout > 0 ==> Elapsed(waits) < Limit(s))
    ensures Legal(s, waits) && !Forwarded(Run(s, waits).1, x)
    ensures var t := Run(s, waits).0;
            t.config == s.config && Forwarded(G2Header(t, my, t.config.callsign, x, cs).1, x)
  {
    hide Wf, Backed, Phase, OnlyLogoff, NonePending, Heard, Forwarded, Legal, Run, Untouched, AllApart, ErasedIn,
      TimesUp, FanOut, Sorted, G2Header, OnlyClock;
    ClockLegal(s, waits, x, my);
    ClockSilent(s, waits, x);
    SubscriptionLasts(s, waits, my);
    ApartHeaders(s, waits, my);
    ErasedNone(s, waits, my, x, 0);
    TooEarly(s, waits, 0);
    LongEnough(waits);
    LeftBound(s);
    ClockFrees(s, waits);
    RunConfig(s, waits);
    ReturnForwardIff(s, my, x, waits, cs);
  }

  lemma LongEnough(es: seq<Event>)
    requires Splits(es, 1)
    ensures Elapsed(es) >= 4000
  {
    var i :| 0 <= i <= |es| && SplitAt(es, 1, i);
    ElapsedSplit(es, i);
  }

  lemma LeftBound(s: State)
    requires Backed(s)
    ensures s.floor != 0 ==> Left(s) <= 4000
  {
  }

  /** A subscription made while somebody else holds the floor: its voice is never
      routed, its record goes after two phases, however the time is cut, and the
      next header under its id is relayed as a talk header. */
  lemma BlockedLoginHeard(c: Config, my: string, other: string, x: nat, y: nat, waits: seq<Event>, cs: Pair)
    requires c.userTimeout * 60000 + 1 < U32 && !c.listenOnly && my != other && x != 0 && y != 0 && x != y
    requires OnlyClock(waits) && Splits(waits, 1)
    requires c.userTimeout > 0 ==> Elapsed(waits) < 60000 * c.userTimeout
    ensures var s := Init(c, LT_DEXTRA);
            var on := G2HeaderArrives(my, c.callsign, x, cs);
            var es := [G2HeaderArrives(other, c.callsign, y, cs)] + ([on] + waits);
            && Legal(s, es) && Legal(Run(s, es).0, [on] + [])
            && !Forwarded(Run(s, es).1, x) && Forwarded(Run(Run(s, es).0, [on] + []).1, x)
  {
    hide Wf, G2Header, Tick, Forwarded, Legal, Run, Heard, FanOut, Sorted, Phase, OnlyLogoff, NonePending, Backed,
         OnlyClock, Splits;
    var s := Init(c, LT_DEXTRA);
    var first, on := G2HeaderArrives(other, c.callsign, y, cs), G2HeaderArrives(my, c.callsign, x, cs);
    InitBacked(c, LT_DEXTRA);
    StepWf(s, first);
    StepBacked(s, first);
    FirstLogin(c, other, y, cs);
    var s1 := Step(s, first).0;
    SecondLogin(s1, my, x, cs);
    StepBacked(s1, on);
    var s2 := Step(s1, on).0;
    TimeoutFits(s2);
    BlockedReturns(s2, my, x, waits, cs);
    var s3 := Run(s2, waits).0;
    StepWf(s3, on);
    EmptyRun(Step(s3, on).0);
    RunStep(s3, on, []);
    RunStep(s1, on, waits);
    RunStep(s, first, [on] + waits);
    ForwardIff(s, first, x);
    ForwardIff(s1, on, x);
    NothingForwarded(x);
    ForwardedConcat(Step(s1, on).1, Run(s2, waits).1, x);
    ForwardedConcat(Step(s, first).1, Step(s1, on).1 + Run(s2, waits).1, x);
    ForwardedConcat(Step(s3, on).1, [], x);
  }
}
