/** How long a subscription lasts, and what ends it. */
module GroupSubscription {
  import opened Timer
  import opened Caches
  import opened Group
  import opened GroupRuns
  import opened GroupTiming

  // ---- what ends a subscription ----

  /** The record is that of a logoff under callsign c. */
  predicate LogoffOf(s: State, id: nat, c: string)
    requires Wf(s)
  {
    Live(s, id) && s.ids[id].value.logoff && !s.ids[id].value.login && s.heap[s.ids[id].value.user].callsign == c
  }

  /** A logoff record of c runs out in this clock step. */
  ghost predicate RunsOut(s: State, c: string, ms: nat)
    requires Wf(s)
  {
    exists id :: LogoffOf(s, id, c) && LogsOff(s, id, ms)
  }

  /** The ticks on the timer of subscriber c. */
  function Heard(s: State, c: string): nat
    requires Wf(s) && c in s.users
  {
    s.heap[s.users[c]].timer.timer
  }

  function Limit(s: State): nat {
    60000 * s.config.userTimeout
  }

  /** What takes subscriber c off the list: his own logoff; the end of a logoff
      stream of his that holds the floor; remote control; a ping sweep; a logoff
      record of his that runs out; or his timer, once the floor is free. */
  ghost predicate Ends(s: State, e: Event, c: string)
    requires Wf(s) && Proper(s, e) && c in s.users
  {
    match e
    case G2HeaderArrives(my, your, _, _) => Routed(s, e) && your != s.config.callsign && my == c
    case G2VoiceArrives(id, end) => Routed(s, e) && end && LogoffOf(s, id, c)
    case Dropped(callsign) => callsign == ALL || callsign == c
    case Clocked(ms, gone) =>
      c in gone || RunsOut(s, c, ms)
      || (s.config.userTimeout > 0 && Step(s, e).0.floor == 0 && Heard(s, c) + ms > Limit(s))
    case _ => false
  }

  /** What restarts the timer of subscriber c. */
  predicate Hears(s: State, e: Event, c: string)
    requires Wf(s) && c in s.users
  {
    match e
    case G2HeaderArrives(my, your, _, _) => your == s.config.callsign && my == c
    case G2VoiceArrives(id, _) => Routed(s, e) && Live(s, id) && s.ids[id].value.user == s.users[c]
    case _ => false
  }

  /** Nothing has happened to c. */
  ghost predicate Same(s: State, t: State, c: string)
    requires Wf(s)
  {
    && Wf(t) && t.config == s.config
    && (c in t.users <==> c in s.users)
    && (c in s.users ==> Heard(t, c) == Heard(s, c))
  }

  /** c is subscribed afterwards unless he goes, his timer restarted if heard. */
  ghost predicate Follows(s: State, t: State, c: string, goes: bool, heard: bool)
    requires Wf(s)
  {
    && Wf(t) && t.config == s.config
    && (c in t.users <==> c in s.users && !goes)
    && (c in t.users && s.config.userTimeout > 0 ==> Heard(t, c) == if heard then 1 else Heard(s, c))
  }

  // ---- one event at a time ----

  lemma TakeSame(s: State, id: nat, my: string, login: bool, cs: Pair, c: string)
    requires Wf(s)
    ensures Same(s, TakeG2(s, id, my, login, cs).0, c)
  {
    hide Wf, TakeG2;
    WfTakeG2(s, id, my, login, cs);
    TakeG2Keeps(s, id, my, login, cs);
  }

  lemma PutSame(s: State, id: nat, r: Record, c: string)
    requires Wf(s) && r.user in s.heap && r.timer.timeout == 4001
    ensures Same(s, PutRecord(s, id, r), c)
  {
    WfPut(s, id, r);
  }

  lemma AddSame(s: State, my: string, c: string)
    requires Wf(s) && my != c
    ensures Same(s, AddUser(s, my), c)
  {
    WfAdd(s, my);
  }

  /** Only the timer of the user it belongs to restarts. */
  lemma ResetFollows(s: State, u: nat, c: string)
    requires Wf(s) && u in s.heap
    ensures Follows(s, ResetUser(s, u), c, false, c in s.users && s.users[c] == u)
  {
    WfReset(s, u);
  }

  lemma SameFollows(s: State, t: State, u: State, c: string, heard: bool)
    requires Wf(s) && Follows(s, t, c, false, heard) && Same(t, u, c)
    ensures Follows(s, u, c, false, heard)
  {
  }

  /** The subscribers but for c are as they were, or fewer. */
  lemma LessFollows(s: State, t: State, c: string, goes: bool)
    requires Wf(s) && Wf(t) && t.config == s.config && t.heap == s.heap
    requires c in t.users <==> c in s.users && !goes
    requires c in t.users ==> t.users[c] == s.users[c]
    ensures Follows(s, t, c, goes, false)
  {
  }

  lemma LoginFollows(s: State, my: string, id: nat, cs: Pair, c: string)
    requires Wf(s) && my !in s.users && c in s.users
    ensures Follows(s, G2Header(s, my, s.config.callsign, id, cs).0, c, false, false)
  {
    hide TakeG2, Heard;
    var t := AddUser(s, my);
    var u := PutRecord(t, id, NewRecord(s.next, true, false));
    AddSame(s, my, c);
    PutSame(t, id, NewRecord(s.next, true, false), c);
    TakeSame(u, id, my, true, cs, c);
  }

  lemma TalkFollows(s: State, my: string, id: nat, cs: Pair, c: string)
    requires Wf(s) && my in s.users && c in s.users
    ensures Follows(s, G2Header(s, my, s.config.callsign, id, cs).0, c, false, my == c)
  {
    hide TakeG2, Heard;
    var t := ResetUser(s, s.users[my]);
    ResetFollows(s, s.users[my], c);
    assert s.heap[s.users[my]].callsign == my && s.heap[s.users[c]].callsign == c;
    if !Live(s, id) {
      var u := PutRecord(t, id, NewRecord(s.users[my], false, false));
      PutSame(t, id, NewRecord(s.users[my], false, false), c);
      SameFollows(s, t, u, c, my == c);
      TakeSame(u, id, my, false, cs, c);
      SameFollows(s, u, TakeG2(u, id, my, false, cs).0, c, my == c);
    }
  }

  lemma LogoffFollows(s: State, my: string, your: string, id: nat, cs: Pair, c: string)
    requires Wf(s) && c in s.users && your != s.config.callsign
    ensures Follows(s, G2Header(s, my, your, id, cs).0, c, my == c, false)
  {
    WfG2Header(s, my, your, id, cs);
    LessFollows(s, G2Header(s, my, your, id, cs).0, c, my == c);
  }

  /** A voice frame, once its record and its user have been heard. */
  lemma VoiceLess(s: State, id: nat, end: bool, c: string)
    requires Wf(s) && Live(s, id)
    ensures s.ids[id].value.user in s.heap
    ensures var r := s.ids[id].value;
            var u := PutRecord(ResetUser(s, r.user), id, r.(timer := r.timer.Started()));
            var v := G2Voice(s, id, end).0;
            && v.config == u.config && v.heap == u.heap
            && (c in v.users <==> c in u.users && !(end && LogoffOf(s, id, c)))
            && (c in v.users ==> v.users[c] == u.users[c])
  {
    hide Relay;
  }

  lemma RecordSound(s: State, id: nat)
    requires Wf(s) && Live(s, id)
    ensures s.ids[id].value.user in s.heap && s.ids[id].value.timer.timeout == 4001
  {
  }

  lemma VoiceFollows(s: State, id: nat, end: bool, c: string)
    requires Wf(s) && c in s.users && (id in s.ids ==> s.ids[id].Some?)
    ensures Follows(s, G2Voice(s, id, end).0, c, end && LogoffOf(s, id, c),
                    Live(s, id) && s.ids[id].value.user == s.users[c])
  {
    hide Wf, Relay, Heard, ResetUser, PutRecord, G2Voice, LogoffOf;
    WfG2Voice(s, id, end);
    if id in s.ids {
      assert Live(s, id);
      RecordSound(s, id);
      var r := s.ids[id].value;
      var heard := r.(timer := r.timer.Started());
      var t := ResetUser(s, r.user);
      var u := PutRecord(t, id, heard);
      ResetFollows(s, r.user, c);
      ResetKeys(s, r.user);
      PutSame(t, id, heard, c);
      SameFollows(s, t, u, c, s.users[c] == r.user);
      VoiceLess(s, id, end, c);
      LessFollows(u, G2Voice(s, id, end).0, c, end && LogoffOf(s, id, c));
    } else {
      Unheard(s, id, end);
      NotLive(s, id, c);
    }
  }

  lemma ResetKeys(s: State, u: nat)
    requires u in s.heap
    ensures ResetUser(s, u).heap.Keys == s.heap.Keys
  {
  }

  lemma NotLive(s: State, id: nat, c: string)
    requires Wf(s) && id !in s.ids
    ensures !Live(s, id) && !LogoffOf(s, id, c)
  {
  }

  lemma ReflectorFollows(s: State, e: Event, c: string)
    requires Wf(s) && Proper(s, e) && (e.RefHeaderArrives? || e.RefVoiceArrives?)
    ensures Follows(s, Step(s, e).0, c, false, false)
  {
    hide Wf, FanOut, Relay, Texts, Sorted;
    StepWf(s, e);
    LessFollows(s, Step(s, e).0, c, false);
  }

  lemma DropFollows(s: State, callsign: string, c: string)
    requires Wf(s) && c in s.users
    ensures Follows(s, Drop(s, callsign).0, c, callsign == ALL || callsign == c, false)
  {
    hide First, RecordsOf, Wf;
    WfDrop(s, callsign);
    assert callsign != c ==> c in s.users - {callsign};
    LessFollows(s, Drop(s, callsign).0, c, callsign == ALL || callsign == c);
  }

  // ---- the clock ----

  lemma RecordsFollow(s: State, ms: nat, c: string)
    requires Wf(s)
    ensures Follows(s, RecordsClock(s, ms), c, RunsOut(s, c, ms), false)
  {
    hide Due;
    WfRecords(s, ms);
    forall id | id in s.ids && LogsOff(s, id, ms)
      ensures Live(s, id) && s.ids[id].value.user in s.heap
      ensures s.heap[s.ids[id].value.user].callsign == c <==> LogoffOf(s, id, c)
    {
      LogsOffLive(s, id, ms);
    }
    LessFollows(s, RecordsClock(s, ms), c, RunsOut(s, c, ms));
  }

  lemma LogsOffLive(s: State, id: nat, ms: nat)
    requires id in s.ids && LogsOff(s, id, ms)
    ensures Live(s, id) && s.ids[id].value.logoff && !s.ids[id].value.login
  {
  }

  lemma RunsOutSame(s: State, t: State, c: string, ms: nat)
    requires Wf(s) && Wf(t) && t.ids == s.ids && t.heap == s.heap
    ensures RunsOut(t, c, ms) <==> RunsOut(s, c, ms)
  {
    hide Wf, Due;
    forall id
      ensures LogoffOf(s, id, c) && LogsOff(s, id, ms) <==> LogoffOf(t, id, c) && LogsOff(t, id, ms)
    {
    }
  }

  lemma SweepsFollow(s: State, ms: nat, gone: set<string>, c: string)
    requires Wf(s)
    ensures var s1 := s.(users := s.users - gone);
            Wf(s1) && Wf(LinkClock(s1, ms))
            && Follows(s, RecordsClock(LinkClock(s1, ms), ms), c, c in gone || RunsOut(s, c, ms), false)
  {
    hide Wf, Heard, RunsOut, RecordsClock, Due;
    var s1 := s.(users := s.users - gone);
    WfSweep(s, gone);
    WfLink(s1, ms);
    var s2 := LinkClock(s1, ms);
    LessFollows(s, s2, c, c in gone);
    RunsOutSame(s, s2, c, ms);
    RecordsFollow(s2, ms, c);
  }

  lemma UsersTick(s: State, ms: nat, c: string)
    requires Wf(s)
    requires c in s.users && s.config.userTimeout > 0 ==> 1 <= Heard(s, c) && Heard(s, c) + ms < U32
    ensures Wf(UsersClock(s, ms))
    ensures var t := UsersClock(s, ms);
            && t.config == s.config && t.floor == s.floor && (c in t.users <==> c in s.users)
            && (c in t.users && s.config.userTimeout > 0 ==> Heard(t, c) == Heard(s, c) + ms)
  {
    WfUsers(s, ms);
    assert c in s.users ==> s.users[c] in s.users.Values;
  }

  lemma ExpireTick(s: State, c: string)
    requires Wf(s)
    requires c in s.users && s.config.userTimeout > 0 ==> 1 <= Heard(s, c)
    ensures Wf(ExpireUsers(s))
    ensures var t := ExpireUsers(s);
            && t.config == s.config && t.floor == s.floor
            && (c in t.users <==> c in s.users && !(s.config.userTimeout > 0 && s.floor == 0 && Heard(s, c) > Limit(s)))
            && (c in t.users ==> Heard(t, c) == Heard(s, c))
  {
    WfExpire(s);
  }

  /** One clock step: the subscriber goes exactly when the ping sweep gives up on
      him, when a logoff record of his runs out, or when the step leaves the floor
      free and finds his time up. */
  lemma TickSubscriber(s: State, ms: nat, gone: set<string>, c: string)
    requires Wf(s)
    requires c in s.users && s.config.userTimeout > 0 ==> 1 <= Heard(s, c) && Heard(s, c) + ms < U32
    ensures Wf(Tick(s, ms, gone).0)
    ensures var t := Tick(s, ms, gone).0;
            && t.config == s.config
            && (c in t.users <==>
                  c in s.users && c !in gone && !RunsOut(s, c, ms)
                  && !(s.config.userTimeout > 0 && t.floor == 0 && Heard(s, c) + ms > Limit(s)))
            && (c in t.users && s.config.userTimeout > 0 ==> Heard(t, c) == Heard(s, c) + ms)
  {
    hide Wf, Heard, LinkClock, RecordsClock, UsersClock, ExpireUsers, RunsOut;
    SweepsFollow(s, ms, gone, c);
    var s3 := RecordsClock(LinkClock(s.(users := s.users - gone), ms), ms);
    UsersTick(s3, ms, c);
    ExpireTick(UsersClock(s3, ms), c);
  }

  /** Every event: a subscriber is gone after it exactly when it ends his
      subscription, and otherwise his timer has restarted or counted on. */
  lemma StepSubscriberIff(s: State, e: Event, c: string)
    requires Wf(s) && Proper(s, e) && c in s.users
    requires s.config.userTimeout > 0 ==> 1 <= Heard(s, c)
    requires e.Clocked? && s.config.userTimeout > 0 ==> Heard(s, c) + e.ms < U32
    ensures Wf(Step(s, e).0)
    ensures var t := Step(s, e).0;
            && t.config == s.config
            && (c in t.users <==> !Ends(s, e, c))
            && (c in t.users && s.config.userTimeout > 0 ==>
                  Heard(t, c) == if Hears(s, e, c) then 1 else Heard(s, c) + if e.Clocked? then e.ms else 0)
  {
    hide Wf, Heard, G2Header, G2Voice, RefHeader, RefVoice, Drop, Tick, RunsOut, LogoffOf;
    LessFollows(s, s, c, false);
    match e
    case G2HeaderArrives(my, your, id, cs) =>
      if Routed(s, e) {
        if your != s.config.callsign {
          LogoffFollows(s, my, your, id, cs, c);
        } else if my in s.users {
          TalkFollows(s, my, id, cs, c);
        } else {
          LoginFollows(s, my, id, cs, c);
        }
      }
    case G2VoiceArrives(id, end) => if Routed(s, e) { VoiceFollows(s, id, end, c); }
    case RefHeaderArrives(id, cs) => ReflectorFollows(s, e, c);
    case RefVoiceArrives(id, end) => ReflectorFollows(s, e, c);
    case Dropped(callsign) => DropFollows(s, callsign, c);
    case Linked(linkType) => WfLinked(s, linkType); LessFollows(s, s.(linkType := linkType), c, false);
    case Clocked(ms, gone) => TickSubscriber(s, ms, gone, c);
  }

  /** Only a header of his own subscribes anyone. */
  lemma AwayStep(s: State, e: Event, c: string)
    requires Wf(s) && Proper(s, e) && c !in s.users
    requires e.G2HeaderArrives? ==> e.my != c
    ensures c !in Step(s, e).0.users
  {
    hide Wf, FanOut, Relay, Texts, Sorted, First, RecordsOf;
  }

  // ---- runs ----

  /** Nothing more is heard from c, and nobody removes him by hand. */
  predicate Apart(s: State, e: Event, c: string)
    requires Wf(s)
  {
    && (e.G2HeaderArrives? ==> e.my != c)
    && (c in s.users ==> !Hears(s, e, c))
    && (e.Dropped? ==> e.callsign != ALL && e.callsign != c)
    && (e.Clocked? ==> c !in e.gone)
  }

  ghost predicate AllApart(s: State, es: seq<Event>, c: string)
    requires Wf(s) && Legal(s, es)
    decreases |es|
  {
    es == [] || (Apart(s, es[0], c) && (StepWf(s, es[0]); AllApart(Step(s, es[0]).0, es[1..], c)))
  }

  /** The event erases c: a logoff record of his runs out, or its stream ends on
      the floor, or the floor is free once limit ms have passed, heard of them
      before the event. */
  ghost predicate Erases(s: State, e: Event, c: string, heard: nat)
    requires Wf(s) && Proper(s, e)
  {
    match e
    case G2VoiceArrives(id, end) => Routed(s, e) && end && LogoffOf(s, id, c)
    case Clocked(ms, _) =>
      RunsOut(s, c, ms) || (s.config.userTimeout > 0 && Step(s, e).0.floor == 0 && heard + ms >= Limit(s))
    case _ => false
  }

  ghost predicate ErasedIn(s: State, es: seq<Event>, c: string, heard: nat)
    requires Wf(s) && Legal(s, es)
    decreases |es|
  {
    es != []
    && (Erases(s, es[0], c, heard)
        || (StepWf(s, es[0]); ErasedIn(Step(s, es[0]).0, es[1..], c, heard + if es[0].Clocked? then es[0].ms else 0)))
  }

  /** Someone who is not subscribed stays so. */
  lemma {:induction false} StaysAway(s: State, es: seq<Event>, c: string)
    requires Wf(s) && Legal(s, es) && AllApart(s, es, c) && c !in s.users
    ensures c !in Run(s, es).0.users
    decreases |es|
  {
    hide Wf, Step;
    if es != [] {
      StepWf(s, es[0]);
      AwayStep(s, es[0], c);
      StaysAway(Step(s, es[0]).0, es[1..], c);
    }
  }

  /** A subscriber from whom nothing more comes is subscribed at the end of a run
      exactly when no event of it erased him: no clock step left the floor free once
      the user timeout had passed since he was last heard, and no record of an
      earlier logoff of his ran out or ended. */
  lemma {:induction false} SubscriptionLasts(s: State, es: seq<Event>, c: string)
    requires Wf(s) && Legal(s, es) && AllApart(s, es, c) && c in s.users
    requires s.config.userTimeout > 0 ==> 1 <= Heard(s, c) && Heard(s, c) + Elapsed(es) < U32
    ensures c in Run(s, es).0.users <==> !ErasedIn(s, es, c, if s.config.userTimeout > 0 then Heard(s, c) - 1 else 0)
    decreases |es|
  {
    hide Wf, Step, Apart, Heard, Erases;
    if es != [] {
      var e := es[0];
      StepWf(s, e);
      SubscriberStep(s, e, c);
      var t := Step(s, e).0;
      if c in t.users {
        SubscriptionLasts(t, es[1..], c);
        if s.config.userTimeout == 0 {
          NoLimit(t, es[1..], c, 0, if e.Clocked? then e.ms else 0);
        }
      } else {
        StaysAway(t, es[1..], c);
      }
    }
  }

  /** Where users never time out the clock does not matter. */
  lemma {:induction false} NoLimit(s: State, es: seq<Event>, c: string, h: nat, i: nat)
    requires Wf(s) && Legal(s, es) && s.config.userTimeout == 0
    ensures ErasedIn(s, es, c, h) <==> ErasedIn(s, es, c, i)
    decreases |es|
  {
    hide Wf, Step, RunsOut, LogoffOf;
    if es != [] {
      StepWf(s, es[0]);
      StepConfig(s, es[0]);
      var ms := if es[0].Clocked? then es[0].ms else 0;
      NoLimit(Step(s, es[0]).0, es[1..], c, h + ms, i + ms);
    }
  }

  lemma SubscriberStep(s: State, e: Event, c: string)
    requires Wf(s) && Proper(s, e) && Apart(s, e, c) && c in s.users
    requires s.config.userTimeout > 0 ==> 1 <= Heard(s, c)
    requires e.Clocked? && s.config.userTimeout > 0 ==> Heard(s, c) + e.ms < U32
    ensures Wf(Step(s, e).0)
    ensures var t := Step(s, e).0;
            && t.config == s.config
            && (c in t.users <==> !Erases(s, e, c, if s.config.userTimeout > 0 then Heard(s, c) - 1 else 0))
            && (c in t.users && s.config.userTimeout > 0
                ==> Heard(t, c) == Heard(s, c) + if e.Clocked? then e.ms else 0)
  {
    hide Wf, Heard, Step, RunsOut, LogoffOf, Hears;
    StepSubscriberIff(s, e, c);
  }

  // ---- records, event by event ----

  /** What a clock step makes of the records, and of callsigns. */
  lemma TickIds(s: State, ms: nat, gone: set<string>)
    requires Wf(s)
    ensures var t := Tick(s, ms, gone).0;
            && t.ids == (map id | id in s.ids && Kept(s.ids[id], ms) :: ClockRecord(s.ids[id], ms))
            && t.heap.Keys == s.heap.Keys && (forall u | u in s.heap :: t.heap[u].callsign == s.heap[u].callsign)
            && t.users.Keys <= s.users.Keys
  {
    hide Kept, ClockRecord, FreesFloor, LogsOff, Due, TimedOut;
  }

  lemma TickRecord(s: State, ms: nat, gone: set<string>, id: nat)
    requires Wf(s)
    ensures var t := Tick(s, ms, gone).0;
            && (Live(t, id) <==> Live(s, id) && Kept(s.ids[id], ms))
            && (Live(t, id) ==>
                  && s.ids[id].value.user in s.heap && s.ids[id].value.user in t.heap
                  && t.ids[id] == ClockRecord(s.ids[id], ms)
                  && t.heap[t.ids[id].value.user].callsign == s.heap[s.ids[id].value.user].callsign)
  {
    hide Tick;
    TickIds(s, ms, gone);
  }

  lemma SameKind(r: Option<Record>, ms: nat)
    requires r.Some?
    ensures ClockRecord(r, ms).Some?
    ensures var (q, t) := (r.value, ClockRecord(r, ms).value);
            t.user == q.user && t.login == q.login && t.logoff == q.logoff
  {
  }

}
