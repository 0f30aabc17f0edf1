/** Who hears a stream: the fan-out list, repeated headers, and what a single
    user's remote logoff leaves behind. */
module GroupFanOut {
  import opened Timer
  import opened Caches
  import opened Group
  import opened GroupRuns
  import opened GroupTiming

  // ---- the list is the located subscribers' repeaters ----

  /** There is a way to the user that starts at repeater k. */
  ghost predicate Lists(cs: Pair, user: string, k: string) {
    exists r :: cs.Leads(user, r) && r.rptr == k
  }

  lemma ListsIff(cs: Pair, user: string, k: string)
    ensures Lists(cs, user, k) <==> cs.Located(user) && cs.Locate(user).rptr == k
    ensures Lists(cs, user, k) ==> k != "" && cs.Leads(user, cs.Locate(user))
  {
    cs.LocateIff(user, cs.Locate(user));
    forall r | cs.Leads(user, r)
      ensures r == cs.Locate(user) && r.rptr != ""
    {
      cs.LocateIff(user, r);
    }
  }

  lemma LocatedHasRepeater(cs: Pair, user: string)
    ensures cs.Locate(user).addr != "" ==> cs.Locate(user).rptr != ""
  {
    cs.irc0.AddressNeedsRepeater(user);
    if cs.irc1.Some? {
      cs.irc1.value.AddressNeedsRepeater(user);
    }
  }

  lemma {:induction false} FanOutKeys(reps: map<string, Repeater>, cs: Pair, users: seq<string>,
                                      exclude: Option<string>, k: string)
    ensures k in FanOut(reps, cs, users, exclude) <==>
            k in reps || (exclude != Some(k) && exists u | u in users :: Lists(cs, u, k))
  {
    hide Lists;
    if users != [] {
      var last := users[|users| - 1];
      FanOutKeys(reps, cs, users[..|users| - 1], exclude, k);
      ListsIff(cs, last, k);
      if u :| u in users && Lists(cs, u, k) {
        assert u == last || u in users[..|users| - 1];
      }
      if u :| u in users[..|users| - 1] && Lists(cs, u, k) {
        assert u in users;
      }
      assert last in users;
    }
  }

  /** Zone routing: a slash, the first six characters of the repeater and its last. */
  predicate RoutesTo(dest: string, k: string) {
    var n := if |k| < 6 then |k| else 6;
    k != "" && |dest| == n + 2 && dest[0] == '/' && dest[1..n + 1] == k[..n] && dest[n + 1] == k[|k| - 1]
  }

  /** An entry for repeater k, on the way to the user. */
  ghost predicate EntryFor(p: Repeater, cs: Pair, user: string, k: string) {
    RoutesTo(p.dest, k) && cs.Leads(user, Route(k, p.gate, p.addr))
  }

  /** What was listed stays as it was; every new entry has the zone route of the
      repeater, and its gateway and address on the way to a user. */
  lemma {:induction false} FanOutEntry(reps: map<string, Repeater>, cs: Pair, users: seq<string>,
                                       exclude: Option<string>, k: string)
    requires k in FanOut(reps, cs, users, exclude)
    ensures if k in reps then FanOut(reps, cs, users, exclude)[k] == reps[k]
            else exists u | u in users :: EntryFor(FanOut(reps, cs, users, exclude)[k], cs, u, k)
  {
    hide RoutesTo, Lists;
    if users != [] {
      var last := users[|users| - 1];
      var front := FanOut(reps, cs, users[..|users| - 1], exclude);
      if k in front {
        FanOutEntry(reps, cs, users[..|users| - 1], exclude, k);
        if k !in reps {
          var u :| u in users[..|users| - 1] && EntryFor(front[k], cs, u, k);
          assert u in users;
        }
      } else {
        FanOutKeys(reps, cs, users[..|users| - 1], exclude, k);
        ListsIff(cs, last, k);
        ZoneRoutes(k);
        assert last in users && EntryFor(Repeater(ZoneRoute(k), cs.Locate(last).gate, cs.Locate(last).addr), cs, last,
                                         k);
      }
    }
  }

  lemma ZoneRoutes(k: string)
    requires k != ""
    ensures RoutesTo(ZoneRoute(k), k)
  {
  }

  // ---- each frame goes out once to each ----

  predicate IsFrame(o: Out, source: Source, reps: map<string, Repeater>, id: nat, kind: Kind) {
    o.Sent? && o.source == source && o.id == id && o.kind == kind
    && o.to.ToRepeater? && o.to.rptr in reps && o.to.addr == reps[o.to.rptr].addr
  }

  lemma {:induction false} RelayToOnce(source: Source, reps: map<string, Repeater>, keys: seq<string>, id: nat,
                                       kind: Kind, o: Out)
    requires forall k | k in keys :: k in reps
    requires forall i, j | 0 <= i < j < |keys| :: keys[i] != keys[j]
    ensures multiset(RelayTo(source, reps, keys, id, kind))[o]
         == if IsFrame(o, source, reps, id, kind) && o.to.rptr in keys then 1 else 0
  {
    if keys != [] {
      var front := keys[..|keys| - 1];
      var k := keys[|keys| - 1];
      RelayToOnce(source, reps, front, id, kind, o);
      assert k !in front;
      assert forall x :: x in keys <==> x in front || x == k;
      assert RelayTo(source, reps, keys, id, kind)
          == RelayTo(source, reps, front, id, kind) + [Sent(source, ToRepeater(k, reps[k].addr), id, kind)];
    }
  }

  /** Relaying sends exactly one frame to each listed repeater and none elsewhere. */
  lemma RelayOnce(source: Source, reps: map<string, Repeater>, id: nat, kind: Kind, o: Out)
    ensures multiset(Relay(source, reps, id, kind))[o] == if IsFrame(o, source, reps, id, kind) then 1 else 0
  {
    RelayToOnce(source, reps, Sorted(reps.Keys), id, kind, o);
  }

  /** The frames for one repeater, or for the reflector, in the order they leave. */
  function Line(outs: seq<Out>, to: Option<string>): seq<Out> {
    if outs == [] then []
    else Line(outs[..|outs| - 1], to) + if GoesTo(outs[|outs| - 1], to) then [outs[|outs| - 1]] else []
  }

  predicate GoesTo(o: Out, to: Option<string>) {
    o.Sent? && match o.to case ToRepeater(rptr, _) => to == Some(rptr) case ToReflector => to == None
  }

  lemma {:induction false} LineConcat(a: seq<Out>, b: seq<Out>, to: Option<string>)
    ensures Line(a + b, to) == Line(a, to) + Line(b, to)
  {
    if b == [] {
      assert a + b == a;
    } else {
      assert (a + b)[..|a + b| - 1] == a + b[..|b| - 1];
      LineConcat(a, b[..|b| - 1], to);
    }
  }

  lemma LineShort(outs: seq<Out>, to: Option<string>)
    requires |outs| <= 1
    ensures Line(outs, to) == if |outs| == 1 && GoesTo(outs[0], to) then outs else []
  {
    if outs != [] {
      assert outs[..0] == [];
    }
  }

  lemma {:induction false} RelayLine(source: Source, reps: map<string, Repeater>, keys: seq<string>, id: nat,
                                     kind: Kind, to: Option<string>)
    requires forall x | x in keys :: x in reps
    requires forall i, j | 0 <= i < j < |keys| :: keys[i] != keys[j]
    ensures Line(RelayTo(source, reps, keys, id, kind), to)
         == if to.Some? && to.value in keys then [Sent(source, ToRepeater(to.value, reps[to.value].addr), id, kind)]
            else []
  {
    if keys != [] {
      var front := keys[..|keys| - 1];
      var last := keys[|keys| - 1];
      RelayLine(source, reps, front, id, kind, to);
      var frame := [Sent(source, ToRepeater(last, reps[last].addr), id, kind)];
      LineConcat(RelayTo(source, reps, front, id, kind), frame, to);
      LineShort(frame, to);
      assert last !in front;
      assert forall x :: x in keys <==> x in front || x == last;
    }
  }

  /** The fan-out list is empty whenever the floor is free. */
  predicate Clean(s: State) {
    s.floor == 0 ==> s.repeaters == map[]
  }

  /** A repeater at the start of the way to some subscriber. */
  ghost predicate Wanted(s: State, cs: Pair, k: string) {
    exists u | u in s.users :: Lists(cs, u, k)
  }

  lemma FanOutWanted(s: State, cs: Pair, exclude: Option<string>, k: string)
    ensures k in FanOut(s.repeaters, cs, Sorted(s.users.Keys), exclude)
            <==> k in s.repeaters || (Wanted(s, cs, k) && exclude != Some(k))
  {
    FanOutKeys(s.repeaters, cs, Sorted(s.users.Keys), exclude, k);
    assert forall u :: u in Sorted(s.users.Keys) <==> u in s.users;
  }

  lemma HomeKept(s: State, cs: Pair, my: string, k: string)
    ensures k in FanOut(s.repeaters, cs, Sorted(s.users.Keys), Some(cs.Home(my)))
            <==> k in s.repeaters || (Wanted(s, cs, k) && !cs.HomeIs(my, k))
  {
    FanOutWanted(s, cs, Some(cs.Home(my)), k);
    cs.HomeIff(my, k);
    forall u | u in s.users && Lists(cs, u, k)
      ensures k != ""
    {
      ListsIff(cs, u, k);
    }
  }

  /** Until it is released the floor, and its fan-out list, stay as they are. */
  lemma FrozenUntilRelease(s: State, es: seq<Event>)
    requires Wf(s) && Legal(s, es) && s.floor != 0
    requires forall o | o in Run(s, es).1 :: !o.Release?
    ensures var t := Run(s, es).0; t.floor == s.floor && t.repeaters == s.repeaters && t.config == s.config
  {
    hide Wf, Legal, Run, Audit;
    var h := Held(s.floor, s.repeaters, false);
    FloorExclusive(false, h, s, es);
    HoldStays(false, h, Run(s, es).1);
    RunConfig(s, es);
  }

  lemma {:induction false} RunConfig(s: State, es: seq<Event>)
    requires Wf(s) && Legal(s, es)
    ensures Run(s, es).0.config == s.config
    decreases |es|
  {
    hide Wf, Step;
    if es != [] {
      StepWf(s, es[0]);
      StepConfig(s, es[0]);
      RunConfig(Step(s, es[0]).0, es[1..]);
    }
  }

  /** A new user's header under the id of the stream on the floor. */
  predicate Overtakes(s: State, e: Event, id: nat) {
    e.G2HeaderArrives? && e.your == s.config.callsign && e.id == id && e.my !in s.users
  }

  predicate NeverOvertaken(s: State, es: seq<Event>, id: nat)
    requires Wf(s) && Legal(s, es)
    decreases |es|
  {
    es == [] || (!Overtakes(s, es[0], id) && (StepWf(s, es[0]); NeverOvertaken(Step(s, es[0]).0, es[1..], id)))
  }

  /** The record of a stream that is relayed. */
  predicate Talking(s: State, id: nat) {
    Live(s, id) && !LoginRecord(s, id) && !s.ids[id].value.end
  }

  /** While the floor stays with a talk stream only such a header takes its record. */
  lemma TalkKeptIff(s: State, e: Event)
    requires Wf(s) && Proper(s, e) && s.floor != 0 && Talking(s, s.floor)
    requires Step(s, e).0.floor == s.floor
    ensures Talking(Step(s, e).0, s.floor) <==> !Overtakes(s, e, s.floor)
  {
    hide Wf, TakeG2, Drop, Tick, Relay, Touch;
    match e
    case G2HeaderArrives(my, _, id, cs) =>
      if Routed(s, e) && e.your == s.config.callsign {
        if my !in s.users {
          TimeoutFits(s);
          TakeHeld(PutRecord(AddUser(s, my), id, NewRecord(s.next, true, false)), id, my, true, cs);
        } else {
          HeldTalker(s, my);
          TakeHeld(PutRecord(ResetUser(s, s.users[my]), id, NewRecord(s.users[my], false, false)), id, my, false, cs);
        }
      }
    case RefVoiceArrives(id, _) => TouchLive(s, id);
    case Dropped(callsign) => DropTalk(s, callsign);
    case Clocked(ms, gone) => TickTalk(s, ms, gone);
    case _ =>
  }

  lemma TouchLive(s: State, id: nat)
    ensures Touch(s.(linkTimer := s.linkTimer.Started()), id)
            == s.(linkTimer := s.linkTimer.Started(), ids := Touch(s, id).ids)
    ensures Live(s, id) ==> Touch(s, id).ids == s.ids
  {
  }

  lemma DropTalk(s: State, callsign: string)
    requires s.floor != 0 && Talking(s, s.floor) && Drop(s, callsign).0.floor == s.floor
    ensures Talking(Drop(s, callsign).0, s.floor)
  {
    hide First, RecordsOf;
    if callsign in s.users && RecordsOf(s, s.users[callsign]) != {} {
      assert callsign != ALL ==> First(RecordsOf(s, s.users[callsign])) != s.floor;
    }
  }

  lemma TickTalk(s: State, ms: nat, gone: set<string>)
    requires Wf(s) && s.floor != 0 && Talking(s, s.floor) && Tick(s, ms, gone).0.floor == s.floor
    ensures Talking(Tick(s, ms, gone).0, s.floor)
  {
    hide Wf;
  }

  lemma {:induction false} TalkKept(s: State, es: seq<Event>)
    requires Wf(s) && Legal(s, es) && s.floor != 0 && Talking(s, s.floor) && NeverOvertaken(s, es, s.floor)
    requires forall o | o in Run(s, es).1 :: !o.Release?
    ensures Talking(Run(s, es).0, s.floor)
    decreases |es|
  {
    hide Wf, Step, Talking, Overtakes;
    if es != [] {
      var e := es[0];
      StepWf(s, e);
      RunHead(s, es);
      FrozenUntilRelease(s, [e]);
      TalkKeptIff(s, e);
      TalkKept(Step(s, e).0, es[1..]);
    }
  }

  /** The first event of a run without a release, and the rest, release nothing. */
  lemma RunHead(s: State, es: seq<Event>)
    requires Wf(s) && Legal(s, es) && es != []
    requires forall o | o in Run(s, es).1 :: !o.Release?
    ensures Legal(s, [es[0]]) && Run(s, [es[0]]).0 == Step(s, es[0]).0
    ensures forall o | o in Run(s, [es[0]]).1 :: !o.Release?
    ensures Wf(Step(s, es[0]).0) && Legal(Step(s, es[0]).0, es[1..])
    ensures forall o | o in Run(Step(s, es[0]).0, es[1..]).1 :: !o.Release?
  {
    hide Wf, Step;
    StepWf(s, es[0]);
    var t := Step(s, es[0]).0;
    EmptyRun(t);
    RunStep(s, es[0], []);
    assert [es[0]] + [] == [es[0]];
    assert Run(s, es).1 == Step(s, es[0]).1 + Run(t, es[1..]).1;
    assert forall o | o in Step(s, es[0]).1 :: o in Run(s, es).1;
    assert forall o | o in Run(t, es[1..]).1 :: o in Run(s, es).1;
  }

  /** A subscriber takes the free floor: until its release each voice frame of his
      stream goes exactly once to each repeater that was left on the list or that
      some subscriber was located at when he began, his own excepted, and to no
      other, unless a new user's header overtakes his id. */
  lemma TalkReaches(s: State, my: string, id: nat, cs: Pair, es: seq<Event>, end: bool, k: string)
    requires Wf(s) && s.floor == 0 && id != 0 && my in s.users && !Live(s, id) && !s.config.listenOnly
    requires var u := G2Header(s, my, s.config.callsign, id, cs).0;
             && Wf(u) && Legal(u, es) && NeverOvertaken(u, es, id)
             && (forall o | o in Run(u, es).1 :: !o.Release?)
    ensures var t := Run(G2Header(s, my, s.config.callsign, id, cs).0, es).0;
            && Live(t, id)
            && (k in t.repeaters <==> k in s.repeaters || (Wanted(s, cs, k) && !cs.HomeIs(my, k)))
            && Line(G2Voice(t, id, end).1, Some(k))
               == if k in t.repeaters
                  then [Sent(FromG2, ToRepeater(k, t.repeaters[k].addr), id, Voice)] else []
  {
    hide Wf, G2Header, FanOut, Texts, RelayTo, Sorted, Wanted, Legal, Run, G2Voice, NeverOvertaken;
    var u := G2Header(s, my, s.config.callsign, id, cs).0;
    TalkTakes(s, my, id, cs);
    FrozenUntilRelease(u, es);
    TalkKept(u, es);
    HeaderConfig(s, my, s.config.callsign, id, cs);
    HomeKept(s, cs, my, k);
    VoiceLine(Run(u, es).0, id, end, Some(k));
  }

  /** The same for a stream from the reflector, with nobody kept out: each frame
      once to each repeater left on the list or that a subscriber was located at when
      it began, unless its id is also that of a login record. */
  lemma ReflectorReaches(s: State, id: nat, cs: Pair, es: seq<Event>, end: bool, k: string)
    requires Wf(s) && s.floor == 0 && id != 0
    requires var u := RefHeader(s, id, cs).0;
             Wf(u) && Legal(u, es) && forall o | o in Run(u, es).1 :: !o.Release?
    ensures var t := Run(RefHeader(s, id, cs).0, es).0;
            && (k in t.repeaters <==> k in s.repeaters || Wanted(s, cs, k))
            && Line(RefVoice(t, id, end).1, Some(k))
               == if k in t.repeaters && !LoginRecord(t, id)
                  then [Sent(FromReflector, ToRepeater(k, t.repeaters[k].addr), id, Voice)] else []
  {
    hide Wf, RefHeader, FanOut, Texts, RelayTo, Sorted, Wanted, Legal, Run, RefVoice;
    var u := RefHeader(s, id, cs).0;
    RefTakes(s, id, cs);
    FrozenUntilRelease(u, es);
    FanOutWanted(s, cs, None, k);
    RefVoiceLine(Run(u, es).0, id, end, Some(k));
  }

  lemma RefTakes(s: State, id: nat, cs: Pair)
    requires s.floor == 0
    ensures var u := RefHeader(s, id, cs).0;
            u.floor == id && u.repeaters == FanOut(s.repeaters, cs, Sorted(s.users.Keys), None)
  {
    hide FanOut, Texts, Relay, Sorted;
  }

  lemma RefVoiceLine(t: State, id: nat, end: bool, to: Option<string>)
    requires t.floor == id
    ensures Line(RefVoice(t, id, end).1, to)
         == if to.Some? && to.value in t.repeaters && !LoginRecord(t, id)
            then [Sent(FromReflector, ToRepeater(to.value, t.repeaters[to.value].addr), id, Voice)] else []
  {
    hide RelayTo, Sorted, Line;
    var sent := if LoginRecord(t, id) then [] else Relay(FromReflector, t.repeaters, id, Voice);
    var rest := if end then ReleaseOf(id) else [];
    assert RefVoice(t, id, end).1 == sent + rest;
    RelayLine(FromReflector, t.repeaters, Sorted(t.repeaters.Keys), id, Voice, to);
    LineConcat(sent, rest, to);
    LineShort(rest, to);
    LineShort([], to);
  }

  lemma TalkTakes(s: State, my: string, id: nat, cs: Pair)
    requires Wf(s) && s.floor == 0 && my in s.users && !Live(s, id)
    ensures var u := G2Header(s, my, s.config.callsign, id, cs).0;
            u.floor == id && Talking(u, id)
            && u.repeaters == FanOut(s.repeaters, cs, Sorted(s.users.Keys), Some(cs.Home(my)))
  {
    hide FanOut, Texts, Relay, Sorted;
  }

  lemma VoiceLine(t: State, id: nat, end: bool, to: Option<string>)
    requires Wf(t) && Live(t, id) && t.floor == id && !LoginRecord(t, id) && !t.config.listenOnly
    ensures Line(G2Voice(t, id, end).1, to)
         == if to.None? then (if t.linkType != LT_NONE then [Sent(FromG2, ToReflector, id, Voice)] else [])
            else if to.value in t.repeaters then
              [Sent(FromG2, ToRepeater(to.value, t.repeaters[to.value].addr), id, Voice)]
            else []
  {
    hide RelayTo, Sorted, Line;
    var out := G2Voice(t, id, end).1;
    var link: seq<Out> := if t.linkType != LT_NONE then [Sent(FromG2, ToReflector, id, Voice)] else [];
    var relay := Relay(FromG2, t.repeaters, id, Voice);
    var rest := if end then ReleaseOf(id) else [];
    assert out == link + relay + rest;
    RelayLine(FromG2, t.repeaters, Sorted(t.repeaters.Keys), id, Voice, to);
    LineConcat(link, relay, to);
    LineConcat(link + relay, rest, to);
    LineShort(link, to);
    LineShort(rest, to);
  }

  // ---- no echo ----

  /** The two caches place the talker differently: the first knows his repeater
      but no way to him, the second has a way that starts elsewhere. */
  ghost predicate SplitStack(cs: Pair, my: string) {
    && cs.irc1.Some? && (forall q :: !cs.irc0.Leads(my, q))
    && exists k, r :: cs.irc0.HeardAt(my, k) && cs.irc1.value.Leads(my, r) && r.rptr != k
  }

  /** A talker's own repeater is on the list of his stream exactly when it was left
      there by a stream before, or on a dual-stack server whose two caches disagree
      about him. */
  lemma EchoIff(s: State, my: string, id: nat, cs: Pair, r: Route)
    requires Wf(s) && s.floor == 0 && my in s.users && !Live(s, id) && cs.Leads(my, r)
    ensures r.rptr in G2Header(s, my, s.config.callsign, id, cs).0.repeaters <==>
            r.rptr in s.repeaters || SplitStack(cs, my)
  {
    hide FanOut, Texts, Relay, Sorted, G2Header, SplitStack;
    TalkTakes(s, my, id, cs);
    HomeKept(s, cs, my, r.rptr);
    HomeSplit(cs, my, r);
    assert Lists(cs, my, r.rptr);
  }

  lemma HomeSplit(cs: Pair, my: string, r: Route)
    requires cs.Leads(my, r)
    ensures cs.HomeIs(my, r.rptr) <==> !SplitStack(cs, my)
  {
    if cs.irc0.Leads(my, r) {
      assert cs.irc0.HeardAt(my, r.rptr);
    } else {
      assert cs.irc1.value.HeardAt(my, r.rptr);
      assert forall q | cs.irc1.value.Leads(my, q) :: q.rptr == r.rptr;
      assert forall j, k | cs.irc0.HeardAt(my, j) && cs.irc0.HeardAt(my, k) :: j == k;
    }
  }

  // ---- repeated headers ----

  predicate SameHeader(e: Event, my: string, your: string, id: nat) {
    e.G2HeaderArrives? && e.my == my && e.your == your && e.id == id
  }

  /** A second copy finds nothing left to do, wherever users are by then. */
  lemma CopyIdle(s: State, my: string, your: string, id: nat, cs: Pair, again: Pair)
    requires Wf(s)
    ensures Wf(G2Header(s, my, your, id, cs).0)
    ensures var t := G2Header(s, my, your, id, cs).0; G2Header(t, my, your, id, again) == (t, [])
  {
    hide TakeG2, Wf;
    WfG2Header(s, my, your, id, cs);
    if your == s.config.callsign {
      HeaderDone(s, my, id, cs);
      ResetIdle(G2Header(s, my, your, id, cs).0, my);
    }
  }

  /** After a header for the group its sender is subscribed, just heard, and on
      record. */
  lemma HeaderDone(s: State, my: string, id: nat, cs: Pair)
    requires Wf(s)
    ensures var t := G2Header(s, my, s.config.callsign, id, cs).0;
            && t.config == s.config && my in t.users && Live(t, id)
            && t.users[my] in t.heap
            && t.heap[t.users[my]].timer == t.heap[t.users[my]].timer.Started()
  {
    hide TakeG2;
    if my !in s.users {
      TakeG2Keeps(PutRecord(AddUser(s, my), id, NewRecord(s.next, true, false)), id, my, true, cs);
    } else {
      TakeG2Keeps(PutRecord(ResetUser(s, s.users[my]), id, NewRecord(s.users[my], false, false)), id, my, false, cs);
    }
  }

  lemma ResetIdle(t: State, my: string)
    requires my in t.users && t.users[my] in t.heap
    requires t.heap[t.users[my]].timer == t.heap[t.users[my]].timer.Started()
    ensures ResetUser(t, t.users[my]) == t
  {
    var u := t.users[my];
    assert t.heap[u := t.heap[u].(timer := t.heap[u].timer.Started())] == t.heap;
  }

  lemma HeaderConfig(s: State, my: string, your: string, id: nat, cs: Pair)
    requires Wf(s)
    ensures G2Header(s, my, your, id, cs).0.config == s.config
  {
    hide FanOut, Texts, Relay, Sorted, Wf;
  }

  /** Any number of consecutive copies of a header leave the same group, and send
      the same frames, as the first alone: login, talk and logoff alike. */
  lemma {:induction false} CopiesAreOne(s: State, my: string, your: string, id: nat, es: seq<Event>)
    requires Wf(s) && es != [] && id != 0
    requires forall e | e in es :: SameHeader(e, my, your, id)
    ensures Legal(s, es) && Run(s, es) == Step(s, es[0])
    decreases |es|
  {
    hide Wf, G2Header, Legal, Run;
    var e := es[0];
    assert e in es && forall f | f in es[1..] :: f in es;
    assert es == [e] + es[1..];
    StepWf(s, e);
    StepConfig(s, e);
    var t := Step(s, e).0;
    if |es| > 1 {
      CopiesAreOne(t, my, your, id, es[1..]);
      var f := es[1];
      assert f in es;
      if Routed(s, e) {
        CopyIdle(s, my, your, id, e.cs, f.cs);
      }
      assert Step(t, f) == (t, []);
      assert f == es[1..][0];
    } else {
      assert es[1..] == [];
      EmptyRun(t);
    }
    RunStep(s, e, es[1..]);
    assert Run(t, es[1..]) == (t, []) && Step(s, e).1 + [] == Step(s, e).1;
  }

  // ---- a single user's remote logoff ----

  /** Once others are left, dropping one user leaves a record that refers to him
      exactly when he had two or more: only his first is removed. */
  lemma DropDanglesIff(s: State, callsign: string)
    requires Wf(s) && NoneDangling(s) && callsign in s.users && (exists c :: c in s.users && c != callsign)
    ensures !NoneDangling(DropOne(s, callsign).0)
       <==> exists i, j :: i in RecordsOf(s, s.users[callsign]) && j in RecordsOf(s, s.users[callsign]) && i != j
  {
    hide Wf;
    var u := s.users[callsign];
    var recs := RecordsOf(s, u);
    var t := DropOne(s, callsign).0;
    var c :| c in s.users && c != callsign;
    assert c in s.users - {callsign};
    if i, j :| i in recs && j in recs && i != j {
      var other := if i == First(recs) then j else i;
      assert Live(t, other) && t.ids[other].value.user in t.freed;
    } else {
      forall id | Live(t, id)
        ensures t.ids[id].value.user !in t.freed
      {
        assert Live(s, id) && s.ids[id].value.user !in s.freed;
        assert recs != {} ==> id != First(recs) && First(recs) in recs;
        assert s.ids[id].value.user == u ==> id in recs;
      }
    }
  }

  /** The floor is taken from the user's first record while others stay on and the
      list is not empty. */
  predicate StaleDrop(s: State, e: Event) {
    && e.Dropped? && e.callsign != ALL && e.callsign in s.users
    && var recs := RecordsOf(s, s.users[e.callsign]);
    && s.floor != 0 && recs != {} && First(recs) == s.floor
    && s.users.Keys != {e.callsign} && s.repeaters != map[]
  }

  /** A free floor keeps its list empty through every event but that one. */
  lemma CleanIff(s: State, e: Event)
    requires Wf(s) && Proper(s, e) && Clean(s)
    ensures Clean(Step(s, e).0) <==> !StaleDrop(s, e)
  {
    hide Wf, FanOut, Texts, Relay, Sorted, RecordsOf, First, Tick;
    match e
    case Dropped(callsign) =>
      if callsign != ALL && callsign in s.users {
        assert s.users - {callsign} == map[] <==> s.users.Keys == {callsign} by {
          LastUser(s.users, callsign);
        }
      }
    case Clocked(ms, gone) => TickClean(s, ms, gone);
    case _ =>
  }

  lemma LastUser(users: map<string, nat>, c: string)
    requires c in users
    ensures users - {c} == map[] <==> users.Keys == {c}
  {
    if users - {c} == map[] {
      forall x | x in users
        ensures x == c
      {
        assert x != c ==> x in users - {c};
      }
    } else {
      var x :| x in users - {c};
      assert x in users.Keys && x != c;
    }
  }

  lemma TickClean(s: State, ms: nat, gone: set<string>)
    requires Wf(s) && Clean(s)
    ensures Clean(Tick(s, ms, gone).0)
  {
    hide Wf;
  }

  predicate NeverStale(s: State, es: seq<Event>)
    requires Wf(s) && Legal(s, es)
    decreases |es|
  {
    es == [] || (!StaleDrop(s, es[0]) && (StepWf(s, es[0]); NeverStale(Step(s, es[0]).0, es[1..])))
  }

  /** So in every run without it a free floor has an empty list. */
  lemma {:induction false} CleanRun(s: State, es: seq<Event>)
    requires Wf(s) && Legal(s, es) && Clean(s) && NeverStale(s, es)
    ensures Clean(Run(s, es).0)
    decreases |es|
  {
    hide Wf, Step, Clean, StaleDrop;
    if es != [] {
      StepWf(s, es[0]);
      CleanIff(s, es[0]);
      CleanRun(Step(s, es[0]).0, es[1..]);
    }
  }

  // ---- the list left behind, heard ----

  /** The one subscriber besides a talker who has just been dropped. */
  predicate LeftBehind(s: State, b: string, r: string) {
    s.floor == 0 && s.users.Keys == {b} && r in s.repeaters
  }

  lemma DropLeaves(s: State, a: string, b: string, id: nat, r: string)
    requires Wf(s) && a != ALL && a != b && s.users.Keys == {a, b} && s.floor == id && r in s.repeaters
    requires RecordsOf(s, s.users[a]) == {id}
    ensures LeftBehind(Drop(s, a).0, b, r)
    ensures forall i | Live(Drop(s, a).0, i) :: Live(s, i)
  {
    hide Wf, RecordsOf;
    assert First({id}) == id;
    assert b in s.users - {a};
    assert (s.users - {a}).Keys == {b};
  }

  /** b logs in and finishes; a logs in and, while his stream holds the floor, is
      logged off by remote control; then b talks, and hears himself although nothing
      is wrong with the caches. */
  lemma StaleListEchoes(c: Config, linkType: LinkType, a: string, b: string, i: nat, j: nat, k: nat, cs: Pair,
                        way: Route)
    requires c.userTimeout * 60000 + 1 < U32 && a != b && a != ALL
    requires i != 0 && j != 0 && k != 0 && i != j && i != k && j != k
    requires cs.Leads(b, way) && !SplitStack(cs, b) && !cs.HomeIs(a, way.rptr)
    ensures var s := Init(c, linkType);
            var es := [G2HeaderArrives(b, c.callsign, i, cs)] + ([G2VoiceArrives(i, true)]
                      + ([G2HeaderArrives(a, c.callsign, j, cs)] + ([Dropped(a)]
                      + ([G2HeaderArrives(b, c.callsign, k, cs)] + []))));
            && Legal(s, es)
            && var t := Run(s, es).0; t.floor == k && way.rptr in t.repeaters
  {
    hide Wf, FanOut, Relay, Texts, Sorted, Legal, Run, Drop, Lists, SplitStack;
    var s := Init(c, linkType);
    var r := way.rptr;
    var e1, e2, e3, e4, e5 := G2HeaderArrives(b, c.callsign, i, cs), G2VoiceArrives(i, true),
      G2HeaderArrives(a, c.callsign, j, cs), Dropped(a), G2HeaderArrives(b, c.callsign, k, cs);
    StepWf(s, e1);
    var s1 := Step(s, e1).0;
    StepWf(s1, e2);
    var s2 := Step(s1, e2).0;
    assert s2.floor == 0 && s2.users.Keys == {b} && s2.ids.Keys == {i} && s2.ids[i].value.user == s2.users[b];
    StepWf(s2, e3);
    var s3 := Step(s2, e3).0;
    LoginLists(s2, a, b, j, cs, way);
    assert RecordsOf(s3, s3.users[a]) == {j};
    StepWf(s3, e4);
    DropLeaves(s3, a, b, j, r);
    var s4 := Step(s3, e4).0;
    StepConfig(s3, e4);
    StepWf(s4, e5);
    EchoIff(s4, b, k, cs, way);
    TalkTakes(s4, b, k, cs);
    var s5 := Step(s4, e5).0;
    EmptyRun(s5);
    RunStep(s4, e5, []);
    RunStep(s3, e4, [e5] + []);
    RunStep(s2, e3, [e4] + ([e5] + []));
    RunStep(s1, e2, [e3] + ([e4] + ([e5] + [])));
    RunStep(s, e1, [e2] + ([e3] + ([e4] + ([e5] + []))));
  }

  /** A login that takes the floor lists the others. */
  lemma LoginLists(s: State, a: string, b: string, id: nat, cs: Pair, way: Route)
    requires Wf(s) && s.floor == 0 && a !in s.users && b in s.users && cs.Leads(b, way) && !cs.HomeIs(a, way.rptr)
    ensures var t := G2Header(s, a, s.config.callsign, id, cs).0;
            && t.floor == id && way.rptr in t.repeaters
            && t.users == s.users[a := s.next] && t.ids == s.ids[id := Some(NewRecord(s.next, true, false))]
  {
    hide FanOut, Relay, Texts, Sorted;
    var u := AddUser(s, a);
    assert b in u.users && Lists(cs, b, way.rptr);
    HomeKept(u, cs, a, way.rptr);
  }
}
