/** Whole runs of a Smart Group: who may be heard, for how long, and by whom. */
module GroupRuns {
  import opened Timer
  import opened Caches
  import opened Group

  // ---- runs ----

  /** What the surrounding program guarantees of an event: stream ids are never
      zero, G2 voice never names the null record of a reflector stream, and one
      clock step does not overflow a four-second timer. */
  predicate Proper(s: State, e: Event) {
    && Defined(s, e)
    && match e
       case G2HeaderArrives(_, _, id, _) => id != 0
       case G2VoiceArrives(id, _) => id != 0
       case RefHeaderArrives(id, _) => id != 0
       case RefVoiceArrives(id, _) => id != 0
       case Clocked(ms, _) => ms + 4001 < U32
       case _ => true
  }

  predicate Legal(s: State, es: seq<Event>)
    requires Wf(s)
    decreases |es|
  {
    es == [] || (Proper(s, es[0]) && (StepWf(s, es[0]); Legal(Step(s, es[0]).0, es[1..])))
  }

  function Run(s: State, es: seq<Event>): (r: (State, seq<Out>))
    requires Wf(s) && Legal(s, es)
    ensures Wf(r.0)
    decreases |es|
  {
    if es == [] then (s, [])
    else
      StepWf(s, es[0]);
      var (t, out) := Step(s, es[0]);
      var (u, rest) := Run(t, es[1..]);
      (u, out + rest)
  }

  /** A run one event longer at the front. */
  lemma RunStep(s: State, e: Event, es: seq<Event>)
    requires Wf(s) && Proper(s, e)
    requires Wf(Step(s, e).0) && Legal(Step(s, e).0, es)
    ensures Legal(s, [e] + es)
    ensures Run(s, [e] + es) == (Run(Step(s, e).0, es).0, Step(s, e).1 + Run(Step(s, e).0, es).1)
  {
    hide Wf, Step, Proper;
    assert ([e] + es)[1..] == es;
  }

  // ---- the floor is exclusive and its fan-out list frozen ----

  datatype Hold = Free | Held(id: nat, fanout: map<string, Repeater>, silent: bool)

  /** The reader of a trace. The floor is taken only when free and released only
      when held; every frame belongs to the stream that holds the floor, and one
      for a repeater goes to an address of the list fixed when it was taken. A
      strict reader also rejects G2 frames of a silent hold. */
  function Advance(strict: bool, h: Hold, o: Out): Option<Hold> {
    match o
    case Take(id, fanout, silent) => if h.Free? && id != 0 then Some(Held(id, fanout, silent)) else None
    case Release => if h.Held? then Some(Free) else None
    case Sent(source, to, id, _) =>
      if h.Held? && h.id == id
         && (to.ToRepeater? ==> to.rptr in h.fanout && h.fanout[to.rptr].addr == to.addr)
         && (strict && source.FromG2? ==> !h.silent)
      then Some(h) else None
  }

  function Audit(strict: bool, h: Hold, outs: seq<Out>): Option<Hold>
    decreases |outs|
  {
    if outs == [] then Some(h)
    else
      var n := Advance(strict, h, outs[0]);
      if n.None? then None else Audit(strict, n.value, outs[1..])
  }

  lemma {:induction false} AuditConcat(strict: bool, h: Hold, a: seq<Out>, b: seq<Out>)
    requires Audit(strict, h, a).Some?
    ensures Audit(strict, h, a + b) == Audit(strict, Audit(strict, h, a).value, b)
    decreases |a|
  {
    if a == [] {
      assert a + b == b;
    } else {
      assert (a + b)[1..] == a[1..] + b;
      AuditConcat(strict, Advance(strict, h, a[0]).value, a[1..], b);
    }
  }

  predicate Allows(strict: bool, h: Hold, source: Source, id: nat, reps: map<string, Repeater>) {
    h.Held? && h.id == id && h.fanout == reps && (strict && source.FromG2? ==> !h.silent)
  }

  lemma {:induction false} RelayAudit(strict: bool, h: Hold, source: Source, reps: map<string, Repeater>,
                                      keys: seq<string>, id: nat, kind: Kind)
    requires forall k | k in keys :: k in reps
    requires Allows(strict, h, source, id, reps)
    ensures Audit(strict, h, RelayTo(source, reps, keys, id, kind)) == Some(h)
  {
    if keys != [] {
      var k := keys[|keys| - 1];
      var front := RelayTo(source, reps, keys[..|keys| - 1], id, kind);
      RelayAudit(strict, h, source, reps, keys[..|keys| - 1], id, kind);
      AuditConcat(strict, h, front, [Sent(source, ToRepeater(k, reps[k].addr), id, kind)]);
    }
  }

  lemma {:induction false} TextsAudit(strict: bool, h: Hold, source: Source, reps: map<string, Repeater>, id: nat,
                                      n: nat)
    requires Allows(strict, h, source, id, reps)
    ensures Audit(strict, h, Texts(source, reps, id, n)) == Some(h)
  {
    if n > 0 {
      TextsAudit(strict, h, source, reps, id, n - 1);
      RelayAudit(strict, h, source, reps, Sorted(reps.Keys), id, Text(n - 1));
      AuditConcat(strict, h, Texts(source, reps, id, n - 1), Relay(source, reps, id, Text(n - 1)));
    }
  }

  /** The reader's hold is the group's floor. */
  predicate Matches(h: Hold, s: State) {
    if s.floor == 0 then h.Free? else h.Held? && h.id == s.floor && h.fanout == s.repeaters
  }

  /** A silent hold is that of a login stream, unless the group never relays. */
  predicate Hushed(h: Hold, s: State) {
    h.Held? && h.silent && !s.config.listenOnly ==> LoggingIn(s, s.floor)
  }

  predicate LoggingIn(s: State, id: nat) {
    LoginRecord(s, id) && !s.ids[id].value.end
  }

  /** A logoff header under the id of the login stream that holds the floor. */
  predicate Reuses(s: State, e: Event) {
    e.G2HeaderArrives? && e.your != s.config.callsign && e.your == s.config.offCallsign
    && e.id == s.floor && LoginRecord(s, s.floor) && e.my in s.users
  }

  /** Where the reader stands after reading outs, if it accepted them. */
  predicate Reads(strict: bool, h: Hold, outs: seq<Out>, t: State) {
    var a := Audit(strict, h, outs);
    a.Some? && Matches(a.value, t) && (strict ==> Hushed(a.value, t))
  }

  lemma SentAudit(strict: bool, h: Hold, o: Out)
    requires o.Sent? && o.to.ToReflector?
    requires h.Held? && h.id == o.id && (strict && o.source.FromG2? ==> !h.silent)
    ensures Audit(strict, h, [o]) == Some(h)
  {
  }

  lemma EndAudit(strict: bool, h: Hold, outs: seq<Out>)
    requires h.Held? && Audit(strict, h, outs) == Some(h)
    ensures Audit(strict, h, outs + [Release]) == Some(Free)
  {
    AuditConcat(strict, h, outs, [Release]);
  }

  lemma TakeAudit(strict: bool, h: Hold, outs: seq<Out>)
    requires h.Held? && h.id != 0 && Audit(strict, h, outs) == Some(h)
    ensures Audit(strict, Free, [Take(h.id, h.fanout, h.silent)] + outs) == Some(h)
  {
    AuditConcat(strict, Free, [Take(h.id, h.fanout, h.silent)], outs);
  }

  /** What a G2 stream sends on taking the floor or with each voice frame. */
  function Forward(s: State, reps: map<string, Repeater>, id: nat, kind: Kind): seq<Out> {
    (if s.linkType != LT_NONE then [Sent(FromG2, ToReflector, id, kind)] else []) + Relay(FromG2, reps, id, kind)
  }

  lemma ForwardAudit(strict: bool, h: Hold, s: State, reps: map<string, Repeater>, id: nat, kind: Kind)
    requires Allows(strict, h, FromG2, id, reps)
    ensures Audit(strict, h, Forward(s, reps, id, kind)) == Some(h)
  {
    RelayAudit(strict, h, FromG2, reps, Sorted(reps.Keys), id, kind);
    if s.linkType != LT_NONE {
      SentAudit(strict, h, Sent(FromG2, ToReflector, id, kind));
      AuditConcat(strict, h, [Sent(FromG2, ToReflector, id, kind)], Relay(FromG2, reps, id, kind));
    } else {
      assert Forward(s, reps, id, kind) == Relay(FromG2, reps, id, kind);
    }
  }

  lemma TakeG2Reads(strict: bool, h: Hold, s: State, id: nat, my: string, login: bool, cs: Pair)
    requires Matches(h, s) && id != 0
    requires strict ==> Hushed(h, s)
    requires login ==> LoggingIn(s, id)
    ensures Reads(strict, h, TakeG2(s, id, my, login, cs).1, TakeG2(s, id, my, login, cs).0)
  {
    hide FanOut, Relay, Texts, Sorted;
    if s.floor == 0 {
      var reps := FanOut(s.repeaters, cs, Sorted(s.users.Keys), Some(cs.Home(my)));
      var silent := login || s.config.listenOnly;
      var held := Held(id, reps, silent);
      if silent {
        TakeAudit(strict, held, []);
      } else {
        ForwardAudit(strict, held, s, reps, id, Header);
        TextsAudit(strict, held, FromG2, reps, id, TEXT_FRAMES);
        AuditConcat(strict, held, Forward(s, reps, id, Header), Texts(FromG2, reps, id, TEXT_FRAMES));
        TakeAudit(strict, held, Forward(s, reps, id, Header) + Texts(FromG2, reps, id, TEXT_FRAMES));
      }
    }
  }

  lemma G2HeaderReads(strict: bool, h: Hold, s: State, my: string, your: string, id: nat, cs: Pair)
    requires Wf(s) && Matches(h, s) && id != 0
    requires your == s.config.callsign || your == s.config.offCallsign
    requires strict ==> Hushed(h, s) && !Reuses(s, G2HeaderArrives(my, your, id, cs))
    ensures Reads(strict, h, G2Header(s, my, your, id, cs).1, G2Header(s, my, your, id, cs).0)
  {
    hide TakeG2;
    if your == s.config.callsign {
      if my !in s.users {
        TakeG2Reads(strict, h, PutRecord(AddUser(s, my), id, NewRecord(s.next, true, false)), id, my, true, cs);
      } else if !Live(s, id) {
        TakeG2Reads(strict, h, PutRecord(ResetUser(s, s.users[my]), id, NewRecord(s.users[my], false, false)), id, my,
                    false, cs);
      }
    }
  }

  lemma G2VoiceReads(strict: bool, h: Hold, s: State, id: nat, end: bool)
    requires Wf(s) && Matches(h, s) && id == s.floor && id != 0
    requires id in s.ids ==> s.ids[id].Some?
    requires strict ==> Hushed(h, s)
    ensures Reads(strict, h, G2Voice(s, id, end).1, G2Voice(s, id, end).0)
  {
    hide Relay;
    if id in s.ids {
      var r := s.ids[id].value;
      var sent := if !r.login && !s.config.listenOnly then Forward(s, s.repeaters, id, Voice) else [];
      assert !r.login ==> !LoginRecord(s, id);
      if !r.login && !s.config.listenOnly {
        ForwardAudit(strict, h, s, s.repeaters, id, Voice);
      }
      EndAudit(strict, h, sent);
      assert G2Voice(s, id, end).1 == if end then sent + [Release] else sent;
    }
  }

  lemma RefTakeAudit(strict: bool, s: State, id: nat, reps: map<string, Repeater>, header: seq<Out>)
    requires id != 0 && (header == [] || header == Relay(FromReflector, reps, id, Header))
    ensures var held := Held(id, reps, s.config.listenOnly);
            Audit(strict, Free, [Take(id, reps, s.config.listenOnly)] + header
                  + Texts(FromReflector, reps, id, TEXT_FRAMES)) == Some(held)
  {
    hide Texts, Sorted, RelayTo, Advance;
    var held := Held(id, reps, s.config.listenOnly);
    var texts := Texts(FromReflector, reps, id, TEXT_FRAMES);
    RelayAudit(strict, held, FromReflector, reps, Sorted(reps.Keys), id, Header);
    TextsAudit(strict, held, FromReflector, reps, id, TEXT_FRAMES);
    AuditConcat(strict, held, header, texts);
    TakeAudit(strict, held, header + texts);
    assert [Take(id, reps, s.config.listenOnly)] + header + texts
           == [Take(id, reps, s.config.listenOnly)] + (header + texts);
  }

  lemma RefHeaderReads(strict: bool, h: Hold, s: State, id: nat, cs: Pair)
    requires Matches(h, s) && id != 0
    requires strict ==> Hushed(h, s)
    ensures Reads(strict, h, RefHeader(s, id, cs).1, RefHeader(s, id, cs).0)
  {
    hide FanOut, Relay, Texts, Sorted, Audit, LoginRecord;
    if s.floor == 0 {
      var reps := FanOut(s.repeaters, cs, Sorted(s.users.Keys), None);
      RefTakeAudit(strict, s, id, reps, if LoginRecord(s, id) then [] else Relay(FromReflector, reps, id, Header));
    } else {
      NothingRead(strict, h);
    }
  }

  lemma NothingRead(strict: bool, h: Hold)
    ensures Audit(strict, h, []) == Some(h)
  {
  }

  lemma RelayIs(source: Source, reps: map<string, Repeater>, id: nat, kind: Kind)
    ensures Relay(source, reps, id, kind) == RelayTo(source, reps, Sorted(reps.Keys), id, kind)
  {
    hide RelayTo, Sorted;
  }

  lemma RefVoiceReads(strict: bool, h: Hold, s: State, id: nat, end: bool)
    requires Matches(h, s) && id != 0
    requires strict ==> Hushed(h, s)
    ensures Reads(strict, h, RefVoice(s, id, end).1, RefVoice(s, id, end).0)
  {
    hide Relay;
    if id == s.floor {
      var sent := if LoginRecord(s, id) then [] else Relay(FromReflector, s.repeaters, id, Voice);
      RelayIs(FromReflector, s.repeaters, id, Voice);
      RelayAudit(strict, h, FromReflector, s.repeaters, Sorted(s.repeaters.Keys), id, Voice);
      EndAudit(strict, h, sent);
      assert RefVoice(s, id, end).1 == if end then sent + [Release] else sent;
    }
  }

  lemma DropReads(strict: bool, h: Hold, s: State, callsign: string)
    requires Matches(h, s)
    requires strict ==> Hushed(h, s)
    ensures Reads(strict, h, Drop(s, callsign).1, Drop(s, callsign).0)
  {
    hide First, RecordsOf;
    var t := Drop(s, callsign).0;
    if t.floor == 0 {
      assert Audit(strict, h, [Release]) == Advance(strict, h, Release);
    } else if callsign in s.users && RecordsOf(s, s.users[callsign]) != {} {
      assert t.floor != First(RecordsOf(s, s.users[callsign]));
      assert LoggingIn(s, s.floor) ==> LoggingIn(t, s.floor);
    }
  }

  /** The clock may let the floor go; otherwise it leaves it, its fan-out list and
      the login record behind it alone. */
  lemma TickFloor(s: State, ms: nat, gone: set<string>)
    requires Wf(s)
    ensures var t := Tick(s, ms, gone).0;
            t.floor == 0 || (t.floor == s.floor && t.repeaters == s.repeaters
                             && (LoggingIn(s, s.floor) ==> LoggingIn(t, s.floor)))
    ensures var (t, out) := Tick(s, ms, gone);
            out == if s.floor != 0 && t.floor == 0 then [Release] else []
  {
    hide Wf;
  }

  lemma TickReads(strict: bool, h: Hold, s: State, ms: nat, gone: set<string>)
    requires Wf(s) && Matches(h, s)
    requires strict ==> Hushed(h, s)
    ensures Reads(strict, h, Tick(s, ms, gone).1, Tick(s, ms, gone).0)
  {
    hide Tick;
    TickFloor(s, ms, gone);
    WfTick(s, ms, gone);
    assert Audit(strict, h, [Release]) == Advance(strict, h, Release);
  }

  lemma StepReads(strict: bool, h: Hold, s: State, e: Event)
    requires Wf(s) && Proper(s, e) && Matches(h, s)
    requires strict ==> Hushed(h, s) && !Reuses(s, e)
    ensures Reads(strict, h, Step(s, e).1, Step(s, e).0)
  {
    hide Wf, G2Header, G2Voice, RefHeader, RefVoice, Drop, Tick, Reuses;
    match e
    case G2HeaderArrives(my, your, id, cs) => if Routed(s, e) { G2HeaderReads(strict, h, s, my, your, id, cs); }
    case G2VoiceArrives(id, end) => if Routed(s, e) { G2VoiceReads(strict, h, s, id, end); }
    case RefHeaderArrives(id, cs) => RefHeaderReads(strict, h, s, id, cs);
    case RefVoiceArrives(id, end) => RefVoiceReads(strict, h, s, id, end);
    case Dropped(callsign) => DropReads(strict, h, s, callsign);
    case Linked(linkType) =>
    case Clocked(ms, gone) => TickReads(strict, h, s, ms, gone);
  }

  /** No logoff header takes over the id of the login stream that holds the floor. */
  predicate Unreused(s: State, es: seq<Event>)
    requires Wf(s) && Legal(s, es)
    decreases |es|
  {
    es == [] || (!Reuses(s, es[0]) && (StepWf(s, es[0]); Unreused(Step(s, es[0]).0, es[1..])))
  }

  /** Every run is read to its end: the floor never passes from one stream to
      another, whatever is relayed while it is held belongs to its stream and goes
      to the list fixed at the start. Read strictly, a stream that began as a login
      is not relayed either. */
  lemma {:induction false} FloorExclusive(strict: bool, h: Hold, s: State, es: seq<Event>)
    requires Wf(s) && Legal(s, es) && Matches(h, s)
    requires strict ==> Hushed(h, s) && Unreused(s, es)
    ensures Reads(strict, h, Run(s, es).1, Run(s, es).0)
    decreases |es|
  {
    hide Wf, Step, Matches, Hushed, Reuses;
    if es != [] {
      var e := es[0];
      StepWf(s, e);
      StepReads(strict, h, s, e);
      var (t, out) := Step(s, e);
      var a := Audit(strict, h, out).value;
      FloorExclusive(strict, a, t, es[1..]);
      AuditConcat(strict, h, out, Run(t, es[1..]).1);
    }
  }

  // ---- what that means for the frames themselves ----

  lemma {:induction false} HoldStays(strict: bool, h: Hold, outs: seq<Out>)
    requires h.Held? && Audit(strict, h, outs).Some?
    requires forall o | o in outs :: !o.Release?
    ensures Audit(strict, h, outs) == Some(h)
    ensures forall o | o in outs :: Advance(strict, h, o) == Some(h)
    decreases |outs|
  {
    if outs != [] {
      assert outs[0] in outs;
      assert forall o | o in outs[1..] :: o in outs;
      HoldStays(strict, h, outs[1..]);
      forall o | o in outs
        ensures Advance(strict, h, o) == Some(h)
      {
        assert o == outs[0] || o in outs[1..];
      }
    }
  }

  lemma {:induction false} AuditSplit(strict: bool, h: Hold, outs: seq<Out>, i: nat)
    requires i <= |outs| && Audit(strict, h, outs).Some?
    ensures var a := Audit(strict, h, outs[..i]); a.Some? && Audit(strict, a.value, outs[i..]) == Audit(strict, h, outs)
    decreases |outs|
  {
    if i > 0 {
      var n := Advance(strict, h, outs[0]).value;
      AuditSplit(strict, n, outs[1..], i - 1);
      assert outs[..i][1..] == outs[1..][..i - 1];
      assert outs[1..][i - 1..] == outs[i..];
    } else {
      assert outs[i..] == outs;
    }
  }

  /** Between two releases only one stream is heard: any two frames with no
      release between them carry the same id. */
  lemma OneStreamAtATime(s: State, es: seq<Event>, i: nat, j: nat)
    requires Wf(s) && Legal(s, es) && s.floor == 0
    requires var outs := Run(s, es).1;
             && i < j < |outs| && outs[i].Sent? && outs[j].Sent?
             && forall k | i < k < j :: !outs[k].Release?
    ensures var outs := Run(s, es).1; outs[i].id == outs[j].id
  {
    hide Wf, Step, Run, Legal;
    var outs := Run(s, es).1;
    FloorExclusive(false, Free, s, es);
    AuditSplit(false, Free, outs, i);
    var h := Audit(false, Free, outs[..i]).value;
    AuditSplit(false, h, outs[i..], j - i + 1);
    var window := outs[i..][..j - i + 1];
    assert window[0] == outs[i] && window[j - i] == outs[j];
    assert Advance(false, h, window[0]).Some?;
    forall o | o in window
      ensures !o.Release?
    {
      var k :| 0 <= k < |window| && window[k] == o;
      assert o == outs[i + k];
    }
    HoldStays(false, h, window);
    assert window[j - i] in window;
  }

  /** While a login stream holds the floor no G2 frame at all leaves for a repeater
      or a reflector. */
  lemma LoginHoldIsSilent(s: State, es: seq<Event>, i: nat, j: nat)
    requires Wf(s) && Legal(s, es) && Unreused(s, es) && s.floor == 0
    requires var outs := Run(s, es).1;
             && i < j < |outs| && outs[i].Take? && outs[i].silent
             && forall k | i < k < j :: !outs[k].Release?
    ensures var outs := Run(s, es).1; !(outs[j].Sent? && outs[j].source.FromG2?)
  {
    hide Wf, Step, Run, Legal;
    var outs := Run(s, es).1;
    FloorExclusive(true, Free, s, es);
    AuditSplit(true, Free, outs, i);
    var h := Audit(true, Free, outs[..i]).value;
    AuditSplit(true, h, outs[i..], j - i);
    var window := outs[i..][..j - i];
    assert window[0] == outs[i];
    var held := Held(outs[i].id, outs[i].fanout, true);
    assert Advance(true, h, window[0]) == Some(held);
    forall o | o in window[1..]
      ensures !o.Release?
    {
      var k :| 0 <= k < |window[1..]| && window[1..][k] == o;
      assert o == outs[i + 1 + k];
    }
    HoldStays(true, held, window[1..]);
    assert outs[i..][j - i..][0] == outs[j];
  }

  // ---- a receive-only group ----

  predicate NoneFromG2(outs: seq<Out>) {
    forall o | o in outs :: !(o.Sent? && o.source.FromG2?)
  }

  lemma {:induction false} RelaySource(source: Source, reps: map<string, Repeater>, keys: seq<string>, id: nat,
                                       kind: Kind)
    requires source == FromReflector
    requires forall k | k in keys :: k in reps
    ensures NoneFromG2(RelayTo(source, reps, keys, id, kind))
  {
    if keys != [] {
      RelaySource(source, reps, keys[..|keys| - 1], id, kind);
    }
  }

  lemma {:induction false} TextsSource(source: Source, reps: map<string, Repeater>, id: nat, n: nat)
    requires source == FromReflector
    ensures NoneFromG2(Texts(source, reps, id, n))
  {
    if n > 0 {
      TextsSource(source, reps, id, n - 1);
      RelaySource(source, reps, Sorted(reps.Keys), id, Text(n - 1));
    }
  }

  lemma StepReceiveOnly(s: State, e: Event)
    requires Wf(s) && Proper(s, e) && s.config.listenOnly
    ensures NoneFromG2(Step(s, e).1)
  {
    hide Wf, FanOut, Sorted, Texts, RelayTo, First;
    match e
    case RefHeaderArrives(id, cs) =>
      var reps := FanOut(s.repeaters, cs, Sorted(s.users.Keys), None);
      RelaySource(FromReflector, reps, Sorted(reps.Keys), id, Header);
      TextsSource(FromReflector, reps, id, TEXT_FRAMES);
    case RefVoiceArrives(id, _) => RelaySource(FromReflector, s.repeaters, Sorted(s.repeaters.Keys), id, Voice);
    case _ =>
  }

  /** On a receive-only group no G2 stream is ever relayed. */
  lemma {:induction false} ReceiveOnlyRun(s: State, es: seq<Event>)
    requires Wf(s) && Legal(s, es) && s.config.listenOnly
    ensures NoneFromG2(Run(s, es).1)
    decreases |es|
  {
    hide Wf, Step;
    if es != [] {
      StepWf(s, es[0]);
      StepConfig(s, es[0]);
      StepReceiveOnly(s, es[0]);
      ReceiveOnlyRun(Step(s, es[0]).0, es[1..]);
    }
  }

  /** The condition is exact, event by event: while the floor stays with a login
      stream only such a logoff takes away its login record. */
  lemma LoginKeptIff(s: State, e: Event)
    requires Wf(s) && Proper(s, e) && s.floor != 0 && LoggingIn(s, s.floor)
    requires Step(s, e).0.floor == s.floor
    ensures LoggingIn(Step(s, e).0, s.floor) <==> !Reuses(s, e)
  {
    hide Wf, TakeG2, Drop, Tick, Relay;
    match e
    case G2HeaderArrives(my, _, id, cs) =>
      if Routed(s, e) && e.your == s.config.callsign {
        if my !in s.users {
          TakeHeld(PutRecord(AddUser(s, my), id, NewRecord(s.next, true, false)), id, my, true, cs);
        } else {
          HeldTalker(s, my);
          TakeHeld(PutRecord(ResetUser(s, s.users[my]), id, NewRecord(s.users[my], false, false)), id, my, false, cs);
        }
      }
    case Dropped(callsign) => DropLogin(s, callsign);
    case Clocked(ms, gone) => TickFloor(s, ms, gone);
    case _ =>
  }

  lemma DropLogin(s: State, callsign: string)
    requires s.floor != 0 && LoggingIn(s, s.floor) && Drop(s, callsign).0.floor == s.floor
    ensures LoggingIn(Drop(s, callsign).0, s.floor)
  {
    hide First, RecordsOf;
    if callsign in s.users && RecordsOf(s, s.users[callsign]) != {} {
      assert callsign != ALL ==> First(RecordsOf(s, s.users[callsign])) != s.floor;
    }
  }

  lemma TimeoutFits(s: State)
    requires Wf(s)
    ensures s.config.userTimeout * 60000 + 1 < U32
  {
  }

  lemma HeldTalker(s: State, my: string)
    requires Wf(s) && my in s.users
    ensures s.users[my] in s.heap
  {
  }

  lemma TakeHeld(s: State, id: nat, my: string, login: bool, cs: Pair)
    requires s.floor != 0
    ensures TakeG2(s, id, my, login, cs) == (s, [])
  {
    hide FanOut, Texts, Relay, Sorted;
  }

  /** Without that condition silence is lost: log in, log off under the same id
      while it holds the floor, and the next voice frame is relayed. */
  lemma ReusedIdIsHeard(c: Config, my: string, id: nat, cs: Pair)
    requires c.userTimeout * 60000 + 1 < U32 && !c.listenOnly && c.callsign != c.offCallsign && id != 0
    ensures var s := Init(c, LT_DEXTRA);
            var es := [G2HeaderArrives(my, c.callsign, id, cs), G2HeaderArrives(my, c.offCallsign, id, cs),
                       G2VoiceArrives(id, false)];
            Legal(s, es) && !Unreused(s, es) && Run(s, es).1 != []
            && Audit(true, Free, Run(s, es).1).None?
  {
    hide FanOut, Texts, RelayTo, Sorted, First, Wf;
    var s := Init(c, LT_DEXTRA);
    var login, logoff := G2HeaderArrives(my, c.callsign, id, cs), G2HeaderArrives(my, c.offCallsign, id, cs);
    var voice := G2VoiceArrives(id, false);
    StepWf(s, login);
    var (t, o1) := Step(s, login);
    var reps := t.repeaters;
    assert o1 == [Take(id, reps, true)];
    StepWf(t, logoff);
    var (u, o2) := Step(t, logoff);
    assert Reuses(t, logoff) && o2 == [];
    StepWf(u, voice);
    var (v, o3) := Step(u, voice);
    assert o3[0] == Sent(FromG2, ToReflector, id, Voice);
    RunStep(u, voice, []);
    RunStep(t, logoff, [voice] + []);
    RunStep(s, login, [logoff] + ([voice] + []));
    var es := [login, logoff, voice];
    assert es == [login] + ([logoff] + ([voice] + []));
    assert es[1..] == [logoff] + ([voice] + []);
    var all := Run(s, es).1;
    assert all == o1 + (o2 + (o3 + []));
    assert all[0] == Take(id, reps, true) && all[1..][0] == o3[0];
  }
}
