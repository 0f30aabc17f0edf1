/** What each event sends, frame by frame: to every repeater and to the reflector,
    in the order in which it leaves. */
module GroupFrames {
  import opened Timer
  import opened Caches
  import opened Group
  import opened GroupRuns
  import opened GroupTiming
  import opened GroupFanOut

  // ---- the start of a stream ----

  /** A subscriber's header that is no repeat, while nobody has the floor. */
  predicate TalkStarts(s: State, e: Event) {
    && e.G2HeaderArrives? && e.your == s.config.callsign && s.floor == 0
    && e.my in s.users && !Live(s, e.id)
  }

  predicate LoginStarts(s: State, e: Event) {
    e.G2HeaderArrives? && e.your == s.config.callsign && s.floor == 0 && e.my !in s.users
  }

  predicate ReflectorStarts(s: State, e: Event) {
    e.RefHeaderArrives? && s.floor == 0
  }

  predicate Starts(s: State, e: Event) {
    TalkStarts(s, e) || LoginStarts(s, e) || ReflectorStarts(s, e)
  }

  /** Repeater k is at the start of the way to a subscriber, the new one included,
      and not where the sender of a G2 stream is at home. */
  ghost predicate Chosen(t: State, e: Event, k: string)
    requires e.G2HeaderArrives? || e.RefHeaderArrives?
  {
    Wanted(t, e.cs, k) && (e.G2HeaderArrives? ==> !e.cs.HomeIs(e.my, k))
  }

  /** The floor goes to a new stream exactly when one starts; its list is then what
      was left of the last one and the repeaters chosen, each new one with its zone
      route and the gateway and address on the way to a subscriber. */
  lemma TakesIff(s: State, e: Event, x: nat, k: string)
    requires Wf(s) && Proper(s, e) && s.floor == 0 && x != 0
    ensures var t := Step(s, e).0;
            && (t.floor == x <==> Starts(s, e) && e.id == x)
            && (t.floor == 0 <==> !Starts(s, e))
            && (Starts(s, e) ==>
                  && (k in t.repeaters <==> k in s.repeaters || Chosen(t, e, k))
                  && (k in s.repeaters ==> t.repeaters[k] == s.repeaters[k])
                  && (k in t.repeaters && k !in s.repeaters ==>
                        exists u | u in t.users :: EntryFor(t.repeaters[k], e.cs, u, k)))
  {
    hide Wf, FanOut, Relay, Texts, Sorted, Drop, Tick, Wanted, EntryFor, Touch;
    var t := Step(s, e).0;
    match e
    case G2HeaderArrives(my, your, id, cs) =>
      if Starts(s, e) {
        HeaderTakes(s, my, id, cs);
        HomeKept(t.(repeaters := s.repeaters), cs, my, k);
        SameWanted(t, s.repeaters, cs, k);
        NewEntry(t, s.repeaters, cs, Some(cs.Home(my)), k);
      }
    case RefHeaderArrives(id, cs) =>
      RefTakes(s, id, cs);
      TouchUsers(s, id, cs);
      FanOutWanted(t.(repeaters := s.repeaters), cs, None, k);
      SameWanted(t, s.repeaters, cs, k);
      NewEntry(t, s.repeaters, cs, None, k);
    case Dropped(callsign) => DropFree(s, callsign);
    case Clocked(ms, gone) => TickFree(s, ms, gone);
    case _ =>
  }

  lemma HeaderTakes(s: State, my: string, id: nat, cs: Pair)
    requires Wf(s) && s.floor == 0 && (my !in s.users || !Live(s, id))
    ensures var t := G2Header(s, my, s.config.callsign, id, cs).0;
            && t.floor == id && t.config == s.config && t.linkType == s.linkType
            && t.users.Keys == s.users.Keys + {my}
            && t.repeaters == FanOut(s.repeaters, cs, Sorted(t.users.Keys), Some(cs.Home(my)))
  {
    hide FanOut, Relay, Texts, Sorted;
  }

  lemma TouchUsers(s: State, id: nat, cs: Pair)
    requires s.floor == 0
    ensures RefHeader(s, id, cs).0.users == s.users && RefHeader(s, id, cs).0.config == s.config
  {
    hide FanOut, Relay, Texts, Sorted;
  }

  lemma SameWanted(t: State, reps: map<string, Repeater>, cs: Pair, k: string)
    ensures Wanted(t.(repeaters := reps), cs, k) <==> Wanted(t, cs, k)
  {
  }

  lemma NewEntry(t: State, reps: map<string, Repeater>, cs: Pair, exclude: Option<string>, k: string)
    requires t.repeaters == FanOut(reps, cs, Sorted(t.users.Keys), exclude)
    ensures k in reps ==> k in t.repeaters && t.repeaters[k] == reps[k]
    ensures k in t.repeaters && k !in reps ==> exists u | u in t.users :: EntryFor(t.repeaters[k], cs, u, k)
  {
    hide EntryFor;
    FanOutKeys(reps, cs, Sorted(t.users.Keys), exclude, k);
    if k in t.repeaters {
      FanOutEntry(reps, cs, Sorted(t.users.Keys), exclude, k);
    }
  }

  lemma DropFree(s: State, callsign: string)
    requires s.floor == 0
    ensures Drop(s, callsign).0.floor == 0 && Drop(s, callsign).1 == []
  {
    hide First, RecordsOf;
  }

  lemma TickFree(s: State, ms: nat, gone: set<string>)
    requires Wf(s) && s.floor == 0
    ensures Tick(s, ms, gone).0.floor == 0
  {
    hide Wf, Kept, ClockRecord, Due;
  }

  // ---- every frame of every event ----

  /** A stream opens with its header and then twenty-one frames of text. */
  function Opening(source: Source, to: Dest, id: nat, header: bool): seq<Out> {
    (if header then [Sent(source, to, id, Header)] else [])
      + seq(21, i requires 0 <= i => Sent(source, to, id, Text(i)))
  }

  /** The frames for repeater k at address addr, or for the reflector. A stream that
      starts is announced to all that are listed, without a header when its id is that
      of a login record; a voice frame goes to all that are listed. */
  function Frames(s: State, e: Event, to: Option<string>, listed: bool, addr: string): seq<Out> {
    var relays := !s.config.listenOnly;
    match (e, to)
    case (G2HeaderArrives(_, _, id, _), None) =>
      if TalkStarts(s, e) && relays && s.linkType != LT_NONE then [Sent(FromG2, ToReflector, id, Header)] else []
    case (G2HeaderArrives(_, _, id, _), Some(k)) =>
      if TalkStarts(s, e) && relays && listed then Opening(FromG2, ToRepeater(k, addr), id, true) else []
    case (G2VoiceArrives(id, _), _) =>
      if !(id == s.floor && Live(s, id) && !s.ids[id].value.login && relays) then []
      else if to.None? then (if s.linkType != LT_NONE then [Sent(FromG2, ToReflector, id, Voice)] else [])
      else if listed then [Sent(FromG2, ToRepeater(to.value, addr), id, Voice)]
      else []
    case (RefHeaderArrives(id, _), Some(k)) =>
      if ReflectorStarts(s, e) && listed
      then Opening(FromReflector, ToRepeater(k, addr), id, !(Live(s, id) && s.ids[id].value.login)) else []
    case (RefVoiceArrives(id, _), Some(k)) =>
      if id == s.floor && !(Live(s, id) && s.ids[id].value.login) && listed
      then [Sent(FromReflector, ToRepeater(k, addr), id, Voice)] else []
    case _ => []
  }

  /** The list that the frames of an event go by: that of the stream it starts, or
      the one there is. */
  function ListFor(s: State, e: Event): map<string, Repeater>
    requires Wf(s) && Proper(s, e)
  {
    if Starts(s, e) then Step(s, e).0.repeaters else s.repeaters
  }

  /** Every event sends each repeater, and the reflector, exactly these frames in
      this order, and sends nothing else. */
  lemma StepFrames(s: State, e: Event, to: Option<string>)
    requires Wf(s) && Proper(s, e)
    ensures var reps := ListFor(s, e);
            var listed := to.Some? && to.value in reps;
            Line(Step(s, e).1, to) == Frames(s, e, to, listed, if listed then reps[to.value].addr else "")
  {
    hide Wf, Line, Opening, FanOut, Relay, Texts, Sorted, Drop, Tick;
    LineShort([], to);
    match e
    case G2HeaderArrives(my, your, id, cs) =>
      if TalkStarts(s, e) {
        HeaderTakes(s, my, id, cs);
        TalkLine(s, my, id, cs, to);
      } else if Routed(s, e) {
        QuietHeader(s, my, your, id, cs, to);
      }
    case G2VoiceArrives(id, end) =>
      if id == s.floor && Live(s, id) && !LoginRecord(s, id) && !s.config.listenOnly {
        VoiceLine(s, id, end, to);
      } else if Routed(s, e) {
        QuietVoice(s, id, end, to);
      }
    case RefHeaderArrives(id, cs) =>
      if s.floor == 0 {
        RefTakes(s, id, cs);
        RefLine(s, id, cs, to);
      }
    case RefVoiceArrives(id, end) =>
      if id == s.floor {
        RefVoiceLine(s, id, end, to);
      }
    case Dropped(callsign) => DropLine(s, callsign, to);
    case Clocked(ms, gone) => TickLine(s, ms, gone, to);
    case _ =>
  }

  lemma QuietHeader(s: State, my: string, your: string, id: nat, cs: Pair, to: Option<string>)
    requires Wf(s) && !TalkStarts(s, G2HeaderArrives(my, your, id, cs))
    requires your == s.config.callsign || your == s.config.offCallsign
    ensures Line(G2Header(s, my, your, id, cs).1, to) == []
  {
    hide Line, FanOut, Relay, Texts, Sorted;
    LineShort(G2Header(s, my, your, id, cs).1, to);
  }

  lemma QuietVoice(s: State, id: nat, end: bool, to: Option<string>)
    requires Wf(s) && (id in s.ids ==> s.ids[id].Some?)
    requires !(id == s.floor && Live(s, id) && !LoginRecord(s, id) && !s.config.listenOnly)
    ensures Line(G2Voice(s, id, end).1, to) == []
  {
    hide Line, Relay;
    LineShort(G2Voice(s, id, end).1, to);
  }

  lemma DropLine(s: State, callsign: string, to: Option<string>)
    ensures Line(Drop(s, callsign).1, to) == []
  {
    hide Line, First, RecordsOf;
    LineShort(Drop(s, callsign).1, to);
  }

  lemma TickLine(s: State, ms: nat, gone: set<string>, to: Option<string>)
    requires Wf(s)
    ensures Line(Tick(s, ms, gone).1, to) == []
  {
    hide Line, Wf, Kept, ClockRecord, Due;
    LineShort(Tick(s, ms, gone).1, to);
  }

  /** What a repeater is sent by way of text. */
  lemma {:induction false} TextsLine(source: Source, reps: map<string, Repeater>, id: nat, n: nat, to: Option<string>)
    ensures Line(Texts(source, reps, id, n), to)
         == if to.Some? && to.value in reps
            then seq(n, i requires 0 <= i => Sent(source, ToRepeater(to.value, reps[to.value].addr), id, Text(i)))
            else []
  {
    hide Line, Sorted, RelayTo;
    if n == 0 {
      LineShort([], to);
    } else {
      TextsLine(source, reps, id, n - 1, to);
      RelayLine(source, reps, Sorted(reps.Keys), id, Text(n - 1), to);
      LineConcat(Texts(source, reps, id, n - 1), Relay(source, reps, id, Text(n - 1)), to);
    }
  }

  /** A header and its text, after the note of who takes the floor. */
  lemma OpeningLine(take: Out, up: seq<Out>, source: Source, reps: map<string, Repeater>, id: nat, header: bool,
                    to: Option<string>)
    requires !take.Sent? && |up| <= 1
    requires forall o | o in up :: GoesTo(o, None)
    ensures var out := [take] + (up + (if header then Relay(source, reps, id, Header) else [])
                                 + Texts(source, reps, id, 21));
            Line(out, to)
            == if to.None? then up
               else if to.value in reps then Opening(source, ToRepeater(to.value, reps[to.value].addr), id, header)
               else []
  {
    hide Line, Sorted, RelayTo, Texts;
    var head := if header then Relay(source, reps, id, Header) else [];
    var texts := Texts(source, reps, id, 21);
    RelayLine(source, reps, Sorted(reps.Keys), id, Header, to);
    TextsLine(source, reps, id, 21, to);
    LineShort([], to);
    LineShort([take], to);
    LineShort(up, to);
    LineConcat(up, head, to);
    LineConcat(up + head, texts, to);
    LineConcat([take], up + head + texts, to);
    if up != [] {
      assert up[0] in up;
    }
  }

  lemma TalkLine(s: State, my: string, id: nat, cs: Pair, to: Option<string>)
    requires Wf(s) && s.floor == 0 && my in s.users && !Live(s, id)
    ensures var e := G2HeaderArrives(my, s.config.callsign, id, cs);
            var reps := G2Header(s, my, s.config.callsign, id, cs).0.repeaters;
            var listed := to.Some? && to.value in reps;
            Line(G2Header(s, my, s.config.callsign, id, cs).1, to)
            == Frames(s, e, to, listed, if listed then reps[to.value].addr else "")
  {
    hide Line, Opening, FanOut, Relay, Texts, Sorted;
    var (t, out) := G2Header(s, my, s.config.callsign, id, cs);
    var reps := t.repeaters;
    if s.config.listenOnly {
      LineShort(out, to);
    } else {
      var up: seq<Out> := if s.linkType != LT_NONE then [Sent(FromG2, ToReflector, id, Header)] else [];
      assert out == [Take(id, reps, false)] + (up + Relay(FromG2, reps, id, Header) + Texts(FromG2, reps, id, 21));
      OpeningLine(Take(id, reps, false), up, FromG2, reps, id, true, to);
    }
  }

  lemma RefLine(s: State, id: nat, cs: Pair, to: Option<string>)
    requires s.floor == 0
    ensures var reps := RefHeader(s, id, cs).0.repeaters;
            var listed := to.Some? && to.value in reps;
            Line(RefHeader(s, id, cs).1, to)
            == Frames(s, RefHeaderArrives(id, cs), to, listed, if listed then reps[to.value].addr else "")
  {
    hide Line, Opening, FanOut, Relay, Texts, Sorted;
    RefTakes(s, id, cs);
    var reps := RefHeader(s, id, cs).0.repeaters;
    var take := Take(id, reps, s.config.listenOnly);
    var head := if LoginRecord(s, id) then [] else Relay(FromReflector, reps, id, Header);
    assert RefHeader(s, id, cs).1 == [take] + head + Texts(FromReflector, reps, id, 21);
    assert [take] + head + Texts(FromReflector, reps, id, 21)
           == [take] + ([] + head + Texts(FromReflector, reps, id, 21));
    OpeningLine(take, [], FromReflector, reps, id, !LoginRecord(s, id), to);
  }
}
