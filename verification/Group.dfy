/** One Smart Group: the floor, the live transmission records, the subscribers
    and the fan-out list, and what each step does to them. */
module Group {
  import opened Timer
  import opened Caches

  const MESSAGE_DELAY: uint32 := 4
  const NETWORK_TIMEOUT: uint32 := 2
  const TEXT_FRAMES := 21
  const ALL := "ALL     "

  datatype LinkType = LT_NONE | LT_DEXTRA | LT_DCS

  /** userTimeout is in minutes. */
  datatype Config = Config(callsign: string, offCallsign: string, userTimeout: nat, listenOnly: bool)

  datatype User = User(callsign: string, timer: Ticks)

  /** One transmission; user is a reference into the heap of user objects. */
  datatype Record = Record(timer: Ticks, login: bool, logoff: bool, end: bool, user: nat)

  datatype Repeater = Repeater(dest: string, gate: string, addr: string)

  /** heap holds every user object ever made, so that a record and the subscriber
      map can share one; freed are the objects deleted so far. A record of None is
      the null that indexing the record map leaves behind. */
  datatype State = State(
    config: Config, linkType: LinkType,
    floor: nat, linkTimer: Ticks,
    ids: map<nat, Option<Record>>,
    users: map<string, nat>,
    repeaters: map<string, Repeater>,
    heap: map<nat, User>, freed: set<nat>, next: nat)

  predicate Live(s: State, id: nat) {
    id in s.ids && s.ids[id].Some?
  }

  /** No reference points outside the heap, and callsigns and user objects match
      one to one. */
  ghost predicate Wf(s: State) {
    && s.config.userTimeout * 60000 + 1 < U32
    && (forall u | u in s.heap :: u < s.next && s.heap[u].timer.timeout == UserTicks(s.config))
    && (forall c | c in s.users :: s.users[c] in s.heap && s.heap[s.users[c]].callsign == c)
    && (forall id | Live(s, id) :: s.ids[id].value.user in s.heap && s.ids[id].value.timer.timeout == 4001)
    && s.linkTimer.timeout == 2001
    && s.freed <= s.heap.Keys
  }

  function UserTicks(c: Config): nat {
    if c.userTimeout == 0 then 0 else 60000 * c.userTimeout + 1
  }

  function UserTimer(c: Config): (t: Ticks)
    requires c.userTimeout * 60000 + 1 < U32
    ensures t == Ticks(UserTicks(c), if c.userTimeout == 0 then 0 else 1)
  {
    Seconds(c.userTimeout * 60).Started()
  }

  function NewRecord(user: nat, login: bool, logoff: bool): (r: Record)
    ensures r.timer == Ticks(4001, 1)
  {
    Record(Seconds(MESSAGE_DELAY).Started(), login, logoff, false, user)
  }

  /** The state of a group as constructed. */
  function Init(c: Config, linkType: LinkType): (s: State)
    requires c.userTimeout * 60000 + 1 < U32
    ensures Wf(s)
  {
    State(c, linkType, 0, Seconds(NETWORK_TIMEOUT), map[], map[], map[], map[], {}, 0)
  }

  // ---- what leaves the group ----

  datatype Source = FromG2 | FromReflector

  datatype Dest = ToRepeater(rptr: string, addr: string) | ToReflector

  datatype Kind = Header | Text(n: nat) | Voice

  /** The trace of a run: who takes the floor, with which fan-out list, who lets
      it go, and every frame in between. A silent hold is one whose own stream is
      not relayed. */
  datatype Out =
    | Take(id: nat, fanout: map<string, Repeater>, silent: bool)
    | Release
    | Sent(source: Source, to: Dest, id: nat, kind: Kind)

  /** One frame to each repeater listed, in map order. */
  function RelayTo(source: Source, reps: map<string, Repeater>, keys: seq<string>, id: nat, kind: Kind): seq<Out>
    requires forall k | k in keys :: k in reps
  {
    if keys == [] then []
    else
      var k := keys[|keys| - 1];
      RelayTo(source, reps, keys[..|keys| - 1], id, kind) + [Sent(source, ToRepeater(k, reps[k].addr), id, kind)]
  }

  function Relay(source: Source, reps: map<string, Repeater>, id: nat, kind: Kind): seq<Out> {
    RelayTo(source, reps, Sorted(reps.Keys), id, kind)
  }

  function Texts(source: Source, reps: map<string, Repeater>, id: nat, n: nat): seq<Out> {
    if n == 0 then [] else Texts(source, reps, id, n - 1) + Relay(source, reps, id, Text(n - 1))
  }

  // ---- the fan-out list ----

  /** Zone routing: a slash, the first six characters and the module. */
  function ZoneRoute(rptr: string): string
    requires rptr != ""
  {
    "/" + (if |rptr| < 6 then rptr else rptr[..6]) + [rptr[|rptr| - 1]]
  }

  /** Adds one located user's repeater unless it is there, or excluded. */
  function AddRepeater(reps: map<string, Repeater>, cs: Pair, user: string,
                       exclude: Option<string>): map<string, Repeater> {
    var r := cs.Locate(user);
    if r.addr == "" || exclude == Some(r.rptr) || r.rptr in reps || r.rptr == "" then reps
    else reps[r.rptr := Repeater(ZoneRoute(r.rptr), r.gate, r.addr)]
  }

  function FanOut(reps: map<string, Repeater>, cs: Pair, users: seq<string>,
                  exclude: Option<string>): map<string, Repeater> {
    if users == [] then reps
    else AddRepeater(FanOut(reps, cs, users[..|users| - 1], exclude), cs, users[|users| - 1], exclude)
  }

  // ---- G2 ----

  function ResetUser(s: State, u: nat): State
    requires u in s.heap
  {
    s.(heap := s.heap[u := s.heap[u].(timer := s.heap[u].timer.Started())])
  }

  function AddUser(s: State, my: string): State
    requires s.config.userTimeout * 60000 + 1 < U32
  {
    s.(heap := s.heap[s.next := User(my, UserTimer(s.config))], users := s.users[my := s.next], next := s.next + 1)
  }

  function PutRecord(s: State, id: nat, r: Record): State {
    s.(ids := s.ids[id := Some(r)])
  }

  /** The end of header processing: a free floor goes to this stream. */
  function TakeG2(s: State, id: nat, my: string, login: bool, cs: Pair): (State, seq<Out>) {
    if s.floor != 0 then (s, [])
    else
      var reps := FanOut(s.repeaters, cs, Sorted(s.users.Keys), Some(cs.Home(my)));
      var silent := login || s.config.listenOnly;
      (s.(floor := id, repeaters := reps),
       [Take(id, reps, silent)] +
       if silent then []
       else (if s.linkType != LT_NONE then [Sent(FromG2, ToReflector, id, Header)] else [])
            + Relay(FromG2, reps, id, Header) + Texts(FromG2, reps, id, TEXT_FRAMES))
  }

  function G2Header(s: State, my: string, your: string, id: nat, cs: Pair): (State, seq<Out>)
    requires Wf(s)
  {
    if your == s.config.callsign then
      if my !in s.users then
        TakeG2(PutRecord(AddUser(s, my), id, NewRecord(s.next, true, false)), id, my, true, cs)
      else
        var t := ResetUser(s, s.users[my]);
        if Live(s, id) then (t, [])
        else TakeG2(PutRecord(t, id, NewRecord(s.users[my], false, false)), id, my, false, cs)
    else if my !in s.users then (s, [])
    else (PutRecord(s.(users := s.users - {my}), id, NewRecord(s.users[my], false, true)), [])
  }

  /** A voice frame of a live record; the record must not be null. */
  function G2Voice(s: State, id: nat, end: bool): (State, seq<Out>)
    requires Wf(s)
    requires id in s.ids ==> s.ids[id].Some?
  {
    if id !in s.ids then (s, [])
    else
      var r := s.ids[id].value;
      var heard := r.(timer := r.timer.Started());
      var t := PutRecord(ResetUser(s, r.user), id, heard);
      var relayed :=
        if id == s.floor && !r.login && !s.config.listenOnly then
          (if s.linkType != LT_NONE then [Sent(FromG2, ToReflector, id, Voice)] else [])
          + Relay(FromG2, s.repeaters, id, Voice)
        else [];
      if !end then (t, relayed)
      else
        var (u, out) := if id == s.floor then (t.(floor := 0, repeaters := map[]), ReleaseOf(id)) else (t, []);
        (if r.login then PutRecord(u, id, heard.(end := true))
         else if r.logoff then PutRecord(u.(users := u.users - {s.heap[r.user].callsign}), id, heard.(end := true))
         else u.(ids := u.ids - {id}),
         relayed + out)
  }

  function ReleaseOf(floor: nat): seq<Out> {
    if floor != 0 then [Release] else []
  }

  // ---- reflector ----

  /** Indexing the record map makes a null entry for an unknown id. */
  function Touch(s: State, id: nat): State {
    if id in s.ids then s else s.(ids := s.ids[id := None])
  }

  predicate LoginRecord(s: State, id: nat) {
    Live(s, id) && s.ids[id].value.login
  }

  function RefHeader(s: State, id: nat, cs: Pair): (State, seq<Out>) {
    if s.floor != 0 then (s, [])
    else
      var reps := FanOut(s.repeaters, cs, Sorted(s.users.Keys), None);
      (Touch(s.(floor := id, linkTimer := s.linkTimer.Started(), repeaters := reps), id),
       [Take(id, reps, s.config.listenOnly)]
       + (if LoginRecord(s, id) then [] else Relay(FromReflector, reps, id, Header))
       + Texts(FromReflector, reps, id, TEXT_FRAMES))
  }

  function RefVoice(s: State, id: nat, end: bool): (State, seq<Out>) {
    if id != s.floor then (s, [])
    else
      var t := Touch(s.(linkTimer := s.linkTimer.Started()), id);
      var relayed := if LoginRecord(s, id) then [] else Relay(FromReflector, s.repeaters, id, Voice);
      if end then (t.(linkTimer := t.linkTimer.Stopped(), floor := 0, repeaters := map[]), relayed + ReleaseOf(id))
      else (t, relayed)
  }

  // ---- remote control ----

  /** The user's first record in id order, if any. */
  function RecordsOf(s: State, u: nat): set<nat> {
    set id | id in s.ids && s.ids[id].Some? && s.ids[id].value.user == u
  }

  predicate IsFirst(k: nat, ids: set<nat>) {
    k in ids && forall j | j in ids :: k <= j
  }

  function First(ids: set<nat>): (k: nat)
    requires ids != {}
    ensures IsFirst(k, ids)
  {
    HasFirst(ids);
    var k :| IsFirst(k, ids);
    k
  }

  lemma {:induction false} HasFirst(ids: set<nat>)
    requires ids != {}
    ensures exists k :: IsFirst(k, ids)
    ensures forall k, l | IsFirst(k, ids) && IsFirst(l, ids) :: k == l
  {
    var a :| a in ids;
    var rest := ids - {a};
    assert forall j | j in ids :: j == a || j in rest;
    if rest == {} {
      assert IsFirst(a, ids);
    } else {
      HasFirst(rest);
      var k :| IsFirst(k, rest);
      assert IsFirst(if a < k then a else k, ids);
    }
  }

  function DropAll(s: State): (State, seq<Out>) {
    (s.(freed := s.freed + s.users.Values, users := map[], ids := map[], repeaters := map[], floor := 0),
     ReleaseOf(s.floor))
  }

  /** Logging one user off removes his first record only, and clears the fan-out
      list only when nobody is left. */
  function DropOne(s: State, callsign: string): (State, seq<Out>) {
    if callsign !in s.users then (s, [])
    else
      var u := s.users[callsign];
      var recs := RecordsOf(s, u);
      var t :=
        if recs == {} then s
        else s.(ids := s.ids - {First(recs)}, floor := if First(recs) == s.floor then 0 else s.floor);
      var left := t.(users := t.users - {callsign}, freed := t.freed + {u});
      var final := if left.users == map[] then left.(ids := map[], repeaters := map[], floor := 0) else left;
      (final, if s.floor != 0 && final.floor == 0 then [Release] else [])
  }

  function Drop(s: State, callsign: string): (State, seq<Out>) {
    if callsign == ALL then DropAll(s) else DropOne(s, callsign)
  }

  // ---- the clock ----

  /** The record's timer runs out within this step. */
  predicate Due(r: Option<Record>, ms: nat) {
    r.Some? && var t := r.value.timer.Clocked(ms); t.Running() && t.Expired()
  }

  function ClockRecord(r: Option<Record>, ms: nat): Option<Record> {
    if r.None? then r
    else if Due(r, ms) then Some(r.value.(timer := r.value.timer.Clocked(ms).Started(), end := true))
    else Some(r.value.(timer := r.value.timer.Clocked(ms)))
  }

  /** A record is dropped when due and past its acknowledgement, or when it has
      none to send. */
  predicate Kept(r: Option<Record>, ms: nat) {
    Due(r, ms) ==> !r.value.end && (r.value.login || r.value.logoff)
  }

  predicate FreesFloor(s: State, ms: nat) {
    s.floor in s.ids && Due(s.ids[s.floor], ms) && !s.ids[s.floor].value.end
  }

  predicate LogsOff(s: State, id: nat, ms: nat)
    requires id in s.ids
  {
    var r := s.ids[id];
    Due(r, ms) && !r.value.end && !r.value.login && r.value.logoff
  }

  function LinkClock(s: State, ms: nat): State {
    var t := s.linkTimer.Clocked(ms);
    if t.Running() && t.Expired() then s.(linkTimer := t.Stopped(), floor := 0, repeaters := map[])
    else s.(linkTimer := t)
  }

  function RecordsClock(s: State, ms: nat): State
    requires Wf(s)
  {
    var gone := set id | id in s.ids && LogsOff(s, id, ms) :: s.heap[s.ids[id].value.user].callsign;
    var freed := FreesFloor(s, ms);
    s.(ids := map id | id in s.ids && Kept(s.ids[id], ms) :: ClockRecord(s.ids[id], ms),
       users := s.users - gone,
       floor := if freed then 0 else s.floor,
       repeaters := if freed then map[] else s.repeaters)
  }

  function UsersClock(s: State, ms: nat): State {
    s.(heap := map u | u in s.heap ::
         if u in s.users.Values then s.heap[u].(timer := s.heap[u].timer.Clocked(ms)) else s.heap[u])
  }

  predicate TimedOut(s: State, c: string)
    requires Wf(s) && c in s.users
  {
    var t := s.heap[s.users[c]].timer;
    t.Running() && t.Expired()
  }

  /** Nobody times out while the floor is held. */
  function ExpireUsers(s: State): State
    requires Wf(s)
  {
    if s.floor != 0 then s
    else
      s.(users := map c | c in s.users && !TimedOut(s, c) :: s.users[c],
         freed := s.freed + set c | c in s.users && TimedOut(s, c) :: s.users[c])
  }

  lemma WfSweep(s: State, gone: set<string>)
    requires Wf(s)
    ensures Wf(s.(users := s.users - gone))
  {
  }

  lemma WfLink(s: State, ms: nat)
    requires Wf(s)
    ensures Wf(LinkClock(s, ms))
  {
  }

  lemma WfRecords(s: State, ms: nat)
    requires Wf(s)
    ensures Wf(RecordsClock(s, ms))
  {
    var t := RecordsClock(s, ms);
    forall id | Live(t, id)
      ensures t.ids[id].value.user in t.heap && t.ids[id].value.timer.timeout == 4001
    {
      assert Live(s, id);
    }
  }

  lemma WfUsers(s: State, ms: nat)
    requires Wf(s)
    ensures Wf(UsersClock(s, ms))
  {
    var t := UsersClock(s, ms);
    assert t.heap.Keys == s.heap.Keys;
    assert forall id | Live(t, id) :: Live(s, id);
  }

  lemma WfExpire(s: State)
    requires Wf(s)
    ensures Wf(ExpireUsers(s))
  {
    assert forall id | Live(ExpireUsers(s), id) :: Live(s, id);
  }

  /** gone are the users the ping sweep has not found for ten minutes: they leave
      the map but are not deleted. */
  function Tick(s: State, ms: nat, gone: set<string>): (State, seq<Out>)
    requires Wf(s)
  {
    var s1 := s.(users := s.users - gone);
    WfSweep(s, gone);
    var s2 := LinkClock(s1, ms);
    WfLink(s1, ms);
    var s3 := RecordsClock(s2, ms);
    WfRecords(s2, ms);
    var s4 := UsersClock(s3, ms);
    WfUsers(s3, ms);
    (ExpireUsers(s4), if s.floor != 0 && s3.floor == 0 then [Release] else [])
  }

  // ---- runs ----

  datatype Event =
    | G2HeaderArrives(my: string, your: string, id: nat, cs: Pair)
    | G2VoiceArrives(id: nat, end: bool)
    | RefHeaderArrives(id: nat, cs: Pair)
    | RefVoiceArrives(id: nat, end: bool)
    | Dropped(callsign: string)
    | Linked(linkType: LinkType)
    | Clocked(ms: nat, gone: set<string>)

  /** Routing: headers by their destination callsign, G2 voice by the floor. */
  predicate Routed(s: State, e: Event) {
    match e
    case G2HeaderArrives(_, your, _, _) => your == s.config.callsign || your == s.config.offCallsign
    case G2VoiceArrives(id, _) => id == s.floor
    case _ => true
  }

  /** A G2 voice frame must not carry the id of a reflector stream that holds the
      floor: its record is null. */
  predicate Defined(s: State, e: Event) {
    e.G2VoiceArrives? && Routed(s, e) && e.id in s.ids ==> s.ids[e.id].Some?
  }

  function Step(s: State, e: Event): (State, seq<Out>)
    requires Wf(s) && Defined(s, e)
  {
    if !Routed(s, e) then (s, [])
    else
      match e
      case G2HeaderArrives(my, your, id, cs) => G2Header(s, my, your, id, cs)
      case G2VoiceArrives(id, end) => G2Voice(s, id, end)
      case RefHeaderArrives(id, cs) => RefHeader(s, id, cs)
      case RefVoiceArrives(id, end) => RefVoice(s, id, end)
      case Dropped(callsign) => Drop(s, callsign)
      case Linked(linkType) => (s.(linkType := linkType), [])
      case Clocked(ms, gone) => Tick(s, ms, gone)
  }

  lemma WfTick(s: State, ms: nat, gone: set<string>)
    requires Wf(s)
    ensures Wf(Tick(s, ms, gone).0)
    ensures Tick(s, ms, gone).0.config == s.config
  {
    hide Wf, LinkClock, RecordsClock, UsersClock, ExpireUsers;
    var s1 := s.(users := s.users - gone);
    WfSweep(s, gone);
    WfLink(s1, ms);
    WfRecords(LinkClock(s1, ms), ms);
    WfUsers(RecordsClock(LinkClock(s1, ms), ms), ms);
    WfExpire(UsersClock(RecordsClock(LinkClock(s1, ms), ms), ms));
    ClockConfig(s, ms, gone);
  }

  lemma ClockConfig(s: State, ms: nat, gone: set<string>)
    requires Wf(s)
    ensures Tick(s, ms, gone).0.config == s.config
  {
    hide Wf;
  }

  lemma WfReset(s: State, u: nat)
    requires Wf(s) && u in s.heap
    ensures Wf(ResetUser(s, u))
  {
    var t := ResetUser(s, u);
    assert t.heap.Keys == s.heap.Keys;
    assert forall i | Live(t, i) :: Live(s, i);
  }

  lemma WfAdd(s: State, my: string)
    requires Wf(s)
    ensures Wf(AddUser(s, my))
  {
    assert forall i | Live(AddUser(s, my), i) :: Live(s, i);
  }

  lemma WfPut(s: State, id: nat, r: Record)
    requires Wf(s) && r.user in s.heap && r.timer.timeout == 4001
    ensures Wf(PutRecord(s, id, r))
  {
    assert forall i | Live(PutRecord(s, id, r), i) && i != id :: Live(s, i);
  }

  lemma WfTake(s: State, id: nat, reps: map<string, Repeater>, timer: Ticks)
    requires Wf(s) && timer.timeout == 2001
    ensures Wf(s.(floor := id, repeaters := reps, linkTimer := timer))
  {
    assert forall i | Live(s.(floor := id, repeaters := reps, linkTimer := timer), i) :: Live(s, i);
  }

  lemma WfTakeG2(s: State, id: nat, my: string, login: bool, cs: Pair)
    requires Wf(s)
    ensures Wf(TakeG2(s, id, my, login, cs).0)
  {
    hide FanOut, Relay, Texts, Sorted;
    WfTake(s, id, FanOut(s.repeaters, cs, Sorted(s.users.Keys), Some(cs.Home(my))), s.linkTimer);
  }

  lemma WfG2Header(s: State, my: string, your: string, id: nat, cs: Pair)
    requires Wf(s)
    ensures Wf(G2Header(s, my, your, id, cs).0)
  {
    hide TakeG2;
    if your == s.config.callsign {
      if my !in s.users {
        WfAdd(s, my);
        WfPut(AddUser(s, my), id, NewRecord(s.next, true, false));
        WfTakeG2(PutRecord(AddUser(s, my), id, NewRecord(s.next, true, false)), id, my, true, cs);
      } else {
        WfReset(s, s.users[my]);
        WfPut(ResetUser(s, s.users[my]), id, NewRecord(s.users[my], false, false));
        WfTakeG2(PutRecord(ResetUser(s, s.users[my]), id, NewRecord(s.users[my], false, false)), id, my, false, cs);
      }
    } else if my in s.users {
      WfSweep(s, {my});
      WfPut(s.(users := s.users - {my}), id, NewRecord(s.users[my], false, true));
    }
  }

  lemma WfG2Voice(s: State, id: nat, end: bool)
    requires Wf(s)
    requires id in s.ids ==> s.ids[id].Some?
    ensures Wf(G2Voice(s, id, end).0)
  {
    hide Relay;
    if id in s.ids {
      assert Live(s, id);
      var r := s.ids[id].value;
      var heard := r.(timer := r.timer.Started());
      WfReset(s, r.user);
      WfPut(ResetUser(s, r.user), id, heard);
      WfEnd(PutRecord(ResetUser(s, r.user), id, heard), G2Voice(s, id, end).0, id);
    }
  }

  /** Fewer subscribers, and one record ended or dropped. */
  lemma WfEnd(s: State, t: State, id: nat)
    requires Wf(s) && Live(s, id)
    requires t == s.(floor := t.floor, repeaters := t.repeaters, users := t.users, ids := t.ids)
    requires forall c | c in t.users :: c in s.users && t.users[c] == s.users[c]
    requires t.ids == s.ids || t.ids == s.ids - {id}
             || exists end :: t.ids == s.ids[id := Some(s.ids[id].value.(end := end))]
    ensures Wf(t)
  {
    assert forall i | Live(t, i) && i != id :: Live(s, i);
  }

  lemma WfDrop(s: State, callsign: string)
    requires Wf(s)
    ensures Wf(Drop(s, callsign).0)
  {
    hide First;
    assert forall i | Live(Drop(s, callsign).0, i) :: Live(s, i);
  }

  lemma WfTouch(s: State, id: nat)
    requires Wf(s)
    ensures Wf(Touch(s, id))
  {
    assert forall i | Live(Touch(s, id), i) :: Live(s, i);
  }

  lemma WfRefHeader(s: State, id: nat, cs: Pair)
    requires Wf(s)
    ensures Wf(RefHeader(s, id, cs).0)
  {
    hide FanOut, Relay, Texts, Sorted, Touch;
    var reps := FanOut(s.repeaters, cs, Sorted(s.users.Keys), None);
    WfTake(s, id, reps, s.linkTimer.Started());
    WfTouch(s.(floor := id, linkTimer := s.linkTimer.Started(), repeaters := reps), id);
  }

  lemma WfRefVoice(s: State, id: nat, end: bool)
    requires Wf(s)
    ensures Wf(RefVoice(s, id, end).0)
  {
    hide Relay, Touch;
    WfTake(s, s.floor, s.repeaters, s.linkTimer.Started());
    var t := s.(linkTimer := s.linkTimer.Started());
    WfTouch(t, id);
    WfTake(Touch(t, id), 0, map[], t.linkTimer.Stopped());
  }

  lemma StepWf(s: State, e: Event)
    requires Wf(s) && Defined(s, e)
    ensures Wf(Step(s, e).0)
  {
    hide Wf, G2Header, G2Voice, RefHeader, RefVoice, Drop, Tick;
    match e
    case G2HeaderArrives(my, your, id, cs) => WfG2Header(s, my, your, id, cs);
    case G2VoiceArrives(id, end) => if Routed(s, e) { WfG2Voice(s, id, end); }
    case RefHeaderArrives(id, cs) => WfRefHeader(s, id, cs);
    case RefVoiceArrives(id, end) => WfRefVoice(s, id, end);
    case Dropped(callsign) => WfDrop(s, callsign);
    case Linked(linkType) => WfLinked(s, linkType);
    case Clocked(ms, gone) => WfTick(s, ms, gone);
  }

  lemma WfLinked(s: State, linkType: LinkType)
    requires Wf(s)
    ensures Wf(s.(linkType := linkType))
  {
    assert forall i | Live(s.(linkType := linkType), i) :: Live(s, i);
  }

  lemma StepConfig(s: State, e: Event)
    requires Wf(s) && Defined(s, e)
    ensures Step(s, e).0.config == s.config
  {
    hide Wf, FanOut, Relay, Texts, Sorted, First;
  }
}
