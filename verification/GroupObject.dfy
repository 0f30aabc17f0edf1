/** The group as the program keeps it: fields changed in place by one method per
    step, each against the function that specifies the step. */
module GroupObject {
  import opened Timer
  import opened Caches
  import opened Group
  import opened GroupFanOut

  // ---- the clock sweeps, part of the way through ----

  /** The record sweep after the records in done. */
  function PartRecords(s: State, done: set<nat>, ms: nat): State
    requires Wf(s) && done <= s.ids.Keys
  {
    var gone := set id | id in done && LogsOff(s, id, ms) :: s.heap[s.ids[id].value.user].callsign;
    var freed := s.floor in done && FreesFloor(s, ms);
    s.(ids := map id | id in s.ids && (id in done ==> Kept(s.ids[id], ms)) ::
                if id in done then ClockRecord(s.ids[id], ms) else s.ids[id],
       users := s.users - gone,
       floor := if freed then 0 else s.floor,
       repeaters := if freed then map[] else s.repeaters)
  }

  lemma PartRecordsStart(s: State, ms: nat)
    requires Wf(s)
    ensures PartRecords(s, {}, ms) == s
  {
    var t := PartRecords(s, {}, ms);
    assert t.ids == s.ids && t.users == s.users;
  }

  lemma PartRecordsEnd(s: State, ms: nat)
    requires Wf(s)
    ensures PartRecords(s, s.ids.Keys, ms) == RecordsClock(s, ms)
  {
    var t := PartRecords(s, s.ids.Keys, ms);
    assert t.ids == RecordsClock(s, ms).ids;
    assert t.users == RecordsClock(s, ms).users;
  }

  /** The user clock after the subscribers in done. */
  function PartUsers(s: State, done: set<string>, ms: nat): State
    requires done <= s.users.Keys
  {
    s.(heap := map u | u in s.heap ::
         if exists c :: c in done && s.users[c] == u
         then s.heap[u].(timer := s.heap[u].timer.Clocked(ms)) else s.heap[u])
  }

  lemma PartUsersStart(s: State, ms: nat)
    ensures PartUsers(s, {}, ms) == s
  {
    assert PartUsers(s, {}, ms).heap == s.heap;
  }

  lemma PartUsersEnd(s: State, ms: nat)
    ensures PartUsers(s, s.users.Keys, ms) == UsersClock(s, ms)
  {
    forall u
      ensures (exists c :: c in s.users.Keys && s.users[c] == u) <==> u in s.users.Values
    {
    }
    assert PartUsers(s, s.users.Keys, ms).heap == UsersClock(s, ms).heap;
  }

  lemma PartUsersNext(s: State, done: set<string>, ms: nat, c: string)
    requires Wf(s) && done <= s.users.Keys && c in s.users && c !in done
    ensures var (t, u) := (PartUsers(s, done, ms), s.users[c]);
            u in t.heap && t.heap[u] == s.heap[u]
            && PartUsers(s, done + {c}, ms) == t.(heap := t.heap[u := t.heap[u].(timer := t.heap[u].timer.Clocked(ms))])
  {
    var (t, u) := (PartUsers(s, done, ms), s.users[c]);
    forall d | d in done
      ensures s.users[d] != u
    {
      assert s.heap[s.users[d]].callsign == d && s.heap[u].callsign == c;
    }
    assert PartUsers(s, done + {c}, ms).heap == t.heap[u := t.heap[u].(timer := t.heap[u].timer.Clocked(ms))];
  }

  /** The expiry sweep after the subscribers in done. */
  function PartExpired(s: State, done: set<string>): State
    requires Wf(s) && done <= s.users.Keys
  {
    s.(users := map c | c in s.users && !(c in done && TimedOut(s, c)) :: s.users[c],
       freed := s.freed + set c | c in done && TimedOut(s, c) :: s.users[c])
  }

  lemma PartExpiredNext(s: State, done: set<string>, c: string)
    requires Wf(s) && done <= s.users.Keys && c in s.users && c !in done
    ensures var t := PartExpired(s, done);
            PartExpired(s, done + {c})
            == if TimedOut(s, c) then t.(users := t.users - {c}, freed := t.freed + {s.users[c]}) else t
  {
    hide Wf, TimedOut;
    var (t, u) := (PartExpired(s, done), PartExpired(s, done + {c}));
    assert u.users == if TimedOut(s, c) then t.users - {c} else t.users;
    assert u.freed == if TimedOut(s, c) then t.freed + {s.users[c]} else t.freed;
  }

  lemma PartExpiredEnds(s: State)
    requires Wf(s)
    ensures PartExpired(s, {}) == s
    ensures s.floor == 0 ==> PartExpired(s, s.users.Keys) == ExpireUsers(s)
  {
    assert PartExpired(s, {}).users == s.users;
    assert PartExpired(s, s.users.Keys).freed == s.freed + set c | c in s.users && TimedOut(s, c) :: s.users[c];
  }

  class GroupHandler {
    const config: Config
    var linkType: LinkType
    var floor: nat
    var linkTimer: Ticks
    var ids: map<nat, Option<Record>>
    var users: map<string, nat>
    var repeaters: map<string, Repeater>
    var heap: map<nat, User>
    var next: nat
    ghost var freed: set<nat>
    ghost var trace: seq<Out>

    ghost function View(): State
      reads this
    {
      State(config, linkType, floor, linkTimer, ids, users, repeaters, heap, freed, next)
    }

    constructor (config: Config, linkType: LinkType)
      requires config.userTimeout * 60000 + 1 < U32
      ensures View() == Init(config, linkType) && trace == []
    {
      this.config := config;
      this.linkType := linkType;
      floor := 0;
      linkTimer := Seconds(NETWORK_TIMEOUT);
      ids := map[];
      users := map[];
      repeaters := map[];
      heap := map[];
      next := 0;
      freed := {};
      trace := [];
    }

    // ---- frames out ----

    method SendToRepeaters(source: Source, id: nat, kind: Kind)
      modifies this`trace
      ensures trace == old(trace) + Relay(source, repeaters, id, kind)
    {
      hide Sorted;
      var keys := Sorted(repeaters.Keys);
      var i := 0;
      while i < |keys|
        invariant 0 <= i <= |keys|
        invariant trace == old(trace) + RelayTo(source, repeaters, keys[..i], id, kind)
      {
        RelayNext(source, repeaters, keys, i, id, kind);
        trace := trace + [Sent(source, ToRepeater(keys[i], repeaters[keys[i]].addr), id, kind)];
        i := i + 1;
      }
      assert keys[..|keys|] == keys;
    }

    method SendFromText(source: Source)
      modifies this`trace
      ensures trace == old(trace) + Texts(source, repeaters, floor, TEXT_FRAMES)
    {
      var i := 0;
      while i < 21
        invariant 0 <= i <= 21
        invariant trace == old(trace) + Texts(source, repeaters, floor, i)
      {
        SendToRepeaters(source, floor, Text(i));
        i := i + 1;
      }
    }

    /** Adds the located subscribers' repeaters to the list. */
    method UpdateRepeaters(cs: Pair, exclude: Option<string>)
      modifies this`repeaters
      ensures repeaters == FanOut(old(repeaters), cs, Sorted(users.Keys), exclude)
    {
      hide Sorted, Pair.Locate, ZoneRoute;
      var keys := Sorted(users.Keys);
      var i := 0;
      while i < |keys|
        invariant 0 <= i <= |keys|
        invariant repeaters == FanOut(old(repeaters), cs, keys[..i], exclude)
      {
        var r := cs.Locate(keys[i]);
        LocatedHasRepeater(cs, keys[i]);
        if r.addr != "" {
          if exclude != Some(r.rptr) {
            if r.rptr !in repeaters {
              repeaters := repeaters[r.rptr := Repeater(ZoneRoute(r.rptr), r.gate, r.addr)];
            }
          }
        }
        assert keys[..i + 1][..i] == keys[..i];
        i := i + 1;
      }
      assert keys[..|keys|] == keys;
    }

    // ---- G2 ----

    method G2HeaderArrives(my: string, your: string, id: nat, cs: Pair)
      requires Wf(View())
      modifies this
      ensures var (t, out) := G2Header(old(View()), my, your, id, cs); View() == t && trace == old(trace) + out
    {
      hide Wf, FanOut, Relay, Texts, Sorted;
      ghost var s := View();
      HeaderSafe(s);
      var login := false;
      if your == config.callsign {
        if my !in users {
          heap := heap[next := User(my, UserTimer(config))];
          users := users[my := next];
          ids := ids[id := Some(NewRecord(next, true, false))];
          next := next + 1;
          login := true;
        } else {
          var u := users[my];
          heap := heap[u := heap[u].(timer := heap[u].timer.Started())];
          if id in ids && ids[id].Some? {
            return;
          }
          ids := ids[id := Some(NewRecord(u, false, false))];
        }
      } else {
        if my !in users {
          return;
        }
        var u := users[my];
        users := users - {my};
        ids := ids[id := Some(NewRecord(u, false, true))];
        return;
      }
      TakeFloor(id, my, login, cs);
    }

    /** The rest of header processing: a free floor goes to the stream. */
    method TakeFloor(id: nat, my: string, login: bool, cs: Pair)
      modifies this`floor, this`repeaters, this`trace
      ensures var (t, out) := TakeG2(old(View()), id, my, login, cs); View() == t && trace == old(trace) + out
    {
      hide FanOut, Relay, Texts, Sorted;
      if floor != 0 {
        return;
      }
      floor := id;
      UpdateRepeaters(cs, Some(cs.Home(my)));
      trace := trace + [Take(id, repeaters, login || config.listenOnly)];
      if !login && !config.listenOnly {
        if linkType != LT_NONE {
          trace := trace + [Sent(FromG2, ToReflector, id, Header)];
        }
        SendToRepeaters(FromG2, id, Header);
        SendFromText(FromG2);
      }
    }

    method G2VoiceArrives(id: nat, end: bool)
      requires Wf(View())
      requires id in ids ==> ids[id].Some?
      modifies this
      ensures var (t, out) := G2Voice(old(View()), id, end); View() == t && trace == old(trace) + out
    {
      hide Relay, Wf, G2Voice, ReleaseOf;
      VoiceIs(View(), id, end);
      if id !in ids {
        return;
      }
      var r, callsign := Hear(id);
      if id == floor && !r.login && !config.listenOnly {
        ForwardVoice(id);
      }
      if end {
        EndStream(id, r, callsign);
      }
    }

    method ForwardVoice(id: nat)
      modifies this`trace
      ensures trace == old(trace) + ((if linkType != LT_NONE then [Sent(FromG2, ToReflector, id, Voice)] else [])
                                     + Relay(FromG2, repeaters, id, Voice))
    {
      hide Relay;
      if linkType != LT_NONE {
        trace := trace + [Sent(FromG2, ToReflector, id, Voice)];
      }
      SendToRepeaters(FromG2, id, Voice);
    }

    /** Restarts the timers of a record and of its user. */
    method Hear(id: nat) returns (r: Record, callsign: string)
      requires id in ids && ids[id].Some? && ids[id].value.user in heap
      modifies this`ids, this`heap
      ensures r == old(ids)[id].value.(timer := old(ids)[id].value.timer.Started())
      ensures ids == old(ids)[id := Some(r)]
      ensures var user := old(heap)[r.user].(timer := old(heap)[r.user].timer.Started());
              heap == old(heap)[r.user := user] && callsign == user.callsign
    {
      r := ids[id].value.(timer := ids[id].value.timer.Started());
      ids := ids[id := Some(r)];
      heap := heap[r.user := heap[r.user].(timer := heap[r.user].timer.Started())];
      callsign := heap[r.user].callsign;
    }

    /** The last frame of a stream lets its floor go; a login or logoff record
        stays for its acknowledgement, any other is dropped. */
    method EndStream(id: nat, r: Record, callsign: string)
      modifies this`trace, this`repeaters, this`floor, this`ids, this`users
      ensures floor == if id == old(floor) then 0 else old(floor)
      ensures repeaters == if id == old(floor) then map[] else old(repeaters)
      ensures trace == old(trace) + if id == old(floor) then ReleaseOf(id) else []
      ensures users == if r.logoff && !r.login then old(users) - {callsign} else old(users)
      ensures ids == if r.login || r.logoff then old(ids)[id := Some(r.(end := true))] else old(ids) - {id}
    {
      if id == floor {
        trace := trace + ReleaseOf(floor);
        repeaters := map[];
        floor := 0;
      }
      if r.login {
        ids := ids[id := Some(r.(end := true))];
      } else if r.logoff {
        users := users - {callsign};
        ids := ids[id := Some(r.(end := true))];
      } else {
        ids := ids - {id};
      }
    }

    // ---- reflector ----

    /** Indexing the record map makes a null entry. */
    method TouchRecord(id: nat) returns (login: bool)
      modifies this`ids
      ensures View() == Touch(old(View()), id) && login == LoginRecord(old(View()), id)
    {
      if id !in ids {
        ids := ids[id := None];
      }
      login := ids[id].Some? && ids[id].value.login;
    }

    method RefHeaderArrives(id: nat, cs: Pair) returns (taken: bool)
      modifies this
      ensures var (t, out) := RefHeader(old(View()), id, cs); View() == t && trace == old(trace) + out
      ensures taken <==> old(floor) == 0
    {
      hide FanOut, Relay, Texts, Sorted, Touch;
      if floor != 0 {
        return false;
      }
      floor := id;
      linkTimer := linkTimer.Started();
      UpdateRepeaters(cs, None);
      trace := trace + [Take(id, repeaters, config.listenOnly)];
      var login := TouchRecord(floor);
      TouchKeeps(old(View()), id, repeaters);
      if !login {
        SendToRepeaters(FromReflector, id, Header);
      }
      SendFromText(FromReflector);
      return true;
    }

    method RefVoiceArrives(id: nat, end: bool) returns (taken: bool)
      modifies this
      ensures var (t, out) := RefVoice(old(View()), id, end); View() == t && trace == old(trace) + out
      ensures taken <==> old(floor) == id
    {
      hide Relay;
      if id != floor {
        return false;
      }
      linkTimer := linkTimer.Started();
      var login := TouchRecord(id);
      if !login {
        SendToRepeaters(FromReflector, id, Voice);
      }
      if end {
        linkTimer := linkTimer.Stopped();
        trace := trace + ReleaseOf(floor);
        floor := 0;
        repeaters := map[];
      }
      return true;
    }

    // ---- remote control ----

    /** Removes the first record of the user, and lets the floor go if it is his. */
    method DropFirstRecord(user: nat)
      modifies this`ids, this`floor
      ensures var recs := RecordsOf(old(View()), user);
              View() == if recs == {} then old(View())
                        else old(View()).(ids := old(ids) - {First(recs)},
                                          floor := if First(recs) == old(floor) then 0 else old(floor))
    {
      hide First;
      var todo := ids.Keys;
      while todo != {}
        invariant View() == old(View())
        invariant todo <= ids.Keys
        invariant forall id | id in RecordsOf(old(View()), user) :: id in todo
        decreases |todo|
      {
        var id := First(todo);
        if ids[id].Some? && ids[id].value.user == user {
          assert id in RecordsOf(old(View()), user);
          if id == floor {
            floor := 0;
          }
          ids := ids - {id};
          return;
        }
        todo := todo - {id};
      }
    }

    method DropEveryone()
      modifies this
      ensures View() == DropAll(old(View())).0 && trace == old(trace) + DropAll(old(View())).1
    {
      freed := freed + users.Values;
      users := map[];
      ids := map[];
      repeaters := map[];
      trace := trace + ReleaseOf(floor);
      floor := 0;
    }

    /** The last user to go takes everything with him. */
    method DropUser(callsign: string)
      requires callsign in users
      modifies this`ids, this`floor, this`users, this`freed, this`repeaters
      ensures View() == DropOne(old(View()), callsign).0
    {
      hide First, RecordsOf;
      var user := users[callsign];
      DropFirstRecord(user);
      users := users - {callsign};
      freed := freed + {user};
      if users == map[] {
        ids := map[];
        repeaters := map[];
        floor := 0;
      }
    }

    method LogoffUser(callsign: string) returns (known: bool)
      modifies this
      ensures var (t, out) := Drop(old(View()), callsign); View() == t && trace == old(trace) + out
      ensures known <==> callsign == ALL || callsign in old(users)
    {
      hide DropAll, First, RecordsOf;
      ghost var held := floor;
      if callsign == ALL {
        DropEveryone();
        return true;
      }
      if callsign !in users {
        return false;
      }
      DropUser(callsign);
      trace := trace + if held != 0 && floor == 0 then [Release] else [];
      return true;
    }

    // ---- the clock ----

    method ClockLink(ms: nat)
      modifies this`linkTimer, this`floor, this`repeaters
      ensures View() == LinkClock(old(View()), ms)
    {
      linkTimer := linkTimer.Clocked(ms);
      if linkTimer.Running() && linkTimer.Expired() {
        linkTimer := linkTimer.Stopped();
        floor := 0;
        repeaters := map[];
      }
    }

    /** One record's turn in the sweep. */
    method ClockRecordAt(id: nat, ms: nat)
      requires id in ids && (ids[id].Some? ==> ids[id].value.user in heap)
      modifies this`ids, this`users, this`floor, this`repeaters
      ensures floor == if id == old(floor) && Due(old(ids)[id], ms) && !old(ids)[id].value.end then 0 else old(floor)
      ensures repeaters == if id == old(floor) && Due(old(ids)[id], ms) && !old(ids)[id].value.end
                           then map[] else old(repeaters)
      ensures ids == if Kept(old(ids)[id], ms) then old(ids)[id := ClockRecord(old(ids)[id], ms)] else old(ids) - {id}
      ensures users == if LogsOff(old(View()), id, ms)
                       then old(users) - {heap[old(ids)[id].value.user].callsign} else old(users)
    {
      if ids[id].None? {
        assert ids[id := None] == ids;
        return;
      }
      var r := ids[id].value.(timer := ids[id].value.timer.Clocked(ms));
      ids := ids[id := Some(r)];
      if r.timer.Running() && r.timer.Expired() {
        var callsign := heap[r.user].callsign;
        if r.end {
          ids := ids - {id};
        } else {
          if id == floor {
            repeaters := map[];
            floor := 0;
          }
          if r.login {
            ids := ids[id := Some(r.(timer := r.timer.Started(), end := true))];
          } else if r.logoff {
            users := users - {callsign};
            ids := ids[id := Some(r.(timer := r.timer.Started(), end := true))];
          } else {
            ids := ids - {id};
          }
        }
      }
    }

    method ClockRecords(ms: nat)
      requires Wf(View())
      modifies this`ids, this`users, this`floor, this`repeaters
      ensures View() == RecordsClock(old(View()), ms)
    {
      hide Wf, Kept, ClockRecord, Due, LogsOff, First, PartRecords, RecordsClock;
      ghost var s := View();
      var todo := ids.Keys;
      ghost var done: set<nat> := {};
      PartRecordsStart(s, ms);
      while todo != {}
        invariant done + todo == s.ids.Keys && done !! todo
        invariant View() == PartRecords(s, done, ms)
        decreases |todo|
      {
        var id := First(todo);
        PartRecordsStep(s, done, ms, id);
        ClockRecordAt(id, ms);
        done := done + {id};
        todo := todo - {id};
      }
      assert done == s.ids.Keys;
      PartRecordsEnd(s, ms);
    }

    method ClockUsers(ms: nat)
      requires Wf(View())
      modifies this`heap
      ensures View() == UsersClock(old(View()), ms)
    {
      hide Wf, Sorted, PartUsers, UsersClock;
      ghost var s := View();
      var keys := Sorted(users.Keys);
      var i := 0;
      ghost var done: set<string> := {};
      PartUsersStart(s, ms);
      while i < |keys|
        invariant 0 <= i <= |keys|
        invariant done <= s.users.Keys && forall c :: c in done <==> c in keys[..i]
        invariant View() == PartUsers(s, done, ms)
      {
        var c := keys[i];
        PartUsersNext(s, done, ms, c);
        PartUsersKeeps(s, done, ms);
        var u := users[c];
        heap := heap[u := heap[u].(timer := heap[u].timer.Clocked(ms))];
        done := done + {c};
        i := i + 1;
      }
      assert done == s.users.Keys;
      PartUsersEnd(s, ms);
    }

    method ExpireEach()
      requires Wf(View())
      modifies this`users, this`freed
      ensures View() == PartExpired(old(View()), old(users).Keys)
    {
      hide Wf, Sorted, PartExpired, TimedOut;
      ghost var s := View();
      var keys := Sorted(users.Keys);
      var i := 0;
      ghost var done: set<string> := {};
      PartExpiredEnds(s);
      while i < |keys|
        invariant 0 <= i <= |keys|
        invariant done <= s.users.Keys && forall c :: c in done <==> c in keys[..i]
        invariant View() == PartExpired(s, done)
      {
        var c := keys[i];
        PartExpiredNext(s, done, c);
        PartExpiredKeeps(s, done, c);
        var user := heap[users[c]];
        if user.timer.Running() && user.timer.Expired() {
          freed := freed + {users[c]};
          users := users - {c};
        }
        done := done + {c};
        i := i + 1;
      }
      assert done == s.users.Keys;
    }

    /** gone are the users whom the ping sweep gives up on. */
    method Clock(ms: nat, gone: set<string>)
      requires Wf(View())
      modifies this
      ensures var (t, out) := Tick(old(View()), ms, gone); View() == t && trace == old(trace) + out
    {
      hide Wf, LinkClock, RecordsClock, UsersClock, ExpireUsers, PartExpired;
      ghost var s := View();
      users := users - gone;
      WfSweep(s, gone);
      ghost var s1 := View();
      ClockLink(ms);
      WfLink(s1, ms);
      ghost var s2 := View();
      ClockRecords(ms);
      WfRecords(s2, ms);
      ghost var s3 := View();
      trace := trace + if s.floor != 0 && floor == 0 then [Release] else [];
      ClockUsers(ms);
      WfUsers(s3, ms);
      PartExpiredEnds(View());
      ExpireHeld(View());
      if floor == 0 {
        ExpireEach();
      }
    }

    // ---- routing ----

    /** The first group whose floor a G2 voice frame belongs to. */
    static method FindGroup(groups: seq<GroupHandler>, id: nat) returns (found: Option<GroupHandler>)
      ensures found.None? ==> forall g | g in groups :: g.floor != id
      ensures found.Some? ==>
                exists k :: 0 <= k < |groups| && groups[k] == found.value && groups[k].floor == id
                            && forall j | 0 <= j < k :: groups[j].floor != id
    {
      var i := 0;
      while i < |groups|
        invariant 0 <= i <= |groups|
        invariant forall j | 0 <= j < i :: groups[j].floor != id
      {
        if groups[i].floor == id {
          return Some(groups[i]);
        }
        i := i + 1;
      }
      return None;
    }

    /** The first group that a header's destination names, as itself or as its
        logoff callsign. */
    static method FindByHeader(groups: seq<GroupHandler>, your: string) returns (found: Option<GroupHandler>)
      ensures found.None? ==> forall g | g in groups :: your != g.config.callsign && your != g.config.offCallsign
      ensures found.Some? ==>
                exists k :: 0 <= k < |groups| && groups[k] == found.value
                            && (your == groups[k].config.callsign || your == groups[k].config.offCallsign)
                            && forall j | 0 <= j < k ::
                               your != groups[j].config.callsign && your != groups[j].config.offCallsign
    {
      var i := 0;
      while i < |groups|
        invariant 0 <= i <= |groups|
        invariant forall j | 0 <= j < i :: your != groups[j].config.callsign && your != groups[j].config.offCallsign
      {
        if groups[i].config.callsign == your {
          return Some(groups[i]);
        }
        if groups[i].config.offCallsign == your {
          return Some(groups[i]);
        }
        i := i + 1;
      }
      return None;
    }
  }

  /** The sweep's next record, and what clocking it does to the sweep so far. */
  lemma PartRecordsStep(s: State, done: set<nat>, ms: nat, id: nat)
    requires Wf(s) && done <= s.ids.Keys && id in s.ids && id !in done
    ensures var (t, u) := (PartRecords(s, done, ms), PartRecords(s, done + {id}, ms));
            && id in t.ids && (t.ids[id].Some? ==> t.ids[id].value.user in t.heap)
            && u.floor == (if id == t.floor && Due(t.ids[id], ms) && !t.ids[id].value.end then 0 else t.floor)
            && u.repeaters == (if id == t.floor && Due(t.ids[id], ms) && !t.ids[id].value.end
                               then map[] else t.repeaters)
            && u.ids == (if Kept(t.ids[id], ms) then t.ids[id := ClockRecord(t.ids[id], ms)] else t.ids - {id})
            && u.users == (if LogsOff(t, id, ms) then t.users - {t.heap[t.ids[id].value.user].callsign} else t.users)
            && u == t.(ids := u.ids, users := u.users, floor := u.floor, repeaters := u.repeaters)
  {
  }

  lemma PartUsersKeeps(s: State, done: set<string>, ms: nat)
    requires done <= s.users.Keys
    ensures PartUsers(s, done, ms).users == s.users
  {
  }

  lemma PartExpiredKeeps(s: State, done: set<string>, c: string)
    requires Wf(s) && done <= s.users.Keys && c in s.users && c !in done
    ensures var t := PartExpired(s, done);
            c in t.users && t.users[c] == s.users[c] && s.users[c] in t.heap && t.heap == s.heap
            && (TimedOut(s, c) <==> t.heap[t.users[c]].timer.Running() && t.heap[t.users[c]].timer.Expired())
  {
  }

  lemma ExpireHeld(s: State)
    requires Wf(s)
    ensures s.floor != 0 ==> ExpireUsers(s) == s
  {
  }

  lemma RelayNext(source: Source, reps: map<string, Repeater>, keys: seq<string>, i: nat, id: nat, kind: Kind)
    requires i < |keys| && forall k | k in keys :: k in reps
    ensures RelayTo(source, reps, keys[..i + 1], id, kind)
         == RelayTo(source, reps, keys[..i], id, kind)
           + [Sent(source, ToRepeater(keys[i], reps[keys[i]].addr), id, kind)]
  {
    assert keys[..i + 1][..i] == keys[..i];
  }

  lemma HeaderSafe(s: State)
    requires Wf(s)
    ensures s.config.userTimeout * 60000 + 1 < U32
    ensures forall c | c in s.users :: s.users[c] in s.heap
  {
  }

  /** A voice step field by field. */
  lemma VoiceIs(s: State, id: nat, end: bool)
    requires Wf(s)
    requires id in s.ids ==> s.ids[id].Some?
    ensures id !in s.ids ==> G2Voice(s, id, end) == (s, [])
    ensures id in s.ids ==> s.ids[id].value.user in s.heap
    ensures id in s.ids ==>
              var (t, out) := G2Voice(s, id, end);
              var r := s.ids[id].value.(timer := s.ids[id].value.timer.Started());
              var user := s.heap[r.user].(timer := s.heap[r.user].timer.Started());
              var freed := end && id == s.floor;
              && out == (if id == s.floor && !r.login && !s.config.listenOnly
                         then (if s.linkType != LT_NONE then [Sent(FromG2, ToReflector, id, Voice)] else [])
                              + Relay(FromG2, s.repeaters, id, Voice)
                         else [])
                        + (if freed then ReleaseOf(id) else [])
              && t == s.(heap := s.heap[r.user := user],
                         floor := if freed then 0 else s.floor,
                         repeaters := if freed then map[] else s.repeaters,
                         users := if end && r.logoff && !r.login then s.users - {user.callsign} else s.users,
                         ids := if !end then s.ids[id := Some(r)]
                                else if r.login || r.logoff then s.ids[id := Some(r.(end := true))]
                                else s.ids - {id})
  {
    hide Relay, ReleaseOf;
    if id in s.ids {
      assert Live(s, id);
      var r := s.ids[id].value.(timer := s.ids[id].value.timer.Started());
      assert s.ids[id := Some(r)][id := Some(r.(end := true))] == s.ids[id := Some(r.(end := true))];
      assert s.ids[id := Some(r)] - {id} == s.ids - {id};
    }
  }

  lemma TouchKeeps(s: State, id: nat, reps: map<string, Repeater>)
    ensures var t := s.(floor := id, linkTimer := s.linkTimer.Started(), repeaters := reps);
            Touch(t, id).repeaters == reps && Touch(t, id).floor == id && LoginRecord(t, id) == LoginRecord(s, id)
  {
  }
}
