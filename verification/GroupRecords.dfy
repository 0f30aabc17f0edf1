/** What each event does to the records and the subscribers of a group, and how long
    a reflector stream keeps the floor. */
module GroupRecords {
  import opened Timer
  import opened Caches
  import opened Group
  import opened GroupRuns
  import opened GroupTiming
  import opened GroupSubscription
  import opened GroupWaits
  import GroupFanOut

  // ---- records ----

  /** A header that puts a record under x: a login, talk that is no repeat, or a
      subscriber's logoff. */
  predicate Makes(s: State, e: Event, x: nat) {
    && e.G2HeaderArrives? && e.id == x
    && (if e.your == s.config.callsign then e.my !in s.users || !Live(s, x)
        else e.your == s.config.offCallsign && e.my in s.users)
  }

  /** A voice frame of the stream on the floor. */
  predicate Voiced(s: State, e: Event, x: nat) {
    e.G2VoiceArrives? && e.id == x == s.floor && Live(s, x)
  }

  /** Four seconds of the record's timer are over. */
  predicate Rings(s: State, e: Event, x: nat) {
    e.Clocked? && Live(s, x) && s.ids[x].value.timer.timer + e.ms > 4000
  }

  /** The record of a talk stream goes with its end or its time, that of a login or
      logoff when its time is over again; and remote control takes records away. */
  predicate Removes(s: State, e: Event, x: nat) {
    || (Voiced(s, e, x) && e.end && !s.ids[x].value.login && !s.ids[x].value.logoff)
    || (Rings(s, e, x) && (s.ids[x].value.end || (!s.ids[x].value.login && !s.ids[x].value.logoff)))
    || (e.Dropped? && DropsRecord(s, e.callsign, x))
  }

  /** The record as it was, its timer and its end mark apart. */
  predicate Continues(s: State, e: Event, x: nat, r: Record)
    requires Live(s, x)
  {
    var q := s.ids[x].value;
    && r.user == q.user && r.login == q.login && r.logoff == q.logoff
    && (r.end <==> q.end || (Voiced(s, e, x) && e.end) || Rings(s, e, x))
    && r.timer.timer == if Voiced(s, e, x) || Rings(s, e, x) then 1
                        else if e.Clocked? then q.timer.timer + e.ms else q.timer.timer
  }

  /** A new record: just started, and of the kind that the header makes it. */
  predicate Begins(s: State, t: State, e: Event, r: Record)
    requires e.G2HeaderArrives?
  {
    && r.timer.timer == 1 && !r.end
    && (r.login <==> e.your == s.config.callsign && e.my !in s.users)
    && (r.logoff <==> e.your != s.config.callsign)
    && r.user in t.heap && t.heap[r.user].callsign == e.my
  }

  /** Every event: which records there are, and what they say. */
  lemma RecordIff(s: State, e: Event, x: nat)
    requires Wf(s) && Proper(s, e) && Backed(s)
    ensures var t := Step(s, e).0;
            && (Live(t, x) <==> Makes(s, e, x) || (Live(s, x) && !Removes(s, e, x)))
            && (Makes(s, e, x) ==> Begins(s, t, e, t.ids[x].value))
            && (Live(t, x) && !Makes(s, e, x) ==> Continues(s, e, x, t.ids[x].value))
  {
    hide FanOut, Relay, Texts, Sorted, Drop, Tick, TakeG2, DropsRecord, Wf, Continues;
    StepWf(s, e);
    match e
    case G2HeaderArrives(my, your, id, cs) => if Routed(s, e) { HeaderRecord(s, e, x); } else { Ignored(s, e, x); }
    case G2VoiceArrives(id, end) => if Routed(s, e) { VoiceRecord(s, e, x); } else { Ignored(s, e, x); }
    case Dropped(callsign) => DropRecord(s, e, x);
    case Clocked(ms, gone) => ClockedRecord(s, e, x);
    case RefVoiceArrives(id, end) => SameRecord(s, e, x);
    case RefHeaderArrives(id, cs) => SameRecord(s, e, x);
    case _ => SameRecord(s, e, x);
  }

  lemma Ignored(s: State, e: Event, x: nat)
    requires !Routed(s, e) && !e.Clocked?
    ensures Live(s, x) ==> Continues(s, e, x, s.ids[x].value)
  {
  }

  lemma SameRecord(s: State, e: Event, x: nat)
    requires Wf(s) && Proper(s, e) && (e.RefVoiceArrives? || e.RefHeaderArrives? || e.Linked?)
    ensures var t := Step(s, e).0;
            (Live(t, x) <==> Live(s, x)) && (Live(t, x) ==> Continues(s, e, x, t.ids[x].value))
  {
    hide FanOut, Relay, Texts, Sorted, Wf;
  }

  lemma HeaderRecord(s: State, e: Event, x: nat)
    requires Wf(s) && Proper(s, e) && Routed(s, e) && e.G2HeaderArrives?
    ensures var t := Step(s, e).0;
            && (Live(t, x) <==> Makes(s, e, x) || Live(s, x))
            && (Makes(s, e, x) ==> Begins(s, t, e, t.ids[x].value))
            && (Live(s, x) && !Makes(s, e, x) ==> Continues(s, e, x, t.ids[x].value))
  {
    hide TakeG2;
    TakingKeeps(s, e);
  }

  /** Taking the floor is all that a header does besides. */
  lemma TakingKeeps(s: State, e: Event)
    requires Wf(s) && e.G2HeaderArrives?
    ensures e.my !in s.users ==>
              var u := PutRecord(AddUser(s, e.my), e.id, NewRecord(s.next, true, false));
              var t := TakeG2(u, e.id, e.my, true, e.cs).0;
              t == u.(floor := t.floor, repeaters := t.repeaters)
    ensures e.my in s.users ==>
              var u := PutRecord(ResetUser(s, s.users[e.my]), e.id, NewRecord(s.users[e.my], false, false));
              var t := TakeG2(u, e.id, e.my, false, e.cs).0;
              t == u.(floor := t.floor, repeaters := t.repeaters)
  {
    hide TakeG2;
    if e.my !in s.users {
      TakeG2Keeps(PutRecord(AddUser(s, e.my), e.id, NewRecord(s.next, true, false)), e.id, e.my, true, e.cs);
    } else {
      TakeG2Keeps(PutRecord(ResetUser(s, s.users[e.my]), e.id, NewRecord(s.users[e.my], false, false)), e.id, e.my,
                  false, e.cs);
    }
  }

  lemma VoiceRecord(s: State, e: Event, x: nat)
    requires Wf(s) && Proper(s, e) && Routed(s, e) && e.G2VoiceArrives?
    ensures var t := Step(s, e).0;
            && (Live(t, x) <==> Live(s, x) && !Removes(s, e, x))
            && (Live(t, x) ==> Continues(s, e, x, t.ids[x].value))
  {
    hide Relay;
    if e.id in s.ids {
      assert Live(s, e.id);
    }
  }

  lemma DropRecord(s: State, e: Event, x: nat)
    requires e.Dropped?
    ensures var t := Drop(s, e.callsign).0;
            && (Live(t, x) <==> Live(s, x) && !DropsRecord(s, e.callsign, x))
            && (Live(t, x) ==> t.ids[x] == s.ids[x])
    ensures Live(s, x) ==> Continues(s, e, x, s.ids[x].value)
  {
    hide First, RecordsOf;
  }

  lemma ClockedRecord(s: State, e: Event, x: nat)
    requires Wf(s) && Proper(s, e) && Backed(s) && e.Clocked?
    ensures var t := Tick(s, e.ms, e.gone).0;
            && (Live(t, x) <==> Live(s, x) && !Removes(s, e, x))
            && (Live(t, x) ==> Continues(s, e, x, t.ids[x].value))
  {
    hide Tick;
    TickRecord(s, e.ms, e.gone, x);
    if Live(s, x) {
      assert 1 <= s.ids[x].value.timer.timer <= 4000 && s.ids[x].value.timer.timeout == 4001;
    }
  }

  /** A reflector stream under an id that has no entry leaves a null one. */
  predicate LeavesNull(s: State, e: Event, x: nat) {
    && x !in s.ids
    && ((e.RefHeaderArrives? && e.id == x && s.floor == 0) || (e.RefVoiceArrives? && e.id == x && s.floor == x))
  }

  /** Remote control takes everybody away. */
  predicate Clears(s: State, e: Event) {
    e.Dropped? && (e.callsign == ALL || s.users.Keys == {e.callsign})
  }

  /** A null entry stays until a record takes its place or the group is cleared. */
  lemma NullIff(s: State, e: Event, x: nat)
    requires Wf(s) && Proper(s, e)
    ensures var t := Step(s, e).0;
            x in t.ids && t.ids[x].None? <==>
            LeavesNull(s, e, x) || (x in s.ids && s.ids[x].None? && !Makes(s, e, x) && !Clears(s, e))
  {
    hide FanOut, Relay, Texts, Sorted, Drop, Tick, Wf, G2Header, RefHeader, RefVoice;
    match e
    case G2HeaderArrives(my, your, id, cs) => if Routed(s, e) { HeaderNull(s, e, x); }
    case G2VoiceArrives(id, end) => if Routed(s, e) { VoiceNull(s, id, end, x); }
    case RefHeaderArrives(_, _) => RefNull(s, e, x);
    case RefVoiceArrives(_, _) => RefNull(s, e, x);
    case Dropped(callsign) => DropNull(s, callsign, x);
    case Clocked(ms, gone) => TickNull(s, ms, gone, x);
    case _ =>
  }

  lemma HeaderNull(s: State, e: Event, x: nat)
    requires Wf(s) && e.G2HeaderArrives? && Routed(s, e)
    ensures var t := G2Header(s, e.my, e.your, e.id, e.cs).0;
            x in t.ids && t.ids[x].None? <==> x in s.ids && s.ids[x].None? && !Makes(s, e, x)
  {
    hide TakeG2;
    TakingKeeps(s, e);
  }

  lemma RefNull(s: State, e: Event, x: nat)
    requires Wf(s) && Proper(s, e) && (e.RefHeaderArrives? || e.RefVoiceArrives?)
    ensures var t := Step(s, e).0;
            x in t.ids && t.ids[x].None? <==> LeavesNull(s, e, x) || (x in s.ids && s.ids[x].None?)
  {
    hide FanOut, Relay, Texts, Sorted, Wf;
  }

  lemma VoiceNull(s: State, id: nat, end: bool, x: nat)
    requires Wf(s) && (id in s.ids ==> s.ids[id].Some?)
    ensures var t := G2Voice(s, id, end).0; x in t.ids && t.ids[x].None? <==> x in s.ids && s.ids[x].None?
  {
    hide Relay;
  }

  lemma DropNull(s: State, callsign: string, x: nat)
    ensures var t := Drop(s, callsign).0;
            x in t.ids && t.ids[x].None? <==> x in s.ids && s.ids[x].None? && !Clears(s, Dropped(callsign))
  {
    hide First, RecordsOf;
    if callsign in s.users {
      GroupFanOut.LastUser(s.users, callsign);
      if RecordsOf(s, s.users[callsign]) != {} {
        FirstLive(s, s.users[callsign]);
      }
    } else {
      assert callsign !in s.users.Keys && callsign in {callsign};
    }
  }

  lemma FirstLive(s: State, u: nat)
    requires RecordsOf(s, u) != {}
    ensures Live(s, First(RecordsOf(s, u)))
  {
    assert First(RecordsOf(s, u)) in RecordsOf(s, u);
  }

  lemma TickNull(s: State, ms: nat, gone: set<string>, x: nat)
    requires Wf(s)
    ensures var t := Tick(s, ms, gone).0; x in t.ids && t.ids[x].None? <==> x in s.ids && s.ids[x].None?
  {
    hide Tick;
    TickIds(s, ms, gone);
  }

  // ---- subscribers ----

  /** No event changes the configuration, and only linking the link type. */
  lemma LinkTypeIff(s: State, e: Event)
    requires Wf(s) && Proper(s, e)
    ensures var t := Step(s, e).0;
            t.config == s.config && t.linkType == if e.Linked? then e.linkType else s.linkType
  {
    hide Wf, FanOut, Relay, Texts, Sorted, First;
  }

  /** The subscriber's user object is deleted: by remote control, or because his time
      is up and nothing else has taken him off the list in the same step. */
  ghost predicate Deletes(s: State, e: Event, c: string)
    requires Wf(s) && Proper(s, e) && c in s.users
  {
    match e
    case Dropped(callsign) => callsign == ALL || callsign == c
    case Clocked(ms, gone) =>
      && c !in gone && !RunsOut(s, c, ms)
      && s.config.userTimeout > 0 && Step(s, e).0.floor == 0 && Heard(s, c) + ms > Limit(s)
    case _ => false
  }

  /** Every event: which user objects are deleted. */
  lemma DeletesIff(s: State, e: Event, c: string)
    requires Wf(s) && Proper(s, e) && c in s.users && s.users[c] !in s.freed
    requires s.config.userTimeout > 0 ==> 1 <= Heard(s, c)
    requires e.Clocked? && s.config.userTimeout > 0 ==> Heard(s, c) + e.ms < U32
    ensures s.users[c] in Step(s, e).0.freed <==> Deletes(s, e, c)
    ensures forall u | u !in s.users.Values :: u in Step(s, e).0.freed <==> u in s.freed
  {
    hide FanOut, Relay, Texts, Sorted, Drop, Tick;
    match e
    case Dropped(callsign) => DropDeletes(s, callsign, c);
    case Clocked(ms, gone) => TickDeletes(s, ms, gone, c);
    case _ =>
  }

  lemma DropDeletes(s: State, callsign: string, c: string)
    requires Wf(s) && c in s.users && s.users[c] !in s.freed
    ensures s.users[c] in Drop(s, callsign).0.freed <==> callsign == ALL || callsign == c
    ensures forall u | u !in s.users.Values :: u in Drop(s, callsign).0.freed <==> u in s.freed
  {
    hide First, RecordsOf;
    assert s.users[c] in s.users.Values;
    if callsign in s.users && s.users[callsign] == s.users[c] {
      assert callsign == c;
    }
  }

  lemma ExpireDeletes(s: State, c: string)
    requires Wf(s) && (c in s.users && s.config.userTimeout > 0 ==> 1 <= Heard(s, c))
    ensures forall u | u in ExpireUsers(s).freed && u !in s.freed :: s.floor == 0 && u in s.users.Values
    ensures c in s.users && s.users[c] !in s.freed ==>
              (s.users[c] in ExpireUsers(s).freed
               <==> s.floor == 0 && s.config.userTimeout > 0 && Heard(s, c) > Limit(s))
    ensures s.freed <= ExpireUsers(s).freed
  {
    if c in s.users && s.users[c] in ExpireUsers(s).freed && s.users[c] !in s.freed {
      var d :| d in s.users && TimedOut(s, d) && s.users[d] == s.users[c];
      assert d == c;
    }
  }

  /** The sweeps before the last delete nobody and give nobody another object. */
  lemma SweepsKeep(s: State, ms: nat, gone: set<string>)
    requires Wf(s)
    ensures var s1 := s.(users := s.users - gone);
            && Wf(s1) && Wf(LinkClock(s1, ms)) && Wf(RecordsClock(LinkClock(s1, ms), ms))
            && Wf(UsersClock(RecordsClock(LinkClock(s1, ms), ms), ms))
            && var u := UsersClock(RecordsClock(LinkClock(s1, ms), ms), ms);
            && u.freed == s.freed && u.config == s.config && Tick(s, ms, gone).0 == ExpireUsers(u)
            && forall c | c in u.users :: c in s.users && u.users[c] == s.users[c]
  {
    hide Due, LogsOff, FreesFloor, Kept, ClockRecord, ExpireUsers;
    WfSweep(s, gone);
    WfLink(s.(users := s.users - gone), ms);
    WfRecords(LinkClock(s.(users := s.users - gone), ms), ms);
    WfUsers(RecordsClock(LinkClock(s.(users := s.users - gone), ms), ms), ms);
  }

  lemma TickDeletes(s: State, ms: nat, gone: set<string>, c: string)
    requires Wf(s) && c in s.users && s.users[c] !in s.freed
    requires s.config.userTimeout > 0 ==> 1 <= Heard(s, c) && Heard(s, c) + ms < U32
    ensures var t := Tick(s, ms, gone).0;
            && (s.users[c] in t.freed <==>
                && c !in gone && !RunsOut(s, c, ms)
                && s.config.userTimeout > 0 && t.floor == 0 && Heard(s, c) + ms > Limit(s))
            && forall u | u !in s.users.Values :: u in t.freed <==> u in s.freed
  {
    hide Wf, LinkClock, RecordsClock, UsersClock, ExpireUsers, RunsOut, Tick, Heard;
    SweepsKeep(s, ms, gone);
    SweepsFollow(s, ms, gone, c);
    var s3 := RecordsClock(LinkClock(s.(users := s.users - gone), ms), ms);
    var u := UsersClock(s3, ms);
    UsersTick(s3, ms, c);
    UsersFloor(s3, ms);
    ExpireDeletes(u, c);
    forall x | x in u.users.Values
      ensures x in s.users.Values
    {
      var d :| d in u.users && u.users[d] == x;
      assert s.users[d] == x;
    }
    if c !in u.users && s.users[c] in u.users.Values {
      var d :| d in u.users && u.users[d] == s.users[c];
      OneName(s, c, d);
    }
  }

  lemma OneName(s: State, c: string, d: string)
    requires Wf(s) && c in s.users && d in s.users && s.users[c] == s.users[d]
    ensures c == d
  {
  }

  /** A user who is not subscribed becomes so exactly with a header of his for the
      group; his time runs from then on. */
  lemma JoinsIff(s: State, e: Event, c: string)
    requires Wf(s) && Proper(s, e) && c !in s.users
    ensures Wf(Step(s, e).0)
    ensures var t := Step(s, e).0;
            && (c in t.users <==> e.G2HeaderArrives? && e.my == c && e.your == s.config.callsign)
            && (c in t.users ==>
                  && t.users[c] !in s.heap && t.users[c] !in t.freed
                  && t.heap[t.users[c]].timer.timer == if s.config.userTimeout == 0 then 0 else 1)
  {
    hide FanOut, Relay, Texts, Sorted, Drop, Tick, Wf;
    StepWf(s, e);
    match e
    case G2HeaderArrives(my, your, id, cs) => HeaderJoins(s, e, c);
    case G2VoiceArrives(id, end) => if Routed(s, e) { VoiceUsers(s, id, end); }
    case Dropped(callsign) => DropUsers(s, callsign);
    case Clocked(ms, gone) => TickIds(s, ms, gone);
    case _ =>
  }

  lemma HeaderJoins(s: State, e: Event, c: string)
    requires Wf(s) && Proper(s, e) && c !in s.users && e.G2HeaderArrives?
    ensures var t := Step(s, e).0;
            && (c in t.users <==> e.my == c && e.your == s.config.callsign)
            && (c in t.users ==>
                  && t.users[c] !in s.heap && t.users[c] !in t.freed && t.users[c] in t.heap
                  && t.heap[t.users[c]].timer.timer == if s.config.userTimeout == 0 then 0 else 1)
  {
    hide FanOut, Relay, Texts, Sorted;
    assert s.next !in s.heap && s.next !in s.freed;
  }

  lemma VoiceUsers(s: State, id: nat, end: bool)
    requires Wf(s) && (id in s.ids ==> s.ids[id].Some?)
    ensures G2Voice(s, id, end).0.users.Keys <= s.users.Keys
  {
    hide Relay;
  }

  lemma DropUsers(s: State, callsign: string)
    ensures Drop(s, callsign).0.users.Keys <= s.users.Keys
  {
    hide First, RecordsOf;
  }

  // ---- a reflector stream keeps the floor while it is heard ----

  /** Every event: the link timer starts with a reflector stream that takes the floor
      and with each of its frames, stops with its end, runs out after two seconds, and
      otherwise only counts, whoever has the floor. */
  lemma LinkTimerIff(s: State, e: Event)
    requires Wf(s) && Proper(s, e) && Backed(s)
    ensures Step(s, e).0.linkTimer.timer
         == if e.RefHeaderArrives? && s.floor == 0 then 1
            else if e.RefVoiceArrives? && e.id == s.floor then (if e.end then 0 else 1)
            else if e.Clocked? && s.linkTimer.timer > 0 then
              (if s.linkTimer.timer + e.ms > 2000 then 0 else s.linkTimer.timer + e.ms)
            else s.linkTimer.timer
  {
    hide FanOut, Relay, Texts, Sorted, Drop, Tick, TakeG2;
    match e
    case G2HeaderArrives(my, your, id, cs) => HeaderLinkTimer(s, my, your, id, cs);
    case Dropped(callsign) => DropLinkTimer(s, callsign);
    case Clocked(ms, gone) => TickLinkTimer(s, ms, gone);
    case _ =>
  }

  lemma HeaderLinkTimer(s: State, my: string, your: string, id: nat, cs: Pair)
    requires Wf(s)
    ensures G2Header(s, my, your, id, cs).0.linkTimer == s.linkTimer
  {
    hide FanOut, Relay, Texts, Sorted;
  }

  lemma DropLinkTimer(s: State, callsign: string)
    ensures Drop(s, callsign).0.linkTimer == s.linkTimer
  {
    hide First, RecordsOf;
  }

  lemma TickLinkTimer(s: State, ms: nat, gone: set<string>)
    requires Wf(s) && Backed(s) && ms + 4001 < U32
    ensures Tick(s, ms, gone).0.linkTimer.timer
         == if s.linkTimer.timer == 0 then 0
            else if s.linkTimer.timer + ms > 2000 then 0 else s.linkTimer.timer + ms
  {
    hide RecordsClock, UsersClock, ExpireUsers;
    SweepsKeep(s, ms, gone);
    var s2 := LinkClock(s.(users := s.users - gone), ms);
    RecordsLinkTimer(s2, ms);
    UsersLinkTimer(RecordsClock(s2, ms), ms);
  }

  lemma RecordsLinkTimer(s: State, ms: nat)
    requires Wf(s)
    ensures RecordsClock(s, ms).linkTimer == s.linkTimer
  {
  }

  lemma UsersLinkTimer(s: State, ms: nat)
    requires Wf(s) && Wf(UsersClock(s, ms))
    ensures ExpireUsers(UsersClock(s, ms)).linkTimer == s.linkTimer
  {
  }

  /** The stream on the floor does not end, its id is not taken by a G2 header, and
      remote control does not take it off. */
  predicate Calm(s: State, e: Event) {
    && (e.RefVoiceArrives? && e.id == s.floor ==> !e.end)
    && (e.G2HeaderArrives? ==> e.id != s.floor)
    && (e.Dropped? ==> !DropFrees(s, e.callsign))
  }

  predicate CalmRun(s: State, es: seq<Event>)
    requires Wf(s) && Legal(s, es)
    decreases |es|
  {
    es == [] || s.floor == 0 || (Calm(s, es[0]) && (StepWf(s, es[0]); CalmRun(Step(s, es[0]).0, es[1..])))
  }

  /** The time since its last frame, after one more event. */
  function Since(s: State, e: Event, since: nat): nat {
    if e.RefVoiceArrives? && e.id == s.floor then 0 else since + Time(e)
  }

  /** Two seconds pass between two frames. */
  predicate Starves(s: State, es: seq<Event>, since: nat)
    requires Wf(s) && Legal(s, es)
    decreases |es|
  {
    es != []
    && ((es[0].Clocked? && since + es[0].ms >= 2000)
        || (StepWf(s, es[0]); Starves(Step(s, es[0]).0, es[1..], Since(s, es[0], since))))
  }

  /** The floor is held by a reflector stream last heard since ms ago. */
  predicate RefHeld(s: State, x: nat, since: nat) {
    s.floor == x && x != 0 && !Live(s, x) && s.linkTimer.timer == 1 + since
  }

  lemma RefHeldStep(s: State, e: Event, since: nat)
    requires Wf(s) && Proper(s, e) && Backed(s) && RefHeld(s, s.floor, since) && Calm(s, e)
    ensures var t := Step(s, e).0;
            if e.Clocked? && since + e.ms >= 2000 then t.floor == 0 else RefHeld(t, s.floor, Since(s, e, since))
  {
    hide Wf, Drop, DropFrees, Tick, Backed, Relay, G2Header;
    match e
    case G2HeaderArrives(my, your, id, cs) => if Routed(s, e) { HeaderLeaves(s, my, your, id, cs); }
    case RefVoiceArrives(id, end) => LinkTimeout(s);
    case Dropped(callsign) => DropKeepsRef(s, callsign);
    case Clocked(ms, gone) => TickKeepsRef(s, ms, gone, since);
    case _ =>
  }

  lemma LinkTimeout(s: State)
    requires Wf(s)
    ensures s.linkTimer.timeout == 2001
  {
  }

  lemma DropKeepsRef(s: State, callsign: string)
    requires s.floor != 0 && !Live(s, s.floor) && !DropFrees(s, callsign)
    ensures var t := Drop(s, callsign).0;
            t.floor == s.floor && t.linkTimer == s.linkTimer && !Live(t, s.floor)
  {
    hide First, RecordsOf;
    DropFreesIff(s, callsign);
  }

  lemma TickKeepsRef(s: State, ms: nat, gone: set<string>, since: nat)
    requires Wf(s) && Backed(s) && RefHeld(s, s.floor, since) && ms + 4001 < U32
    ensures var t := Tick(s, ms, gone).0;
            if since + ms >= 2000 then t.floor == 0 else RefHeld(t, s.floor, since + ms)
  {
    hide Tick;
    FloorFreedIff(s, ms, gone);
    TickBacked(s, ms, gone);
    TickRecord(s, ms, gone, s.floor);
  }

  /** Over any such run a reflector stream loses the floor exactly when two seconds
      pass between two of its frames. */
  lemma {:induction false} RefHeldIff(s: State, es: seq<Event>, since: nat)
    requires Wf(s) && Legal(s, es) && Backed(s) && RefHeld(s, s.floor, since) && CalmRun(s, es)
    ensures FreedWithin(s, es) <==> Starves(s, es, since)
    ensures !FreedWithin(s, es) ==> Run(s, es).0.floor == s.floor
    decreases |es|
  {
    hide Wf, Step, Backed, Calm;
    assert s.floor != 0;
    if es != [] {
      var e := es[0];
      StepWf(s, e);
      StepBacked(s, e);
      RefHeldStep(s, e, since);
      if !(e.Clocked? && since + e.ms >= 2000) {
        RefHeldIff(Step(s, e).0, es[1..], Since(s, e, since));
      }
    }
  }
}
