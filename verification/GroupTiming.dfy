/** Timers over whole runs: the floor is let go in bounded time, and no record
    outlives the subscriber it refers to. */
module GroupTiming {
  import opened Timer
  import opened Caches
  import opened Group
  import opened GroupRuns

  // ---- the floor is always backed by a running timer ----

  /** Every record's timer runs, and none is past its time. */
  ghost predicate Timed(s: State) {
    && (forall id | Live(s, id) :: 1 <= s.ids[id].value.timer.timer <= 4000)
    && s.linkTimer.timer <= 2000
  }

  predicate RecordBacked(s: State) {
    Live(s, s.floor) && !s.ids[s.floor].value.end
  }

  ghost predicate Backed(s: State) {
    Timed(s) && (s.floor != 0 ==> RecordBacked(s) || s.linkTimer.timer > 0)
  }

  /** The milliseconds until the timer behind the floor lets it go. */
  function Left(s: State): int {
    if RecordBacked(s) then 4001 - s.ids[s.floor].value.timer.timer else 2001 - s.linkTimer.timer
  }

  lemma TakeG2Backed(s: State, id: nat, my: string, login: bool, cs: Pair)
    requires Backed(s) && id != 0 && Live(s, id) && !s.ids[id].value.end
    ensures Backed(TakeG2(s, id, my, login, cs).0)
  {
    hide FanOut, Relay, Texts, Sorted;
    assert forall i | Live(TakeG2(s, id, my, login, cs).0, i) :: Live(s, i);
  }

  lemma PutBacked(s: State, id: nat, r: Record)
    requires Backed(s) && r.timer.timer == 1 && (!r.end || (Live(s, id) && s.ids[id].value.end) || id != s.floor)
    ensures Backed(PutRecord(s, id, r))
  {
    assert forall i | Live(PutRecord(s, id, r), i) && i != id :: Live(s, i);
  }

  /** Nothing here depends on the subscribers. */
  lemma UsersBacked(s: State, t: State)
    requires Backed(s)
    requires t.ids == s.ids && t.floor == s.floor && t.linkTimer == s.linkTimer
    ensures Backed(t)
  {
    assert forall i | Live(t, i) :: Live(s, i);
  }

  lemma G2HeaderBacked(s: State, my: string, your: string, id: nat, cs: Pair)
    requires Wf(s) && Backed(s) && id != 0
    ensures Backed(G2Header(s, my, your, id, cs).0)
  {
    hide TakeG2, Backed;
    if your == s.config.callsign {
      if my !in s.users {
        UsersBacked(s, AddUser(s, my));
        PutBacked(AddUser(s, my), id, NewRecord(s.next, true, false));
        TakeG2Backed(PutRecord(AddUser(s, my), id, NewRecord(s.next, true, false)), id, my, true, cs);
      } else {
        UsersBacked(s, ResetUser(s, s.users[my]));
        PutBacked(ResetUser(s, s.users[my]), id, NewRecord(s.users[my], false, false));
        TakeG2Backed(PutRecord(ResetUser(s, s.users[my]), id, NewRecord(s.users[my], false, false)), id, my, false, cs);
      }
    } else if my in s.users {
      UsersBacked(s, s.(users := s.users - {my}));
      PutBacked(s.(users := s.users - {my}), id, NewRecord(s.users[my], false, true));
    }
  }

  lemma G2VoiceBacked(s: State, id: nat, end: bool)
    requires Wf(s) && Backed(s) && id == s.floor && id != 0
    requires id in s.ids ==> s.ids[id].Some?
    ensures Backed(G2Voice(s, id, end).0)
  {
    hide Relay;
    if id in s.ids {
      assert Live(s, id);
      var r := s.ids[id].value;
      var heard := r.(timer := r.timer.Started());
      UsersBacked(s, ResetUser(s, r.user));
      PutBacked(ResetUser(s, r.user), id, heard);
      var t := G2Voice(s, id, end).0;
      assert forall i | Live(t, i) && i != id :: Live(s, i);
    }
  }

  lemma RefHeaderBacked(s: State, id: nat, cs: Pair)
    requires Wf(s) && Backed(s)
    ensures Backed(RefHeader(s, id, cs).0)
  {
    hide FanOut, Relay, Texts, Sorted;
    assert forall i | Live(RefHeader(s, id, cs).0, i) :: Live(s, i);
  }

  lemma RefVoiceBacked(s: State, id: nat, end: bool)
    requires Wf(s) && Backed(s)
    ensures Backed(RefVoice(s, id, end).0)
  {
    hide Relay;
    assert forall i | Live(RefVoice(s, id, end).0, i) :: Live(s, i);
  }

  lemma DropBacked(s: State, callsign: string)
    requires Backed(s)
    ensures Backed(Drop(s, callsign).0)
    ensures Drop(s, callsign).0.floor == 0
            || (Drop(s, callsign).0.floor == s.floor && Left(Drop(s, callsign).0) == Left(s))
  {
    hide First, RecordsOf;
    var t := Drop(s, callsign).0;
    assert forall i | Live(t, i) :: Live(s, i);
    if t.floor != 0 && callsign in s.users && RecordsOf(s, s.users[callsign]) != {} {
      assert t.floor != First(RecordsOf(s, s.users[callsign]));
    }
  }

  // ---- the clock ----

  lemma LinkBacked(s: State, ms: nat)
    requires Wf(s) && Backed(s) && ms + 4001 < U32
    ensures Backed(LinkClock(s, ms))
    ensures var t := LinkClock(s, ms); t.floor == 0 || (t.floor == s.floor && t.ids == s.ids)
    ensures var t := LinkClock(s, ms); t.floor != 0 && !RecordBacked(s) ==> t.linkTimer.timer == s.linkTimer.timer + ms
  {
    assert forall i | Live(LinkClock(s, ms), i) :: Live(s, i);
  }

  lemma RecordsBacked(s: State, ms: nat)
    requires Wf(s) && Backed(s) && ms + 4001 < U32
    ensures Backed(RecordsClock(s, ms))
    ensures var t := RecordsClock(s, ms);
            t.floor == 0
            || (t.floor == s.floor && t.linkTimer == s.linkTimer && RecordBacked(t) == RecordBacked(s)
                && (RecordBacked(s) ==> t.ids[t.floor].value.timer.timer == s.ids[s.floor].value.timer.timer + ms))
  {
    var t := RecordsClock(s, ms);
    forall i | Live(t, i)
      ensures 1 <= t.ids[i].value.timer.timer <= 4000
    {
      assert Live(s, i);
    }
  }

  /** A clock step that does not free the floor uses up that much of its time. */
  lemma TickBacked(s: State, ms: nat, gone: set<string>)
    requires Wf(s) && Backed(s) && ms + 4001 < U32
    ensures var t := Tick(s, ms, gone).0;
            Backed(t) && (t.floor == 0 || (t.floor == s.floor && Left(t) == Left(s) - ms))
  {
    hide Wf, Backed, LinkClock, RecordsClock, FreesFloor, Due;
    var s1 := s.(users := s.users - gone);
    WfSweep(s, gone);
    UsersBacked(s, s1);
    var s2 := LinkClock(s1, ms);
    WfLink(s1, ms);
    LinkBacked(s1, ms);
    var s3 := RecordsClock(s2, ms);
    WfRecords(s2, ms);
    RecordsBacked(s2, ms);
    WfUsers(s3, ms);
    UsersBacked(s3, Tick(s, ms, gone).0);
  }

  lemma StepBacked(s: State, e: Event)
    requires Wf(s) && Proper(s, e) && Backed(s)
    ensures Backed(Step(s, e).0)
  {
    hide Wf, Backed, G2Header, G2Voice, RefHeader, RefVoice, Drop, Tick;
    match e
    case G2HeaderArrives(my, your, id, cs) => if Routed(s, e) { G2HeaderBacked(s, my, your, id, cs); }
    case G2VoiceArrives(id, end) => if Routed(s, e) { G2VoiceBacked(s, id, end); }
    case RefHeaderArrives(id, cs) => RefHeaderBacked(s, id, cs);
    case RefVoiceArrives(id, end) => RefVoiceBacked(s, id, end);
    case Dropped(callsign) => DropBacked(s, callsign);
    case Linked(linkType) => UsersBacked(s, s.(linkType := linkType));
    case Clocked(ms, gone) => TickBacked(s, ms, gone);
  }

  /** In every run from a new group the floor is backed by a running timer. */
  lemma {:induction false} AlwaysBacked(s: State, es: seq<Event>)
    requires Wf(s) && Legal(s, es) && Backed(s)
    ensures Backed(Run(s, es).0)
    decreases |es|
  {
    hide Wf, Step, Backed;
    if es != [] {
      StepWf(s, es[0]);
      StepBacked(s, es[0]);
      AlwaysBacked(Step(s, es[0]).0, es[1..]);
    }
  }

  lemma InitBacked(c: Config, linkType: LinkType)
    requires c.userTimeout * 60000 + 1 < U32
    ensures Backed(Init(c, linkType))
  {
  }

  // ---- bounded release ----

  /** The event is a packet of stream x. */
  predicate PacketOf(e: Event, x: nat) {
    match e
    case G2HeaderArrives(_, _, id, _) => id == x
    case G2VoiceArrives(id, _) => id == x
    case RefHeaderArrives(id, _) => id == x
    case RefVoiceArrives(id, _) => id == x
    case _ => false
  }

  function Elapsed(es: seq<Event>): nat {
    if es == [] then 0 else (if es[0].Clocked? then es[0].ms else 0) + Elapsed(es[1..])
  }

  /** The floor is free at some point of the run. */
  predicate FreedWithin(s: State, es: seq<Event>)
    requires Wf(s) && Legal(s, es)
    decreases |es|
  {
    s.floor == 0 || (es != [] && (StepWf(s, es[0]); FreedWithin(Step(s, es[0]).0, es[1..])))
  }

  lemma HeaderLeaves(s: State, my: string, your: string, id: nat, cs: Pair)
    requires Wf(s) && s.floor != 0 && id != s.floor
    ensures var t := G2Header(s, my, your, id, cs).0;
            t.floor == s.floor && t.linkTimer == s.linkTimer
            && (Live(t, s.floor) <==> Live(s, s.floor)) && (Live(s, s.floor) ==> t.ids[s.floor] == s.ids[s.floor])
  {
    hide Wf, FanOut, Relay, Texts, Sorted;
  }

  /** Any other event leaves the floor, and the time it has left, alone. */
  lemma OthersLeave(s: State, e: Event)
    requires Wf(s) && Proper(s, e) && Backed(s) && s.floor != 0
    requires !PacketOf(e, s.floor) && !e.Clocked?
    ensures var t := Step(s, e).0; t.floor == 0 || (t.floor == s.floor && Left(t) == Left(s))
  {
    hide Wf, Backed, Drop, Tick, G2Header, G2Voice, Touch, Relay;
    match e
    case G2HeaderArrives(my, your, id, cs) => if Routed(s, e) { HeaderLeaves(s, my, your, id, cs); }
    case Dropped(callsign) => DropBacked(s, callsign);
    case _ =>
  }

  lemma {:induction false} ReleasedInTime(s: State, es: seq<Event>)
    requires Wf(s) && Legal(s, es) && Backed(s) && s.floor != 0
    requires forall e | e in es :: !PacketOf(e, s.floor)
    requires Elapsed(es) >= Left(s)
    ensures FreedWithin(s, es)
    decreases |es|
  {
    hide Wf, Step, PacketOf;
    assert Left(s) > 0;
    var e := es[0];
    assert e in es && forall f | f in es[1..] :: f in es;
    StepWf(s, e);
    StepBacked(s, e);
    StepLeft(s, e);
    var t := Step(s, e).0;
    if t.floor != 0 {
      ReleasedInTime(t, es[1..]);
    }
  }

  lemma StepLeft(s: State, e: Event)
    requires Wf(s) && Proper(s, e) && Backed(s) && s.floor != 0 && !PacketOf(e, s.floor)
    ensures var t := Step(s, e).0;
            t.floor == 0 || (t.floor == s.floor && Left(t) == Left(s) - if e.Clocked? then e.ms else 0)
  {
    hide Wf, Backed, Left, Tick;
    if e.Clocked? {
      TickBacked(s, e.ms, e.gone);
    } else {
      OthersLeave(s, e);
    }
  }

  /** Once four seconds of clock pass with no further packet of the stream that
      holds it, the floor has been free, whatever else happens meanwhile. */
  lemma BoundedRelease(c: Config, linkType: LinkType, before: seq<Event>, es: seq<Event>)
    requires c.userTimeout * 60000 + 1 < U32
    requires Legal(Init(c, linkType), before)
    requires Legal(Run(Init(c, linkType), before).0, es)
    requires var s := Run(Init(c, linkType), before).0; forall e | e in es :: !PacketOf(e, s.floor)
    requires Elapsed(es) >= 4000
    ensures FreedWithin(Run(Init(c, linkType), before).0, es)
  {
    hide Wf, Legal, Run, PacketOf, FreedWithin;
    InitBacked(c, linkType);
    AlwaysBacked(Init(c, linkType), before);
    var s := Run(Init(c, linkType), before).0;
    if s.floor != 0 {
      ReleasedInTime(s, es);
    } else {
      FreeNow(s, es);
    }
  }

  lemma FreeNow(s: State, es: seq<Event>)
    requires Wf(s) && Legal(s, es) && s.floor == 0
    ensures FreedWithin(s, es)
  {
    hide Wf, Legal;
  }

  // ---- and never early, but for a leftover link timer ----

  /** A clock step frees the floor exactly when the link timer runs out, whoever
      started it, or the stream's own record does. */
  lemma FloorFreedIff(s: State, ms: nat, gone: set<string>)
    requires Wf(s) && Backed(s) && s.floor != 0 && ms + 4001 < U32
    ensures Tick(s, ms, gone).0.floor == 0 <==>
            (s.linkTimer.timer > 0 && s.linkTimer.timer + ms > 2000)
            || (RecordBacked(s) && s.ids[s.floor].value.timer.timer + ms > 4000)
  {
    hide UsersClock, ExpireUsers, Kept, ClockRecord, LogsOff;
    assert Live(s, s.floor) ==> 1 <= s.ids[s.floor].value.timer.timer <= 4000;
    var s1 := s.(users := s.users - gone);
    WfSweep(s, gone);
    WfLink(s1, ms);
    WfRecords(LinkClock(s1, ms), ms);
    WfUsers(RecordsClock(LinkClock(s1, ms), ms), ms);
    UsersFloor(RecordsClock(LinkClock(s1, ms), ms), ms);
  }

  lemma UsersFloor(s: State, ms: nat)
    requires Wf(s) && Wf(UsersClock(s, ms))
    ensures ExpireUsers(UsersClock(s, ms)).floor == s.floor
  {
    hide Wf;
  }

  /** Remote control takes the floor from its stream. */
  predicate DropFrees(s: State, callsign: string) {
    callsign == ALL
    || (callsign in s.users
        && var recs := RecordsOf(s, s.users[callsign]);
        (recs != {} && First(recs) == s.floor) || s.users - {callsign} == map[])
  }

  lemma DropFreesIff(s: State, callsign: string)
    requires s.floor != 0
    ensures Drop(s, callsign).0.floor == 0 <==> DropFrees(s, callsign)
  {
    hide First, RecordsOf;
  }

  /** The stream on the floor is heard at least once in every four seconds, does not
      end, and is not taken off by remote control; since is the time it has been
      quiet. */
  predicate HeardOften(s: State, es: seq<Event>, since: nat)
    requires Wf(s) && Legal(s, es)
    decreases |es|
  {
    es == [] || s.floor == 0
    || (var e := es[0];
        && (e.G2VoiceArrives? && e.id == s.floor ==> !e.end)
        && (e.RefVoiceArrives? ==> e.id != s.floor)
        && (e.Dropped? ==> !DropFrees(s, e.callsign))
        && (e.Clocked? ==> since + e.ms < 4000)
        && (StepWf(s, e);
            HeardOften(Step(s, e).0, es[1..],
                       if e.Clocked? then since + e.ms else if e.G2VoiceArrives? && e.id == s.floor then 0 else since)))
  }

  /** The floor is held by a G2 stream heard since ms ago. */
  predicate HeldSince(s: State, x: nat, since: nat) {
    s.floor == x && x != 0 && RecordBacked(s) && s.ids[x].value.timer.timer <= 1 + since
  }

  lemma HeaderHeld(s: State, my: string, your: string, id: nat, cs: Pair, x: nat, since: nat)
    requires Wf(s) && HeldSince(s, x, since)
    ensures HeldSince(G2Header(s, my, your, id, cs).0, x, since)
    ensures G2Header(s, my, your, id, cs).0.linkTimer == s.linkTimer
  {
    hide Wf, FanOut, Relay, Texts, Sorted;
    if your == s.config.callsign {
      if my !in s.users {
        TimeoutFits(s);
        TakeHeld(PutRecord(AddUser(s, my), id, NewRecord(s.next, true, false)), id, my, true, cs);
      } else {
        HeldTalker(s, my);
        TakeHeld(PutRecord(ResetUser(s, s.users[my]), id, NewRecord(s.users[my], false, false)), id, my, false, cs);
      }
    }
  }

  lemma DropHeld(s: State, callsign: string, x: nat, since: nat)
    requires HeldSince(s, x, since) && !DropFrees(s, callsign)
    ensures HeldSince(Drop(s, callsign).0, x, since) && Drop(s, callsign).0.linkTimer == s.linkTimer
  {
    DropFreesIff(s, callsign);
    hide First, RecordsOf;
  }

  /** The link timer runs out in this step. */
  predicate LinkEnds(s: State, ms: nat) {
    s.linkTimer.timer > 0 && s.linkTimer.timer + ms > 2000
  }

  lemma TickHeld(s: State, ms: nat, gone: set<string>, x: nat, since: nat)
    requires Wf(s) && Backed(s) && HeldSince(s, x, since) && since + ms < 4000
    ensures var t := Tick(s, ms, gone).0;
            if LinkEnds(s, ms) then t.floor == 0
            else HeldSince(t, x, since + ms)
                 && t.linkTimer.timer == if s.linkTimer.timer > 0 then s.linkTimer.timer + ms else 0
  {
    hide Wf, Tick, Backed;
    FloorFreedIff(s, ms, gone);
    TickBacked(s, ms, gone);
    if !LinkEnds(s, ms) {
      TickHeldRecord(s, ms, gone);
    }
  }

  lemma TickHeldRecord(s: State, ms: nat, gone: set<string>)
    requires Wf(s) && RecordBacked(s) && s.ids[s.floor].value.timer.timer + ms <= 4000 && !LinkEnds(s, ms)
    ensures var t := Tick(s, ms, gone).0;
            && t.linkTimer.timer == (if s.linkTimer.timer > 0 then s.linkTimer.timer + ms else 0)
            && (t.floor == s.floor ==>
                  RecordBacked(t) && t.ids[t.floor].value.timer.timer <= s.ids[s.floor].value.timer.timer + ms)
  {
    hide LogsOff, FreesFloor;
    KeptRunning(s, ms);
  }

  lemma KeptRunning(s: State, ms: nat)
    requires Wf(s) && RecordBacked(s) && s.ids[s.floor].value.timer.timer + ms <= 4000
    ensures var r := s.ids[s.floor]; Kept(r, ms) && !Due(r, ms) && ClockRecord(r, ms).Some?
    ensures var r := ClockRecord(s.ids[s.floor], ms).value;
            !r.end && r.timer.timer <= s.ids[s.floor].value.timer.timer + ms
  {
    assert Live(s, s.floor);
  }

  lemma StepHeld(s: State, e: Event, since: nat)
    requires Wf(s) && Proper(s, e) && Backed(s) && HeldSince(s, s.floor, since)
    requires e.G2VoiceArrives? && e.id == s.floor ==> !e.end
    requires e.RefVoiceArrives? ==> e.id != s.floor
    requires e.Dropped? ==> !DropFrees(s, e.callsign)
    requires e.Clocked? ==> since + e.ms < 4000
    ensures var (t, ms) := (Step(s, e).0, if e.Clocked? then e.ms else 0);
            if LinkEnds(s, ms) then t.floor == 0
            else HeldSince(t, s.floor, if e.Clocked? then since + ms
                                       else if e.G2VoiceArrives? && e.id == s.floor then 0 else since)
                 && t.linkTimer.timer == if s.linkTimer.timer > 0 then s.linkTimer.timer + ms else 0
  {
    hide Wf, Drop, DropFrees, Tick, G2Header, Relay;
    LinkNotOver(s);
    match e
    case G2HeaderArrives(my, your, id, cs) => if Routed(s, e) { HeaderHeld(s, my, your, id, cs, s.floor, since); }
    case G2VoiceArrives(id, end) => if Routed(s, e) { RecordTimeout(s, id); }
    case Dropped(callsign) => DropHeld(s, callsign, s.floor, since);
    case Clocked(ms, gone) => TickHeld(s, ms, gone, s.floor, since);
    case _ =>
  }

  lemma LinkNotOver(s: State)
    requires Backed(s)
    ensures !LinkEnds(s, 0)
  {
  }

  lemma RecordTimeout(s: State, id: nat)
    requires Wf(s) && Live(s, id)
    ensures s.ids[id].value.user in s.heap && s.ids[id].value.timer.timeout == 4001
  {
  }

  /** A G2 stream that is heard often enough keeps the floor for the whole run exactly
      when the link timer was not left running, or does not run out in it. */
  lemma {:induction false} HeardKeepsFloorIff(s: State, es: seq<Event>, since: nat)
    requires Wf(s) && Legal(s, es) && Backed(s) && HeldSince(s, s.floor, since) && HeardOften(s, es, since)
    ensures !FreedWithin(s, es) <==> s.linkTimer.timer == 0 || s.linkTimer.timer + Elapsed(es) <= 2000
    ensures !FreedWithin(s, es) ==> Run(s, es).0.floor == s.floor
    decreases |es|
  {
    hide Wf, Step, Backed, HeldSince, DropFrees;
    HeldFloor(s, s.floor);
    LinkNotOver(s);
    if es != [] {
      var e := es[0];
      var ms := if e.Clocked? then e.ms else 0;
      StepWf(s, e);
      StepBacked(s, e);
      StepHeld(s, e, since);
      var t := Step(s, e).0;
      if !LinkEnds(s, ms) {
        HeldFloor(t, s.floor);
        HeardKeepsFloorIff(t, es[1..],
                           if e.Clocked? then since + ms
                           else if e.G2VoiceArrives? && e.id == s.floor then 0 else since);
      }
    }
  }

  lemma HeldFloor(s: State, x: nat)
    requires exists since: nat :: HeldSince(s, x, since)
    ensures s.floor == x && x != 0
  {
  }

  /** Otherwise it does not: log everybody off during a reflector stream, and the
      link timer cuts off the next G2 stream two seconds later, voice or no voice. */
  lemma LinkTimerCuts(c: Config, linkType: LinkType, my: string, x: nat, y: nat, cs: Pair)
    requires c.userTimeout * 60000 + 1 < U32 && x != 0 && y != 0 && x != y
    ensures var s := Init(c, linkType);
            var es := [RefHeaderArrives(y, cs)] + ([Dropped(ALL)] + ([G2HeaderArrives(my, c.callsign, x, cs)]
                      + ([Clocked(1000, {})] + ([G2VoiceArrives(x, false)] + []))));
            && Legal(s, es) && Run(s, es).0.floor == x
            && Tick(Run(s, es).0, 1000, {}).0.floor == 0
  {
    hide FanOut, Relay, Texts, Sorted, Legal, Run, Tick;
    var s := Init(c, linkType);
    var e1, e2, e3 := RefHeaderArrives(y, cs), Dropped(ALL), G2HeaderArrives(my, c.callsign, x, cs);
    var e4, e5 := Clocked(1000, {}), G2VoiceArrives(x, false);
    StepWf(s, e1);
    var s1 := Step(s, e1).0;
    StepWf(s1, e2);
    var s2 := Step(s1, e2).0;
    StepWf(s2, e3);
    var s3 := Step(s2, e3).0;
    assert Backed(s3) by {
      InitBacked(c, linkType);
      StepBacked(s, e1);
      StepBacked(s1, e2);
      StepBacked(s2, e3);
    }
    assert s3.floor == x && RecordBacked(s3) && s3.linkTimer == Ticks(2001, 1);
    StepWf(s3, e4);
    StepBacked(s3, e4);
    var s4 := Step(s3, e4).0;
    FloorFreedIff(s3, 1000, {});
    TickKeepsLink(s3, 1000);
    StepWf(s4, e5);
    StepBacked(s4, e5);
    var s5 := Step(s4, e5).0;
    FloorFreedIff(s5, 1000, {});
    EmptyRun(s5);
    RunStep(s4, e5, []);
    RunStep(s3, e4, [e5] + []);
    RunStep(s2, e3, [e4] + ([e5] + []));
    RunStep(s1, e2, [e3] + ([e4] + ([e5] + [])));
    RunStep(s, e1, [e2] + ([e3] + ([e4] + ([e5] + []))));
  }

  lemma TickKeepsLink(s: State, ms: nat)
    requires Wf(s) && RecordBacked(s) && s.linkTimer.timer > 0 && s.linkTimer.timer + ms <= 2000
    ensures var t := Tick(s, ms, {}).0;
            t.linkTimer == s.linkTimer.(timer := s.linkTimer.timer + ms)
            && (t.floor == s.floor && s.ids[s.floor].value.timer.timer + ms <= 4000 ==> RecordBacked(t))
            && (t.floor == 0 || t.floor == s.floor)
  {
    hide LogsOff;
    if s.ids[s.floor].value.timer.timer + ms <= 4000 {
      KeptRunning(s, ms);
    }
  }

  // ---- no record outlives its subscriber ----

  /** Within the bound, a recorded user's timer is behind its record's timer, plus
      the acknowledgement phase once the stream has ended; so a user whose timer
      runs out is no longer recorded. m is the longest clock step. */
  ghost predicate Ahead(s: State, m: nat, id: nat)
    requires Wf(s) && Live(s, id)
  {
    var r := s.ids[id].value;
    && r.user !in s.freed
    && (r.user in s.users.Values && s.config.userTimeout > 0 ==>
          s.heap[r.user].timer.timer <= r.timer.timer + (if r.end then 3999 + m else 0))
  }

  ghost predicate Outlived(s: State, m: nat)
    requires Wf(s)
  {
    Timed(s) && s.users.Values !! s.freed && forall id | Live(s, id) :: Ahead(s, m, id)
  }

  /** Dropping this user leaves no record of his: he has at most the one that goes
      with him, or nobody else is left. */
  predicate Harmless(s: State, callsign: string) {
    callsign == ALL || callsign !in s.users || s.users - {callsign} == map[]
    || forall i, j | i in RecordsOf(s, s.users[callsign]) && j in RecordsOf(s, s.users[callsign]) :: i == j
  }

  /** A clock step is at most m, and a remote logoff harmless. */
  predicate Paced(s: State, e: Event, m: nat) {
    (e.Clocked? ==> e.ms <= m) && (e.Dropped? ==> Harmless(s, e.callsign))
  }

  predicate PacedRun(s: State, es: seq<Event>, m: nat)
    requires Wf(s) && Legal(s, es)
    decreases |es|
  {
    es == [] || (Paced(s, es[0], m) && (StepWf(s, es[0]); PacedRun(Step(s, es[0]).0, es[1..], m)))
  }

  /** The user timeout leaves room for a four-second stream, a four-second
      acknowledgement and one clock step. */
  predicate Roomy(c: Config, m: nat) {
    c.userTimeout == 0 || m + 7999 <= 60000 * c.userTimeout
  }

  lemma ResetOutlived(s: State, m: nat, u: nat)
    requires Wf(s) && Outlived(s, m) && u in s.heap
    ensures Wf(ResetUser(s, u)) && Outlived(ResetUser(s, u), m)
  {
    WfReset(s, u);
    var t := ResetUser(s, u);
    forall id | Live(t, id)
      ensures Ahead(t, m, id)
    {
      assert Live(s, id) && Ahead(s, m, id);
    }
    assert forall id | Live(t, id) :: Live(s, id);
  }

  lemma AddOutlived(s: State, m: nat, my: string)
    requires Wf(s) && Outlived(s, m)
    ensures Wf(AddUser(s, my)) && Outlived(AddUser(s, my), m)
  {
    WfAdd(s, my);
    var t := AddUser(s, my);
    forall id | Live(t, id)
      ensures Ahead(t, m, id)
    {
      assert Live(s, id) && Ahead(s, m, id);
      assert s.ids[id].value.user in t.users.Values ==> s.ids[id].value.user in s.users.Values;
    }
    assert forall id | Live(t, id) :: Live(s, id);
  }

  /** A record is put in for a user who is not subscribed, or was just heard. */
  lemma PutOutlived(s: State, m: nat, id: nat, r: Record)
    requires Wf(s) && Outlived(s, m)
    requires r.user in s.heap && r.user !in s.freed && r.timer == Ticks(4001, 1)
    requires r.user in s.users.Values && s.config.userTimeout > 0 ==> s.heap[r.user].timer.timer == 1
    ensures Wf(PutRecord(s, id, r)) && Outlived(PutRecord(s, id, r), m)
  {
    WfPut(s, id, r);
    var t := PutRecord(s, id, r);
    forall i | Live(t, i)
      ensures Ahead(t, m, i)
    {
      assert i != id ==> Live(s, i) && Ahead(s, m, i);
    }
    assert forall i | Live(t, i) && i != id :: Live(s, i);
  }

  /** Fewer records, fewer subscribers, another floor: nothing is lost. */
  lemma LessOutlived(s: State, t: State, m: nat)
    requires Wf(s) && Wf(t) && Outlived(s, m)
    requires t.heap == s.heap && t.freed == s.freed && t.config == s.config
    requires t.users.Values <= s.users.Values && t.linkTimer.timer <= 2000
    requires forall id | Live(t, id) :: Live(s, id) && t.ids[id] == s.ids[id]
    ensures Outlived(t, m)
  {
    forall id | Live(t, id)
      ensures Ahead(t, m, id)
    {
      assert Ahead(s, m, id);
    }
  }

  lemma TimedLink(s: State, m: nat)
    requires Wf(s) && Outlived(s, m)
    ensures s.linkTimer.timer <= 2000
  {
  }

  lemma TakeG2Keeps(s: State, id: nat, my: string, login: bool, cs: Pair)
    ensures var t := TakeG2(s, id, my, login, cs).0; t == s.(floor := t.floor, repeaters := t.repeaters)
  {
    hide FanOut, Relay, Texts, Sorted;
  }

  lemma TakeG2Outlived(s: State, m: nat, id: nat, my: string, login: bool, cs: Pair)
    requires Wf(s) && Outlived(s, m)
    ensures Wf(TakeG2(s, id, my, login, cs).0) && Outlived(TakeG2(s, id, my, login, cs).0, m)
  {
    hide Wf, Outlived, TakeG2;
    WfTakeG2(s, id, my, login, cs);
    TakeG2Keeps(s, id, my, login, cs);
    TimedLink(s, m);
    LessOutlived(s, TakeG2(s, id, my, login, cs).0, m);
  }

  lemma NewUser(s: State, m: nat, my: string)
    requires Wf(s) && Outlived(s, m)
    ensures s.next !in s.freed && s.next in AddUser(s, my).heap
    ensures s.config.userTimeout > 0 ==> AddUser(s, my).heap[s.next].timer.timer == 1
  {
  }

  lemma OldUser(s: State, m: nat, my: string)
    requires Wf(s) && Outlived(s, m) && my in s.users
    ensures s.users[my] in s.heap && s.users[my] !in s.freed
    ensures s.config.userTimeout > 0 ==> ResetUser(s, s.users[my]).heap[s.users[my]].timer.timer == 1
    ensures s.users[my] !in (s.users - {my}).Values
  {
    assert s.users[my] in s.users.Values;
  }

  lemma LoginOutlived(s: State, m: nat, my: string, id: nat, cs: Pair)
    requires Wf(s) && Outlived(s, m)
    ensures Wf(PutRecord(AddUser(s, my), id, NewRecord(s.next, true, false)))
    ensures Wf(TakeG2(PutRecord(AddUser(s, my), id, NewRecord(s.next, true, false)), id, my, true, cs).0)
    ensures Outlived(TakeG2(PutRecord(AddUser(s, my), id, NewRecord(s.next, true, false)), id, my, true, cs).0, m)
  {
    hide TakeG2, Outlived, Wf;
    AddOutlived(s, m, my);
    NewUser(s, m, my);
    PutOutlived(AddUser(s, my), m, id, NewRecord(s.next, true, false));
    TakeG2Outlived(PutRecord(AddUser(s, my), id, NewRecord(s.next, true, false)), m, id, my, true, cs);
  }

  lemma TalkOutlived(s: State, m: nat, my: string, id: nat, cs: Pair)
    requires Wf(s) && Outlived(s, m) && my in s.users
    ensures s.users[my] in s.heap && Wf(ResetUser(s, s.users[my])) && Outlived(ResetUser(s, s.users[my]), m)
    ensures var t := PutRecord(ResetUser(s, s.users[my]), id, NewRecord(s.users[my], false, false));
            Wf(TakeG2(t, id, my, false, cs).0) && Outlived(TakeG2(t, id, my, false, cs).0, m)
  {
    hide TakeG2, Outlived, Wf;
    OldUser(s, m, my);
    var u := s.users[my];
    ResetOutlived(s, m, u);
    PutOutlived(ResetUser(s, u), m, id, NewRecord(u, false, false));
    TakeG2Outlived(PutRecord(ResetUser(s, u), id, NewRecord(u, false, false)), m, id, my, false, cs);
  }

  lemma LogoffOutlived(s: State, m: nat, my: string, id: nat)
    requires Wf(s) && Outlived(s, m) && my in s.users
    ensures Wf(PutRecord(s.(users := s.users - {my}), id, NewRecord(s.users[my], false, true)))
            && Outlived(PutRecord(s.(users := s.users - {my}), id, NewRecord(s.users[my], false, true)), m)
  {
    hide Outlived, Wf;
    OldUser(s, m, my);
    var t := s.(users := s.users - {my});
    WfSweep(s, {my});
    TimedLink(s, m);
    assert t.users.Values <= s.users.Values;
    LessOutlived(s, t, m);
    PutOutlived(t, m, id, NewRecord(s.users[my], false, true));
  }

  lemma HeaderCases(s: State, my: string, your: string, id: nat, cs: Pair)
    requires Wf(s)
    ensures my in s.users ==> s.users[my] in s.heap
    ensures var t := G2Header(s, my, your, id, cs).0;
            if your != s.config.callsign then
              t == if my !in s.users then s
                else PutRecord(s.(users := s.users - {my}), id, NewRecord(s.users[my], false, true))
            else if my !in s.users then
              t == TakeG2(PutRecord(AddUser(s, my), id, NewRecord(s.next, true, false)), id, my, true, cs).0
            else
              var u := ResetUser(s, s.users[my]);
              t == if Live(s, id) then u
                   else TakeG2(PutRecord(u, id, NewRecord(s.users[my], false, false)), id, my, false, cs).0
  {
    hide TakeG2, PutRecord, AddUser, ResetUser, NewRecord;
  }

  lemma G2HeaderOutlived(s: State, m: nat, my: string, your: string, id: nat, cs: Pair)
    requires Wf(s) && Outlived(s, m)
    ensures Wf(G2Header(s, my, your, id, cs).0) && Outlived(G2Header(s, my, your, id, cs).0, m)
  {
    hide *;
    HeaderCases(s, my, your, id, cs);
    if your == s.config.callsign {
      if my !in s.users {
        LoginOutlived(s, m, my, id, cs);
      } else {
        TalkOutlived(s, m, my, id, cs);
      }
    } else if my in s.users {
      LogoffOutlived(s, m, my, id);
    }
  }

  lemma HeardOutlived(s: State, m: nat, id: nat, end: bool)
    requires Wf(s) && Outlived(s, m) && Live(s, id)
    ensures var r := s.ids[id].value;
            r.user in s.heap
            && var u := PutRecord(ResetUser(s, r.user), id, r.(timer := r.timer.Started(), end := end));
            Wf(u) && Outlived(u, m)
  {
    hide Outlived;
    VoiceUser(s, m, id);
    var r := s.ids[id].value;
    ResetOutlived(s, m, r.user);
    PutOutlived(ResetUser(s, r.user), m, id, r.(timer := r.timer.Started(), end := end));
  }

  /** A voice frame leaves at most the records and subscribers it heard. */
  lemma VoiceKeeps(s: State, id: nat, end: bool)
    requires Wf(s) && Live(s, id)
    ensures s.ids[id].value.user in s.heap
    ensures var r := s.ids[id].value;
            var ended := (end && (r.login || r.logoff)) || r.end;
            var u := PutRecord(ResetUser(s, r.user), id, r.(timer := r.timer.Started(), end := ended));
            var v := G2Voice(s, id, end).0;
            && v.heap == u.heap && v.freed == u.freed && v.config == u.config && v.linkTimer == u.linkTimer
            && v.users.Values <= u.users.Values
            && forall i | Live(v, i) :: Live(u, i) && v.ids[i] == u.ids[i]
  {
    hide Relay;
  }

  lemma Recorded(s: State, id: nat)
    requires id in s.ids && s.ids[id].Some?
    ensures Live(s, id)
  {
  }

  lemma Unheard(s: State, id: nat, end: bool)
    requires Wf(s) && id !in s.ids
    ensures G2Voice(s, id, end) == (s, [])
  {
  }

  lemma G2VoiceOutlived(s: State, m: nat, id: nat, end: bool)
    requires Wf(s) && Outlived(s, m)
    requires id in s.ids ==> s.ids[id].Some?
    ensures Wf(G2Voice(s, id, end).0) && Outlived(G2Voice(s, id, end).0, m)
  {
    hide *;
    if id !in s.ids {
      assert G2Voice(s, id, end).0 == s by {
        Unheard(s, id, end);
      }
    } else {
      var r := s.ids[id].value;
      var ended := (end && (r.login || r.logoff)) || r.end;
      assert Live(s, id) by {
        Recorded(s, id);
      }
      HeardOutlived(s, m, id, ended);
      VoiceKeeps(s, id, end);
      WfG2Voice(s, id, end);
      var u := PutRecord(ResetUser(s, r.user), id, r.(timer := r.timer.Started(), end := ended));
      TimedLink(u, m);
      LessOutlived(u, G2Voice(s, id, end).0, m);
    }
  }

  lemma VoiceUser(s: State, m: nat, id: nat)
    requires Wf(s) && Outlived(s, m) && Live(s, id)
    ensures var u := s.ids[id].value.user;
            u in s.heap && u !in s.freed
            && (s.config.userTimeout > 0 ==> ResetUser(s, u).heap[u].timer.timer == 1)
  {
    assert Ahead(s, m, id);
  }

  lemma RefHeaderOutlived(s: State, m: nat, id: nat, cs: Pair)
    requires Wf(s) && Outlived(s, m)
    ensures Wf(RefHeader(s, id, cs).0) && Outlived(RefHeader(s, id, cs).0, m)
  {
    hide FanOut, Relay, Texts, Sorted, Outlived, Wf;
    WfRefHeader(s, id, cs);
    TimedLink(s, m);
    LessOutlived(s, RefHeader(s, id, cs).0, m);
  }

  lemma RefVoiceOutlived(s: State, m: nat, id: nat, end: bool)
    requires Wf(s) && Outlived(s, m)
    ensures Wf(RefVoice(s, id, end).0) && Outlived(RefVoice(s, id, end).0, m)
  {
    hide Relay, Outlived, Wf;
    WfRefVoice(s, id, end);
    TimedLink(s, m);
    LessOutlived(s, RefVoice(s, id, end).0, m);
  }

  lemma DropAllOutlived(s: State, m: nat)
    requires Wf(s) && Outlived(s, m)
    ensures Wf(DropAll(s).0) && Outlived(DropAll(s).0, m)
  {
    var t := DropAll(s).0;
    assert forall id :: !Live(t, id);
  }

  /** No record of the user who goes is left. */
  lemma DropLeavesNone(s: State, callsign: string, id: nat)
    requires Wf(s) && callsign in s.users && Harmless(s, callsign) && callsign != ALL
             && Live(DropOne(s, callsign).0, id)
    ensures Live(s, id) && DropOne(s, callsign).0.ids[id] == s.ids[id] && s.ids[id].value.user != s.users[callsign]
  {
    hide Wf, First;
    var u := s.users[callsign];
    assert s.ids[id].value.user == u ==> id in RecordsOf(s, u);
  }

  lemma DropOneOutlived(s: State, m: nat, callsign: string)
    requires Wf(s) && Outlived(s, m) && Harmless(s, callsign) && callsign != ALL && callsign in s.users
    ensures Wf(DropOne(s, callsign).0) && Outlived(DropOne(s, callsign).0, m)
  {
    hide First, RecordsOf, Harmless;
    WfDrop(s, callsign);
    var t := DropOne(s, callsign).0;
    OldUser(s, m, callsign);
    forall id | Live(t, id)
      ensures Ahead(t, m, id) && 1 <= t.ids[id].value.timer.timer <= 4000
    {
      DropLeavesNone(s, callsign, id);
      assert Ahead(s, m, id);
    }
    assert t.users.Values <= (s.users - {callsign}).Values;
  }

  lemma DropOutlived(s: State, m: nat, callsign: string)
    requires Wf(s) && Outlived(s, m) && Harmless(s, callsign)
    ensures Wf(Drop(s, callsign).0) && Outlived(Drop(s, callsign).0, m)
  {
    hide Wf, Outlived, DropAll, Harmless;
    if callsign == ALL {
      DropAllOutlived(s, m);
    } else if callsign in s.users {
      DropOneOutlived(s, m, callsign);
    }
  }

  lemma LinkOutlived(s: State, m: nat, ms: nat)
    requires Wf(s) && Outlived(s, m) && ms + 4001 < U32
    ensures Wf(LinkClock(s, ms)) && Outlived(LinkClock(s, ms), m)
  {
    WfLink(s, ms);
    LessOutlived(s, LinkClock(s, ms), m);
  }

  /** One record against its user, both clocked by ms. */
  lemma ClockAhead(s: State, m: nat, ms: nat, id: nat)
    requires Wf(s) && Outlived(s, m) && ms <= m && ms + 4001 < U32
    requires Live(s, id) && Kept(s.ids[id], ms)
    ensures var u := s.ids[id].value.user;
            var r := ClockRecord(s.ids[id], ms).value;
            && u !in s.freed && u in s.heap && 1 <= r.timer.timer <= 4000
            && (u in s.users.Values && s.config.userTimeout > 0 ==>
                  s.heap[u].timer.Clocked(ms).timer <= r.timer.timer + (if r.end then 3999 + m else 0))
  {
    assert Ahead(s, m, id);
  }

  lemma ClocksOutlived(s: State, m: nat, ms: nat)
    requires Wf(s) && Outlived(s, m) && ms <= m && ms + 4001 < U32
    ensures Wf(RecordsClock(s, ms)) && Wf(UsersClock(RecordsClock(s, ms), ms))
    ensures Outlived(UsersClock(RecordsClock(s, ms), ms), m)
  {
    hide Kept, ClockRecord, FreesFloor, Due;
    WfRecords(s, ms);
    WfUsers(RecordsClock(s, ms), ms);
    var t := UsersClock(RecordsClock(s, ms), ms);
    forall id | Live(t, id)
      ensures Ahead(t, m, id) && 1 <= t.ids[id].value.timer.timer <= 4000
    {
      KeptLive(s, ms, id);
      ClockAhead(s, m, ms, id);
      assert t.ids[id].value.user in t.users.Values ==> t.ids[id].value.user in s.users.Values;
    }
  }

  lemma KeptLive(s: State, ms: nat, id: nat)
    requires Wf(s) && Live(RecordsClock(s, ms), id)
    ensures Live(s, id) && Kept(s.ids[id], ms)
    ensures RecordsClock(s, ms).ids[id] == ClockRecord(s.ids[id], ms)
    ensures RecordsClock(s, ms).ids[id].value.user == s.ids[id].value.user
  {
  }

  lemma ExpireOutlived(s: State, m: nat)
    requires Wf(s) && Outlived(s, m) && Roomy(s.config, m)
    ensures Wf(ExpireUsers(s)) && Outlived(ExpireUsers(s), m)
  {
    WfExpire(s);
    var t := ExpireUsers(s);
    forall id | Live(t, id)
      ensures Ahead(t, m, id)
    {
      assert Ahead(s, m, id);
      var u := s.ids[id].value.user;
      forall c | c in s.users && s.users[c] == u
        ensures !TimedOut(s, c)
      {
        assert u in s.users.Values;
      }
    }
    assert t.users.Values !! t.freed by {
      forall c, d | c in t.users && d in s.users && TimedOut(s, d)
        ensures s.floor == 0 ==> t.users[c] != s.users[d]
      {
        assert s.heap[s.users[c]].callsign == c && s.heap[s.users[d]].callsign == d;
      }
      assert forall c | c in t.users :: t.users[c] in s.users.Values;
    }
  }

  lemma TickOutlived(s: State, m: nat, ms: nat, gone: set<string>)
    requires Wf(s) && Outlived(s, m) && ms <= m && ms + 4001 < U32 && Roomy(s.config, m)
    ensures Wf(Tick(s, ms, gone).0) && Outlived(Tick(s, ms, gone).0, m)
  {
    hide Wf, Outlived, LinkClock, RecordsClock, UsersClock, ExpireUsers, Roomy;
    var s1 := s.(users := s.users - gone);
    WfSweep(s, gone);
    TimedLink(s, m);
    assert s1.users.Values <= s.users.Values;
    LessOutlived(s, s1, m);
    LinkOutlived(s1, m, ms);
    var s2 := LinkClock(s1, ms);
    ClocksOutlived(s2, m, ms);
    var s4 := UsersClock(RecordsClock(s2, ms), ms);
    assert s4.config == s.config by {
      ClocksConfig(s1, ms);
    }
    ExpireOutlived(s4, m);
  }

  lemma ClocksConfig(s: State, ms: nat)
    requires Wf(s) && Wf(LinkClock(s, ms)) && Wf(RecordsClock(LinkClock(s, ms), ms))
    ensures UsersClock(RecordsClock(LinkClock(s, ms), ms), ms).config == s.config
  {
    hide Wf;
  }

  lemma StepOutlived(s: State, m: nat, e: Event)
    requires Wf(s) && Proper(s, e) && Paced(s, e, m) && Outlived(s, m) && Roomy(s.config, m)
    ensures Wf(Step(s, e).0) && Outlived(Step(s, e).0, m)
  {
    StepWf(s, e);
    hide Wf, Outlived, G2Header, G2Voice, RefHeader, RefVoice, Drop, Harmless, Tick, Roomy;
    match e
    case G2HeaderArrives(my, your, id, cs) => if Routed(s, e) { G2HeaderOutlived(s, m, my, your, id, cs); }
    case G2VoiceArrives(id, end) => if Routed(s, e) { G2VoiceOutlived(s, m, id, end); }
    case RefHeaderArrives(id, cs) => RefHeaderOutlived(s, m, id, cs);
    case RefVoiceArrives(id, end) => RefVoiceOutlived(s, m, id, end);
    case Dropped(callsign) => DropOutlived(s, m, callsign);
    case Linked(linkType) =>
      TimedLink(s, m);
      LessOutlived(s, s.(linkType := linkType), m);
    case Clocked(ms, gone) => TickOutlived(s, m, ms, gone);
  }

  /** No live record refers to a deleted user. */
  ghost predicate NoneDangling(s: State) {
    forall id | Live(s, id) :: s.ids[id].value.user !in s.freed
  }

  lemma {:induction false} RunOutlived(s: State, m: nat, es: seq<Event>)
    requires Wf(s) && Legal(s, es) && Outlived(s, m) && Roomy(s.config, m) && PacedRun(s, es, m)
    ensures NoneDangling(Run(s, es).0)
    decreases |es|
  {
    if es == [] {
      assert forall id | Live(s, id) :: Ahead(s, m, id);
    } else {
      RunOutlivedStep(s, m, es);
      RunOutlived(Step(s, es[0]).0, m, es[1..]);
    }
  }

  lemma RunOutlivedStep(s: State, m: nat, es: seq<Event>)
    requires Wf(s) && Legal(s, es) && Outlived(s, m) && Roomy(s.config, m) && es != [] && PacedRun(s, es, m)
    ensures var t := Step(s, es[0]).0;
            Wf(t) && Legal(t, es[1..]) && Outlived(t, m) && Roomy(t.config, m) && PacedRun(t, es[1..], m)
    ensures Run(s, es).0 == Run(Step(s, es[0]).0, es[1..]).0
  {
    hide Wf, Step, Outlived, Paced;
    StepWf(s, es[0]);
    StepOutlived(s, m, es[0]);
    StepConfig(s, es[0]);
  }

  // ---- and the bound is exact ----

  /** One subscriber, whose login stream is the only record. */
  predicate Solo(s: State, my: string, id: nat, userTime: nat, recordTime: nat, end: bool) {
    && userTime < U32 && recordTime < U32
    && s.ids == map[id := Some(Record(Ticks(4001, recordTime), true, false, end, 0))]
    && s.users == map[my := 0]
    && s.config.userTimeout > 0 && s.config.userTimeout * 60000 + 1 < U32
    && s.heap == map[0 := User(my, Ticks(60000 * s.config.userTimeout + 1, userTime))]
    && s.freed == {} && s.next == 1 && s.linkTimer == Ticks(2001, 0)
  }

  lemma SoloLogin(c: Config, linkType: LinkType, my: string, id: nat, cs: Pair)
    requires c.userTimeout > 0 && c.userTimeout * 60000 + 1 < U32 && id != 0
    ensures var (s, e) := (Init(c, linkType), G2HeaderArrives(my, c.callsign, id, cs));
            Proper(s, e) && Solo(Step(s, e).0, my, id, 1, 1, false) && Step(s, e).0.config == c
  {
    hide FanOut, Relay, Texts, Sorted;
    var (s, e) := (Init(c, linkType), G2HeaderArrives(my, c.callsign, id, cs));
    StepConfig(s, e);
  }

  lemma SoloRecords(s: State, my: string, id: nat, ut: nat, rt: nat, end: bool, ms: nat)
    requires Wf(s) && Solo(s, my, id, ut, rt, end) && 0 < rt <= 4000
    requires rt + ms < U32 && (rt + ms < 4001 || !end)
    ensures Wf(LinkClock(s, ms))
    ensures var t := RecordsClock(LinkClock(s, ms), ms);
            && t.config == s.config
            && (if rt + ms < 4001 then Solo(t, my, id, ut, rt + ms, end) && t.floor == s.floor
                else Solo(t, my, id, ut, 1, true) && (t.floor == 0 || t.floor != id))
  {
    WfLink(s, ms);
    assert id in s.ids;
    assert RecordsClock(LinkClock(s, ms), ms).users == s.users;
  }

  lemma SoloUsers(s: State, my: string, id: nat, ut: nat, rt: nat, end: bool, ms: nat)
    requires Solo(s, my, id, ut, rt, end) && 0 < ut && ut + ms < U32
    ensures var t := UsersClock(s, ms);
            t.config == s.config && t.floor == s.floor && Solo(t, my, id, ut + ms, rt, end)
  {
    assert my in s.users && s.users.Values == {0};
  }

  lemma SoloClocks(s: State, my: string, id: nat, ut: nat, rt: nat, end: bool, ms: nat)
    requires Wf(s) && Solo(s, my, id, ut, rt, end) && 0 < ut && 0 < rt <= 4000
    requires ut + ms < U32 && rt + ms < U32 && (rt + ms < 4001 || !end)
    ensures Wf(LinkClock(s, ms)) && Wf(RecordsClock(LinkClock(s, ms), ms))
    ensures var t := UsersClock(RecordsClock(LinkClock(s, ms), ms), ms);
            && t.config == s.config
            && (if rt + ms < 4001 then Solo(t, my, id, ut + ms, rt + ms, end) && t.floor == s.floor
                else Solo(t, my, id, ut + ms, 1, true) && (t.floor == 0 || t.floor != id))
  {
    hide Wf, Solo, LinkClock, RecordsClock, UsersClock;
    WfLink(s, ms);
    WfRecords(LinkClock(s, ms), ms);
    SoloRecords(s, my, id, ut, rt, end, ms);
    var late := rt + ms >= 4001;
    SoloUsers(RecordsClock(LinkClock(s, ms), ms), my, id, ut, if late then 1 else rt + ms, end || late, ms);
  }

  lemma SoloTick(s: State, my: string, id: nat, ut: nat, rt: nat, end: bool, ms: nat)
    requires Wf(s) && Solo(s, my, id, ut, rt, end) && 0 < ut && 0 < rt <= 4000
    requires ut + ms < 60000 * s.config.userTimeout + 1 && ms + 4001 < U32 && (rt + ms < 4001 || !end)
    ensures var t := Tick(s, ms, {}).0;
            && t.config == s.config
            && (if rt + ms < 4001 then Solo(t, my, id, ut + ms, rt + ms, end) && t.floor == s.floor
                else Solo(t, my, id, ut + ms, 1, true) && (t.floor == 0 || t.floor != id))
  {
    hide LinkClock, RecordsClock, UsersClock;
    assert s.(users := s.users - {}) == s;
    SoloClocks(s, my, id, ut, rt, end, ms);
    WfUsers(RecordsClock(LinkClock(s, ms), ms), ms);
    var u := UsersClock(RecordsClock(LinkClock(s, ms), ms), ms);
    assert ExpireUsers(u).users == u.users;
    assert ExpireUsers(u).freed == {};
  }

  /** The user times out while the acknowledgement is still due. */
  lemma SoloExpires(s: State, my: string, id: nat, ut: nat, rt: nat, ms: nat)
    requires Wf(s) && Solo(s, my, id, ut, rt, true) && 0 < ut && 0 < rt && rt + ms < 4001 && s.floor == 0
    requires 60000 * s.config.userTimeout + 1 <= ut + ms < U32
    ensures !NoneDangling(Tick(s, ms, {}).0)
  {
    hide LinkClock, RecordsClock, UsersClock;
    assert s.(users := s.users - {}) == s;
    SoloClocks(s, my, id, ut, rt, true, ms);
    WfUsers(RecordsClock(LinkClock(s, ms), ms), ms);
    var u := UsersClock(RecordsClock(LinkClock(s, ms), ms), ms);
    assert my in u.users && TimedOut(u, my);
    var t := ExpireUsers(u);
    assert 0 in t.freed;
    assert Live(t, id) && t.ids[id].value.user == 0;
  }

  function LongWait(my: string, c: Config, id: nat, cs: Pair): seq<Event>
    requires c.userTimeout > 0
  {
    [G2HeaderArrives(my, c.callsign, id, cs)]
    + ([Clocked(3999, {})] + ([Clocked(60000 * c.userTimeout - 7998, {})] + ([Clocked(3999, {})] + [])))
  }

  /** A login stream, a clock step just beyond the bound, and the user is deleted
      before his acknowledgement is sent. */
  lemma LongWaitDangles(c: Config, linkType: LinkType, my: string, id: nat, cs: Pair)
    requires c.userTimeout > 0 && c.userTimeout * 60000 + 1 < U32 && id != 0
    ensures var s := Init(c, linkType); var es := LongWait(my, c, id, cs);
            Legal(s, es) && !NoneDangling(Run(s, es).0)
  {
    hide Wf, G2Header, Tick, Legal, Run, Solo, NoneDangling;
    var k := 60000 * c.userTimeout - 7998;
    var s0 := Init(c, linkType);
    var login := G2HeaderArrives(my, c.callsign, id, cs);
    SoloLogin(c, linkType, my, id, cs);
    StepWf(s0, login);
    LoginTakes(c, linkType, my, id, cs);
    var s1 := Step(s0, login).0;
    SoloTick(s1, my, id, 1, 1, false, 3999);
    WfTick(s1, 3999, {});
    var s2 := Tick(s1, 3999, {}).0;
    SoloTick(s2, my, id, 4000, 4000, false, k);
    TickFloor(s2, k, {});
    WfTick(s2, k, {});
    var s3 := Tick(s2, k, {}).0;
    SoloExpires(s3, my, id, 4000 + k, 1, 3999);
    WfTick(s3, 3999, {});
    EmptyRun(Tick(s3, 3999, {}).0);
    RunStep(s3, Clocked(3999, {}), []);
    RunStep(s2, Clocked(k, {}), [Clocked(3999, {})] + []);
    RunStep(s1, Clocked(3999, {}), [Clocked(k, {})] + ([Clocked(3999, {})] + []));
    RunStep(s0, login, [Clocked(3999, {})] + ([Clocked(k, {})] + ([Clocked(3999, {})] + [])));
  }

  lemma LoginTakes(c: Config, linkType: LinkType, my: string, id: nat, cs: Pair)
    requires c.userTimeout * 60000 + 1 < U32 && id != 0
    ensures Step(Init(c, linkType), G2HeaderArrives(my, c.callsign, id, cs)).0.floor == id
  {
    hide FanOut, Relay, Texts, Sorted;
  }

  lemma EmptyRun(s: State)
    requires Wf(s)
    ensures Legal(s, []) && Run(s, []) == (s, [])
  {
  }

  /** No record ever outlives its subscriber, over all runs whose single remote
      logoffs are harmless, exactly when the longest clock step is at most the user
      timeout less 7999 ms (or users never time out). */
  lemma OutlivesIff(c: Config, linkType: LinkType, m: nat)
    requires c.userTimeout * 60000 + 1 < U32
    ensures (forall es: seq<Event> | Legal(Init(c, linkType), es) && PacedRun(Init(c, linkType), es, m) ::
               NoneDangling(Run(Init(c, linkType), es).0))
       <==> Roomy(c, m)
  {
    hide Wf, Legal, Run, NoneDangling, PacedRun;
    var s := Init(c, linkType);
    if Roomy(c, m) {
      forall es: seq<Event> | Legal(s, es) && PacedRun(s, es, m)
        ensures NoneDangling(Run(s, es).0)
      {
        InitOutlived(c, linkType, m);
        RunOutlived(s, m, es);
      }
    } else {
      var cs := Pair(Cache(map[], map[], map[]), None);
      var es := LongWait("", c, 1, cs);
      LongWaitDangles(c, linkType, "", 1, cs);
      UndroppedPaced(s, es, m);
    }
  }

  lemma {:induction false} UndroppedPaced(s: State, es: seq<Event>, m: nat)
    requires Wf(s) && Legal(s, es) && forall e | e in es :: !e.Dropped? && (e.Clocked? ==> e.ms <= m)
    ensures PacedRun(s, es, m)
    decreases |es|
  {
    hide Wf, Step;
    if es != [] {
      assert es[0] in es && forall e | e in es[1..] :: e in es;
      StepWf(s, es[0]);
      UndroppedPaced(Step(s, es[0]).0, es[1..], m);
    }
  }

  lemma InitOutlived(c: Config, linkType: LinkType, m: nat)
    requires c.userTimeout * 60000 + 1 < U32
    ensures Outlived(Init(c, linkType), m)
  {
  }
}
