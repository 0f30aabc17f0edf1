/** Whole runs of the DExtra links: group and handler keep agreeing, a lost link is
    always retried, and never more often than the backoff allows. */
module LinkAgreement {
  import opened Timer
  import opened Caches
  import opened Links
  import Backoff
  import Group

  // ---- one handler's turn ----

  /** What an event may leave of a handler that agreed with its group. */
  predicate Settled(o: Outcome) {
    if o.kept.Some? then Agrees(o.group, o.kept.value) else o.group.status != LS_LINKED_DEXTRA
  }

  lemma VisitSettles(e: Event, reflector: string, g: GroupLink, h: Handler)
    requires Agrees(g, h)
    ensures Settled(Visit(e, reflector, g, h))
  {
    hide Backoff.Delay, Ticks.WithTimeout;
  }

  lemma SweepAgrees(s: State, e: Event, reflector: string)
    requires Agreement(s)
    ensures Agreement(Sweep(s.groups, s.handlers, e, reflector).0)
  {
    hide Visit, Sweep, Agrees;
    SweepResult(s.groups, s.handlers, e, reflector);
    var t := Sweep(s.groups, s.handlers, e, reflector).0;
    forall k | k in t.handlers
      ensures k.dest in t.groups && Agrees(t.groups[k.dest], k)
    {
      var h :| h in s.handlers && Visit(e, reflector, s.groups[h.dest], h).kept == Some(k);
      VisitSettles(e, reflector, s.groups[h.dest], h);
      VisitKeepsDest(e, reflector, s.groups[h.dest], h);
    }
    forall n | n in t.groups && t.groups[n].status == LS_LINKED_DEXTRA
      ensures Carried(t, n)
    {
      LinkedCarried(s, e, reflector, n);
    }
  }

  lemma LinkedCarried(s: State, e: Event, reflector: string, n: string)
    requires Agreement(s) && n in s.groups
    ensures n in Sweep(s.groups, s.handlers, e, reflector).0.groups
    ensures var t := Sweep(s.groups, s.handlers, e, reflector).0;
            t.groups[n].status == LS_LINKED_DEXTRA ==> Carried(t, n)
  {
    hide Visit, Sweep, Agrees;
    SweepResult(s.groups, s.handlers, e, reflector);
    var t := Sweep(s.groups, s.handlers, e, reflector).0;
    if h :| h in s.handlers && h.dest == n {
      var o := Visit(e, reflector, s.groups[n], h);
      VisitSettles(e, reflector, s.groups[n], h);
      VisitKeepsDest(e, reflector, s.groups[n], h);
      if o.kept.Some? {
        AgreesLinked(o.group, o.kept.value);
      }
    } else {
      assert t.groups[n] == s.groups[n];
      assert s.groups[n].status == LS_LINKED_DEXTRA ==> Carried(s, n);
    }
  }

  lemma AgreesLinked(g: GroupLink, h: Handler)
    requires Agrees(g, h)
    ensures g.status == LS_LINKED_DEXTRA <==> h.state == DEXTRA_LINKED
  {
  }

  // ---- remote control ----

  lemma LinkIntAgrees(s: State, name: string, found: string, pooled: bool)
    requires Agreement(s) && name in s.groups && s.groups[name].status != LS_LINKED_DEXTRA
    requires forall h | h in s.handlers :: h.dest != name
    ensures Agreement(LinkInt(s, name, found, pooled).0)
  {
    var t := LinkInt(s, name, found, pooled).0;
    forall n | n in t.groups && t.groups[n].status == LS_LINKED_DEXTRA
      ensures Carried(t, n)
    {
      assert n in s.groups && n != name;
      var h :| h in s.handlers && h.dest == n && h.state == DEXTRA_LINKED;
      assert h in t.handlers;
    }
  }

  /** A group that is of no link type, or of DCS, has no handler here. */
  lemma NoHandler(s: State, name: string)
    requires Agreement(s) && name in s.groups && s.groups[name].linkType != Group.LT_DEXTRA
    ensures forall h | h in s.handlers :: h.dest != name
    ensures s.groups[name].status != LS_LINKED_DEXTRA
  {
    assert s.groups[name].status == LS_LINKED_DEXTRA ==> Carried(s, name);
  }

  lemma SetGroupAgrees(s: State, name: string, g: GroupLink)
    requires Agreement(s) && name in s.groups && g.status != LS_LINKED_DEXTRA
    requires forall h | h in s.handlers :: h.dest != name
    ensures Agreement(s.(groups := s.groups[name := g]))
  {
    var t := s.(groups := s.groups[name := g]);
    forall n | n in t.groups && t.groups[n].status == LS_LINKED_DEXTRA
      ensures Carried(t, n)
    {
      assert n in s.groups && n != name && Carried(s, n);
    }
  }

  lemma RemoteLinkAgrees(s: State, name: string, reflector: string, found: string, pooled: bool)
    requires Agreement(s) && name in s.groups
    ensures Agreement(OnRemoteLink(s, name, reflector, found, pooled).0)
  {
    hide Agreement, LinkInt, TypeOf;
    var g := s.groups[name];
    if g.linkType == Group.LT_NONE {
      NoHandler(s, name);
      var h := g.(linkType := TypeOf(reflector), reflector := reflector);
      SetGroupAgrees(s, name, h);
      LinkIntAgrees(s.(groups := s.groups[name := h]), name, found, pooled);
    }
  }

  /** Unlinking takes the group's one handler with it. */
  lemma UnlinkRemoves(s: State, name: string)
    requires Agreement(s) && name in s.groups
    ensures Agreement(Sweep(s.groups, s.handlers, RemoteUnlink(name), s.groups[name].reflector).0)
    ensures var t := Sweep(s.groups, s.handlers, RemoteUnlink(name), s.groups[name].reflector).0;
            && name in t.groups && t.groups[name].status != LS_LINKED_DEXTRA
            && forall h | h in t.handlers :: h.dest != name
  {
    hide Sweep;
    var e := RemoteUnlink(name);
    var r := s.groups[name].reflector;
    SweepResult(s.groups, s.handlers, e, r);
    SweepAgrees(s, e, r);
    var t := Sweep(s.groups, s.handlers, e, r).0;
    forall k | k in t.handlers
      ensures k.dest != name
    {
      var h :| h in s.handlers && Visit(e, r, s.groups[h.dest], h).kept == Some(k);
    }
  }

  lemma RemoteUnlinkAgrees(s: State, name: string)
    requires Agreement(s) && name in s.groups
    ensures Agreement(OnRemoteUnlink(s, name).0)
  {
    hide Agreement, Sweep;
    AgreementWf(s);
    var g := s.groups[name];
    if g.linkType == Group.LT_DEXTRA {
      UnlinkRemoves(s, name);
      var t := Sweep(s.groups, s.handlers, RemoteUnlink(name), g.reflector).0;
      SetGroupAgrees(t, name, t.groups[name].(linkType := Group.LT_NONE, reflector := ""));
    } else if g.linkType == Group.LT_DCS {
      NoHandler(s, name);
      SetGroupAgrees(s, name, g.(linkType := Group.LT_NONE, reflector := ""));
    }
  }

  lemma AgreementWf(s: State)
    requires Agreement(s)
    ensures Wf(s)
  {
  }

  // ---- calls from DCS handlers ----

  ghost predicate HasHandler(s: State, name: string) {
    exists h | h in s.handlers :: h.dest == name
  }

  /** A call from a DCS handler that the group has left, since relinked to DExtra. */
  ghost predicate Disturbs(s: State, e: Event)
    requires Known(s, e)
  {
    && e.DcsCalls? && s.groups[e.name].linkType == Group.LT_DEXTRA
    && match e.call
       case DcsUp => !Carried(s, e.name)
       case DcsRefused => HasHandler(s, e.name)
       case DcsFailed(recoverable) => if recoverable then Carried(s, e.name) else HasHandler(s, e.name)
  }

  lemma DcsAgreesIff(s: State, name: string, call: DcsKind)
    requires Agreement(s) && name in s.groups
    ensures Agreement(s.(groups := s.groups[name := OnDcs(s.groups[name], call)]))
            <==> !Disturbs(s, DcsCalls(name, call))
  {
    var t := s.(groups := s.groups[name := OnDcs(s.groups[name], call)]);
    assert forall n :: Carried(t, n) <==> Carried(s, n);
    if s.groups[name].linkType != Group.LT_DEXTRA {
      NoHandler(s, name);
      SetGroupAgrees(s, name, OnDcs(s.groups[name], call));
    } else if h :| h in s.handlers && h.dest == name {
      assert h in t.handlers;
      assert Agrees(s.groups[name], h);
      assert Carried(s, name) <==> h.state == DEXTRA_LINKED;
    } else {
      assert !Carried(s, name) && !HasHandler(s, name);
      if !call.DcsUp? {
        SetGroupAgrees(s, name, OnDcs(s.groups[name], call));
      }
    }
  }

  /** And it can happen: a group leaves a DCS reflector for a DExtra one, and the
      DCS handler it left behind is refused late. */
  lemma LeftoverDisturbs(name: string, repeater: string, dcs: string, xrf: string, found: string)
    requires TypeOf(dcs) == Group.LT_DCS && TypeOf(xrf) == Group.LT_DEXTRA && found != ""
    ensures var s := State(map[name := GroupLink(repeater, Group.LT_NONE, "", LS_NONE)], []);
            var t := Step(s, RemoteLink(name, dcs, found, true)).0;
            && Agreement(s) && Agreement(t)
            && var u := Step(t, RemoteUnlink(name)).0;
            && Agreement(u)
            && var v := Step(u, RemoteLink(name, xrf, found, true)).0;
            Agreement(v) && Disturbs(v, DcsCalls(name, DcsRefused)) && !Agreement(Step(v, DcsCalls(name, DcsRefused)).0)
  {
    hide TypeOf, Sweep;
    var s := State(map[name := GroupLink(repeater, Group.LT_NONE, "", LS_NONE)], []);
    StepAgreesIff(s, RemoteLink(name, dcs, found, true));
    var t := Step(s, RemoteLink(name, dcs, found, true)).0;
    assert t == State(map[name := GroupLink(repeater, Group.LT_DCS, dcs, LS_LINKING_DCS)], []);
    StepAgreesIff(t, RemoteUnlink(name));
    var u := Step(t, RemoteUnlink(name)).0;
    assert u == State(map[name := GroupLink(repeater, Group.LT_NONE, "", LS_LINKING_DCS)], []);
    StepAgreesIff(u, RemoteLink(name, xrf, found, true));
    var v := Step(u, RemoteLink(name, xrf, found, true)).0;
    assert v.handlers[0].dest == name && v.handlers[0] in v.handlers;
    StepAgreesIff(v, DcsCalls(name, DcsRefused));
  }

  // ---- runs ----

  /** Every event but a disturbing call keeps the agreement, and that one always
      breaks it. */
  lemma StepAgreesIff(s: State, e: Event)
    requires Agreement(s) && Known(s, e)
    ensures Agreement(Step(s, e).0) <==> !Disturbs(s, e)
  {
    hide Agreement, Sweep, OnRemoteLink, OnRemoteUnlink, OnDcs;
    AgreementWf(s);
    match e
    case RemoteLink(name, reflector, found, pooled) => RemoteLinkAgrees(s, name, reflector, found, pooled);
    case RemoteUnlink(name) => RemoteUnlinkAgrees(s, name);
    case DcsCalls(name, call) => DcsAgreesIff(s, name, call);
    case _ => SweepAgrees(s, e, "");
  }

  lemma StepWf(s: State, e: Event)
    requires Agreement(s) && Known(s, e)
    ensures Wf(s) && (!Disturbs(s, e) ==> Agreement(Step(s, e).0))
  {
    hide Agreement;
    AgreementWf(s);
    StepAgreesIff(s, e);
  }

  /** Every event names an existing group, and no DCS handler disturbs a group that
      has left it. */
  ghost predicate Undisturbed(s: State, es: seq<Event>)
    requires Agreement(s)
    decreases |es|
  {
    es == [] || (Known(s, es[0]) && !Disturbs(s, es[0])
                 && (StepWf(s, es[0]); Undisturbed(Step(s, es[0]).0, es[1..])))
  }

  ghost function Run(s: State, es: seq<Event>): (t: State)
    requires Agreement(s) && Undisturbed(s, es)
    ensures Agreement(t)
    decreases |es|
  {
    if es == [] then s
    else
      StepWf(s, es[0]);
      Run(Step(s, es[0]).0, es[1..])
  }

  /** The groups as configured, before the program links them. */
  ghost predicate Unlinked(s: State, names: seq<string>) {
    && (forall n | n in names :: n in s.groups && s.groups[n].status == LS_NONE)
    && (forall h, n | h in s.handlers && n in names :: h.dest != n)
  }

  /** Linking each group once at the start establishes the agreement. */
  lemma {:induction false} BootAgrees(s: State, names: seq<string>, found: map<string, string>, pooled: set<string>)
    requires Agreement(s) && Unlinked(s, names)
    requires forall i, j | 0 <= i < j < |names| :: names[i] != names[j]
    requires forall n | n in names :: n in s.groups && n in found
    ensures Agreement(Boot(s, names, found, pooled))
    decreases |names|
  {
    hide Agreement;
    if names != [] {
      var n := names[0];
      assert n in names && forall m | m in names[1..] :: m in names && m != n;
      LinkIntAgrees(s, n, found[n], n in pooled);
      BootAgrees(LinkInt(s, n, found[n], n in pooled).0, names[1..], found, pooled);
    }
  }

  lemma FreshAgrees(groups: map<string, GroupLink>)
    requires forall n | n in groups :: groups[n].status == LS_NONE
    ensures Agreement(State(groups, [])) && Attached(State(groups, []))
  {
  }

  // ---- a lost link is always retried ----

  /** In every state of such a run a clock step drops no handler: one whose window
      ends starts over. */
  lemma ClockKeepsAll(s: State, ms: nat, h: Handler)
    requires Agreement(s) && h in s.handlers
    ensures Wf(s)
    ensures exists k :: k in Step(s, Clocked(ms)).0.handlers && k.dest == h.dest && k.reflector == h.reflector
              && (OnClock(s.groups[h.dest], h, ms).kept == Some(k))
    ensures h.window.Clocked(ms).Running() && h.window.Clocked(ms).Expired()
            ==> Step(s, Clocked(ms)).0.groups[h.dest].status == LS_LINKING_DEXTRA
  {
    hide Sweep, OnClock, Agrees;
    SweepResult(s.groups, s.handlers, Clocked(ms), "");
    assert Agrees(s.groups[h.dest], h);
    ClockRetries(s.groups[h.dest], h, ms);
    var o := Visit(Clocked(ms), "", s.groups[h.dest], h);
    assert o == OnClock(s.groups[h.dest], h, ms) && o.kept.value in Step(s, Clocked(ms)).0.handlers;
  }

  lemma ClockRetries(g: GroupLink, h: Handler, ms: nat)
    requires Agrees(g, h)
    ensures var o := OnClock(g, h, ms);
            && o.kept.Some? && o.kept.value.dest == h.dest && o.kept.value.reflector == h.reflector
            && (h.window.Clocked(ms).Running() && h.window.Clocked(ms).Expired()
                ==> o.group.status == LS_LINKING_DEXTRA)
  {
    hide Ticks.WithTimeout, Backoff.Delay;
  }

  // ---- and never too often ----

  function PhaseOf(h: Handler): Backoff.Phase {
    Backoff.Phase(h.window, h.retry, h.tries)
  }

  /** A linking handler is on the backoff schedule of its window; a linked one has
      a window of its own to start from. */
  predicate Paced(h: Handler) {
    && h.window.timeout == 60001 && 1 <= h.window.timer <= 60000
    && (h.state == DEXTRA_LINKING ==> Backoff.InPhase(PhaseOf(h), 60, h.window.timer - 1))
  }

  lemma NewPaced(name: string, g: GroupLink, addr: string)
    ensures Paced(NewHandler(name, g, addr)) && Backoff.Fresh(PhaseOf(NewHandler(name, g, addr)), 60)
  {
  }

  lemma WindowEndPaced(g: GroupLink, h: Handler)
    requires h.window.timeout == 60001
    ensures var o := OnWindowEnd(g, h); o.kept.Some? ==> Paced(o.kept.value) && Backoff.Fresh(PhaseOf(o.kept.value), 60)
  {
  }

  /** The connects, or else the disconnects, among the packets of one turn. */
  function Calls(sent: seq<Sent>, up: bool): nat {
    if sent == [] then 0 else Calls(sent[..|sent| - 1], up) + if IsCall(sent[|sent| - 1], up) then 1 else 0
  }

  predicate IsCall(o: Sent, up: bool) {
    if up then o.Connect? else o.Disconnect?
  }

  /** A linking handler's clock is the backoff phase's, and each try is one connect. */
  lemma ClockIsPhase(g: GroupLink, h: Handler, ms: nat)
    requires Agrees(g, h) && h.state == DEXTRA_LINKING
    ensures var (o, (q, act)) := (OnClock(g, h, ms), Backoff.Clocked(PhaseOf(h), ms));
            && o.kept.Some?
            && Calls(o.sent, true) == (if act.Wait? then 0 else 1) && Calls(o.sent, false) == 0
            && (if act.WindowEnds? then o.kept.value.tries == 0 && o.kept.value.window == q.window
                else PhaseOf(o.kept.value) == q)
  {
    hide Backoff.Delay, Ticks.WithTimeout;
    OneCall(Connect(h.dest, h.reflector, h.addr));
  }

  lemma OneCall(c: Sent)
    ensures forall up :: Calls([], up) == 0 && Calls([c], up) == if IsCall(c, up) then 1 else 0
  {
    assert [c][..0] == [];
  }

  lemma ClockPaced(g: GroupLink, h: Handler, ms: nat)
    requires Agrees(g, h) && Paced(h) && ms + 60001 < U32
    ensures var o := OnClock(g, h, ms); o.kept.Some? ==> Paced(o.kept.value)
  {
    hide Backoff.Delay, Ticks.WithTimeout, Backoff.InPhase, Backoff.Clocked, OnWindowEnd, Agrees;
    if h.window.timer + ms >= 60001 {
      WindowEndPaced(g, h.(retry := h.retry.Clocked(ms), poll := h.poll.Clocked(ms),
                           inactivity := h.inactivity.Clocked(ms), window := h.window.Clocked(ms)));
    } else if h.state == DEXTRA_LINKING {
      Backoff.StepsInPhase(PhaseOf(h), 60, h.window.timer - 1, ms);
      ClockIsPhase(g, h, ms);
      InsideWindow(PhaseOf(h), ms);
    }
  }

  lemma InsideWindow(p: Backoff.Phase, ms: nat)
    requires p.window.timeout == 60001 && 1 <= p.window.timer && p.window.timer + ms < 60001
    ensures !Backoff.Clocked(p, ms).1.WindowEnds?
    ensures Backoff.Clocked(p, ms).0.window == p.window.(timer := p.window.timer + ms)
  {
    hide Backoff.Delay, Ticks.WithTimeout;
  }

  lemma VisitPaced(e: Event, reflector: string, g: GroupLink, h: Handler)
    requires Agrees(g, h) && Paced(h) && (e.Clocked? ==> e.ms + 60001 < U32)
    ensures var o := Visit(e, reflector, g, h); o.kept.Some? ==> Paced(o.kept.value)
  {
    hide OnClock, Backoff.InPhase;
    if e.Clocked? {
      ClockPaced(g, h, e.ms);
    }
  }

  ghost predicate AllPaced(s: State) {
    forall h | h in s.handlers :: Paced(h)
  }

  lemma StepPaced(s: State, e: Event)
    requires Agreement(s) && Known(s, e) && AllPaced(s) && (e.Clocked? ==> e.ms + 60001 < U32)
    ensures Wf(s) && AllPaced(Step(s, e).0)
  {
    hide Visit, Sweep, Agrees, Paced, Boot;
    AgreementWf(s);
    match e
    case RemoteLink(name, reflector, found, _) =>
      NewPaced(name, s.groups[name].(linkType := TypeOf(reflector), reflector := reflector), found);
    case RemoteUnlink(name) => SweepPaced(s, e, s.groups[name].reflector);
    case DcsCalls(_, _) =>
    case _ => SweepPaced(s, e, "");
  }

  lemma SweepPaced(s: State, e: Event, reflector: string)
    requires Agreement(s) && AllPaced(s) && (e.Clocked? ==> e.ms + 60001 < U32)
    ensures AllPaced(Sweep(s.groups, s.handlers, e, reflector).0)
  {
    hide Visit, Sweep, Agrees, Paced;
    SweepResult(s.groups, s.handlers, e, reflector);
    var t := Sweep(s.groups, s.handlers, e, reflector).0;
    forall k | k in t.handlers
      ensures Paced(k)
    {
      var h :| h in s.handlers && Visit(e, reflector, s.groups[h.dest], h).kept == Some(k);
      VisitPaced(e, reflector, s.groups[h.dest], h);
    }
  }

  /** In every reachable state each linking handler has sent at most six retries
      in its window of a minute. */
  lemma {:induction false} AlwaysPaced(s: State, es: seq<Event>)
    requires Agreement(s) && AllPaced(s) && Undisturbed(s, es)
    requires forall e | e in es :: e.Clocked? ==> e.ms + 60001 < U32
    ensures AllPaced(Run(s, es))
    ensures forall h | h in Run(s, es).handlers && h.state == DEXTRA_LINKING :: h.tries <= 6
    decreases |es|
  {
    hide Agreement, Step, Backoff.InPhase, Paced;
    if es == [] {
      forall h | h in s.handlers && h.state == DEXTRA_LINKING
        ensures h.tries <= 6
      {
        PacedTries(h);
      }
    } else {
      assert es[0] in es && forall e | e in es[1..] :: e in es;
      StepWf(s, es[0]);
      StepPaced(s, es[0]);
      AlwaysPaced(Step(s, es[0]).0, es[1..]);
    }
  }

  lemma PacedTries(h: Handler)
    requires Paced(h) && h.state == DEXTRA_LINKING
    ensures h.tries <= 6
  {
    hide Backoff.Delay, Backoff.Pow2;
    Backoff.SmallPowers();
    if h.tries > 6 {
      Backoff.Pow2Grows(6, h.tries - 1);
    }
  }

  /** Links made at the start are on schedule too. */
  lemma {:induction false} BootPaced(s: State, names: seq<string>, found: map<string, string>, pooled: set<string>)
    requires AllPaced(s) && forall n | n in names :: n in s.groups && n in found
    ensures AllPaced(Boot(s, names, found, pooled))
    decreases |names|
  {
    hide Paced;
    if names != [] {
      var n := names[0];
      assert n in names && forall m | m in names[1..] :: m in names;
      NewPaced(n, s.groups[n], found[n]);
      BootPaced(LinkInt(s, n, found[n], n in pooled).0, names[1..], found, pooled);
    }
  }

  /** From the groups as configured, through the start, to any reachable state. */
  lemma StartedAndPaced(groups: map<string, GroupLink>, names: seq<string>, found: map<string, string>,
                        pooled: set<string>, es: seq<Event>)
    requires (forall n | n in groups :: groups[n].status == LS_NONE)
             && (forall n | n in names :: n in groups && n in found)
    requires forall i, j | 0 <= i < j < |names| :: names[i] != names[j]
    requires forall e | e in es :: e.Clocked? ==> e.ms + 60001 < U32
    ensures var s := Boot(State(groups, []), names, found, pooled);
            && Agreement(s) && AllPaced(s)
            && (Undisturbed(s, es) ==>
                  && Agreement(Run(s, es)) && AllPaced(Run(s, es))
                  && forall h | h in Run(s, es).handlers && h.state == DEXTRA_LINKING :: h.tries <= 6)
  {
    hide Agreement, Undisturbed, Run, Boot, Paced;
    FreshAgrees(groups);
    BootAgrees(State(groups, []), names, found, pooled);
    BootPaced(State(groups, []), names, found, pooled);
    var s := Boot(State(groups, []), names, found, pooled);
    if Undisturbed(s, es) {
      AlwaysPaced(s, es);
    }
  }

  // ---- what is sent in a window ----

  lemma SentOwn(e: Event, reflector: string, g: GroupLink, h: Handler)
    ensures forall o | o in Visit(e, reflector, g, h).sent :: o.dest == h.dest
  {
    hide Ticks.WithTimeout, Backoff.Delay;
  }

  /** What is sent for group n, to it or to its reflector. */
  function For(sent: seq<Sent>, n: string): seq<Sent> {
    if sent == [] then []
    else For(sent[..|sent| - 1], n) + if sent[|sent| - 1].dest == n then [sent[|sent| - 1]] else []
  }

  lemma {:induction false} ForConcat(a: seq<Sent>, b: seq<Sent>, n: string)
    ensures For(a + b, n) == For(a, n) + For(b, n)
  {
    if b == [] {
      assert a + b == a;
    } else {
      assert (a + b)[..|a + b| - 1] == a + b[..|b| - 1];
      ForConcat(a, b[..|b| - 1], n);
    }
  }

  lemma {:induction false} ForOwn(sent: seq<Sent>, dest: string, n: string)
    requires forall o | o in sent :: o.dest == dest
    ensures For(sent, n) == if dest == n then sent else []
  {
    if sent != [] {
      ForOwn(sent[..|sent| - 1], dest, n);
    }
  }

  lemma NothingFor(n: string)
    ensures For([], n) == []
  {
  }

  lemma {:induction false} SweepFor(groups: map<string, GroupLink>, hs: seq<Handler>, e: Event, reflector: string,
                                    n: string)
    requires (forall k | k in hs :: k.dest in groups) && Distinct(hs)
    ensures (forall h | h in hs :: h.dest != n) ==> For(Sweep(groups, hs, e, reflector).1, n) == []
    ensures forall h | h in hs && h.dest == n ::
              For(Sweep(groups, hs, e, reflector).1, n) == Visit(e, reflector, groups[n], h).sent
  {
    hide Visit, For;
    if hs == [] {
      NothingFor(n);
    } else {
      var (last, front) := (hs[|hs| - 1], hs[..|hs| - 1]);
      assert last in hs;
      assert forall i | i in front :: i in hs && i.dest != last.dest;
      assert forall i | i in hs :: i in front || i == last;
      SweepFor(groups, front, e, reflector, n);
      SweepUntouched(groups, front, e, reflector, last.dest);
      var o := Visit(e, reflector, groups[last.dest], last);
      SentOwn(e, reflector, groups[last.dest], last);
      ForOwn(o.sent, last.dest, n);
      ForConcat(Sweep(groups, front, e, reflector).1, o.sent, n);
    }
  }

  lemma OneFor(o: Sent, n: string)
    ensures For([o], n) == if o.dest == n then [o] else []
  {
    assert [o][..0] == [];
  }

  /** A new window starts for the handler of n: it is made, or its window ends. */
  predicate StartsWindow(s: State, e: Event, n: string)
    requires Known(s, e)
  {
    match e
    case RemoteLink(name, reflector, found, pooled) =>
      && name == n && s.groups[n].linkType == Group.LT_NONE
      && TypeOf(reflector) == Group.LT_DEXTRA && found != "" && pooled
    case Clocked(ms) =>
      exists h | h in s.handlers ::
        h.dest == n && h.window.Clocked(ms).Running() && h.window.Clocked(ms).Expired()
    case _ => false
  }

  /** What has gone to n since its window started: connects, and disconnects. */
  datatype Count = Count(up: nat, down: nat)

  /** The connect that started the window and one for each try; a disconnect only
      as the handler goes. */
  ghost predicate Counted(s: State, n: string, c: Count) {
    && c.up <= 7 && c.down <= 1
    && forall h | h in s.handlers && h.dest == n ::
         c.down == 0 && (h.state == DEXTRA_LINKING ==> c.up == h.tries + 1)
  }

  function Plus(starts: bool, c: Count, sent: seq<Sent>, n: string): Count {
    var d := if starts then Count(0, 0) else c;
    Count(d.up + Calls(For(sent, n), true), d.down + Calls(For(sent, n), false))
  }

  function NextCount(s: State, e: Event, n: string, c: Count): Count
    requires Wf(s) && Known(s, e)
  {
    Plus(StartsWindow(s, e, n), c, Step(s, e).1, n)
  }

  /** Only the clock makes a handler connect, and only unlinking disconnect. */
  lemma VisitCalls(e: Event, reflector: string, g: GroupLink, h: Handler, k: nat)
    requires Agrees(g, h) && Paced(h) && (e.Clocked? ==> e.ms + 60001 < U32)
    requires k <= 7 && (h.state == DEXTRA_LINKING ==> k == h.tries + 1)
    ensures var o := Visit(e, reflector, g, h);
            var ends := e.Clocked? && h.window.Clocked(e.ms).Running() && h.window.Clocked(e.ms).Expired();
            var j := (if ends then 0 else k) + Calls(o.sent, true);
            && (o.kept.Some? && o.kept.value.state == DEXTRA_LINKING ==> j == o.kept.value.tries + 1)
            && (!(o.kept.Some? && o.kept.value.state == DEXTRA_LINKING) ==> j <= 7)
            && Calls(o.sent, false) <= (if o.kept.Some? then 0 else 1)
  {
    hide OnClock, Backoff.InPhase, Visit, Agrees, Calls, Paced;
    if e.Clocked? {
      VisitClocks(e, reflector, g, h);
      ClockCalls(g, h, e.ms);
      if h.state == DEXTRA_LINKING {
        PacedTries(h);
      }
    } else {
      OtherCalls(e, reflector, g, h);
      OtherKeeps(e, reflector, g, h);
    }
  }

  lemma VisitClocks(e: Event, reflector: string, g: GroupLink, h: Handler)
    requires e.Clocked?
    ensures Visit(e, reflector, g, h) == OnClock(g, h, e.ms)
  {
    hide OnClock;
  }

  lemma OtherKeeps(e: Event, reflector: string, g: GroupLink, h: Handler)
    requires !e.Clocked?
    ensures var o := Visit(e, reflector, g, h);
            o.kept.Some? && o.kept.value.state == DEXTRA_LINKING ==>
              h.state == DEXTRA_LINKING && o.kept.value.tries == h.tries
  {
  }

  lemma OtherCalls(e: Event, reflector: string, g: GroupLink, h: Handler)
    requires !e.Clocked?
    ensures var o := Visit(e, reflector, g, h);
            Calls(o.sent, true) == 0 && Calls(o.sent, false) <= (if o.kept.Some? then 0 else 1)
  {
    hide OnMove, OnPoll, OnClock, OnConnect, OnUnlink, Calls;
    if e.RemoteUnlink? {
      UnlinkCalls(g, h, e.name, reflector);
    } else {
      ConnectSilent(e, g, h);
      NoneCall(Visit(e, reflector, g, h).sent, true);
      NoneCall(Visit(e, reflector, g, h).sent, false);
    }
  }

  lemma UnlinkCalls(g: GroupLink, h: Handler, name: string, reflector: string)
    ensures var o := OnUnlink(g, h, name, reflector);
            Calls(o.sent, true) == 0 && Calls(o.sent, false) <= (if o.kept.Some? then 0 else 1)
  {
    hide Calls;
    var sent := OnUnlink(g, h, name, reflector).sent;
    NoneCall(sent, true);
    if sent != [] && sent[0].Disconnect? {
      OneDown(sent);
    } else {
      NoneCall(sent, false);
    }
  }

  lemma OneDown(sent: seq<Sent>)
    requires 1 <= |sent| <= 2 && sent[0].Disconnect? && (|sent| == 2 ==> sent[1].GroupVoice?)
    ensures Calls(sent, false) == 1
  {
    OneCall(sent[0]);
    assert sent[..1] == [sent[0]] && (|sent| == 1 ==> sent == [sent[0]]);
  }

  lemma ConnectSilent(e: Event, g: GroupLink, h: Handler)
    ensures e.ConnectArrives? ==> OnConnect(g, h, e.kind, e.addr, e.port, e.repeater).sent == []
  {
  }

  lemma {:induction false} NoneCall(sent: seq<Sent>, up: bool)
    requires forall o | o in sent :: !IsCall(o, up)
    ensures Calls(sent, up) == 0
  {
    if sent != [] {
      NoneCall(sent[..|sent| - 1], up);
    }
  }

  lemma ClockCalls(g: GroupLink, h: Handler, ms: nat)
    requires Agrees(g, h)
    ensures var o := OnClock(g, h, ms);
            var ends := h.window.Clocked(ms).Running() && h.window.Clocked(ms).Expired();
            var k := Calls(o.sent, true);
            && o.kept.Some? && Calls(o.sent, false) == 0
            && (if ends then o.kept.value.state == DEXTRA_LINKING && o.kept.value.tries == 0 && k == 1
                else if h.state == DEXTRA_LINKING then
                  o.kept.value.state == DEXTRA_LINKING && o.kept.value.tries == h.tries + k
                else o.kept.value.state == h.state && k == 0)
  {
    hide Backoff.Delay, Ticks.WithTimeout;
    var o := OnClock(g, h, ms);
    OneCall(Connect(h.dest, h.reflector, h.addr));
    if o.sent != [] {
      assert [o.sent[0]][..0] == [];
      assert |o.sent| == 1 ==> o.sent == [o.sent[0]];
    }
  }

  lemma SweepCounted(s: State, e: Event, reflector: string, n: string, c: Count)
    requires Agreement(s) && AllPaced(s) && (e.Clocked? ==> e.ms + 60001 < U32) && Counted(s, n, c)
    requires !e.RemoteLink?
    ensures var (t, sent) := Sweep(s.groups, s.handlers, e, reflector);
            Counted(t, n, Plus(e.Clocked? && StartsWindow(s, e, n), c, sent, n))
  {
    hide Visit, Sweep, Agrees, Paced, Calls, For, Counted, Distinct;
    if h :| h in s.handlers && h.dest == n {
      SweepCountedFor(s, e, reflector, h, c);
    } else {
      SweepFor(s.groups, s.handlers, e, reflector, n);
      var (t, sent) := Sweep(s.groups, s.handlers, e, reflector);
      forall i | i in t.handlers
        ensures i.dest != n
      {
        SweepResult(s.groups, s.handlers, e, reflector);
        var h :| h in s.handlers && Visit(e, reflector, s.groups[h.dest], h).kept == Some(i);
        VisitKeepsDest(e, reflector, s.groups[h.dest], h);
      }
      CountedBounds(s, n, c);
      CountedNone(t, n, c);
      NoneCall([], true);
      NoneCall([], false);
      assert Plus(false, c, sent, n) == c;
    }
  }

  lemma CountedBounds(s: State, n: string, c: Count)
    requires Counted(s, n, c)
    ensures c.up <= 7 && c.down <= 1 && (HasHandler(s, n) ==> c.down == 0)
  {
  }

  lemma CountedNone(s: State, n: string, c: Count)
    requires c.up <= 7 && c.down <= 1 && forall h | h in s.handlers :: h.dest != n
    ensures Counted(s, n, c)
  {
  }

  lemma OnlyHandler(s: State, h: Handler)
    requires Agreement(s) && h in s.handlers
    ensures Agrees(s.groups[h.dest], h) && forall i | i in s.handlers && i.dest == h.dest :: i == h
  {
  }

  lemma SweepCountedFor(s: State, e: Event, reflector: string, h: Handler, c: Count)
    requires Agreement(s) && AllPaced(s) && (e.Clocked? ==> e.ms + 60001 < U32)
    requires h in s.handlers && Counted(s, h.dest, c) && !e.RemoteLink?
    ensures var (t, sent) := Sweep(s.groups, s.handlers, e, reflector);
            Counted(t, h.dest, Plus(e.Clocked? && StartsWindow(s, e, h.dest), c, sent, h.dest))
  {
    hide Visit, Sweep, Agrees, Paced, Calls, For, Agreement;
    AgreementWf(s);
    OnlyHandler(s, h);
    var (t, sent) := Sweep(s.groups, s.handlers, e, reflector);
    AgreementDistinct(s);
    SweepFor(s.groups, s.handlers, e, reflector, h.dest);
    VisitCalls(e, reflector, s.groups[h.dest], h, c.up);
    VisitPaced(e, reflector, s.groups[h.dest], h);
    var o := Visit(e, reflector, s.groups[h.dest], h);
    if o.kept.Some? && o.kept.value.state == DEXTRA_LINKING {
      PacedTries(o.kept.value);
    }
    forall i | i in t.handlers && i.dest == h.dest
      ensures o.kept == Some(i)
    {
      KeptFrom(s, e, reflector, h, i);
    }
  }

  lemma AgreementDistinct(s: State)
    requires Agreement(s)
    ensures Distinct(s.handlers)
  {
  }

  lemma KeptFrom(s: State, e: Event, reflector: string, h: Handler, i: Handler)
    requires Agreement(s) && h in s.handlers && i.dest == h.dest
    requires i in Sweep(s.groups, s.handlers, e, reflector).0.handlers
    ensures Visit(e, reflector, s.groups[h.dest], h).kept == Some(i)
  {
    hide Visit, Sweep, Agrees;
    SweepResult(s.groups, s.handlers, e, reflector);
    var g :| g in s.handlers && Visit(e, reflector, s.groups[g.dest], g).kept == Some(i);
    VisitKeepsDest(e, reflector, s.groups[g.dest], g);
  }

  /** Linking a group makes its handler and sends the connect that starts its window,
      or leaves the handlers alone. */
  lemma LinkCounted(s: State, e: Event, n: string, c: Count)
    requires Agreement(s) && e.RemoteLink? && Known(s, e) && Counted(s, n, c)
    ensures Wf(s) && Counted(Step(s, e).0, n, NextCount(s, e, n, c))
  {
    hide Agreement, TypeOf, Ticks.WithTimeout, For, Calls;
    AgreementWf(s);
    NothingFor(n);
    NoneCall([], true);
    NoneCall([], false);
    if s.groups[e.name].linkType == Group.LT_NONE {
      NoHandler(s, e.name);
    }
    OneFor(Connect(e.name, e.reflector, e.found), n);
    OneCall(Connect(e.name, e.reflector, e.found));
  }

  lemma SameCounted(s: State, t: State, n: string, c: Count)
    requires s.handlers == t.handlers && Counted(s, n, c)
    ensures Counted(t, n, c)
  {
  }

  lemma StepCounted(s: State, e: Event, n: string, c: Count)
    requires Agreement(s) && AllPaced(s) && Known(s, e) && (e.Clocked? ==> e.ms + 60001 < U32) && Counted(s, n, c)
    ensures Wf(s) && Counted(Step(s, e).0, n, NextCount(s, e, n, c))
  {
    hide Agreement, AllPaced, Sweep, Visit, TypeOf, Ticks.WithTimeout, For, Calls, OnRemoteLink, Counted;
    AgreementWf(s);
    NothingFor(n);
    NoneCall([], true);
    NoneCall([], false);
    match e
    case RemoteLink(_, _, _, _) => LinkCounted(s, e, n, c);
    case RemoteUnlink(name) =>
      var r := s.groups[name].reflector;
      var t := if s.groups[name].linkType == Group.LT_DEXTRA then Sweep(s.groups, s.handlers, e, r).0 else s;
      SweepCounted(s, e, r, n, c);
      SameCounted(t, Step(s, e).0, n, NextCount(s, e, n, c));
    case DcsCalls(_, _) => SameCounted(s, Step(s, e).0, n, c);
    case _ => SweepCounted(s, e, "", n, c);
  }

  /** The count at the end of a run that began with c. */
  ghost function RunCount(s: State, es: seq<Event>, n: string, c: Count): Count
    requires Agreement(s) && Undisturbed(s, es)
    decreases |es|
  {
    if es == [] then c
    else
      StepWf(s, es[0]);
      RunCount(Step(s, es[0]).0, es[1..], n, NextCount(s, es[0], n, c))
  }

  lemma {:induction false} CountedRun(s: State, es: seq<Event>, n: string, c: Count)
    requires Agreement(s) && AllPaced(s) && Undisturbed(s, es) && Counted(s, n, c)
    requires forall e | e in es :: e.Clocked? ==> e.ms + 60001 < U32
    ensures Counted(Run(s, es), n, RunCount(s, es, n, c))
    decreases |es|
  {
    hide Agreement, AllPaced, Step, NextCount, Counted;
    if es != [] {
      assert es[0] in es && forall e | e in es[1..] :: e in es;
      StepWf(s, es[0]);
      StepPaced(s, es[0]);
      StepCounted(s, es[0], n, c);
      CountedRun(Step(s, es[0]).0, es[1..], n, NextCount(s, es[0], n, c));
    }
  }

  lemma {:induction false} BootCounted(s: State, names: seq<string>, found: map<string, string>,
                                       pooled: set<string>, n: string)
    requires Counted(s, n, Count(1, 0)) && forall m | m in names :: m in s.groups && m in found
    ensures Counted(Boot(s, names, found, pooled), n, Count(1, 0))
    decreases |names|
  {
    if names != [] {
      var m := names[0];
      assert m in names && forall i | i in names[1..] :: i in names;
      BootCounted(LinkInt(s, m, found[m], m in pooled).0, names[1..], found, pooled, n);
    }
  }

  /** From the start of the program on, whatever happens that does not disturb the
      links, between two starts of its window no handler sends more than seven
      connects, the one that starts it included, and at most one disconnect, with
      which it goes. */
  lemma AtMostEightCalls(groups: map<string, GroupLink>, names: seq<string>, found: map<string, string>,
                         pooled: set<string>, es: seq<Event>, n: string)
    requires (forall m | m in groups :: groups[m].status == LS_NONE)
    requires forall m | m in names :: m in groups && m in found
    requires forall i, j | 0 <= i < j < |names| :: names[i] != names[j]
    requires forall e | e in es :: e.Clocked? ==> e.ms + 60001 < U32
    ensures var s := Boot(State(groups, []), names, found, pooled);
            && Agreement(s)
            && (Undisturbed(s, es) ==>
                  var c := RunCount(s, es, n, Count(1, 0));
                  c.up <= 7 && c.down <= 1 && (HasHandler(Run(s, es), n) ==> c.down == 0))
  {
    hide Agreement, Undisturbed, Boot, AllPaced, Counted, RunCount, Run;
    StartedAndPaced(groups, names, found, pooled, es);
    CountedNone(State(groups, []), n, Count(1, 0));
    BootCounted(State(groups, []), names, found, pooled, n);
    var s := Boot(State(groups, []), names, found, pooled);
    if Undisturbed(s, es) {
      CountedRun(s, es, n, Count(1, 0));
      CountedBounds(Run(s, es), n, RunCount(s, es, n, Count(1, 0)));
    }
  }

  /** Clock steps, and then the link is unlinked by remote control. */
  function Ending(steps: seq<nat>, name: string): seq<Event> {
    if steps == [] then [RemoteUnlink(name)] else [Clocked(steps[0])] + Ending(steps[1..], name)
  }

  lemma SoleSweep(s: State, h: Handler, e: Event, reflector: string)
    requires s.handlers == [h] && h.dest in s.groups
    ensures var (o, (t, sent)) := (Visit(e, reflector, s.groups[h.dest], h), Sweep(s.groups, s.handlers, e, reflector));
            && t.handlers == (if o.kept.Some? then [o.kept.value] else []) && sent == o.sent
            && t.groups == s.groups[h.dest := o.group]
  {
    hide Visit;
    assert s.handlers[..0] == [];
  }

  lemma SoleClock(s: State, h: Handler, ms: nat, c: Count)
    requires Agreement(s) && s.handlers == [h] && h.state == DEXTRA_LINKING
    requires !Backoff.Clocked(PhaseOf(h), ms).1.WindowEnds?
    ensures Wf(s)
    ensures var (o, (q, act)) := (OnClock(s.groups[h.dest], h, ms), Backoff.Clocked(PhaseOf(h), ms));
            && o.kept.Some? && Step(s, Clocked(ms)).0.handlers == [o.kept.value]
            && o.kept.value.dest == h.dest && o.kept.value.state == DEXTRA_LINKING && PhaseOf(o.kept.value) == q
            && NextCount(s, Clocked(ms), h.dest, c) == Count(c.up + (if act.Retry? then 1 else 0), c.down)
  {
    hide Sweep, OnClock, Backoff.Clocked, Calls, For;
    assert h in s.handlers;
    var g := s.groups[h.dest];
    SoleSweep(s, h, Clocked(ms), "");
    ClockIsPhase(g, h, ms);
    ClockCalls(g, h, ms);
    ClockEnds(h, ms);
    ClockRetries(g, h, ms);
    SweepFor(s.groups, s.handlers, Clocked(ms), "", h.dest);
  }

  lemma ClockEnds(h: Handler, ms: nat)
    ensures Backoff.Clocked(PhaseOf(h), ms).1.WindowEnds? <==>
            h.window.Clocked(ms).Running() && h.window.Clocked(ms).Expired()
  {
  }

  lemma SoleUnlink(s: State, h: Handler, c: Count)
    requires Agreement(s) && s.handlers == [h]
    ensures Wf(s) && Known(s, RemoteUnlink(h.dest))
    ensures NextCount(s, RemoteUnlink(h.dest), h.dest, c) == Count(c.up, c.down + 1)
  {
    hide Sweep, Calls, For;
    assert h in s.handlers;
    var (g, e) := (s.groups[h.dest], RemoteUnlink(h.dest));
    SoleSweep(s, h, e, g.reflector);
    SweepFor(s.groups, s.handlers, e, g.reflector, h.dest);
    OtherCalls(e, g.reflector, g, h);
    OneDown(Visit(e, g.reflector, g, h).sent);
  }

  lemma {:induction false} SoleRun(s: State, h: Handler, steps: seq<nat>, c: Count)
    requires Agreement(s) && s.handlers == [h] && h.state == DEXTRA_LINKING && !Backoff.Over(PhaseOf(h), steps)
    ensures Undisturbed(s, Ending(steps, h.dest))
    ensures RunCount(s, Ending(steps, h.dest), h.dest, c) == Count(c.up + Backoff.Tries(PhaseOf(h), steps), c.down + 1)
    decreases |steps|
  {
    hide Agreement, Step, NextCount, Backoff.Clocked, OnClock;
    var es := Ending(steps, h.dest);
    if steps == [] {
      SoleUnlink(s, h, c);
      StepWf(s, es[0]);
    } else {
      var ms := steps[0];
      assert es[0] == Clocked(ms) && es[1..] == Ending(steps[1..], h.dest);
      SoleClock(s, h, ms, c);
      StepWf(s, es[0]);
      SoleHome(s, h);
      SoleRun(Step(s, es[0]).0, OnClock(s.groups[h.dest], h, ms).kept.value, steps[1..],
              NextCount(s, es[0], h.dest, c));
    }
  }

  lemma SoleHome(s: State, h: Handler)
    requires Agreement(s) && s.handlers == [h]
    ensures h.dest in s.groups && Known(s, Clocked(0))
  {
    assert h in s.handlers;
  }

  /** Eight calls do happen: a gateway that never answers is sent six retries, and
      then the link is unlinked. */
  lemma EightCallsHappen(name: string, repeater: string, reflector: string, found: string)
    requires found != ""
    ensures var g := State(map[name := GroupLink(repeater, Group.LT_DEXTRA, reflector, LS_NONE)], []);
            var s := Boot(g, [name], map[name := found], {name});
            && Agreement(s)
            && exists es :: Undisturbed(s, es) && RunCount(s, es, name, Count(1, 0)) == Count(7, 1)
  {
    hide Agreement, Undisturbed, RunCount, Backoff.Tries, Backoff.Over, Backoff.Fastest, Ending;
    var g := State(map[name := GroupLink(repeater, Group.LT_DEXTRA, reflector, LS_NONE)], []);
    var s := Boot(g, [name], map[name := found], {name});
    FreshAgrees(g.groups);
    BootAgrees(g, [name], map[name := found], {name});
    var h := NewHandler(name, g.groups[name], found);
    assert s.handlers == [h];
    Backoff.SmallPowers();
    Backoff.DelayZero();
    Backoff.FastestTries(PhaseOf(h), 60, 0, 0, 6);
    SoleRun(s, h, Backoff.Fastest(0, 6), Count(1, 0));
  }

  // ---- a group that is linking has a handler ----

  ghost predicate Attached(s: State) {
    forall n | n in s.groups && s.groups[n].status == LS_LINKING_DEXTRA :: HasHandler(s, n)
  }

  /** The event leaves a group linking that no handler works for: there was none to
      be had; a disconnect takes the handler while it is linking; or a DCS handler
      that has lost its link has the group linking again. */
  ghost predicate Detaches(s: State, e: Event)
    requires Wf(s) && Known(s, e)
  {
    match e
    case RemoteLink(name, reflector, found, pooled) =>
      s.groups[name].linkType == Group.LT_NONE && TypeOf(reflector) == Group.LT_DEXTRA && found != "" && !pooled
    case ConnectArrives(kind, addr, port, repeater) =>
      kind.CT_UNLINK?
      && exists h | h in s.handlers ::
         h.addr == addr && h.port == port && h.reflector == repeater && h.state == DEXTRA_LINKING
    case DcsCalls(name, call) =>
      call == DcsFailed(true) && s.groups[name].linkType == Group.LT_DEXTRA
      && s.groups[name].status != LS_NONE && !HasHandler(s, name)
    case _ => false
  }

  /** What one handler's turn leaves of a linking group. */
  lemma VisitDetaches(e: Event, reflector: string, g: GroupLink, h: Handler)
    requires Agrees(g, h)
    ensures var o := Visit(e, reflector, g, h);
            o.kept.None? && o.group.status == LS_LINKING_DEXTRA <==>
            e.ConnectArrives? && e.kind.CT_UNLINK? && h.addr == e.addr && h.port == e.port
            && h.reflector == e.repeater && h.state == DEXTRA_LINKING
  {
    hide Ticks.WithTimeout, Backoff.Delay;
  }

  ghost predicate Loosened(s: State, e: Event) {
    e.ConnectArrives? && e.kind.CT_UNLINK?
    && exists h | h in s.handlers ::
       h.addr == e.addr && h.port == e.port && h.reflector == e.repeater && h.state == DEXTRA_LINKING
  }

  lemma SweepDetachesIff(s: State, e: Event, reflector: string)
    requires Agreement(s) && Attached(s)
    ensures Attached(Sweep(s.groups, s.handlers, e, reflector).0) <==> !Loosened(s, e)
  {
    hide Visit, Sweep, Agrees;
    SweepResult(s.groups, s.handlers, e, reflector);
    var t := Sweep(s.groups, s.handlers, e, reflector).0;
    if Loosened(s, e) {
      var h :| h in s.handlers && h.addr == e.addr && h.port == e.port && h.reflector == e.repeater
        && h.state == DEXTRA_LINKING;
      VisitDetaches(e, reflector, s.groups[h.dest], h);
      NoneKept(s, e, reflector, h);
      assert h.dest in t.groups && t.groups[h.dest].status == LS_LINKING_DEXTRA && !HasHandler(t, h.dest);
    } else {
      forall n | n in t.groups && t.groups[n].status == LS_LINKING_DEXTRA
        ensures HasHandler(t, n)
      {
        SweepAttached(s, e, reflector, n);
      }
    }
  }

  lemma NoneKept(s: State, e: Event, reflector: string, h: Handler)
    requires Agreement(s) && h in s.handlers && Visit(e, reflector, s.groups[h.dest], h).kept.None?
    ensures !HasHandler(Sweep(s.groups, s.handlers, e, reflector).0, h.dest)
  {
    hide Visit, Sweep, Agrees;
    var t := Sweep(s.groups, s.handlers, e, reflector).0;
    forall i | i in t.handlers
      ensures i.dest != h.dest
    {
      if i.dest == h.dest {
        KeptFrom(s, e, reflector, h, i);
      }
    }
  }

  lemma SweepAttached(s: State, e: Event, reflector: string, n: string)
    requires Agreement(s) && Attached(s) && !Loosened(s, e) && n in s.groups
    ensures n in Sweep(s.groups, s.handlers, e, reflector).0.groups
    ensures var t := Sweep(s.groups, s.handlers, e, reflector).0;
            t.groups[n].status == LS_LINKING_DEXTRA ==> HasHandler(t, n)
  {
    hide Visit, Sweep, Agrees;
    SweepResult(s.groups, s.handlers, e, reflector);
    var t := Sweep(s.groups, s.handlers, e, reflector).0;
    if h :| h in s.handlers && h.dest == n {
      VisitDetaches(e, reflector, s.groups[n], h);
      VisitKeepsDest(e, reflector, s.groups[n], h);
    } else {
      assert t.groups[n] == s.groups[n];
      assert s.groups[n].status == LS_LINKING_DEXTRA ==> HasHandler(s, n);
    }
  }

  lemma LinkAttached(s: State, name: string, reflector: string, found: string, pooled: bool)
    requires Agreement(s) && Attached(s) && name in s.groups
    ensures Wf(s)
    ensures Attached(OnRemoteLink(s, name, reflector, found, pooled).0)
            <==> !Detaches(s, RemoteLink(name, reflector, found, pooled))
  {
    hide TypeOf, Agrees;
    var t := OnRemoteLink(s, name, reflector, found, pooled).0;
    if s.groups[name].linkType == Group.LT_NONE {
      NoHandler(s, name);
    }
    assert forall n | HasHandler(s, n) :: HasHandler(t, n) by {
      assert s.handlers <= t.handlers;
      assert forall h | h in s.handlers :: h in t.handlers;
    }
    if Detaches(s, RemoteLink(name, reflector, found, pooled)) {
      assert !HasHandler(t, name);
    } else if t.handlers != s.handlers {
      assert t.handlers[|s.handlers|] in t.handlers && t.handlers[|s.handlers|].dest == name;
    }
  }

  lemma UnlinkAttached(s: State, name: string)
    requires Agreement(s) && Attached(s) && name in s.groups
    ensures Wf(s) && Attached(OnRemoteUnlink(s, name).0)
  {
    hide Sweep, Agrees, Visit;
    var g := s.groups[name];
    var t := OnRemoteUnlink(s, name).0;
    if g.linkType == Group.LT_DEXTRA {
      SweepDetachesIff(s, RemoteUnlink(name), g.reflector);
      UnlinkRemoves(s, name);
      var u := Sweep(s.groups, s.handlers, RemoteUnlink(name), g.reflector).0;
      assert u.groups[name].status == LS_LINKING_DEXTRA ==> HasHandler(u, name);
      assert forall n :: HasHandler(t, n) <==> HasHandler(u, n);
    } else {
      NoHandler(s, name);
      assert !HasHandler(s, name);
      assert forall n :: HasHandler(t, n) <==> HasHandler(s, n);
    }
  }

  lemma DcsAttached(s: State, name: string, call: DcsKind)
    requires Agreement(s) && Attached(s) && name in s.groups && !Disturbs(s, DcsCalls(name, call))
    ensures Wf(s)
    ensures Attached(s.(groups := s.groups[name := OnDcs(s.groups[name], call)]))
            <==> !Detaches(s, DcsCalls(name, call))
  {
    hide Agrees;
    var t := s.(groups := s.groups[name := OnDcs(s.groups[name], call)]);
    assert forall n :: HasHandler(t, n) <==> HasHandler(s, n);
    if s.groups[name].linkType != Group.LT_DEXTRA {
      NoHandler(s, name);
      assert !HasHandler(s, name);
    }
  }

  /** While the links agree, every event keeps a handler for each linking group,
      except those that are said to detach one, which always do. */
  lemma StepAttachedIff(s: State, e: Event)
    requires Agreement(s) && Attached(s) && Known(s, e) && !Disturbs(s, e)
    ensures Wf(s) && (Attached(Step(s, e).0) <==> !Detaches(s, e))
  {
    hide Agreement, Attached, Sweep, OnRemoteLink, OnRemoteUnlink, OnDcs;
    AgreementWf(s);
    match e
    case RemoteLink(name, reflector, found, pooled) => LinkAttached(s, name, reflector, found, pooled);
    case RemoteUnlink(name) => UnlinkAttached(s, name);
    case DcsCalls(name, call) => DcsAttached(s, name, call);
    case _ => SweepDetachesIff(s, e, "");
  }
}
