/** What each event does to one group's DExtra link and sends for it: when a link
    comes up and goes, what a stream over it delivers, and what keeps it alive. */
module LinkEvents {
  import opened Timer
  import opened Caches
  import opened Links
  import opened LinkAgreement
  import Backoff
  import Group
  import GroupFanOut
  import GroupFrames
  import GroupRuns

  // ---- one group's part of a step ----

  /** The handler that works for group n. */
  ghost function HandlerFor(s: State, n: string): Option<Handler> {
    if exists h :: h in s.handlers && h.dest == n then
      var h :| h in s.handlers && h.dest == n;
      Some(h)
    else None
  }

  lemma HandlerForIff(s: State, n: string, h: Handler)
    requires Distinct(s.handlers)
    ensures HandlerFor(s, n) == Some(h) <==> h in s.handlers && h.dest == n
    ensures HandlerFor(s, n).Some? <==> HasHandler(s, n)
  {
  }

  /** A handler's turn is all that an event means for its group, which loses link
      type and reflector besides when it is unlinked. */
  lemma Turn(s: State, e: Event, h: Handler)
    requires Agreement(s) && Known(s, e) && h in s.handlers
    ensures Wf(s) && h.dest in s.groups && h.dest in Step(s, e).0.groups
    ensures var o := Visit(e, h.reflector, s.groups[h.dest], h);
            var (t, sent) := Step(s, e);
            && HandlerFor(t, h.dest) == o.kept && For(sent, h.dest) == o.sent
            && (!e.DcsCalls? ==> t.groups[h.dest].status == o.group.status)
  {
    hide Visit, Sweep, Agrees, For, OnRemoteLink;
    AgreementWf(s);
    AgreementDistinct(s);
    OnlyHandler(s, h);
    SameReflector(s, h);
    if e.RemoteLink? || e.DcsCalls? {
      OtherCall(s, e, h);
    } else {
      SweepTurn(s, e, h);
    }
  }

  lemma SweepTurn(s: State, e: Event, h: Handler)
    requires Agreement(s) && Known(s, e) && h in s.handlers && !e.RemoteLink? && !e.DcsCalls?
    ensures Wf(s) && h.dest in s.groups && h.dest in Step(s, e).0.groups
    ensures var o := Visit(e, h.reflector, s.groups[h.dest], h);
            var (t, sent) := Step(s, e);
            && HandlerFor(t, h.dest) == o.kept && For(sent, h.dest) == o.sent
            && t.groups[h.dest].status == o.group.status
  {
    hide Visit, Sweep, Agrees, For;
    AgreementWf(s);
    AgreementDistinct(s);
    OnlyHandler(s, h);
    SameReflector(s, h);
    var r := if e.RemoteUnlink? then s.groups[e.name].reflector else "";
    if e.RemoteUnlink? && s.groups[e.name].linkType != Group.LT_DEXTRA {
      NoHandler(s, e.name);
      OtherUnlink(s, e, h);
    } else {
      SweepResult(s.groups, s.handlers, e, r);
      SweepFor(s.groups, s.handlers, e, r, h.dest);
      var t := Sweep(s.groups, s.handlers, e, r).0;
      var o := Visit(e, r, s.groups[h.dest], h);
      VisitKeepsDest(e, r, s.groups[h.dest], h);
      forall i | i in t.handlers && i.dest == h.dest
        ensures o.kept == Some(i)
      {
        KeptFrom(s, e, r, h, i);
      }
      TurnReflector(e, r, s.groups[h.dest], h);
      if o.kept.Some? {
        HandlerForIff(t, h.dest, o.kept.value);
      }
      SameHandlers(t, Step(s, e).0, h.dest);
    }
  }

  lemma SameHandlers(s: State, t: State, n: string)
    requires s.handlers == t.handlers && Distinct(s.handlers)
    ensures HandlerFor(s, n) == HandlerFor(t, n)
  {
    if h :| h in s.handlers && h.dest == n {
      HandlerForIff(s, n, h);
      HandlerForIff(t, n, h);
    }
  }

  lemma SameReflector(s: State, h: Handler)
    requires Agreement(s) && h in s.handlers
    ensures h.dest in s.groups && s.groups[h.dest].reflector == h.reflector
  {
  }

  /** Only unlinking looks at the reflector that a sweep is for. */
  lemma TurnReflector(e: Event, reflector: string, g: GroupLink, h: Handler)
    requires e.RemoteUnlink? ==> e.name != h.dest || reflector == h.reflector
    ensures Visit(e, reflector, g, h) == Visit(e, h.reflector, g, h)
  {
    hide Ticks.WithTimeout, Backoff.Delay;
  }

  lemma OtherUnlink(s: State, e: Event, h: Handler)
    requires Agreement(s) && e.RemoteUnlink? && Known(s, e) && h in s.handlers && h.dest != e.name
    requires s.groups[e.name].linkType != Group.LT_DEXTRA
    ensures Wf(s)
    ensures var o := Visit(e, h.reflector, s.groups[h.dest], h);
            && HandlerFor(Step(s, e).0, h.dest) == o.kept && Step(s, e).0.groups[h.dest] == o.group
            && For(Step(s, e).1, h.dest) == o.sent
  {
    hide Sweep, Agrees;
    AgreementDistinct(s);
    HandlerForIff(s, h.dest, h);
    SameHandlers(s, Step(s, e).0, h.dest);
  }

  /** Linking another group, or a call from a DCS handler. */
  lemma OtherCall(s: State, e: Event, h: Handler)
    requires Agreement(s) && Known(s, e) && h in s.handlers && (e.RemoteLink? || e.DcsCalls?)
    ensures Wf(s) && h.dest in Step(s, e).0.groups
    ensures var (t, sent) := Step(s, e);
            && HandlerFor(t, h.dest) == Some(h) && For(sent, h.dest) == []
            && (!e.DcsCalls? ==> t.groups[h.dest].status == s.groups[h.dest].status)
    ensures Visit(e, h.reflector, s.groups[h.dest], h) == Outcome(s.groups[h.dest], Some(h), [])
  {
    hide Agrees, TypeOf;
    AgreementWf(s);
    AgreementDistinct(s);
    OnlyHandler(s, h);
    HandlerForIff(s, h.dest, h);
    assert s.groups[h.dest].linkType == Group.LT_DEXTRA by {
      assert Agrees(s.groups[h.dest], h);
      DExtraType(s.groups[h.dest], h);
    }
    var (t, sent) := Step(s, e);
    if e.RemoteLink? && t.handlers != s.handlers {
      var k := t.handlers[|s.handlers|];
      assert t.handlers == s.handlers + [k] && k.dest == e.name != h.dest;
      NoHandler(s, e.name);
      assert Distinct(t.handlers);
      HandlerForIff(t, h.dest, h);
      assert sent[..0] == [];
    } else {
      SameHandlers(s, t, h.dest);
    }
  }

  lemma DExtraType(g: GroupLink, h: Handler)
    requires Agrees(g, h)
    ensures g.linkType == Group.LT_DEXTRA
  {
  }

  // ---- when a link comes up, and when it goes ----

  predicate From(h: Handler, addr: string, port: nat) {
    h.addr == addr && h.port == port
  }

  /** The reflector accepts the link that the handler is asking for. */
  predicate Acked(h: Handler, e: Event) {
    e.ConnectArrives? && e.kind.CT_ACK? && From(h, e.addr, e.port) && h.repeater == e.repeater
      && h.state == DEXTRA_LINKING
  }

  predicate Refused(h: Handler, e: Event) {
    e.ConnectArrives? && e.kind.CT_NAK? && From(h, e.addr, e.port) && h.repeater == e.repeater
      && h.state == DEXTRA_LINKING
  }

  /** The reflector disconnects, whatever the handler is doing. */
  predicate CutOff(h: Handler, e: Event) {
    e.ConnectArrives? && e.kind.CT_UNLINK? && From(h, e.addr, e.port) && h.reflector == e.repeater
  }

  /** Sixty seconds without a sign of life. */
  predicate Silent(h: Handler, e: Event) {
    e.Clocked? && h.window.timer + e.ms > 60000
  }

  /** The timers of a handler run in their windows: always for the link, and while
      it is up for the polls, and during a stream for that. */
  predicate Timed(h: Handler) {
    && h.window.timeout == 60001 && h.poll.timeout == 10001 && h.inactivity.timeout == 2001
    && 1 <= h.window.timer <= 60000
    && (h.state == DEXTRA_LINKED ==> 1 <= h.poll.timer <= 10000)
    && (h.id != 0 ==> 1 <= h.inactivity.timer <= 2000)
    && (h.header <==> h.id != 0)
  }

  ghost predicate AllTimed(s: State) {
    forall h | h in s.handlers :: Timed(h)
  }

  /** No clock step overflows a timer of a minute. */
  predicate Fits(e: Event) {
    e.Clocked? ==> e.ms + 60001 < U32
  }

  /** A DExtra link comes up, with a handler that carries it, exactly when the
      reflector accepts it; only a call from a DCS handler can claim so besides. */
  lemma UpIff(s: State, e: Event, n: string)
    requires Agreement(s) && Known(s, e) && n in s.groups && s.groups[n].status != LS_LINKED_DEXTRA
    ensures Wf(s) && n in Step(s, e).0.groups
    ensures var t := Step(s, e).0;
            var acked := exists h :: h in s.handlers && h.dest == n && Acked(h, e);
            && (t.groups[n].status == LS_LINKED_DEXTRA && Carried(t, n) <==> acked)
            && (t.groups[n].status == LS_LINKED_DEXTRA <==>
                acked || (e == DcsCalls(n, DcsUp) && s.groups[n].linkType == Group.LT_DEXTRA))
  {
    hide Visit, Sweep, OnRemoteLink;
    AgreementWf(s);
    AgreementDistinct(s);
    if h :| h in s.handlers && h.dest == n {
      OnlyHandler(s, h);
      Turn(s, e, h);
      VisitUp(s.groups[n], h, e);
      StepDistinct(s, e);
      CarriedIff(Step(s, e).0, n);
    } else {
      NobodyUp(s, e, n);
    }
  }

  lemma VisitUp(g: GroupLink, h: Handler, e: Event)
    requires Agrees(g, h) && g.status != LS_LINKED_DEXTRA
    ensures var o := Visit(e, h.reflector, g, h);
            && (o.group.status == LS_LINKED_DEXTRA <==> Acked(h, e))
            && (o.kept.Some? && o.kept.value.state == DEXTRA_LINKED <==> Acked(h, e))
  {
    hide Ticks.WithTimeout, Backoff.Delay;
  }

  lemma StepDistinct(s: State, e: Event)
    requires Agreement(s) && Known(s, e)
    ensures Wf(s) && Distinct(Step(s, e).0.handlers)
  {
    hide Visit, Sweep, Agrees, TypeOf;
    AgreementWf(s);
    AgreementDistinct(s);
    match e
    case RemoteLink(name, _, _, _) =>
      if s.groups[name].linkType == Group.LT_NONE {
        NoHandler(s, name);
      }
    case DcsCalls(_, _) =>
    case RemoteUnlink(name) => SweepDistinct(s.groups, s.handlers, e, s.groups[name].reflector);
    case _ => SweepDistinct(s.groups, s.handlers, e, "");
  }

  lemma CarriedIff(t: State, n: string)
    requires Distinct(t.handlers)
    ensures Carried(t, n) <==> HandlerFor(t, n).Some? && HandlerFor(t, n).value.state == DEXTRA_LINKED
  {
    if h :| h in t.handlers && h.dest == n {
      HandlerForIff(t, n, h);
      assert forall i | i in t.handlers && i.dest == n :: i == h;
    }
  }

  lemma NobodyUp(s: State, e: Event, n: string)
    requires Agreement(s) && Known(s, e) && n in s.groups && s.groups[n].status != LS_LINKED_DEXTRA
    requires forall h | h in s.handlers :: h.dest != n
    ensures Wf(s) && n in Step(s, e).0.groups
    ensures var t := Step(s, e).0;
            && !Carried(t, n)
            && (t.groups[n].status == LS_LINKED_DEXTRA <==>
                e == DcsCalls(n, DcsUp) && s.groups[n].linkType == Group.LT_DEXTRA)
  {
    hide Visit, Sweep, Agrees, TypeOf;
    AgreementWf(s);
    AgreementDistinct(s);
    match e
    case RemoteLink(_, _, _, _) =>
    case DcsCalls(_, _) =>
    case RemoteUnlink(name) => NobodySwept(s, e, s.groups[name].reflector, n);
    case _ => NobodySwept(s, e, "", n);
  }

  lemma NobodySwept(s: State, e: Event, reflector: string, n: string)
    requires Agreement(s) && n in s.groups && forall h | h in s.handlers :: h.dest != n
    ensures n in Sweep(s.groups, s.handlers, e, reflector).0.groups
    ensures var (t, sent) := Sweep(s.groups, s.handlers, e, reflector);
            t.groups[n] == s.groups[n] && (forall h | h in t.handlers :: h.dest != n) && For(sent, n) == []
  {
    hide Visit, Sweep, Agrees, For;
    AgreementDistinct(s);
    SweepResult(s.groups, s.handlers, e, reflector);
    SweepFor(s.groups, s.handlers, e, reflector, n);
    var t := Sweep(s.groups, s.handlers, e, reflector).0;
    forall k | k in t.handlers
      ensures k.dest != n
    {
      var h :| h in s.handlers && Visit(e, reflector, s.groups[h.dest], h).kept == Some(k);
      VisitKeepsDest(e, reflector, s.groups[h.dest], h);
    }
  }

  /** A link that is up goes down exactly when the reflector disconnects, the group is
      unlinked, the reflector has been silent for a minute, or a DCS handler says
      so. */
  lemma DownIff(s: State, e: Event, h: Handler)
    requires Agreement(s) && Known(s, e) && h in s.handlers && h.state == DEXTRA_LINKED && Timed(h) && Fits(e)
    ensures Wf(s) && h.dest in s.groups && h.dest in Step(s, e).0.groups
    ensures s.groups[h.dest].status == LS_LINKED_DEXTRA
    ensures Step(s, e).0.groups[h.dest].status != LS_LINKED_DEXTRA <==>
            CutOff(h, e) || e == RemoteUnlink(h.dest) || Silent(h, e)
            || (e.DcsCalls? && e.name == h.dest && !e.call.DcsUp?)
  {
    hide Visit, Sweep, OnRemoteLink;
    OnlyHandler(s, h);
    Turn(s, e, h);
    VisitDown(s.groups[h.dest], h, e);
  }

  lemma VisitDown(g: GroupLink, h: Handler, e: Event)
    requires Agrees(g, h) && h.state == DEXTRA_LINKED && Timed(h) && Fits(e)
    ensures g.status == LS_LINKED_DEXTRA
    ensures Visit(e, h.reflector, g, h).group.status != LS_LINKED_DEXTRA <==>
            CutOff(h, e) || e == RemoteUnlink(h.dest) || Silent(h, e)
  {
    hide Ticks.WithTimeout, Backoff.Delay;
  }

  /** A handler goes exactly when the reflector refuses or disconnects, or the group
      is unlinked. */
  lemma GoneIff(s: State, e: Event, h: Handler)
    requires Agreement(s) && Known(s, e) && h in s.handlers
    ensures Wf(s)
    ensures !HasHandler(Step(s, e).0, h.dest) <==> Refused(h, e) || CutOff(h, e) || e == RemoteUnlink(h.dest)
  {
    hide Visit, Sweep, OnRemoteLink;
    AgreementWf(s);
    OnlyHandler(s, h);
    Turn(s, e, h);
    VisitGone(s.groups[h.dest], h, e);
    StepDistinct(s, e);
    HandlerForIff(Step(s, e).0, h.dest, h);
  }

  lemma VisitGone(g: GroupLink, h: Handler, e: Event)
    requires Agrees(g, h)
    ensures Visit(e, h.reflector, g, h).kept.None? <==> Refused(h, e) || CutOff(h, e) || e == RemoteUnlink(h.dest)
  {
    hide Ticks.WithTimeout, Backoff.Delay;
  }

  /** An XRF reflector: eight characters, the first three of them XRF. */
  predicate DExtraName(reflector: string) {
    |reflector| == 8 && reflector[0] == 'X' && reflector[1] == 'R' && reflector[2] == 'F'
  }

  /** A group that has no handler gets one exactly when it is unlinked, is told to
      link to an XRF reflector whose gateway address is known, and a protocol handler
      is free; that handler then asks the reflector at that address, and the group
      waits for it. */
  lemma NewIff(s: State, e: Event, n: string)
    requires Agreement(s) && Known(s, e) && n in s.groups && !HasHandler(s, n)
    ensures Wf(s) && n in Step(s, e).0.groups
    ensures var (t, sent) := Step(s, e);
            && (HasHandler(t, n) <==>
                && e.RemoteLink? && e.name == n && s.groups[n].linkType == Group.LT_NONE
                && DExtraName(e.reflector) && e.found != "" && e.pooled)
            && (!HasHandler(t, n) ==> For(sent, n) == [])
            && forall h | h in t.handlers && h.dest == n ::
                 && h.reflector == e.reflector && h.repeater == s.groups[n].repeater
                 && h.addr == e.found && h.port == 30001 && h.state == DEXTRA_LINKING
                 && h.tries == 0 && h.id == 0 && Timed(h) && h.window.timer == 1 && h.retry == Ticks(1001, 1)
                 && t.groups[n] == s.groups[n].(linkType := Group.LT_DEXTRA, reflector := e.reflector,
                                                status := LS_LINKING_DEXTRA)
                 && For(sent, n) == [Connect(n, e.reflector, e.found)]
  {
    hide Visit, Sweep, Agrees;
    AgreementWf(s);
    assert forall h | h in s.handlers :: h.dest != n;
    match e
    case RemoteLink(name, reflector, found, pooled) => LinkMakes(s, e, n);
    case DcsCalls(_, _) =>
    case RemoteUnlink(name) => NobodySwept(s, e, s.groups[name].reflector, n);
    case _ => NobodySwept(s, e, "", n);
  }

  lemma LinkMakes(s: State, e: Event, n: string)
    requires Agreement(s) && Known(s, e) && n in s.groups && e.RemoteLink? && forall h | h in s.handlers :: h.dest != n
    ensures var (t, sent) := OnRemoteLink(s, e.name, e.reflector, e.found, e.pooled);
            var makes := && e.name == n && s.groups[n].linkType == Group.LT_NONE
                         && DExtraName(e.reflector) && e.found != "" && e.pooled;
            && n in t.groups
            && (HasHandler(t, n) <==> makes)
            && (!makes ==> For(sent, n) == [])
            && forall h | h in t.handlers && h.dest == n ::
                 && h.reflector == e.reflector && h.repeater == s.groups[n].repeater
                 && h.addr == e.found && h.port == 30001 && h.state == DEXTRA_LINKING
                 && h.tries == 0 && h.id == 0 && Timed(h) && h.window.timer == 1 && h.retry == Ticks(1001, 1)
                 && t.groups[n] == s.groups[n].(linkType := Group.LT_DEXTRA, reflector := e.reflector,
                                                status := LS_LINKING_DEXTRA)
                 && For(sent, n) == [Connect(n, e.reflector, e.found)]
  {
    hide For, Agrees;
    NothingFor(n);
    TypeIff(e.reflector);
    var (t, sent) := OnRemoteLink(s, e.name, e.reflector, e.found, e.pooled);
    if t.handlers != s.handlers {
      var k := t.handlers[|s.handlers|];
      assert t.handlers == s.handlers + [k] && k in t.handlers && k.dest == e.name;
      OneFor(sent[0], n);
      assert sent == [sent[0]];
    }
  }

  lemma TypeIff(reflector: string)
    ensures TypeOf(reflector) == Group.LT_DEXTRA <==> DExtraName(reflector)
    ensures TypeOf(reflector) == Group.LT_DCS <==> DcsName(reflector)
  {
    if |reflector| == 8 {
      assert reflector[..3] == [reflector[0], reflector[1], reflector[2]];
    }
  }

  // ---- what a group believes ----

  predicate DcsName(reflector: string) {
    |reflector| == 8 && reflector[0] == 'D' && reflector[1] == 'C' && reflector[2] == 'S'
  }

  /** An unlinked group is told to link to a reflector that there can be. */
  predicate Names(g: GroupLink, e: Event, n: string) {
    && e.RemoteLink? && e.name == n && g.linkType == Group.LT_NONE
    && (DExtraName(e.reflector) || DcsName(e.reflector))
  }

  function Linking(linkType: Group.LinkType): LinkStatus {
    if linkType == Group.LT_DEXTRA then LS_LINKING_DEXTRA else LS_LINKING_DCS
  }

  function Linked(linkType: Group.LinkType): LinkStatus {
    if linkType == Group.LT_DEXTRA then LS_LINKED_DEXTRA else LS_LINKED_DCS
  }

  /** What a call from a DCS handler makes of the status. */
  function Called(g: GroupLink, call: DcsKind): LinkStatus {
    match call
    case DcsUp => Linked(g.linkType)
    case DcsRefused => LS_NONE
    case DcsFailed(recoverable) => if recoverable && g.status != LS_NONE then Linking(g.linkType) else LS_NONE
  }

  /** What becomes of the status of a group with a handler. */
  function Turned(g: GroupLink, h: Handler, e: Event): LinkStatus {
    if Acked(h, e) then LS_LINKED_DEXTRA
    else if Refused(h, e) || (CutOff(h, e) && h.state == DEXTRA_LINKED) || e == RemoteUnlink(h.dest) then LS_NONE
    else if Silent(h, e) then LS_LINKING_DEXTRA
    else g.status
  }

  /** What an event makes of a group's side of its link: link type and reflector
      change when the group is told to link and can be, or is unlinked; its status as
      its handler's turn has it, a DCS handler that calls, or a link that is asked for;
      and otherwise nothing does. */
  function Believes(g: GroupLink, h: Option<Handler>, e: Event, n: string): GroupLink {
    if Names(g, e, n) then
      var linkType := if DExtraName(e.reflector) then Group.LT_DEXTRA else Group.LT_DCS;
      g.(linkType := linkType, reflector := e.reflector,
         status := if e.found != "" then Linking(linkType) else g.status)
    else if e.DcsCalls? && e.name == n then g.(status := Called(g, e.call))
    else
      var k := if h.Some? then g.(status := Turned(g, h.value, e)) else g;
      if e == RemoteUnlink(n) && g.linkType != Group.LT_NONE
      then k.(linkType := Group.LT_NONE, reflector := "") else k
  }

  lemma GroupLinkIff(s: State, e: Event, n: string)
    requires Agreement(s) && Known(s, e) && n in s.groups && Fits(e)
    requires forall h | h in s.handlers && h.dest == n :: Timed(h)
    ensures Wf(s) && n in Step(s, e).0.groups
    ensures Step(s, e).0.groups[n] == Believes(s.groups[n], HandlerFor(s, n), e, n)
  {
    hide Visit, Sweep, Agrees, TypeOf, Turned, Called, OnRemoteLink, OnDcs, Names, Timed;
    AgreementWf(s);
    match e
    case RemoteLink(_, _, _, _) => LinkBelieved(s, e, n);
    case DcsCalls(_, _) => CallBelieved(s, e, n);
    case RemoteUnlink(name) => UnlinkBelieved(s, e, n);
    case _ =>
      SweptLink(s, e, "", n);
      NamesOnly(s.groups[n], e, n);
  }

  lemma NamesOnly(g: GroupLink, e: Event, n: string)
    ensures Names(g, e, n) ==> e.RemoteLink? && e.name == n
  {
  }

  lemma LinkBelieved(s: State, e: Event, n: string)
    requires Agreement(s) && Known(s, e) && n in s.groups && e.RemoteLink?
    ensures n in OnRemoteLink(s, e.name, e.reflector, e.found, e.pooled).0.groups
    ensures OnRemoteLink(s, e.name, e.reflector, e.found, e.pooled).0.groups[n]
         == Believes(s.groups[n], HandlerFor(s, n), e, n)
  {
    hide Agrees, TypeOf;
    TypeIff(e.reflector);
    TypeAll(e.reflector);
    if HandlerFor(s, n).Some? {
      assert Turned(s.groups[n], HandlerFor(s, n).value, e) == s.groups[n].status;
    }
  }

  lemma TypeAll(reflector: string)
    ensures TypeOf(reflector) == Group.LT_NONE || TypeOf(reflector) == Group.LT_DEXTRA
            || TypeOf(reflector) == Group.LT_DCS
  {
  }

  lemma CallBelieved(s: State, e: Event, n: string)
    requires Known(s, e) && n in s.groups && e.DcsCalls?
    ensures s.groups[e.name := OnDcs(s.groups[e.name], e.call)][n] == Believes(s.groups[n], HandlerFor(s, n), e, n)
  {
    if HandlerFor(s, n).Some? {
      assert Turned(s.groups[n], HandlerFor(s, n).value, e) == s.groups[n].status;
    }
  }

  lemma UnlinkBelieved(s: State, e: Event, n: string)
    requires Agreement(s) && Known(s, e) && n in s.groups && e.RemoteUnlink?
    requires forall h | h in s.handlers && h.dest == n :: Timed(h)
    ensures Wf(s) && n in OnRemoteUnlink(s, e.name).0.groups
    ensures OnRemoteUnlink(s, e.name).0.groups[n] == Believes(s.groups[n], HandlerFor(s, n), e, n)
  {
    hide Visit, Sweep, Agrees, Timed;
    AgreementWf(s);
    AgreementDistinct(s);
    if s.groups[e.name].linkType == Group.LT_DEXTRA {
      SweptLink(s, e, s.groups[e.name].reflector, n);
    } else {
      NoHandler(s, e.name);
      if h :| h in s.handlers && h.dest == n {
        HandlerForIff(s, n, h);
      }
    }
  }

  lemma UpType(s: State, h: Handler)
    requires Agreement(s) && h in s.handlers
    ensures h.dest in s.groups && s.groups[h.dest].linkType == Group.LT_DEXTRA && HasHandler(s, h.dest)
  {
    assert Agrees(s.groups[h.dest], h);
  }

  lemma SweptLink(s: State, e: Event, reflector: string, n: string)
    requires Agreement(s) && Known(s, e) && n in s.groups && Fits(e) && !e.RemoteLink? && !e.DcsCalls?
    requires reflector == if e.RemoteUnlink? then s.groups[e.name].reflector else ""
    requires forall h | h in s.handlers && h.dest == n :: Timed(h)
    ensures n in Sweep(s.groups, s.handlers, e, reflector).0.groups
    ensures var (g, k) := (s.groups[n], Sweep(s.groups, s.handlers, e, reflector).0.groups[n]);
            && k == g.(status := k.status)
            && k.status == if HandlerFor(s, n).Some? then Turned(g, HandlerFor(s, n).value, e) else g.status
  {
    hide Visit, Sweep, Agrees, Turned;
    AgreementDistinct(s);
    if h :| h in s.handlers && h.dest == n {
      HandlerForIff(s, n, h);
      OnlyHandler(s, h);
      SameReflector(s, h);
      SweepResult(s.groups, s.handlers, e, reflector);
      TurnReflector(e, reflector, s.groups[n], h);
      VisitTurned(s.groups[n], h, e);
    } else {
      NobodySwept(s, e, reflector, n);
    }
  }

  lemma VisitTurned(g: GroupLink, h: Handler, e: Event)
    requires Agrees(g, h) && Timed(h) && Fits(e)
    ensures Visit(e, h.reflector, g, h).group == g.(status := Turned(g, h, e))
  {
    hide Ticks.WithTimeout, Backoff.Delay;
  }

  // ---- what a handler sends, and what it is afterwards ----

  /** A new stream over a link that is up and has none. */
  predicate Accepts(h: Handler, e: Event) {
    && e.HeaderArrives? && h.state == DEXTRA_LINKED && From(h, e.addr, e.port)
    && (h.reflector == e.rpt1 || h.reflector == e.rpt2) && h.id == 0
  }

  /** A frame of the stream that the link has. */
  predicate Carries(h: Handler, e: Event) {
    e.VoiceArrives? && h.state == DEXTRA_LINKED && From(h, e.addr, e.port) && h.id == e.id
  }

  predicate SameSeven(a: string, b: string) {
    if |a| >= 7 && |b| >= 7 then a[..7] == b[..7] else a == b
  }

  /** A sign of life from the reflector. */
  predicate Alive(h: Handler, e: Event) {
    || Carries(h, e)
    || (e.PollArrives? && h.state == DEXTRA_LINKED && From(h, e.addr, e.port) && SameSeven(h.reflector, e.reflector))
  }

  /** The reflector's gateway, padded with spaces, is the first seven characters of
      its name. */
  predicate Moves(h: Handler, e: Event) {
    && e.GatewayMoved? && |h.reflector| >= 7
    && forall i | 0 <= i < 7 :: h.reflector[i] == if i < |e.gateway| then e.gateway[i] else ' '
  }

  predicate StreamStops(h: Handler, e: Event) {
    || Silent(h, e) || (Carries(h, e) && e.end)
    || (e.Clocked? && h.id != 0 && h.inactivity.timer + e.ms > 2000)
  }

  /** What goes out: to the reflector a connect at every try, a poll every ten
      seconds and a disconnect; to the group its stream, whose header is repeated with
      every frame 0, and an end when it is unlinked in mid-stream. */
  function Sends(h: Handler, e: Event): seq<Sent> {
    match e
    case RemoteUnlink(name) =>
      if name != h.dest then []
      else [Disconnect(h.dest, h.addr)] + if h.id != 0 then [GroupVoice(h.dest, h.id, true)] else []
    case HeaderArrives(_, _, id, _, _) => if Accepts(h, e) then [GroupHeader(h.dest, id)] else []
    case VoiceArrives(_, _, id, frame, end) =>
      if !Carries(h, e) then []
      else (if frame == 0 && id != 0 then [GroupHeader(h.dest, id)] else []) + [GroupVoice(h.dest, id, end)]
    case Clocked(ms) =>
      if Silent(h, e) then [Connect(h.dest, h.reflector, h.addr)]
      else if h.state == DEXTRA_LINKED then (if h.poll.timer + ms > 10000 then [Poll(h.dest, h.addr)] else [])
      else if h.retry.timer > 0 && h.retry.timer + ms >= h.retry.timeout then [Connect(h.dest, h.reflector, h.addr)]
      else []
    case _ => []
  }

  predicate Becomes(h: Handler, e: Event, k: Handler) {
    && k.dest == h.dest && k.reflector == h.reflector && k.repeater == h.repeater && k.port == h.port
    && k.addr == (if Moves(h, e) then e.addr else h.addr)
    && k.state == (if Acked(h, e) then DEXTRA_LINKED else if Silent(h, e) then DEXTRA_LINKING else h.state)
    && k.window.timer == (if Alive(h, e) || Silent(h, e) then 1
                          else if e.Clocked? then h.window.timer + e.ms else h.window.timer)
    && k.id == (if Accepts(h, e) then e.id else if StreamStops(h, e) then 0 else h.id)
    && (Acked(h, e) ==> k.poll.timer == 1 && k.retry.timer == 0)
    && (h.state == k.state == DEXTRA_LINKED && e.Clocked? ==>
          k.poll.timer == if h.poll.timer + e.ms > 10000 then 1 else h.poll.timer + e.ms)
    && (k.id != 0 ==> k.inactivity.timer == if Accepts(h, e) || Carries(h, e) then 1
                                            else if e.Clocked? then h.inactivity.timer + e.ms else h.inactivity.timer)
  }

  /** Every event sends exactly this for the group of a handler, and leaves it so if
      it leaves it at all. */
  lemma SendsIff(s: State, e: Event, h: Handler)
    requires Agreement(s) && Known(s, e) && h in s.handlers && Timed(h) && Paced(h) && Fits(e)
    requires e.HeaderArrives? ==> e.id != 0
    ensures Wf(s)
    ensures For(Step(s, e).1, h.dest) == Sends(h, e)
    ensures forall k | k in Step(s, e).0.handlers && k.dest == h.dest :: Becomes(h, e, k) && Timed(k)
  {
    hide Visit, Sweep, OnRemoteLink, Sends, Becomes, Paced;
    AgreementWf(s);
    OnlyHandler(s, h);
    Turn(s, e, h);
    VisitSends(s.groups[h.dest], h, e);
    StepDistinct(s, e);
    forall k | k in Step(s, e).0.handlers && k.dest == h.dest
      ensures Becomes(h, e, k) && Timed(k)
    {
      HandlerForIff(Step(s, e).0, h.dest, k);
      VisitBecomes(s.groups[h.dest], h, e);
    }
  }

  lemma VisitSends(g: GroupLink, h: Handler, e: Event)
    requires Agrees(g, h) && Timed(h) && Paced(h) && Fits(e)
    ensures Visit(e, h.reflector, g, h).sent == Sends(h, e)
  {
    hide OnClock, Backoff.Delay;
    if e.Clocked? {
      ClockSends(g, h, e.ms);
    }
  }

  lemma ClockSends(g: GroupLink, h: Handler, ms: nat)
    requires Agrees(g, h) && Timed(h) && Paced(h) && ms + 60001 < U32
    ensures OnClock(g, h, ms).sent == Sends(h, Clocked(ms))
  {
    hide OnWindowEnd, OnTick, Sends, Paced;
    var t := h.(retry := h.retry.Clocked(ms), poll := h.poll.Clocked(ms),
                inactivity := h.inactivity.Clocked(ms), window := h.window.Clocked(ms));
    WindowIsOver(h, ms);
    if Silent(h, Clocked(ms)) {
      EndSends(g, h, t, ms);
    } else {
      TickSends(g, h, t, ms);
    }
  }

  lemma EndSends(g: GroupLink, h: Handler, t: Handler, ms: nat)
    requires Agrees(g, h) && Silent(h, Clocked(ms))
    requires t == h.(retry := h.retry.Clocked(ms), poll := h.poll.Clocked(ms),
                     inactivity := h.inactivity.Clocked(ms), window := h.window.Clocked(ms))
    ensures OnWindowEnd(g, t).sent == Sends(h, Clocked(ms))
  {
    hide Ticks.WithTimeout;
  }

  lemma TickSends(g: GroupLink, h: Handler, t: Handler, ms: nat)
    requires Agrees(g, h) && Timed(h) && Paced(h) && ms + 60001 < U32 && !Silent(h, Clocked(ms))
    requires t == h.(retry := h.retry.Clocked(ms), poll := h.poll.Clocked(ms),
                     inactivity := h.inactivity.Clocked(ms), window := h.window.Clocked(ms))
    ensures OnTick(g, t).sent == Sends(h, Clocked(ms))
  {
    hide Backoff.Delay, Ticks.WithTimeout, Backoff.Pow2;
  }

  lemma VisitBecomes(g: GroupLink, h: Handler, e: Event)
    requires Agrees(g, h) && Timed(h) && Fits(e) && (e.HeaderArrives? ==> e.id != 0)
    ensures var o := Visit(e, h.reflector, g, h); o.kept.Some? ==> Becomes(h, e, o.kept.value) && Timed(o.kept.value)
  {
    hide OnClock, Backoff.Delay;
    if e.Clocked? {
      ClockBecomes(g, h, e.ms);
    } else if e.GatewayMoved? {
      MoveBecomes(h, e);
    } else if e.ConnectArrives? {
      ConnectBecomes(g, h, e);
    }
  }

  lemma MoveBecomes(h: Handler, e: Event)
    requires Timed(h) && e.GatewayMoved?
    ensures Becomes(h, e, OnMove(h, e.gateway, e.addr)) && Timed(OnMove(h, e.gateway, e.addr))
  {
  }

  lemma ConnectBecomes(g: GroupLink, h: Handler, e: Event)
    requires Timed(h) && e.ConnectArrives?
    ensures var o := OnConnect(g, h, e.kind, e.addr, e.port, e.repeater);
            o.kept.Some? ==> Becomes(h, e, o.kept.value) && Timed(o.kept.value)
  {
  }

  lemma ClockBecomes(g: GroupLink, h: Handler, ms: nat)
    requires Agrees(g, h) && Timed(h) && ms + 60001 < U32
    ensures var o := OnClock(g, h, ms);
            o.kept.Some? ==> Becomes(h, Clocked(ms), o.kept.value) && Timed(o.kept.value)
  {
    hide OnWindowEnd, OnTick, Becomes, Timed;
    var t := h.(retry := h.retry.Clocked(ms), poll := h.poll.Clocked(ms),
                inactivity := h.inactivity.Clocked(ms), window := h.window.Clocked(ms));
    WindowIsOver(h, ms);
    if Silent(h, Clocked(ms)) {
      EndBecomes(g, h, t, ms);
    } else {
      TickBecomes(g, h, t, ms);
    }
  }

  lemma WindowIsOver(h: Handler, ms: nat)
    requires Timed(h) && ms + 60001 < U32
    ensures Silent(h, Clocked(ms)) <==> h.window.Clocked(ms).Running() && h.window.Clocked(ms).Expired()
  {
  }

  lemma EndBecomes(g: GroupLink, h: Handler, t: Handler, ms: nat)
    requires Timed(h) && ms + 60001 < U32 && Silent(h, Clocked(ms))
    requires t == h.(retry := h.retry.Clocked(ms), poll := h.poll.Clocked(ms),
                     inactivity := h.inactivity.Clocked(ms), window := h.window.Clocked(ms))
    ensures var o := OnWindowEnd(g, t);
            o.kept.Some? ==> Becomes(h, Clocked(ms), o.kept.value) && Timed(o.kept.value)
  {
    hide Ticks.WithTimeout;
  }

  lemma TickBecomes(g: GroupLink, h: Handler, t: Handler, ms: nat)
    requires Timed(h) && ms + 60001 < U32 && !Silent(h, Clocked(ms))
    requires t == h.(retry := h.retry.Clocked(ms), poll := h.poll.Clocked(ms),
                     inactivity := h.inactivity.Clocked(ms), window := h.window.Clocked(ms))
    ensures var o := OnTick(g, t);
            o.kept.Some? && Becomes(h, Clocked(ms), o.kept.value) && Timed(o.kept.value)
  {
    hide Backoff.Delay, Ticks.WithTimeout;
  }

  /** Between a disconnect and the next link a group may have no handler; whatever
      handler it has keeps its timers in their windows. */
  lemma StepTimed(s: State, e: Event)
    requires Agreement(s) && Known(s, e) && AllTimed(s) && AllPaced(s) && Fits(e) && (e.HeaderArrives? ==> e.id != 0)
    ensures Wf(s) && AllTimed(Step(s, e).0)
  {
    hide Agreement, Step, Becomes, Sends, Timed, Paced, For;
    AgreementWf(s);
    forall k | k in Step(s, e).0.handlers
      ensures Timed(k)
    {
      if h :| h in s.handlers && h.dest == k.dest {
        SendsIff(s, e, h);
      } else {
        OnlyKnown(s, e, k);
        NewIff(s, e, k.dest);
      }
    }
  }

  lemma OnlyKnown(s: State, e: Event, k: Handler)
    requires Agreement(s) && Known(s, e) && Wf(s) && k in Step(s, e).0.handlers
             && (forall h | h in s.handlers :: h.dest != k.dest)
    ensures k.dest in s.groups && !HasHandler(s, k.dest)
  {
    hide Sweep, Visit, Agrees;
    var n := k.dest;
    if n !in s.groups || !e.RemoteLink? {
      AgreementDistinct(s);
      if !e.RemoteLink? && !e.DcsCalls? {
        var r := if e.RemoteUnlink? then s.groups[e.name].reflector else "";
        SweepResult(s.groups, s.handlers, e, r);
        if k in Sweep(s.groups, s.handlers, e, r).0.handlers {
          var h :| h in s.handlers && Visit(e, r, s.groups[h.dest], h).kept == Some(k);
          VisitKeepsDest(e, r, s.groups[h.dest], h);
        }
      }
    }
  }

  lemma {:induction false} AlwaysTimed(s: State, es: seq<Event>)
    requires Agreement(s) && AllTimed(s) && AllPaced(s) && Undisturbed(s, es)
    requires forall e | e in es :: Fits(e) && (e.HeaderArrives? ==> e.id != 0)
    ensures AllTimed(Run(s, es)) && AllPaced(Run(s, es))
    decreases |es|
  {
    hide Agreement, Step, AllTimed, AllPaced;
    if es != [] {
      assert es[0] in es && forall e | e in es[1..] :: e in es;
      StepWf(s, es[0]);
      StepTimed(s, es[0]);
      StepPaced(s, es[0]);
      AlwaysTimed(Step(s, es[0]).0, es[1..]);
    }
  }

  lemma {:induction false} BootTimed(s: State, names: seq<string>, found: map<string, string>, pooled: set<string>)
    requires AllTimed(s) && forall n | n in names :: n in s.groups && n in found
    ensures AllTimed(Boot(s, names, found, pooled))
    decreases |names|
  {
    if names != [] {
      var n := names[0];
      assert n in names && forall m | m in names[1..] :: m in names;
      BootTimed(LinkInt(s, n, found[n], n in pooled).0, names[1..], found, pooled);
    }
  }

  /** So from the start of the program on, in every run, every handler's timers are
      in their windows, as the theorems about single events assume. */
  lemma StartedTimed(groups: map<string, GroupLink>, names: seq<string>, found: map<string, string>,
                     pooled: set<string>, es: seq<Event>)
    requires (forall n | n in groups :: groups[n].status == LS_NONE)
    requires forall n | n in names :: n in groups && n in found
    requires forall i, j | 0 <= i < j < |names| :: names[i] != names[j]
    requires forall e | e in es :: Fits(e) && (e.HeaderArrives? ==> e.id != 0)
    ensures var s := Boot(State(groups, []), names, found, pooled);
            && Agreement(s)
            && (Undisturbed(s, es) ==> Agreement(Run(s, es)) && AllTimed(Run(s, es)) && AllPaced(Run(s, es)))
  {
    hide Agreement, Undisturbed, Run, Boot, Paced, Timed;
    StartedAndPaced(groups, names, found, pooled, []);
    BootTimed(State(groups, []), names, found, pooled);
    var s := Boot(State(groups, []), names, found, pooled);
    if Undisturbed(s, es) {
      AlwaysTimed(s, es);
    }
  }

  // ---- a link that is kept alive stays up ----

  /** The reflector disconnects the link of group n, or remote control unlinks it. */
  ghost predicate Interrupts(s: State, e: Event, n: string) {
    e == RemoteUnlink(n) || exists h :: h in s.handlers && h.dest == n && CutOff(h, e)
  }

  ghost predicate Uninterrupted(s: State, es: seq<Event>, n: string)
    requires Agreement(s) && Undisturbed(s, es)
    decreases |es|
  {
    es == []
    || (!Interrupts(s, es[0], n) && (StepWf(s, es[0]); Uninterrupted(Step(s, es[0]).0, es[1..], n)))
  }

  /** The time since the last sign of life, after one more event. */
  ghost function Since(s: State, e: Event, n: string, since: nat): nat {
    if exists h :: h in s.handlers && h.dest == n && Alive(h, e) then 0
    else if e.Clocked? then since + e.ms else since
  }

  /** A minute passes between two signs of life. */
  ghost predicate Starves(s: State, es: seq<Event>, n: string, since: nat)
    requires Agreement(s) && Undisturbed(s, es)
    decreases |es|
  {
    es != []
    && ((es[0].Clocked? && since + es[0].ms >= 60000)
        || (StepWf(s, es[0]); Starves(Step(s, es[0]).0, es[1..], n, Since(s, es[0], n, since))))
  }

  /** At some point of the run the link of group n is not up. */
  ghost predicate Drops(s: State, es: seq<Event>, n: string)
    requires Agreement(s) && Undisturbed(s, es)
    decreases |es|
  {
    (n in s.groups && s.groups[n].status != LS_LINKED_DEXTRA)
    || (es != [] && (StepWf(s, es[0]); Drops(Step(s, es[0]).0, es[1..], n)))
  }

  /** Over any run that nobody interrupts a link goes down exactly when the reflector
      is silent for a minute. */
  lemma {:induction false} StaysUpIff(s: State, es: seq<Event>, h: Handler, since: nat)
    requires Agreement(s) && Undisturbed(s, es) && Uninterrupted(s, es, h.dest)
    requires h in s.handlers && h.state == DEXTRA_LINKED && Timed(h) && h.window.timer == 1 + since
    requires forall e | e in es :: Fits(e) && (e.HeaderArrives? ==> e.id != 0)
    ensures Drops(s, es, h.dest) <==> Starves(s, es, h.dest, since)
    decreases |es|
  {
    hide Agreement, Step, Becomes, Timed, Agrees;
    LinkedUp(s, h);
    if es != [] {
      var e := es[0];
      assert e in es && forall f | f in es[1..] :: f in es;
      StepWf(s, e);
      StaysUpStep(s, e, h, since);
      var t := Step(s, e).0;
      if !(e.Clocked? && since + e.ms >= 60000) {
        var k :| k in t.handlers && k.dest == h.dest;
        StaysUpIff(t, es[1..], k, Since(s, e, h.dest, since));
      }
    }
  }

  lemma LinkedUp(s: State, h: Handler)
    requires Agreement(s) && h in s.handlers && h.state == DEXTRA_LINKED
    ensures h.dest in s.groups && s.groups[h.dest].status == LS_LINKED_DEXTRA
  {
    assert Agrees(s.groups[h.dest], h);
  }

  lemma StaysUpStep(s: State, e: Event, h: Handler, since: nat)
    requires Agreement(s) && Known(s, e) && !Disturbs(s, e) && !Interrupts(s, e, h.dest)
    requires h in s.handlers && h.state == DEXTRA_LINKED && Timed(h) && h.window.timer == 1 + since
    requires Fits(e) && (e.HeaderArrives? ==> e.id != 0)
    ensures Wf(s) && h.dest in Step(s, e).0.groups
    ensures Step(s, e).0.groups[h.dest].status != LS_LINKED_DEXTRA <==> e.Clocked? && since + e.ms >= 60000
    ensures HasHandler(Step(s, e).0, h.dest)
    ensures forall k | k in Step(s, e).0.handlers && k.dest == h.dest && !(e.Clocked? && since + e.ms >= 60000) ::
              k.state == DEXTRA_LINKED && Timed(k) && k.window.timer == 1 + Since(s, e, h.dest, since)
  {
    hide Sweep, Visit, OnRemoteLink, OnRemoteUnlink, OnDcs, Sends;
    OnlyHandler(s, h);
    DownIff(s, e, h);
    GoneIff(s, e, h);
    SendsIff(s, e, h);
    UpType(s, h);
  }

  // ---- from the reflector to the repeaters ----

  /** Frames of a stream as the reflector sends them, and its last. */
  function Talk(addr: string, port: nat, id: nat, frames: seq<nat>, last: nat): seq<Event> {
    if frames == [] then [VoiceArrives(addr, port, id, last, true)]
    else [VoiceArrives(addr, port, id, frames[0], false)] + Talk(addr, port, id, frames[1..], last)
  }

  /** And as the group gets them, with the header again before every frame 0. */
  function Relayed(n: string, id: nat, frames: seq<nat>, last: nat): seq<Sent> {
    if frames == [] then Repeated(n, id, last) + [GroupVoice(n, id, true)]
    else Repeated(n, id, frames[0]) + [GroupVoice(n, id, false)] + Relayed(n, id, frames[1..], last)
  }

  function Repeated(n: string, id: nat, frame: nat): seq<Sent> {
    if frame == 0 then [GroupHeader(n, id)] else []
  }

  /** Everything sent in a run. */
  ghost function RunSent(s: State, es: seq<Event>): seq<Sent>
    requires Agreement(s) && Undisturbed(s, es)
    decreases |es|
  {
    if es == [] then []
    else
      StepWf(s, es[0]);
      Step(s, es[0]).1 + RunSent(Step(s, es[0]).0, es[1..])
  }

  /** The link of group n is up and has stream id, or none if that is zero. */
  ghost predicate Has(s: State, n: string, addr: string, port: nat, reflector: string, id: nat) {
    exists h :: h in s.handlers && h.dest == n && h.state == DEXTRA_LINKED && Timed(h)
                && h.addr == addr && h.port == port && h.reflector == reflector && h.id == id
  }

  lemma FrameSent(s: State, n: string, addr: string, port: nat, reflector: string, id: nat, frame: nat, end: bool)
    requires Agreement(s) && id != 0 && Has(s, n, addr, port, reflector, id)
    ensures var e := VoiceArrives(addr, port, id, frame, end);
            && Known(s, e) && !Disturbs(s, e) && Wf(s)
            && For(Step(s, e).1, n) == Repeated(n, id, frame) + [GroupVoice(n, id, end)]
            && Has(Step(s, e).0, n, addr, port, reflector, if end then 0 else id)
  {
    hide Sweep, Visit, OnRemoteLink, OnRemoteUnlink, OnDcs;
    var e := VoiceArrives(addr, port, id, frame, end);
    var h :| h in s.handlers && h.dest == n && h.state == DEXTRA_LINKED && Timed(h)
             && h.addr == addr && h.port == port && h.reflector == reflector && h.id == id;
    SendsIff(s, e, h);
    GoneIff(s, e, h);
    var k :| k in Step(s, e).0.handlers && k.dest == n;
    assert Becomes(h, e, k);
  }

  lemma HeaderSent(s: State, n: string, addr: string, port: nat, reflector: string, id: nat, rpt: string)
    requires Agreement(s) && id != 0 && Has(s, n, addr, port, reflector, 0)
    ensures var e := HeaderArrives(addr, port, id, reflector, rpt);
            && Known(s, e) && !Disturbs(s, e) && Wf(s)
            && For(Step(s, e).1, n) == [GroupHeader(n, id)]
            && Has(Step(s, e).0, n, addr, port, reflector, id)
  {
    hide Sweep, Visit, OnRemoteLink, OnRemoteUnlink, OnDcs;
    var e := HeaderArrives(addr, port, id, reflector, rpt);
    var h :| h in s.handlers && h.dest == n && h.state == DEXTRA_LINKED && Timed(h)
             && h.addr == addr && h.port == port && h.reflector == reflector && h.id == 0;
    SendsIff(s, e, h);
    GoneIff(s, e, h);
    var k :| k in Step(s, e).0.handlers && k.dest == n;
    assert Becomes(h, e, k);
  }

  lemma {:induction false} TalkSent(s: State, n: string, addr: string, port: nat, reflector: string, id: nat,
                                    frames: seq<nat>, last: nat)
    requires Agreement(s) && id != 0 && Has(s, n, addr, port, reflector, id)
    ensures var es := Talk(addr, port, id, frames, last);
            && Undisturbed(s, es) && For(RunSent(s, es), n) == Relayed(n, id, frames, last)
            && Has(Run(s, es), n, addr, port, reflector, 0)
    decreases |frames|
  {
    hide Agreement, Step, Has, For;
    var es := Talk(addr, port, id, frames, last);
    var e := es[0];
    FrameSent(s, n, addr, port, reflector, id, e.frame, e.end);
    StepWf(s, e);
    var t := Step(s, e).0;
    if frames == [] {
      assert es[1..] == [] && RunSent(t, es[1..]) == [];
      assert RunSent(s, es) == Step(s, e).1;
    } else {
      assert es[1..] == Talk(addr, port, id, frames[1..], last);
      TalkSent(t, n, addr, port, reflector, id, frames[1..], last);
      ForConcat(Step(s, e).1, RunSent(t, es[1..]), n);
    }
  }

  /** What is sent to a group, delivered to it in order. */
  function Passed(g: Group.State, sent: seq<Sent>, cs: Pair): (Group.State, seq<Group.Out>)
    decreases |sent|
  {
    if sent == [] then (g, [])
    else
      var (u, out) := PassedOne(g, sent[0], cs);
      var (v, more) := Passed(u, sent[1..], cs);
      (v, out + more)
  }

  function PassedOne(g: Group.State, o: Sent, cs: Pair): (Group.State, seq<Group.Out>) {
    match o
    case GroupHeader(_, id) => Group.RefHeader(g, id, cs)
    case GroupVoice(_, id, end) => Group.RefVoice(g, id, end)
    case _ => (g, [])
  }

  lemma {:induction false} PassedConcat(g: Group.State, a: seq<Sent>, b: seq<Sent>, cs: Pair)
    ensures var (u, out) := Passed(g, a, cs);
            var (v, more) := Passed(u, b, cs);
            Passed(g, a + b, cs) == (v, out + more)
    decreases |a|
  {
    hide PassedOne;
    if a == [] {
      assert a + b == b;
      assert [] + Passed(g, b, cs).1 == Passed(g, b, cs).1;
    } else {
      assert (a + b)[0] == a[0] && (a + b)[1..] == a[1..] + b;
      var (u, first) := PassedOne(g, a[0], cs);
      PassedConcat(u, a[1..], b, cs);
      var (v, out) := Passed(u, a[1..], cs);
      assert first + (out + Passed(v, b, cs).1) == (first + out) + Passed(v, b, cs).1;
    }
  }

  /** n voice frames for a repeater. */
  function Frames(to: Group.Dest, id: nat, n: nat): seq<Group.Out> {
    seq(n, i requires 0 <= i => Group.Sent(Group.FromReflector, to, id, Group.Voice))
  }

  ghost predicate Relaying(g: Group.State, id: nat, reps: map<string, Group.Repeater>) {
    g.floor == id && g.repeaters == reps && !Group.LoginRecord(g, id)
  }

  lemma FramePasses(g: Group.State, n: string, id: nat, frame: nat, end: bool, cs: Pair,
                    reps: map<string, Group.Repeater>, k: string)
    requires id != 0 && Relaying(g, id, reps) && k in reps
    ensures var (t, out) := Passed(g, Repeated(n, id, frame) + [GroupVoice(n, id, end)], cs);
            && GroupFanOut.Line(out, Some(k)) == Frames(Group.ToRepeater(k, reps[k].addr), id, 1)
            && (if end then t.floor == 0 else Relaying(t, id, reps))
  {
    hide Group.Relay, GroupFanOut.Line;
    var frames := Repeated(n, id, frame) + [GroupVoice(n, id, end)];
    var (t, out) := Group.RefVoice(g, id, end);
    GroupFanOut.RefVoiceLine(g, id, end, Some(k));
    var voice := [GroupVoice(n, id, end)];
    assert voice[1..] == [] && Passed(t, voice[1..], cs) == (t, []);
    assert Passed(g, voice, cs) == (t, out + []) && out + [] == out;
    if frame == 0 {
      assert frames[0] == GroupHeader(n, id) && frames[1..] == voice;
      assert Passed(g, frames, cs) == (t, [] + out) && [] + out == out;
    } else {
      assert frames == voice;
    }
  }

  lemma {:induction false} TalkPasses(g: Group.State, n: string, id: nat, frames: seq<nat>, last: nat, cs: Pair,
                                      reps: map<string, Group.Repeater>, k: string)
    requires id != 0 && Relaying(g, id, reps) && k in reps
    ensures var (t, out) := Passed(g, Relayed(n, id, frames, last), cs);
            && t.floor == 0
            && GroupFanOut.Line(out, Some(k)) == Frames(Group.ToRepeater(k, reps[k].addr), id, |frames| + 1)
    decreases |frames|
  {
    hide Passed, GroupFanOut.Line, Relaying, Repeated;
    if frames == [] {
      FramePasses(g, n, id, last, true, cs, reps, k);
    } else {
      FramePasses(g, n, id, frames[0], false, cs, reps, k);
      var first := Repeated(n, id, frames[0]) + [GroupVoice(n, id, false)];
      var (t, out) := Passed(g, first, cs);
      TalkPasses(t, n, id, frames[1..], last, cs, reps, k);
      PassedConcat(g, first, Relayed(n, id, frames[1..], last), cs);
      GroupFanOut.LineConcat(out, Passed(t, Relayed(n, id, frames[1..], last), cs).1, Some(k));
    }
  }

  /** A whole stream from the reflector over a link that is up, into a group whose
      floor is free: each repeater at which a subscriber was located gets its header,
      twenty-one frames of text and every voice frame, once and in order, and then the
      floor is free again. */
  lemma StreamArrives(s: State, n: string, addr: string, port: nat, reflector: string, rpt: string, id: nat,
                      frames: seq<nat>, last: nat, g: Group.State, cs: Pair, k: string)
    requires Agreement(s) && id != 0 && Has(s, n, addr, port, reflector, 0)
    requires Group.Wf(g) && g.floor == 0 && !Group.LoginRecord(g, id)
    requires k in g.repeaters || GroupFanOut.Wanted(g, cs, k)
    ensures var es := [HeaderArrives(addr, port, id, reflector, rpt)] + Talk(addr, port, id, frames, last);
            && Undisturbed(s, es)
            && var (t, out) := Passed(g, For(RunSent(s, es), n), cs);
            && t.floor == 0
            && k in Group.RefHeader(g, id, cs).0.repeaters
            && var to := Group.ToRepeater(k, Group.RefHeader(g, id, cs).0.repeaters[k].addr);
            GroupFanOut.Line(out, Some(k))
            == GroupFrames.Opening(Group.FromReflector, to, id, true) + Frames(to, id, |frames| + 1)
  {
    hide Agreement, Step, Has, For, Passed, Talk, Relayed, GroupFanOut.Line, Group.RefHeader, GroupFanOut.Wanted,
         Group.FanOut, GroupFrames.Opening, Frames, Sorted;
    var e := HeaderArrives(addr, port, id, reflector, rpt);
    var talk := Talk(addr, port, id, frames, last);
    var es := [e] + talk;
    HeaderSent(s, n, addr, port, reflector, id, rpt);
    StepWf(s, e);
    var t := Step(s, e).0;
    TalkSent(t, n, addr, port, reflector, id, frames, last);
    assert es[0] == e && es[1..] == talk;
    ForConcat(Step(s, e).1, RunSent(t, talk), n);
    GroupFanOut.RefTakes(g, id, cs);
    GroupFanOut.FanOutWanted(g, cs, None, k);
    var v := Group.RefHeader(g, id, cs).0;
    HeaderPasses(g, n, id, cs, k);
    TalkPasses(v, n, id, frames, last, cs, v.repeaters, k);
    PassedConcat(g, [GroupHeader(n, id)], Relayed(n, id, frames, last), cs);
    GroupFanOut.LineConcat(Group.RefHeader(g, id, cs).1, Passed(v, Relayed(n, id, frames, last), cs).1, Some(k));
  }

  lemma HeaderPasses(g: Group.State, n: string, id: nat, cs: Pair, k: string)
    requires g.floor == 0 && !Group.LoginRecord(g, id) && k in Group.RefHeader(g, id, cs).0.repeaters
    ensures Passed(g, [GroupHeader(n, id)], cs) == Group.RefHeader(g, id, cs)
    ensures var (v, out) := Group.RefHeader(g, id, cs);
            && Relaying(v, id, v.repeaters)
            && GroupFanOut.Line(out, Some(k))
               == GroupFrames.Opening(Group.FromReflector, Group.ToRepeater(k, v.repeaters[k].addr), id, true)
  {
    hide Group.FanOut, Sorted, Group.Relay, Group.Texts, GroupFanOut.Line, GroupFrames.Opening;
    GroupFrames.RefLine(g, id, cs, Some(k));
    var one := [GroupHeader(n, id)];
    var (v, out) := Group.RefHeader(g, id, cs);
    assert one[1..] == [] && Passed(v, one[1..], cs) == (v, []) && out + [] == out;
  }

  /** From the start of the program: the reflector accepts the link that was asked
      for, and a stream over it reaches the repeaters. */
  lemma BootDelivers(name: string, repeater: string, reflector: string, found: string, rpt: string, id: nat,
                     frames: seq<nat>, last: nat, g: Group.State, cs: Pair, k: string)
    requires found != "" && id != 0
    requires Group.Wf(g) && g.floor == 0 && !Group.LoginRecord(g, id)
    requires k in g.repeaters || GroupFanOut.Wanted(g, cs, k)
    ensures var s := Boot(State(map[name := GroupLink(repeater, Group.LT_DEXTRA, reflector, LS_NONE)], []),
                          [name], map[name := found], {name});
            var ack := ConnectArrives(CT_ACK, found, 30001, repeater);
            && Agreement(s) && Known(s, ack) && !Disturbs(s, ack)
            && var t := Step(s, ack).0;
            && Agreement(t) && name in t.groups && t.groups[name].status == LS_LINKED_DEXTRA && Carried(t, name)
            && var es := [HeaderArrives(found, 30001, id, reflector, rpt)] + Talk(found, 30001, id, frames, last);
            && Undisturbed(t, es)
            && var (v, out) := Passed(g, For(RunSent(t, es), name), cs);
            && v.floor == 0
            && k in Group.RefHeader(g, id, cs).0.repeaters
            && var to := Group.ToRepeater(k, Group.RefHeader(g, id, cs).0.repeaters[k].addr);
            GroupFanOut.Line(out, Some(k))
            == GroupFrames.Opening(Group.FromReflector, to, id, true) + Frames(to, id, |frames| + 1)
  {
    hide Agreement, Step, Has, For, Passed, Talk, GroupFanOut.Line, Group.RefHeader, GroupFanOut.Wanted,
         GroupFrames.Opening, Frames, Boot, Undisturbed, RunSent, Disturbs, Carried;
    var groups := map[name := GroupLink(repeater, Group.LT_DEXTRA, reflector, LS_NONE)];
    BootAcked(name, repeater, reflector, found);
    var s := Boot(State(groups, []), [name], map[name := found], {name});
    AgreementWf(s);
    var t := Step(s, ConnectArrives(CT_ACK, found, 30001, repeater)).0;
    StreamArrives(t, name, found, 30001, reflector, rpt, id, frames, last, g, cs, k);
  }

  lemma BootAcked(name: string, repeater: string, reflector: string, found: string)
    requires found != ""
    ensures var s := Boot(State(map[name := GroupLink(repeater, Group.LT_DEXTRA, reflector, LS_NONE)], []),
                          [name], map[name := found], {name});
            var ack := ConnectArrives(CT_ACK, found, 30001, repeater);
            && Agreement(s) && Known(s, ack) && !Disturbs(s, ack)
            && var t := Step(s, ack).0;
            && Agreement(t) && name in t.groups && t.groups[name].status == LS_LINKED_DEXTRA && Carried(t, name)
            && Has(t, name, found, 30001, reflector, 0)
  {
    hide Agreement, Sweep, Visit, Carried, Backoff.InPhase;
    var groups := map[name := GroupLink(repeater, Group.LT_DEXTRA, reflector, LS_NONE)];
    FreshAgrees(groups);
    BootAgrees(State(groups, []), [name], map[name := found], {name});
    var s := Boot(State(groups, []), [name], map[name := found], {name});
    var h := NewHandler(name, groups[name], found);
    assert s.handlers == [h] && s.groups[name].status == LS_LINKING_DEXTRA;
    assert h in s.handlers;
    var ack := ConnectArrives(CT_ACK, found, 30001, repeater);
    AgreementWf(s);
    NewPaced(name, groups[name], found);
    StepWf(s, ack);
    UpIff(s, ack, name);
    GoneIff(s, ack, h);
    SendsIff(s, ack, h);
    var k :| k in Step(s, ack).0.handlers && k.dest == name;
    assert Becomes(h, ack, k);
  }

  // ---- unlinking in mid-stream ----

  /** Unlinking a group in mid-stream: once what is sent to it has been delivered,
      the stream that came in over the link no longer has the floor. */
  lemma UnlinkEndsStream(s: State, h: Handler, g: Group.State, cs: Pair)
    requires Agreement(s) && h in s.handlers && h.id != 0 && Timed(h) && Paced(h) && g.floor == h.id
    ensures Known(s, RemoteUnlink(h.dest)) && Wf(s)
    ensures For(Step(s, RemoteUnlink(h.dest)).1, h.dest) == [Disconnect(h.dest, h.addr), GroupVoice(h.dest, h.id, true)]
    ensures Passed(g, For(Step(s, RemoteUnlink(h.dest)).1, h.dest), cs).0.floor == 0
  {
    hide Step, For, Group.Relay, Group.Touch;
    OnlyHandler(s, h);
    UpType(s, h);
    SendsIff(s, RemoteUnlink(h.dest), h);
    var sent := [Disconnect(h.dest, h.addr), GroupVoice(h.dest, h.id, true)];
    assert sent[1..] == [GroupVoice(h.dest, h.id, true)] && sent[1..][1..] == [];
    var v := Group.RefVoice(g, h.id, true).0;
    assert Passed(v, sent[1..][1..], cs) == (v, []);
    assert Passed(g, sent, cs).0 == Passed(g, sent[1..], cs).0 == v;
  }
}
