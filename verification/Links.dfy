/** The DExtra reflector links: what each group believes of its link, and the
    link handlers that carry it. */
module Links {
  import opened Timer
  import opened Caches
  import Backoff
  import Group

  const DEXTRA_PORT := 30001
  const LONG_CALLSIGN_LENGTH := 8

  datatype LinkStatus = LS_NONE | LS_LINKING_DEXTRA | LS_LINKING_DCS | LS_LINKED_DEXTRA | LS_LINKED_DCS

  /** A group's side of its link. */
  datatype GroupLink = GroupLink(repeater: string, linkType: Group.LinkType, reflector: string, status: LinkStatus)

  datatype DExtraState = DEXTRA_LINKING | DEXTRA_LINKED | DEXTRA_UNLINKING

  /** An outgoing link; id is the stream coming in over it, 0 for none, and header
      says whether that stream's header is kept. */
  datatype Handler = Handler(
    dest: string, reflector: string, repeater: string, addr: string, port: nat,
    state: DExtraState, poll: Ticks, window: Ticks, retry: Ticks, tries: nat,
    id: nat, frame: nat, inactivity: Ticks, header: bool)

  datatype Sent =
    | Connect(dest: string, reflector: string, addr: string)
    | Disconnect(dest: string, addr: string)
    | Poll(dest: string, addr: string)
    | GroupHeader(dest: string, id: nat)
    | GroupVoice(dest: string, id: nat, end: bool)

  // ---- callbacks into the group ----

  function LinkUp(g: GroupLink): GroupLink {
    g.(status := if g.linkType == Group.LT_DEXTRA then LS_LINKED_DEXTRA else LS_LINKED_DCS)
  }

  function LinkRefused(g: GroupLink): GroupLink {
    g.(status := LS_NONE)
  }

  /** Whether to reconnect; only a link that was wanted is tried again. */
  function LinkFailed(g: GroupLink, recoverable: bool): (GroupLink, bool) {
    if !recoverable then (g.(status := LS_NONE), false)
    else if g.status == LS_NONE then (g, false)
    else (g.(status := if g.linkType == Group.LT_DEXTRA then LS_LINKING_DEXTRA else LS_LINKING_DCS), true)
  }

  // ---- events ----

  datatype ConnectKind = CT_ACK | CT_NAK | CT_UNLINK

  datatype DcsKind = DcsUp | DcsRefused | DcsFailed(recoverable: bool)

  datatype Event =
    | RemoteLink(name: string, reflector: string, found: string, pooled: bool)
    | RemoteUnlink(name: string)
    | ConnectArrives(kind: ConnectKind, addr: string, port: nat, repeater: string)
    | PollArrives(addr: string, port: nat, reflector: string)
    | HeaderArrives(addr: string, port: nat, id: nat, rpt1: string, rpt2: string)
    | VoiceArrives(addr: string, port: nat, id: nat, frame: nat, end: bool)
    | GatewayMoved(gateway: string, addr: string)
    | Clocked(ms: nat)
    | DcsCalls(name: string, call: DcsKind)

  /** groups by callsign; the handlers in the order they were made. */
  datatype State = State(groups: map<string, GroupLink>, handlers: seq<Handler>)

  /** What a handler makes of an event: its group afterwards, the handler unless
      it goes, and what it sends. */
  datatype Outcome = Outcome(group: GroupLink, kept: Option<Handler>, sent: seq<Sent>)

  function Prefix7(s: string): string {
    if |s| < 7 then s else s[..7]
  }

  /** The gateway name cut or padded to seven characters. */
  function Padded7(s: string): string {
    if |s| < 7 then s + seq(7 - |s|, _ => ' ') else s[..7]
  }

  function OnConnect(g: GroupLink, h: Handler, kind: ConnectKind, addr: string, port: nat, repeater: string): Outcome {
    if h.addr != addr || h.port != port then Outcome(g, Some(h), [])
    else
      match kind
      case CT_ACK =>
        if h.repeater != repeater || h.state != DEXTRA_LINKING then Outcome(g, Some(h), [])
        else Outcome(LinkUp(g), Some(h.(retry := h.retry.Stopped(), poll := h.poll.Started(), state := DEXTRA_LINKED)),
                     [])
      case CT_NAK =>
        if h.repeater != repeater || h.state != DEXTRA_LINKING then Outcome(g, Some(h), [])
        else Outcome(LinkRefused(g), None, [])
      case CT_UNLINK =>
        if h.reflector != repeater then Outcome(g, Some(h), [])
        else Outcome(if h.state == DEXTRA_LINKED then LinkFailed(g, false).0 else g, None, [])
  }

  function OnPoll(h: Handler, addr: string, port: nat, reflector: string): Handler {
    if Prefix7(h.reflector) == Prefix7(reflector) && h.addr == addr && h.port == port && h.state == DEXTRA_LINKED
    then h.(window := h.window.Started()) else h
  }

  function OnHeader(h: Handler, addr: string, port: nat, id: nat, rpt1: string, rpt2: string): (Handler, seq<Sent>) {
    if h.addr != addr || h.port != port || h.state != DEXTRA_LINKED then (h, [])
    else if (h.reflector != rpt2 && h.reflector != rpt1) || h.id != 0 then (h, [])
    else (h.(id := id, frame := 0, inactivity := h.inactivity.Started(), header := true), [GroupHeader(h.dest, id)])
  }

  function OnVoice(h: Handler, addr: string, port: nat, id: nat, frame: nat, end: bool): (Handler, seq<Sent>) {
    if h.addr != addr || h.port != port || h.state != DEXTRA_LINKED || h.id != id then (h, [])
    else
      var heard := h.(window := h.window.Started(), inactivity := h.inactivity.Started(), frame := frame);
      (if end then heard.(header := false, id := 0, frame := 0, inactivity := heard.inactivity.Stopped()) else heard,
       (if frame == 0 && h.header then [GroupHeader(h.dest, id)] else []) + [GroupVoice(h.dest, id, end)])
  }

  function Quiet(h: Handler): Handler {
    h.(header := false, id := 0, frame := 0)
  }

  /** A handler whose window ends asks the group whether to start over. */
  function OnWindowEnd(g: GroupLink, h: Handler): Outcome {
    var (failed, reconnect) := LinkFailed(g, true);
    var q := Quiet(h.(window := h.window.Started()));
    if reconnect then
      Outcome(failed,
              Some(q.(state := DEXTRA_LINKING, retry := q.retry.WithTimeout(TICKS_PER_SEC, 1, 0).Started(),
                      tries := 0)),
              [Connect(h.dest, h.reflector, h.addr)])
    else Outcome(failed, None, [])
  }

  /** The other timers, inside the window. */
  function OnTick(g: GroupLink, t: Handler): Outcome {
    var polls := t.poll.Running() && t.poll.Expired();
    var p := if polls then t.(poll := t.poll.Started()) else t;
    var sent: seq<Sent> := if polls && t.state == DEXTRA_LINKED then [Poll(t.dest, t.addr)] else [];
    var i := if p.inactivity.Running() && p.inactivity.Expired()
             then Quiet(p).(inactivity := p.inactivity.Stopped()) else p;
    if i.state == DEXTRA_LINKING && i.retry.Running() && i.retry.Expired() then
      Outcome(g,
              Some(i.(retry := i.retry.WithTimeout(TICKS_PER_SEC, Backoff.Delay(i.tries), 0).Started(),
                      tries := i.tries + 1)),
              sent + [Connect(t.dest, t.reflector, t.addr)])
    else Outcome(g, Some(i), sent)
  }

  function OnClock(g: GroupLink, h: Handler, ms: nat): Outcome {
    var t := h.(retry := h.retry.Clocked(ms), poll := h.poll.Clocked(ms),
                inactivity := h.inactivity.Clocked(ms), window := h.window.Clocked(ms));
    if t.window.Running() && t.window.Expired() then OnWindowEnd(g, t) else OnTick(g, t)
  }

  /** Unlinking by remote control: the handler goes at once, and a stream coming in
      over it is ended for its group. */
  function OnUnlink(g: GroupLink, h: Handler, name: string, reflector: string): Outcome {
    if h.dest != name || h.reflector != reflector then Outcome(g, Some(h), [])
    else
      var up := h.state == DEXTRA_LINKING || h.state == DEXTRA_LINKED;
      Outcome(if up then LinkFailed(g, false).0 else g, None,
              (if up then [Disconnect(h.dest, h.addr)] else [])
              + (if h.id != 0 then [GroupVoice(h.dest, h.id, true)] else []))
  }

  function OnMove(h: Handler, gateway: string, addr: string): Handler {
    if Prefix7(h.reflector) == Padded7(gateway) then h.(addr := addr) else h
  }

  /** One handler's turn. reflector is that of the group being unlinked. */
  function Visit(e: Event, reflector: string, g: GroupLink, h: Handler): Outcome {
    match e
    case RemoteUnlink(name) => OnUnlink(g, h, name, reflector)
    case ConnectArrives(kind, addr, port, repeater) => OnConnect(g, h, kind, addr, port, repeater)
    case PollArrives(addr, port, from) => Outcome(g, Some(OnPoll(h, addr, port, from)), [])
    case HeaderArrives(addr, port, id, rpt1, rpt2) =>
      var (i, sent) := OnHeader(h, addr, port, id, rpt1, rpt2);
      Outcome(g, Some(i), sent)
    case VoiceArrives(addr, port, id, frame, end) =>
      var (i, sent) := OnVoice(h, addr, port, id, frame, end);
      Outcome(g, Some(i), sent)
    case GatewayMoved(gateway, addr) => Outcome(g, Some(OnMove(h, gateway, addr)), [])
    case Clocked(ms) => OnClock(g, h, ms)
    case _ => Outcome(g, Some(h), [])
  }

  predicate Wf(s: State) {
    forall h | h in s.handlers :: h.dest in s.groups
  }

  /** Every handler in turn. */
  function Sweep(groups: map<string, GroupLink>, hs: seq<Handler>, e: Event, reflector: string): (r: (State, seq<Sent>))
    requires forall h | h in hs :: h.dest in groups
    ensures r.0.groups.Keys == groups.Keys
  {
    if hs == [] then (State(groups, []), [])
    else
      var h := hs[|hs| - 1];
      assert h in hs;
      var (front, sent) := Sweep(groups, hs[..|hs| - 1], e, reflector);
      var o := Visit(e, reflector, front.groups[h.dest], h);
      (State(front.groups[h.dest := o.group], front.handlers + if o.kept.Some? then [o.kept.value] else []),
       sent + o.sent)
  }

  // ---- linking ----

  function NewHandler(name: string, g: GroupLink, addr: string): Handler {
    Handler(name, g.reflector, g.repeater, addr, DEXTRA_PORT, DEXTRA_LINKING,
            Seconds(10), Seconds(60).Started(), Seconds(1).Started(), 0, 0, 0, Seconds(Group.NETWORK_TIMEOUT), false)
  }

  /** Links a group to the reflector it names, if its gateway address is known. A
      DExtra link needs a protocol handler from the pool, and the group is not told
      when there is none. */
  function LinkInt(s: State, name: string, found: string, pooled: bool): (State, seq<Sent>)
    requires name in s.groups
  {
    var g := s.groups[name];
    if g.linkType == Group.LT_NONE || found == "" then (s, [])
    else if g.linkType == Group.LT_DCS then (s.(groups := s.groups[name := g.(status := LS_LINKING_DCS)]), [])
    else
      var linking := s.(groups := s.groups[name := g.(status := LS_LINKING_DEXTRA)]);
      if pooled then
        (linking.(handlers := s.handlers + [NewHandler(name, g, found)]), [Connect(name, g.reflector, found)])
      else (linking, [])
  }

  function TypeOf(reflector: string): Group.LinkType {
    if |reflector| != LONG_CALLSIGN_LENGTH then Group.LT_NONE
    else if reflector[..3] == "XRF" then Group.LT_DEXTRA
    else if reflector[..3] == "DCS" then Group.LT_DCS
    else Group.LT_NONE
  }

  function OnRemoteLink(s: State, name: string, reflector: string, found: string, pooled: bool): (State, seq<Sent>)
    requires name in s.groups
  {
    var g := s.groups[name];
    if g.linkType != Group.LT_NONE || TypeOf(reflector) == Group.LT_NONE then (s, [])
    else LinkInt(s.(groups := s.groups[name := g.(linkType := TypeOf(reflector), reflector := reflector)]), name,
                 found, pooled)
  }

  function OnRemoteUnlink(s: State, name: string): (State, seq<Sent>)
    requires Wf(s) && name in s.groups
  {
    var g := s.groups[name];
    if g.linkType == Group.LT_NONE then (s, [])
    else
      var (t, sent) := if g.linkType == Group.LT_DEXTRA
                       then Sweep(s.groups, s.handlers, RemoteUnlink(name), g.reflector) else (s, []);
      (t.(groups := t.groups[name := t.groups[name].(linkType := Group.LT_NONE, reflector := "")]), sent)
  }

  /** DCS handlers are not part of this model: they may call back at any time, also
      for a group that has left them. */
  function OnDcs(g: GroupLink, call: DcsKind): GroupLink {
    match call
    case DcsUp => LinkUp(g)
    case DcsRefused => LinkRefused(g)
    case DcsFailed(recoverable) => LinkFailed(g, recoverable).0
  }

  predicate Known(s: State, e: Event) {
    e.RemoteLink? || e.RemoteUnlink? || e.DcsCalls? ==> e.name in s.groups
  }

  function Step(s: State, e: Event): (State, seq<Sent>)
    requires Wf(s) && Known(s, e)
  {
    match e
    case RemoteLink(name, reflector, found, pooled) => OnRemoteLink(s, name, reflector, found, pooled)
    case RemoteUnlink(name) => OnRemoteUnlink(s, name)
    case DcsCalls(name, call) => (s.(groups := s.groups[name := OnDcs(s.groups[name], call)]), [])
    case _ => Sweep(s.groups, s.handlers, e, "")
  }

  /** The program links each configured group once as it starts. */
  function Boot(s: State, names: seq<string>, found: map<string, string>, pooled: set<string>): State
    requires forall n | n in names :: n in s.groups && n in found
    decreases |names|
  {
    if names == [] then s
    else Boot(LinkInt(s, names[0], found[names[0]], names[0] in pooled).0, names[1..], found, pooled)
  }

  // ---- agreement ----

  /** A handler and its group tell the same story. */
  predicate Agrees(g: GroupLink, h: Handler) {
    && g.linkType == Group.LT_DEXTRA && g.reflector == h.reflector
    && (h.state == DEXTRA_LINKING || h.state == DEXTRA_LINKED)
    && (g.status == LS_LINKING_DEXTRA <==> h.state == DEXTRA_LINKING)
    && (g.status == LS_LINKED_DEXTRA <==> h.state == DEXTRA_LINKED)
  }

  ghost predicate Carried(s: State, name: string) {
    exists h | h in s.handlers :: h.dest == name && h.state == DEXTRA_LINKED
  }

  predicate Distinct(hs: seq<Handler>) {
    forall i, j | 0 <= i < j < |hs| :: hs[i].dest != hs[j].dest
  }

  /** A group has at most one handler; both agree on reflector and state; and a
      group that believes itself linked has a handler that is. */
  ghost predicate Agreement(s: State) {
    && Wf(s) && Distinct(s.handlers)
    && (forall h | h in s.handlers :: Agrees(s.groups[h.dest], h))
    && (forall n | n in s.groups :: s.groups[n].status == LS_LINKED_DEXTRA ==> Carried(s, n))
  }

  lemma VisitKeepsDest(e: Event, reflector: string, g: GroupLink, h: Handler)
    ensures var o := Visit(e, reflector, g, h); o.kept.Some? ==> o.kept.value.dest == h.dest
  {
  }

  lemma {:induction false} SweepUntouched(groups: map<string, GroupLink>, hs: seq<Handler>, e: Event,
                                          reflector: string, n: string)
    requires (forall h | h in hs :: h.dest in groups) && n in groups && forall h | h in hs :: h.dest != n
    ensures Sweep(groups, hs, e, reflector).0.groups[n] == groups[n]
  {
    hide Visit;
    if hs != [] {
      assert hs[|hs| - 1] in hs;
      SweepUntouched(groups, hs[..|hs| - 1], e, reflector, n);
    }
  }

  lemma {:induction false} SweepTouched(groups: map<string, GroupLink>, hs: seq<Handler>, e: Event, reflector: string,
                                        h: Handler)
    requires (forall k | k in hs :: k.dest in groups) && Distinct(hs) && h in hs
    ensures Sweep(groups, hs, e, reflector).0.groups[h.dest] == Visit(e, reflector, groups[h.dest], h).group
  {
    hide Visit;
    var (last, front) := (hs[|hs| - 1], hs[..|hs| - 1]);
    assert last in hs;
    if h == last {
      SweepUntouched(groups, front, e, reflector, h.dest);
    } else {
      SweepTouched(groups, front, e, reflector, h);
    }
  }

  lemma SweepGroups(groups: map<string, GroupLink>, hs: seq<Handler>, e: Event, reflector: string)
    requires (forall h | h in hs :: h.dest in groups) && Distinct(hs)
    ensures var t := Sweep(groups, hs, e, reflector).0;
            && (forall n | n in groups && (forall h | h in hs :: h.dest != n) :: t.groups[n] == groups[n])
            && (forall h | h in hs :: t.groups[h.dest] == Visit(e, reflector, groups[h.dest], h).group)
  {
    hide Visit, Sweep;
    var t := Sweep(groups, hs, e, reflector).0;
    forall n | n in groups && forall h | h in hs :: h.dest != n
      ensures t.groups[n] == groups[n]
    {
      SweepUntouched(groups, hs, e, reflector, n);
    }
    forall h | h in hs
      ensures t.groups[h.dest] == Visit(e, reflector, groups[h.dest], h).group
    {
      SweepTouched(groups, hs, e, reflector, h);
    }
  }

  /** k is what is kept of some handler. */
  predicate KeptOf(groups: map<string, GroupLink>, hs: seq<Handler>, e: Event, reflector: string, k: Handler)
    requires forall h | h in hs :: h.dest in groups
  {
    exists h | h in hs :: Visit(e, reflector, groups[h.dest], h).kept == Some(k)
  }

  lemma {:induction false} SweepKept(groups: map<string, GroupLink>, hs: seq<Handler>, e: Event, reflector: string,
                                     k: Handler)
    requires (forall h | h in hs :: h.dest in groups) && Distinct(hs)
    ensures k in Sweep(groups, hs, e, reflector).0.handlers <==> KeptOf(groups, hs, e, reflector, k)
  {
    hide Visit;
    if hs != [] {
      var (h, front) := (hs[|hs| - 1], hs[..|hs| - 1]);
      assert h in hs;
      assert forall i | i in front :: i in hs && i.dest != h.dest;
      assert forall i | i in hs :: i in front || i == h;
      SweepKept(groups, front, e, reflector, k);
      SweepUntouched(groups, front, e, reflector, h.dest);
      assert KeptOf(groups, hs, e, reflector, k)
        <==> KeptOf(groups, front, e, reflector, k) || Visit(e, reflector, groups[h.dest], h).kept == Some(k);
    }
  }

  lemma {:induction false} SweepDistinct(groups: map<string, GroupLink>, hs: seq<Handler>, e: Event, reflector: string)
    requires (forall h | h in hs :: h.dest in groups) && Distinct(hs)
    ensures Distinct(Sweep(groups, hs, e, reflector).0.handlers)
  {
    hide Visit;
    if hs != [] {
      var (h, front) := (hs[|hs| - 1], hs[..|hs| - 1]);
      assert h in hs;
      assert forall i | i in front :: i in hs && i.dest != h.dest;
      SweepDistinct(groups, front, e, reflector);
      var f := Sweep(groups, front, e, reflector).0;
      forall k | k in f.handlers
        ensures k.dest != h.dest
      {
        SweepKept(groups, front, e, reflector, k);
        var i :| i in front && Visit(e, reflector, groups[i.dest], i).kept == Some(k);
        VisitKeepsDest(e, reflector, groups[i.dest], i);
      }
      VisitKeepsDest(e, reflector, f.groups[h.dest], h);
    }
  }

  /** With one handler to a group the order of the sweep does not matter: each
      handler meets its group as it was before. */
  lemma SweepResult(groups: map<string, GroupLink>, hs: seq<Handler>, e: Event, reflector: string)
    requires (forall h | h in hs :: h.dest in groups) && Distinct(hs)
    ensures var t := Sweep(groups, hs, e, reflector).0;
            && (forall n | n in groups && (forall h | h in hs :: h.dest != n) :: t.groups[n] == groups[n])
            && (forall h | h in hs :: t.groups[h.dest] == Visit(e, reflector, groups[h.dest], h).group)
            && (forall k | k in t.handlers :: exists h | h in hs ::
                Visit(e, reflector, groups[h.dest], h).kept == Some(k))
            && (forall h | h in hs && Visit(e, reflector, groups[h.dest], h).kept.Some? ::
                  Visit(e, reflector, groups[h.dest], h).kept.value in t.handlers)
            && Distinct(t.handlers)
  {
    hide Visit, Sweep, Distinct;
    SweepGroups(groups, hs, e, reflector);
    SweepDistinct(groups, hs, e, reflector);
    forall k: Handler
      ensures k in Sweep(groups, hs, e, reflector).0.handlers <==> KeptOf(groups, hs, e, reflector, k)
    {
      SweepKept(groups, hs, e, reflector, k);
    }
    forall h | h in hs && Visit(e, reflector, groups[h.dest], h).kept.Some?
      ensures KeptOf(groups, hs, e, reflector, Visit(e, reflector, groups[h.dest], h).kept.value)
    {
    }
  }
}
