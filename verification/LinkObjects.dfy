/** The link handlers as the program keeps them: objects in a list that each event
    walks, some of them dropped on the way. */
module LinkObjects {
  import opened Timer
  import opened Caches
  import opened Links
  import Backoff
  import Group

  class DExtraHandler {
    const dest: string
    const reflector: string
    const repeater: string
    const port: nat
    var addr: string
    var state: DExtraState
    var poll: Ticks
    var window: Ticks
    var retry: Ticks
    var tries: nat
    var id: nat
    var frame: nat
    var inactivity: Ticks
    var header: bool

    ghost function View(): Handler
      reads this
    {
      Handler(dest, reflector, repeater, addr, port, state, poll, window, retry, tries, id, frame, inactivity, header)
    }

    constructor (dest: string, g: GroupLink, addr: string)
      ensures View() == NewHandler(dest, g, addr)
    {
      this.dest := dest;
      this.reflector := g.reflector;
      this.repeater := g.repeater;
      this.addr := addr;
      this.port := DEXTRA_PORT;
      state := DEXTRA_LINKING;
      poll := Seconds(10);
      window := Seconds(60).Started();
      retry := Seconds(1).Started();
      tries := 0;
      id := 0;
      frame := 0;
      inactivity := Seconds(Group.NETWORK_TIMEOUT);
      header := false;
    }

    /** The wait until the next try doubles each time, up to a minute. */
    method CalcBackoff() returns (secs: nat)
      modifies this`tries
      ensures secs == Backoff.Delay(old(tries)) && tries == old(tries) + 1
    {
      if tries >= 7 {
        Backoff.Pow2Grows(7, tries);
        Backoff.SmallPowers();
        tries := tries + 1;
        return 60;
      }
      secs := 1;
      for i := 0 to tries
        invariant secs == Backoff.Pow2(i)
      {
        secs := secs * 2;
      }
      tries := tries + 1;
      if secs > 60 {
        return 60;
      }
    }

    method ProcessConnect(g: GroupLink, kind: ConnectKind, addr: string, port: nat, repeater: string)
      returns (group: GroupLink, drop: bool)
      modifies this
      ensures group == OnConnect(g, old(View()), kind, addr, port, repeater).group
      ensures OnConnect(g, old(View()), kind, addr, port, repeater).kept == if drop then None else Some(View())
    {
      group, drop := g, false;
      if this.addr != addr || this.port != port {
        return;
      }
      match kind {
        case CT_ACK =>
          if this.repeater != repeater {
            return;
          }
          if state == DEXTRA_LINKING {
            group := LinkUp(g);
            retry := retry.Stopped();
            poll := poll.Started();
            state := DEXTRA_LINKED;
          }
        case CT_NAK =>
          if this.repeater != repeater {
            return;
          }
          if state == DEXTRA_LINKING {
            group := LinkRefused(g);
            drop := true;
          }
        case CT_UNLINK =>
          if this.reflector != repeater {
            return;
          }
          if state == DEXTRA_LINKED {
            group := LinkFailed(g, false).0;
          }
          drop := true;
      }
    }

    method ProcessHeader(addr: string, port: nat, id: nat, rpt1: string, rpt2: string) returns (sent: seq<Sent>)
      modifies this
      ensures (View(), sent) == OnHeader(old(View()), addr, port, id, rpt1, rpt2)
    {
      sent := [];
      if this.addr != addr || this.port != port || state != DEXTRA_LINKED {
        return;
      }
      if reflector != rpt2 && reflector != rpt1 {
        return;
      }
      if this.id != 0 {
        return;
      }
      this.id := id;
      frame := 0;
      inactivity := inactivity.Started();
      header := true;
      sent := [GroupHeader(dest, id)];
    }

    method ProcessVoice(addr: string, port: nat, id: nat, frame: nat, end: bool) returns (sent: seq<Sent>)
      modifies this
      ensures (View(), sent) == OnVoice(old(View()), addr, port, id, frame, end)
    {
      sent := [];
      if this.addr != addr || this.port != port || state != DEXTRA_LINKED || this.id != id {
        return;
      }
      window := window.Started();
      inactivity := inactivity.Started();
      this.frame := frame;
      if this.frame == 0 && header {
        sent := sent + [GroupHeader(dest, id)];
      }
      sent := sent + [GroupVoice(dest, id, end)];
      if end {
        header := false;
        this.id := 0;
        this.frame := 0;
        inactivity := inactivity.Stopped();
      }
      assert View() == OnVoice(old(View()), addr, port, id, frame, end).0;
      assert sent == OnVoice(old(View()), addr, port, id, frame, end).1;
    }

    method ProcessPoll(addr: string, port: nat, from: string)
      modifies this
      ensures View() == OnPoll(old(View()), addr, port, from)
    {
      if Prefix7(reflector) == Prefix7(from) && this.addr == addr && this.port == port && state == DEXTRA_LINKED {
        window := window.Started();
      }
    }

    method ForgetStream()
      modifies this`header, this`id, this`frame
      ensures View() == Quiet(old(View()))
    {
      header := false;
      id := 0;
      frame := 0;
    }

    /** The poll and stream timers, once the window has been looked at. */
    method ClockStream() returns (sent: seq<Sent>)
      modifies this`poll, this`header, this`id, this`frame, this`inactivity
      ensures var t := old(View());
              var polls := t.poll.Running() && t.poll.Expired();
              var p := if polls then t.(poll := t.poll.Started()) else t;
              && sent == (if polls && t.state == DEXTRA_LINKED then [Poll(dest, addr)] else [])
              && View() == (if p.inactivity.Running() && p.inactivity.Expired()
                            then Quiet(p).(inactivity := p.inactivity.Stopped()) else p)
    {
      sent := [];
      if poll.Running() && poll.Expired() {
        if state == DEXTRA_LINKED {
          sent := [Poll(dest, addr)];
        }
        poll := poll.Started();
      }
      if inactivity.Running() && inactivity.Expired() {
        ForgetStream();
        inactivity := inactivity.Stopped();
      }
    }

    method WindowEnds(g: GroupLink) returns (group: GroupLink, drop: bool, sent: seq<Sent>)
      modifies this
      ensures group == OnWindowEnd(g, old(View())).group && sent == OnWindowEnd(g, old(View())).sent
      ensures OnWindowEnd(g, old(View())).kept == if drop then None else Some(View())
    {
      window := window.Started();
      ForgetStream();
      var (failed, reconnect) := LinkFailed(g, true);
      if reconnect {
        state := DEXTRA_LINKING;
        retry := retry.WithTimeout(TICKS_PER_SEC, 1, 0).Started();
        tries := 0;
        return failed, false, [Connect(dest, reflector, addr)];
      }
      return failed, true, [];
    }

    method ClockInt(g: GroupLink, ms: nat) returns (group: GroupLink, drop: bool, sent: seq<Sent>)
      modifies this
      ensures group == OnClock(g, old(View()), ms).group && sent == OnClock(g, old(View()), ms).sent
      ensures OnClock(g, old(View()), ms).kept == if drop then None else Some(View())
    {
      hide OnTick, OnWindowEnd, Ticks.Clocked;
      retry := retry.Clocked(ms);
      poll := poll.Clocked(ms);
      inactivity := inactivity.Clocked(ms);
      window := window.Clocked(ms);
      if window.Running() && window.Expired() {
        group, drop, sent := WindowEnds(g);
        return;
      }
      group, drop := g, false;
      sent := ClockInside(g);
    }

    method ClockInside(ghost g: GroupLink) returns (sent: seq<Sent>)
      modifies this
      ensures OnTick(g, old(View())) == Outcome(g, Some(View()), sent)
    {
      hide Quiet, Ticks.WithTimeout, Backoff.Delay;
      sent := ClockStream();
      var again := ClockRetry();
      assert sent + [] == sent;
      sent := sent + again;
    }

    /** Another connect when its time has come. */
    method ClockRetry() returns (sent: seq<Sent>)
      modifies this`retry, this`tries
      ensures var i := old(View());
              var due := i.state == DEXTRA_LINKING && i.retry.Running() && i.retry.Expired();
              && sent == (if due then [Connect(dest, reflector, addr)] else [])
              && View() == (if due
                            then i.(retry := i.retry.WithTimeout(TICKS_PER_SEC, Backoff.Delay(i.tries), 0).Started(),
                                  tries := i.tries + 1)
                            else i)
    {
      hide Backoff.Delay, Ticks.WithTimeout;
      sent := [];
      if state == DEXTRA_LINKING {
        if retry.Running() && retry.Expired() {
          sent := [Connect(dest, reflector, addr)];
          var timeout := CalcBackoff();
          retry := retry.WithTimeout(TICKS_PER_SEC, timeout, 0).Started();
        }
      }
    }

    method Unlink(g: GroupLink, name: string, reflector: string) returns (group: GroupLink, drop: bool, sent: seq<Sent>)
      modifies this
      ensures group == OnUnlink(g, old(View()), name, reflector).group
              && sent == OnUnlink(g, old(View()), name, reflector).sent
      ensures OnUnlink(g, old(View()), name, reflector).kept == if drop then None else Some(View())
    {
      group, drop, sent := g, false, [];
      if dest == name && this.reflector == reflector {
        if state == DEXTRA_LINKING || state == DEXTRA_LINKED {
          sent := sent + [Disconnect(dest, addr)];
          state := DEXTRA_UNLINKING;
          group := LinkFailed(g, false).0;
        }
        if id != 0 {
          sent := sent + [GroupVoice(dest, id, true)];
        }
        drop := true;
      }
    }

    /** One handler's turn at an event. */
    method React(e: Event, reflector: string, g: GroupLink) returns (group: GroupLink, drop: bool, sent: seq<Sent>)
      modifies this
      ensures group == Visit(e, reflector, g, old(View())).group && sent == Visit(e, reflector, g, old(View())).sent
      ensures Visit(e, reflector, g, old(View())).kept == if drop then None else Some(View())
    {
      hide OnUnlink, OnConnect, OnPoll, OnHeader, OnVoice, OnClock;
      group, drop, sent := g, false, [];
      match e {
        case RemoteUnlink(name) => group, drop, sent := Unlink(g, name, reflector);
        case ConnectArrives(kind, a, p, r) => group, drop := ProcessConnectSilently(g, kind, a, p, r);
        case PollArrives(a, p, from) => ProcessPoll(a, p, from);
        case HeaderArrives(a, p, i, rpt1, rpt2) => sent := ProcessHeader(a, p, i, rpt1, rpt2);
        case VoiceArrives(a, p, i, f, end) => sent := ProcessVoice(a, p, i, f, end);
        case GatewayMoved(gateway, a) =>
          if Prefix7(this.reflector) == Padded7(gateway) {
            addr := a;
          }
        case Clocked(ms) => group, drop, sent := ClockInt(g, ms);
        case _ =>
      }
    }

    method ProcessConnectSilently(g: GroupLink, kind: ConnectKind, addr: string, port: nat, repeater: string)
      returns (group: GroupLink, drop: bool)
      modifies this
      ensures group == OnConnect(g, old(View()), kind, addr, port, repeater).group
      ensures OnConnect(g, old(View()), kind, addr, port, repeater).sent == []
      ensures OnConnect(g, old(View()), kind, addr, port, repeater).kept == if drop then None else Some(View())
    {
      group, drop := ProcessConnect(g, kind, addr, port, repeater);
    }
  }

  ghost function Views(hs: seq<DExtraHandler>): (vs: seq<Handler>)
    reads hs
    ensures |vs| == |hs|
    ensures forall i | 0 <= i < |hs| :: vs[i] == hs[i].View()
  {
    if hs == [] then [] else Views(hs[..|hs| - 1]) + [hs[|hs| - 1].View()]
  }

  lemma SweepNone(groups: map<string, GroupLink>, hs: seq<Handler>, e: Event, reflector: string)
    ensures (forall h | h in hs[..0] :: h.dest in groups)
            && Sweep(groups, hs[..0], e, reflector) == (State(groups, []), [])
  {
  }

  /** The sweep one handler further. */
  lemma SweepNext(groups: map<string, GroupLink>, hs: seq<Handler>, n: nat, e: Event, reflector: string)
    requires n < |hs| && forall h | h in hs :: h.dest in groups
    ensures (forall h | h in hs[..n] :: h.dest in groups) && (forall h | h in hs[..n + 1] :: h.dest in groups)
    ensures var (front, sent) := Sweep(groups, hs[..n], e, reflector);
            && hs[n].dest in front.groups
            && var o := Visit(e, reflector, front.groups[hs[n].dest], hs[n]);
            Sweep(groups, hs[..n + 1], e, reflector)
            == (State(front.groups[hs[n].dest := o.group],
                      front.handlers + if o.kept.Some? then [o.kept.value] else []),
                sent + o.sent)
  {
    hide Visit;
    assert hs[..n + 1][..n] == hs[..n];
    assert hs[n] in hs;
  }

  lemma ViewsSnoc(hs: seq<DExtraHandler>, h: DExtraHandler)
    ensures Views(hs + [h]) == Views(hs) + [h.View()]
  {
    assert (hs + [h])[..|hs + [h]| - 1] == hs;
  }

  lemma ViewsNone()
    ensures Views([]) == []
  {
  }

  predicate NoTwice(hs: seq<DExtraHandler>) {
    forall i, j | 0 <= i < j < |hs| :: hs[i] != hs[j]
  }

  lemma NotYet(hs: seq<DExtraHandler>, n: nat)
    requires NoTwice(hs) && n < |hs|
    ensures hs[n] !in hs[..n] && (forall h | h in hs[..n] :: h in hs[..n + 1]) && hs[n] in hs[..n + 1]
    ensures forall i | n < i < |hs| :: hs[i] != hs[n]
  {
    assert hs[..n + 1][n] == hs[n];
  }

  lemma Dests(s: State)
    requires Wf(s)
    ensures forall h | h in s.handlers :: h.dest in s.groups
  {
  }

  /** The list of handlers, and every group's side of its link. */
  class LinkTable {
    var groups: map<string, GroupLink>
    var handlers: seq<DExtraHandler>

    ghost function View(): State
      reads this, handlers
    {
      State(groups, Views(handlers))
    }

    ghost predicate Valid()
      reads this, handlers
    {
      NoTwice(handlers) && Wf(View())
    }

    constructor (groups: map<string, GroupLink>)
      ensures Valid() && View() == State(groups, [])
    {
      this.groups := groups;
      this.handlers := [];
    }

    /** One handler's turn; it goes back on the list unless it is dropped. */
    method TurnOf(h: DExtraHandler, e: Event, reflector: string) returns (out: seq<Sent>)
      requires h !in handlers && h.dest in groups && NoTwice(handlers)
      modifies this, h
      ensures NoTwice(handlers) && forall x | x in handlers :: x == h || x in old(handlers)
      ensures var o := Visit(e, reflector, old(groups)[h.dest], old(h.View()));
              && groups == old(groups)[h.dest := o.group] && out == o.sent
              && handlers == (if o.kept.Some? then old(handlers) + [h] else old(handlers))
              && Views(handlers) == old(Views(handlers)) + (if o.kept.Some? then [o.kept.value] else [])
    {
      hide Visit, Views;
      ghost var left := handlers;
      var group, drop;
      group, drop, out := h.React(e, reflector, groups[h.dest]);
      assert Views(left) == old(Views(handlers));
      groups := groups[h.dest := group];
      if !drop {
        handlers := handlers + [h];
        ViewsSnoc(left, h);
      }
    }

    /** Walks the list, keeping the handlers that are not dropped. */
    method SweepList(e: Event, reflector: string) returns (sent: seq<Sent>)
      requires Valid()
      modifies this, handlers
      ensures Valid()
      ensures (View(), sent) == old(Sweep(groups, Views(handlers), e, reflector))
      ensures forall h | h in handlers :: h in old(handlers)
    {
      hide Visit, Sweep, Wf, Views;
      sent := [];
      Dests(View());
      ViewsNone();
      var hs := handlers;
      ghost var before := Views(handlers);
      SweepNone(groups, before, e, reflector);
      handlers := [];
      var n := 0;
      while n < |hs|
        invariant 0 <= n <= |hs| && |before| == |hs|
        invariant forall h | h in before :: h.dest in old(groups)
        invariant forall h | h in handlers :: h in hs[..n]
        invariant NoTwice(handlers)
        invariant forall i | n <= i < |hs| :: hs[i].View() == before[i]
        invariant (View(), sent) == Sweep(old(groups), before[..n], e, reflector)
      {
        SweepNext(old(groups), before, n, e, reflector);
        NotYet(hs, n);
        var out := TurnOf(hs[n], e, reflector);
        sent := sent + out;
        n := n + 1;
      }
      assert before[..n] == before;
      SweepWf(old(groups), before, e, reflector);
    }

    // ---- linking and unlinking ----

    /** Adds a handler to the end of the list. */
    method Link(name: string, found: string) returns (sent: seq<Sent>)
      requires Valid() && name in groups
      modifies this`handlers
      ensures Valid() && Views(handlers) == old(Views(handlers)) + [NewHandler(name, groups[name], found)]
      ensures sent == [Connect(name, groups[name].reflector, found)]
    {
      hide Views;
      var h := new DExtraHandler(name, groups[name], found);
      assert h.View().dest == name;
      ViewsSnoc(handlers, h);
      handlers := handlers + [h];
      sent := [Connect(name, groups[name].reflector, found)];
    }

    method LinkGroup(name: string, found: string, pooled: bool) returns (sent: seq<Sent>)
      requires Valid() && name in groups
      modifies this`groups, this`handlers
      ensures Valid() && (View(), sent) == LinkInt(old(View()), name, found, pooled)
    {
      hide Views;
      sent := [];
      var g := groups[name];
      if g.linkType == Group.LT_NONE || found == "" {
        return;
      }
      if g.linkType == Group.LT_DCS {
        groups := groups[name := g.(status := LS_LINKING_DCS)];
      } else {
        groups := groups[name := g.(status := LS_LINKING_DEXTRA)];
        if pooled {
          sent := Link(name, found);
        }
      }
    }

    method RemoteLink(name: string, reflector: string, found: string, pooled: bool) returns (sent: seq<Sent>)
      requires Valid() && name in groups
      modifies this`groups, this`handlers
      ensures Valid() && (View(), sent) == OnRemoteLink(old(View()), name, reflector, found, pooled)
    {
      hide Views, LinkInt;
      sent := [];
      var g := groups[name];
      if g.linkType != Group.LT_NONE || |reflector| != LONG_CALLSIGN_LENGTH {
        return;
      }
      var linkType;
      if reflector[..3] == "XRF" {
        linkType := Group.LT_DEXTRA;
      } else if reflector[..3] == "DCS" {
        linkType := Group.LT_DCS;
      } else {
        return;
      }
      groups := groups[name := g.(linkType := linkType, reflector := reflector)];
      sent := LinkGroup(name, found, pooled);
    }

    method RemoteUnlink(name: string) returns (sent: seq<Sent>)
      requires Valid() && name in groups
      modifies this, handlers
      ensures Valid() && (View(), sent) == OnRemoteUnlink(old(View()), name)
    {
      hide Views, Sweep;
      sent := [];
      var g := groups[name];
      if g.linkType == Group.LT_NONE {
        return;
      }
      if g.linkType == Group.LT_DEXTRA {
        sent := SweepList(Event.RemoteUnlink(name), g.reflector);
      }
      groups := groups[name := groups[name].(linkType := Group.LT_NONE, reflector := "")];
    }
  }

  lemma {:induction false} SweepWf(groups: map<string, GroupLink>, hs: seq<Handler>, e: Event, reflector: string)
    requires forall h | h in hs :: h.dest in groups
    ensures Wf(Sweep(groups, hs, e, reflector).0)
  {
    hide Visit;
    if hs != [] {
      var (h, front) := (hs[|hs| - 1], hs[..|hs| - 1]);
      assert h in hs;
      SweepWf(groups, front, e, reflector);
      VisitKeepsDest(e, reflector, Sweep(groups, front, e, reflector).0.groups[h.dest], h);
    }
  }
}
