/** The login machine of the IRC client: it drains the queue of received
    messages, then takes one step of its own. */
module IrcLogin {
  import opened IrcCodec

  const PING_TIMER := 60

  /** What one session writes to its log: every message taken from the queue,
      every message sent, and the moment the application is switched on. */
  datatype Act = In(m: IRCMessage) | Sent(m: IRCMessage) | AppOn(nick: string)

  datatype Config = Config(password: string, channel: string, debugChannel: string, name: string, versionInfo: string)

  datatype Proto = Proto(config: Config, state: nat, timer: nat, nick: string)

  function Message(command: string, params: seq<string>): IRCMessage {
    IRCMessage("", command, params)
  }

  function PrefixNick(m: IRCMessage): string {
    var cs := Components(m.prefix);
    if cs != [] then cs[0] else m.prefix
  }

  /** A JOIN of the given channel with our own nick in front. */
  predicate OwnJoin(m: IRCMessage, channel: string, nick: string) {
    m.command == "JOIN" && |m.params| >= 1 && m.params[0] == channel && PrefixNick(m) == nick
  }

  predicate Kicked(m: IRCMessage, s: Proto) {
    m.command == "KICK" && |m.params| >= 2 && m.params[0] == s.config.channel && m.params[1] == s.nick
  }

  function Replies(m: IRCMessage): seq<Act> {
    if m.command == "PING"
    then [Sent(Message("PONG", if |m.params| > 0 then [m.params[0]] else []))]
    else []
  }

  /** The state change a received message makes. */
  function OnMessage(s: Proto, m: IRCMessage): Proto {
    if m.command == "004" && s.state == 4 then s.(state := 5)
    else if OwnJoin(m, s.config.channel, s.nick) && s.state == 6 then
      s.(state := if s.config.debugChannel != "" then 7 else 10)
    else if OwnJoin(m, s.config.debugChannel, s.nick) && s.state == 8 then s.(state := 10)
    else if m.command == "PONG" && s.state == 12 then s.(timer := PING_TIMER, state := 11)
    else if m.command == "433" && s.state == 2 then s.(state := 3, timer := 10)
    else s
  }

  /** Draining stops at a kick, with the rest of the queue left. */
  function Drain(s: Proto, msgs: seq<IRCMessage>): (Proto, bool, seq<Act>)
    decreases |msgs|
  {
    if msgs == [] then (s, true, [])
    else if Kicked(msgs[0], s) then (s, false, [In(msgs[0])])
    else
      var (t, ok, acts) := Drain(OnMessage(s, msgs[0]), msgs[1..]);
      (t, ok, [In(msgs[0])] + Replies(msgs[0]) + acts)
  }

  /** The machine's own step; false asks for a disconnect. The nick is the one a
      random choice would give. */
  function Stepped(s: Proto, nick: string): (Proto, bool, seq<Act>) {
    var c := s.config;
    match s.state
    case 1 =>
      (s.(timer := 10, state := 2), true, [Sent(Message("PASS", [c.password])), Sent(Message("NICK", [s.nick]))])
    case 2 =>
      if s.timer == 0
      then (s.(timer := 30, state := 4), true, [Sent(Message("USER", [c.name, "0", "*", c.versionInfo]))])
      else (s, true, [])
    case 3 =>
      if s.timer == 0
      then (s.(nick := nick, timer := 10, state := 2), true, [Sent(Message("NICK", [nick]))])
      else (s, true, [])
    case 5 => (s.(timer := 30, state := 6), true, [Sent(Message("JOIN", [c.channel]))])
    case 7 =>
      if c.debugChannel == "" then (s, false, [])
      else (s.(timer := 30, state := 8), true, [Sent(Message("JOIN", [c.debugChannel]))])
    case 10 =>
      (s.(timer := PING_TIMER, state := 11), true, [Sent(Message("WHO", [c.channel, "*"])), AppOn(s.nick)])
    case 11 =>
      if s.timer == 0
      then (s.(timer := PING_TIMER, state := 12), true, [Sent(Message("PING", [s.nick]))])
      else (s, true, [])
    case _ => (s, !(s.state in {4, 6, 8, 12} && s.timer == 0), [])
  }

  function Call(s: Proto, msgs: seq<IRCMessage>, nick: string): (Proto, bool, seq<Act>) {
    var (t, ok, acts) := Drain(s.(timer := if s.timer > 0 then s.timer - 1 else 0), msgs);
    if !ok then (t, false, acts)
    else
      var (u, ok', acts') := Stepped(t, nick);
      (u, ok', acts + acts')
  }

  datatype Input = Input(msgs: seq<IRCMessage>, nick: string)

  /** setNetworkReady(true): the timer keeps its old value. */
  function Ready(s: Proto, nick: string): Proto {
    s.(state := 1, nick := nick)
  }

  /** The machine and the session's log after any number of calls. */
  function Session(s: Proto, calls: seq<Input>): (Proto, seq<Act>) {
    if calls == [] then (s, [])
    else
      var (t, log) := Session(s, calls[..|calls| - 1]);
      var last := calls[|calls| - 1];
      var (u, ok, acts) := Call(t, last.msgs, last.nick);
      (u, log + acts)
  }

  /** The client's protocol object. */
  class IRCProtocol {
    const config: Config
    var state: nat
    var timer: nat
    var currentNick: string
    var sendQ: seq<IRCMessage>
    ghost var log: seq<Act>

    ghost function View(): Proto
      reads this
    {
      Proto(config, state, timer, currentNick)
    }

    constructor (config: Config, nick: string)
      ensures View() == Proto(config, 0, 0, nick) && sendQ == [] && log == []
    {
      this.config := config;
      state, timer, currentNick, sendQ, log := 0, 0, nick, [], [];
    }

    /** A new session starts a new log. */
    method SetNetworkReady(b: bool, nick: string)
      modifies this
      ensures View() == if b then Ready(old(View()), nick) else old(View()).(state := 0)
      ensures log == if b then [] else old(log)
      ensures sendQ == old(sendQ)
    {
      if b {
        state := 1;
        currentNick := nick;
        log := [];
      } else {
        state := 0;
      }
    }

    method Put(command: string, params: seq<string>)
      modifies this`sendQ, this`log
      ensures sendQ == old(sendQ) + [Message(command, params)]
      ensures log == old(log) + [Sent(Message(command, params))]
    {
      sendQ := sendQ + [Message(command, params)];
      log := log + [Sent(Message(command, params))];
    }

    /** One message from the queue; true when we were kicked. */
    method Handle(m: IRCMessage) returns (kicked: bool)
      modifies this
      ensures kicked <==> Kicked(m, old(View()))
      ensures View() == if kicked then old(View()) else OnMessage(old(View()), m)
      ensures log == old(log) + [In(m)] + if kicked then [] else Replies(m)
      ensures sendQ == old(sendQ) + if !kicked && m.command == "PING" then [Replies(m)[0].m] else []
    {
      kicked := false;
      log := log + [In(m)];
      if m.command == "004" {
        if state == 4 {
          state := 5;
        }
      } else if m.command == "PING" {
        Put("PONG", if |m.params| > 0 then [m.params[0]] else []);
      } else if m.command == "JOIN" {
        if |m.params| >= 1 && m.params[0] == config.channel {
          if PrefixNick(m) == currentNick && state == 6 {
            if |config.debugChannel| > 0 {
              state := 7;
            } else {
              state := 10;
            }
          }
        }
        if |m.params| >= 1 && m.params[0] == config.debugChannel {
          if PrefixNick(m) == currentNick && state == 8 {
            state := 10;
          }
        }
      } else if m.command == "PONG" {
        if state == 12 {
          timer := PING_TIMER;
          state := 11;
        }
      } else if m.command == "KICK" {
        if |m.params| >= 2 && m.params[0] == config.channel {
          if m.params[1] == currentNick {
            return true;
          }
        }
      } else if m.command == "433" {
        if state == 2 {
          state := 3;
          timer := 10;
        }
      }
    }

    method Advance(nick: string) returns (ok: bool)
      modifies this
      ensures View() == Stepped(old(View()), nick).0 && ok == Stepped(old(View()), nick).1
      ensures log == old(log) + Stepped(old(View()), nick).2
      ensures sendQ == old(sendQ) + SentIn(Stepped(old(View()), nick).2)
    {
      ghost var acts := Stepped(View(), nick).2;
      SentShort(acts);
      ok := true;
      if state == 1 {
        Put("PASS", [config.password]);
        Put("NICK", [currentNick]);
        timer := 10;
        state := 2;
      } else if state == 2 {
        if timer == 0 {
          Put("USER", [config.name, "0", "*", config.versionInfo]);
          timer := 30;
          state := 4;
        }
      } else if state == 3 {
        if timer == 0 {
          currentNick := nick;
          Put("NICK", [currentNick]);
          timer := 10;
          state := 2;
        }
      } else if state == 4 {
        ok := timer != 0;
      } else if state == 5 {
        Put("JOIN", [config.channel]);
        timer := 30;
        state := 6;
      } else if state == 6 {
        ok := timer != 0;
      } else if state == 7 {
        if |config.debugChannel| == 0 {
          return false;
        }
        Put("JOIN", [config.debugChannel]);
        timer := 30;
        state := 8;
      } else if state == 8 {
        ok := timer != 0;
      } else if state == 10 {
        Put("WHO", [config.channel, "*"]);
        timer := PING_TIMER;
        state := 11;
        log := log + [AppOn(currentNick)];
      } else if state == 11 {
        if timer == 0 {
          Put("PING", [currentNick]);
          timer := PING_TIMER;
          state := 12;
        }
      } else if state == 12 {
        ok := timer != 0;
      }
    }

    /** Handles the received messages until one of them ends the session. */
    method DrainQueue(recvQ: seq<IRCMessage>) returns (ok: bool, ghost acts: seq<Act>)
      modifies this
      ensures (View(), ok, acts) == Drain(old(View()), recvQ)
      ensures log == old(log) + acts && sendQ == old(sendQ) + SentIn(acts)
    {
      hide Stepped, OnMessage, Kicked, Replies, Drain, SentIn, DrainsOn;
      ghost var start := View();
      acts := [];
      SentShort([]);
      DrainStart(start, recvQ);
      for i := 0 to |recvQ|
        invariant log == old(log) + acts && sendQ == old(sendQ) + SentIn(acts)
        invariant DrainsOn(start, recvQ, View(), recvQ[i..], acts)
      {
        ghost var s, rest, before := View(), recvQ[i..], acts;
        assert rest[0] == recvQ[i] && rest[1..] == recvQ[i + 1..];
        var kicked := Handle(recvQ[i]);
        acts := before + [In(recvQ[i])] + if kicked then [] else Replies(recvQ[i]);
        assert kicked ==> acts == before + [In(recvQ[i])];
        SentOne(before, recvQ[i], kicked);
        DrainOne(start, recvQ, s, rest, before);
        if kicked {
          return false, acts;
        }
      }
      DrainEnd(start, recvQ, View(), acts);
      ok := true;
    }

    method ProcessQueues(recvQ: seq<IRCMessage>, nick: string) returns (ok: bool)
      modifies this
      ensures View() == Call(old(View()), recvQ, nick).0 && ok == Call(old(View()), recvQ, nick).1
      ensures log == old(log) + Call(old(View()), recvQ, nick).2
      ensures sendQ == old(sendQ) + SentIn(Call(old(View()), recvQ, nick).2)
    {
      hide Stepped, Drain, SentIn;
      if timer > 0 {
        timer := timer - 1;
      }
      ghost var acts;
      ok, acts := DrainQueue(recvQ);
      if !ok {
        return false;
      }
      ghost var s := View();
      ok := Advance(nick);
      SentConcat(acts, Stepped(s, nick).2);
    }
  }

  /** Draining from the start is the acts so far and then draining the rest. */
  ghost predicate DrainsOn(start: Proto, all: seq<IRCMessage>, s: Proto, rest: seq<IRCMessage>, acts: seq<Act>) {
    var (t, ok, more) := Drain(s, rest);
    Drain(start, all) == (t, ok, acts + more)
  }

  lemma DrainStart(start: Proto, all: seq<IRCMessage>)
    ensures DrainsOn(start, all, start, all[0..], [])
  {
    assert all[0..] == all;
    assert [] + Drain(start, all).2 == Drain(start, all).2;
  }

  lemma DrainEnd(start: Proto, all: seq<IRCMessage>, s: Proto, acts: seq<Act>)
    requires DrainsOn(start, all, s, all[|all|..], acts)
    ensures Drain(start, all) == (s, true, acts)
  {
    assert all[|all|..] == [];
    assert acts + [] == acts;
  }

  lemma DrainOne(start: Proto, all: seq<IRCMessage>, s: Proto, rest: seq<IRCMessage>, acts: seq<Act>)
    requires DrainsOn(start, all, s, rest, acts) && rest != []
    ensures Kicked(rest[0], s) ==> Drain(start, all) == (s, false, acts + [In(rest[0])])
    ensures !Kicked(rest[0], s) ==>
              DrainsOn(start, all, OnMessage(s, rest[0]), rest[1..], acts + [In(rest[0])] + Replies(rest[0]))
  {
    var (t, ok, more) := Drain(OnMessage(s, rest[0]), rest[1..]);
    assert acts + ([In(rest[0])] + Replies(rest[0]) + more) == acts + [In(rest[0])] + Replies(rest[0]) + more;
  }

  function SentIn(acts: seq<Act>): seq<IRCMessage> {
    if acts == [] then []
    else
      var last := acts[|acts| - 1];
      SentIn(acts[..|acts| - 1]) + (if last.Sent? then [last.m] else [])
  }

  lemma {:induction false} SentConcat(a: seq<Act>, b: seq<Act>)
    ensures SentIn(a + b) == SentIn(a) + SentIn(b)
  {
    if b == [] {
      assert a + b == a;
    } else {
      SentConcat(a, b[..|b| - 1]);
      assert (a + b)[..|a + b| - 1] == a + b[..|b| - 1];
    }
  }

  lemma SentShort(acts: seq<Act>)
    ensures acts == [] ==> SentIn(acts) == []
    ensures |acts| == 1 ==> SentIn(acts) == if acts[0].Sent? then [acts[0].m] else []
    ensures |acts| == 2 ==>
              SentIn(acts) == (if acts[0].Sent? then [acts[0].m] else []) + (if acts[1].Sent? then [acts[1].m] else [])
  {
    if |acts| == 2 {
      assert acts[..1] == [acts[0]] && [acts[0]][..0] == [];
    }
  }

  lemma SentOne(acts: seq<Act>, m: IRCMessage, kicked: bool)
    ensures SentIn(acts + [In(m)] + if kicked then [] else Replies(m)) ==
            SentIn(acts) + if !kicked && m.command == "PING" then [Replies(m)[0].m] else []
  {
    SentConcat(acts, [In(m)]);
    SentConcat(acts + [In(m)], if kicked then [] else Replies(m));
  }

  // ---- the output language ----

  function Times(n: nat, command: string): seq<string> {
    if n == 0 then [] else Times(n - 1, command) + [command]
  }

  /** PASS NICK NICK^n USER^u JOIN^j WHO^w PING^p */
  function Word(n: nat, u: nat, j: nat, w: nat, p: nat): seq<string> {
    ["PASS", "NICK"] + Times(n, "NICK") + Times(u, "USER") + Times(j, "JOIN") + Times(w, "WHO") + Times(p, "PING")
  }

  /** The commands sent, PONGs left out. */
  function Output(log: seq<Act>): seq<string> {
    if log == [] then []
    else
      var last := log[|log| - 1];
      Output(log[..|log| - 1]) + (if last.Sent? && last.m.command != "PONG" then [last.m.command] else [])
  }

  /** How many USER, JOIN and WHO have been sent, by state. */
  function Users(state: nat): nat {
    if state >= 4 then 1 else 0
  }

  function Joins(state: nat, debugging: bool): nat {
    if state >= 10 then (if debugging then 2 else 1) else if state == 8 then 2 else if state >= 6 then 1 else 0
  }

  function Whos(state: nat): nat {
    if state >= 11 then 1 else 0
  }

  /** What the state says about the output. */
  ghost predicate Spelled(s: Proto, out: seq<string>) {
    var d := s.config.debugChannel != "";
    && s.state in {1, 2, 3, 4, 5, 6, 7, 8, 10, 11, 12}
    && (s.state in {7, 8} ==> d)
    && (s.state == 1 ==> out == [])
    && (s.state > 1 ==> Shape(out, Users(s.state), Joins(s.state, d), Whos(s.state)))
  }

  ghost predicate Shape(out: seq<string>, u: nat, j: nat, w: nat) {
    exists n, p :: out == Word(n, u, j, w, p) && (w == 0 ==> p == 0) && (u == 0 ==> j == 0) && (j == 0 ==> w == 0)
  }

  lemma {:induction false} OutputSnoc(log: seq<Act>, a: Act)
    ensures Output(log + [a]) ==
            Output(log) + if a.Sent? && a.m.command != "PONG" then [a.m.command] else []
  {
    assert (log + [a])[..|log|] == log;
  }

  lemma WordSteps(n: nat, j: nat, p: nat)
    ensures Word(n, 0, 0, 0, 0) + ["NICK"] == Word(n + 1, 0, 0, 0, 0)
    ensures Word(n, 0, 0, 0, 0) + ["USER"] == Word(n, 1, 0, 0, 0)
    ensures Word(n, 1, j, 0, 0) + ["JOIN"] == Word(n, 1, j + 1, 0, 0)
    ensures Word(n, 1, j, 0, 0) + ["WHO"] == Word(n, 1, j, 1, 0)
    ensures Word(n, 1, j, 1, p) + ["PING"] == Word(n, 1, j, 1, p + 1)
  {
    assert Times(0, "USER") == Times(0, "JOIN") == Times(0, "WHO") == Times(0, "PING") == [];
    assert Times(1, "USER") == ["USER"] && Times(1, "WHO") == ["WHO"];
  }

  // ---- who may speak when ----

  predicate IsSent(a: Act, command: string) {
    a.Sent? && a.m.command == command
  }

  predicate IsIn(a: Act, command: string) {
    a.In? && a.m.command == command
  }

  /** A PING is out and no PONG has come since. */
  predicate Awaiting(log: seq<Act>) {
    log != [] &&
    var last := log[|log| - 1];
    IsSent(last, "PING") || (!IsIn(last, "PONG") && Awaiting(log[..|log| - 1]))
  }

  predicate UserSent(log: seq<Act>) {
    exists i | 0 <= i < |log| :: IsSent(log[i], "USER")
  }

  /** A 004 has come after the USER. */
  predicate Welcomed(log: seq<Act>) {
    exists i | 0 <= i < |log| :: IsIn(log[i], "004") && UserSent(log[..i])
  }

  predicate JoinSent(log: seq<Act>) {
    exists i | 0 <= i < |log| :: IsSent(log[i], "JOIN") && Welcomed(log[..i])
  }

  /** Our own JOIN has been echoed, after we sent it. */
  predicate JoinEchoed(log: seq<Act>, channel: string, nick: string) {
    exists i | 0 <= i < |log| :: log[i].In? && OwnJoin(log[i].m, channel, nick) && JoinSent(log[..i])
  }

  /** The application is switched on only after a 004 and our own JOIN echo, and
      no PING goes out while one is unanswered. */
  predicate Orderly(log: seq<Act>, channel: string) {
    forall i | 0 <= i < |log| ::
      && (log[i].AppOn? ==> JoinEchoed(log[..i], channel, log[i].nick))
      && (IsSent(log[i], "PING") ==> !Awaiting(log[..i]))
  }

  ghost predicate Inv(s: Proto, log: seq<Act>) {
    Spelled(s, Output(log)) && Ordered(s, log)
  }

  predicate Ordered(s: Proto, log: seq<Act>) {
    && Orderly(log, s.config.channel)
    && (s.state == 12 <==> Awaiting(log))
    && (s.state == 4 ==> UserSent(log))
    && (s.state == 5 ==> Welcomed(log))
    && (s.state == 6 ==> JoinSent(log))
    && (s.state >= 7 ==> JoinEchoed(log, s.config.channel, s.nick))
  }

  lemma OneMore(log: seq<Act>, a: Act, channel: string, nick: string)
    ensures UserSent(log) || IsSent(a, "USER") ==> UserSent(log + [a])
    ensures Welcomed(log) || (IsIn(a, "004") && UserSent(log)) ==> Welcomed(log + [a])
    ensures JoinSent(log) || (IsSent(a, "JOIN") && Welcomed(log)) ==> JoinSent(log + [a])
    ensures JoinEchoed(log, channel, nick) || (a.In? && OwnJoin(a.m, channel, nick) && JoinSent(log)) ==>
              JoinEchoed(log + [a], channel, nick)
  {
    var more := log + [a];
    assert more[|log|] == a && more[..|log|] == log;
    assert forall i | 0 <= i < |log| :: more[i] == log[i] && more[..i] == log[..i];
  }

  lemma OrderlyMore(log: seq<Act>, a: Act, channel: string)
    requires Orderly(log, channel)
    requires a.AppOn? ==> JoinEchoed(log, channel, a.nick)
    requires IsSent(a, "PING") ==> !Awaiting(log)
    ensures Orderly(log + [a], channel)
  {
    var more := log + [a];
    assert more[..|log|] == log;
    assert forall i | 0 <= i < |log| :: more[i] == log[i] && more[..i] == log[..i];
  }

  lemma AwaitingMore(log: seq<Act>, a: Act)
    ensures Awaiting(log + [a]) <==> IsSent(a, "PING") || (!IsIn(a, "PONG") && Awaiting(log))
  {
    assert (log + [a])[..|log|] == log;
  }

  /** An act in the log that leaves state and output as they are. */
  lemma Quiet(s: Proto, log: seq<Act>, a: Act)
    requires Inv(s, log)
    requires a.In? || IsSent(a, "PONG")
    requires s.state == 12 ==> !IsIn(a, "PONG")
    ensures Inv(s, log + [a])
  {
    hide Spelled, Output, Orderly, Awaiting, UserSent, Welcomed, JoinSent, JoinEchoed;
    OutputSnoc(log, a);
    assert Output(log + [a]) == Output(log);
    OneMore(log, a, s.config.channel, s.nick);
    OrderlyMore(log, a, s.config.channel);
    AwaitingMore(log, a);
  }

  lemma SpelledAfter(s: Proto, out: seq<string>, m: IRCMessage)
    requires Spelled(s, out)
    ensures Spelled(OnMessage(s, m), out)
  {
    hide Shape;
  }

  lemma OrderedAfter(s: Proto, log: seq<Act>, m: IRCMessage)
    requires Ordered(s, log) && s.state in {1, 2, 3, 4, 5, 6, 7, 8, 10, 11, 12}
    ensures Ordered(OnMessage(s, m), log + [In(m)])
  {
    hide Orderly, Awaiting, UserSent, Welcomed, JoinSent, JoinEchoed, OwnJoin;
    OneMore(log, In(m), s.config.channel, s.nick);
    OrderlyMore(log, In(m), s.config.channel);
    AwaitingMore(log, In(m));
    if OwnJoin(m, s.config.debugChannel, s.nick) || OwnJoin(m, s.config.channel, s.nick) {
      JoinIsNotPong(m, s);
    }
  }

  lemma JoinIsNotPong(m: IRCMessage, s: Proto)
    requires OwnJoin(m, s.config.debugChannel, s.nick) || OwnJoin(m, s.config.channel, s.nick)
    ensures m.command == "JOIN"
  {
  }

  lemma Received(s: Proto, log: seq<Act>, m: IRCMessage)
    requires Inv(s, log)
    ensures Inv(OnMessage(s, m), log + [In(m)])
  {
    hide Output, Ordered, Shape;
    OutputSnoc(log, In(m));
    assert Output(log + [In(m)]) == Output(log);
    SpelledAfter(s, Output(log), m);
    OrderedAfter(s, log, m);
  }

  lemma MessageKeeps(s: Proto, log: seq<Act>, m: IRCMessage)
    requires Inv(s, log)
    ensures Inv(OnMessage(s, m), log + [In(m)] + Replies(m))
    ensures Kicked(m, s) ==> Inv(s, log + [In(m)])
  {
    hide Inv;
    Received(s, log, m);
    if m.command == "PING" {
      Quiet(OnMessage(s, m), log + [In(m)], Replies(m)[0]);
    } else {
      assert log + [In(m)] + Replies(m) == log + [In(m)];
    }
    if Kicked(m, s) {
      Quiet(s, log, In(m));
    }
  }

  lemma {:induction false} DrainKeeps(s: Proto, log: seq<Act>, msgs: seq<IRCMessage>)
    requires Inv(s, log)
    ensures var (t, ok, acts) := Drain(s, msgs); Inv(t, log + acts)
    decreases |msgs|
  {
    hide Inv;
    if msgs == [] {
      assert log + [] == log;
    } else {
      MessageKeeps(s, log, msgs[0]);
      if !Kicked(msgs[0], s) {
        var first := [In(msgs[0])] + Replies(msgs[0]);
        var (t, ok, acts) := Drain(OnMessage(s, msgs[0]), msgs[1..]);
        assert log + first == log + [In(msgs[0])] + Replies(msgs[0]);
        DrainKeeps(OnMessage(s, msgs[0]), log + first, msgs[1..]);
        assert log + (first + acts) == log + first + acts;
      }
    }
  }

  lemma {:induction false} OutputConcat(a: seq<Act>, b: seq<Act>)
    ensures Output(a + b) == Output(a) + Output(b)
  {
    if b == [] {
      assert a + b == a;
    } else {
      OutputConcat(a, b[..|b| - 1]);
      assert (a + b)[..|a + b| - 1] == a + b[..|b| - 1];
    }
  }

  /** The commands of one step. */
  function Spoken(s: Proto): seq<string> {
    if s.state == 1 then ["PASS", "NICK"]
    else if s.state == 2 && s.timer == 0 then ["USER"]
    else if s.state == 3 && s.timer == 0 then ["NICK"]
    else if s.state == 5 || (s.state == 7 && s.config.debugChannel != "") then ["JOIN"]
    else if s.state == 10 then ["WHO"]
    else if s.state == 11 && s.timer == 0 then ["PING"]
    else []
  }

  lemma OutputOne(acts: seq<Act>)
    requires |acts| <= 1
    ensures Output(acts) == if |acts| == 1 && acts[0].Sent? && acts[0].m.command != "PONG" then [acts[0].m.command]
            else []
  {
  }

  lemma SpokenIs(s: Proto, nick: string)
    ensures Output(Stepped(s, nick).2) == Spoken(s)
  {
    hide Output;
    var acts := Stepped(s, nick).2;
    if acts == [] {
      OutputOne([]);
    } else {
      OutputOne([acts[0]]);
      if |acts| == 1 {
        assert acts == [acts[0]];
      } else {
        OutputOne([acts[1]]);
        OutputConcat([acts[0]], [acts[1]]);
        assert acts == [acts[0]] + [acts[1]];
      }
    }
  }

  /** The commands one step adds keep the output on course. */
  lemma StepSpells(s: Proto, out: seq<string>, nick: string)
    requires Spelled(s, out)
    ensures Spelled(Stepped(s, nick).0, out + Spoken(s))
  {
    hide Word;
    var d := s.config.debugChannel != "";
    if s.state == 1 {
      FirstWord();
      assert Shape(["PASS", "NICK"], 0, 0, 0);
      assert out + Spoken(s) == ["PASS", "NICK"];
    } else {
      var n, p :| out == Word(n, Users(s.state), Joins(s.state, d), Whos(s.state), p)
        && (Whos(s.state) == 0 ==> p == 0);
      WordSteps(n, Joins(s.state, d), p);
      var t := Stepped(s, nick).0;
      if Spoken(s) == [] {
        assert out + Spoken(s) == out;
        assert t.state == s.state;
      } else {
        var n' := if s.state == 3 then n + 1 else n;
        var p' := if s.state == 11 then p + 1 else p;
        assert out + Spoken(s) == Word(n', Users(t.state), Joins(t.state, d), Whos(t.state), p');
      }
    }
  }

  lemma FirstWord()
    ensures Word(0, 0, 0, 0, 0) == ["PASS", "NICK"]
  {
  }

  lemma StepOrdered(s: Proto, log: seq<Act>, nick: string)
    requires Ordered(s, log) && s.state in {1, 2, 3, 4, 5, 6, 7, 8, 10, 11, 12}
    ensures Ordered(Stepped(s, nick).0, log + Stepped(s, nick).2)
  {
    hide Orderly, Awaiting, UserSent, Welcomed, JoinSent, JoinEchoed;
    var (t, ok, acts) := Stepped(s, nick);
    var ch := s.config.channel;
    if acts == [] {
      assert log + acts == log;
    } else {
      var mid := log + [acts[0]];
      OneMore(log, acts[0], ch, t.nick);
      AwaitingMore(log, acts[0]);
      OrderlyMore(log, acts[0], ch);
      if |acts| == 2 {
        OneMore(mid, acts[1], ch, t.nick);
        AwaitingMore(mid, acts[1]);
        OrderlyMore(mid, acts[1], ch);
        assert log + acts == mid + [acts[1]];
      } else {
        assert log + acts == mid;
      }
    }
  }

  lemma CallKeeps(s: Proto, log: seq<Act>, msgs: seq<IRCMessage>, nick: string)
    requires Inv(s, log)
    ensures Inv(Call(s, msgs, nick).0, log + Call(s, msgs, nick).2)
  {
    hide Output, Shape, Orderly, Awaiting, UserSent, Welcomed, JoinSent, JoinEchoed;
    var s0 := s.(timer := if s.timer > 0 then s.timer - 1 else 0);
    assert Inv(s0, log);
    DrainKeeps(s0, log, msgs);
    var (t, ok, acts) := Drain(s0, msgs);
    if ok {
      StepOrdered(t, log + acts, nick);
      StepSpells(t, Output(log + acts), nick);
      SpokenIs(t, nick);
      OutputConcat(log + acts, Stepped(t, nick).2);
      assert log + (acts + Stepped(t, nick).2) == log + acts + Stepped(t, nick).2;
    }
  }

  lemma {:induction false} SessionKeeps(s: Proto, nick: string, calls: seq<Input>)
    ensures var (t, log) := Session(Ready(s, nick), calls); Inv(t, log)
  {
    if calls != [] {
      SessionKeeps(s, nick, calls[..|calls| - 1]);
      var (t, log) := Session(Ready(s, nick), calls[..|calls| - 1]);
      var last := calls[|calls| - 1];
      CallKeeps(t, log, last.msgs, last.nick);
    }
  }

  ghost predicate LoginPrefix(out: seq<string>, joins: nat) {
    exists n, p :: out <= Word(n, 1, joins, 1, p)
  }

  /** From one network-ready to the next, whatever arrives, the output is a
      prefix of PASS NICK NICK* USER JOIN [JOIN] WHO PING*, the second JOIN only
      with a debug channel. */
  lemma LoginLanguage(s: Proto, nick: string, calls: seq<Input>)
    ensures LoginPrefix(Output(Session(Ready(s, nick), calls).1), if s.config.debugChannel != "" then 2 else 1)
  {
    hide Session, Output, Ordered;
    SessionKeeps(s, nick, calls);
    ConfigKept(Ready(s, nick), calls);
    var (t, log) := Session(Ready(s, nick), calls);
    var d := s.config.debugChannel != "";
    if t.state == 1 {
      assert Output(log) <= Word(0, 1, if d then 2 else 1, 1, 0);
    } else {
      var n, p :| Output(log) == Word(n, Users(t.state), Joins(t.state, d), Whos(t.state), p)
                  && (Whos(t.state) == 0 ==> p == 0);
      WordPrefix(n, Users(t.state), Joins(t.state, d), Whos(t.state), p, if d then 2 else 1);
    }
  }

  lemma WordPrefix(n: nat, u: nat, j: nat, w: nat, p: nat, all: nat)
    requires u <= 1 && j <= all && w <= 1 && all >= 1
    requires (u < 1 ==> j == 0) && (j < all ==> w == 0) && (w < 1 ==> p == 0)
    ensures Word(n, u, j, w, p) <= Word(n, 1, all, 1, p)
  {
    assert Times(0, "USER") == Times(0, "JOIN") == Times(0, "WHO") == Times(0, "PING") == [];
    var base := ["PASS", "NICK"] + Times(n, "NICK");
    if u < 1 {
      assert Word(n, u, j, w, p) == base;
    } else if w < 1 {
      TimesPrefix(j, all, "JOIN");
      assert Word(n, u, j, w, p) == base + Times(1, "USER") + Times(j, "JOIN");
    }
  }

  lemma {:induction false} TimesPrefix(a: nat, b: nat, command: string)
    requires a <= b
    ensures Times(a, command) <= Times(b, command)
  {
    if a < b {
      TimesPrefix(a, b - 1, command);
    }
  }

  lemma {:induction false} ConfigKept(s: Proto, calls: seq<Input>)
    ensures Session(s, calls).0.config == s.config
  {
    if calls != [] {
      ConfigKept(s, calls[..|calls| - 1]);
      var t, last := Session(s, calls[..|calls| - 1]).0, calls[|calls| - 1];
      DrainConfig(t.(timer := if t.timer > 0 then t.timer - 1 else 0), last.msgs);
    }
  }

  lemma {:induction false} DrainConfig(s: Proto, msgs: seq<IRCMessage>)
    ensures Drain(s, msgs).0.config == s.config
    decreases |msgs|
  {
    if msgs != [] && !Kicked(msgs[0], s) {
      DrainConfig(OnMessage(s, msgs[0]), msgs[1..]);
    }
  }

  /** In every session the application is switched on only after a 004 that
      followed USER and an echo of our own JOIN that followed our JOIN, and every
      PING but the first waits for the PONG of the one before. */
  lemma LoginOrder(s: Proto, nick: string, calls: seq<Input>)
    ensures Orderly(Session(Ready(s, nick), calls).1, s.config.channel)
  {
    SessionKeeps(s, nick, calls);
    ConfigKept(Ready(s, nick), calls);
  }

  // ---- a silent server ----

  function Max1(n: nat): nat {
    if n == 0 then 1 else n
  }

  /** How many calls without a message lead to the disconnect. */
  function Remaining(s: Proto): nat {
    if s.state == 1 then 41
    else if s.state == 2 then Max1(s.timer) + 30
    else if s.state == 3 then Max1(s.timer) + 40
    else if s.state == 5 || (s.state == 7 && s.config.debugChannel != "") then 31
    else if s.state == 10 then 121
    else if s.state == 11 then Max1(s.timer) + 60
    else if s.state == 7 then 1
    else Max1(s.timer)
  }

  predicate Reachable(s: Proto) {
    && s.state in {1, 2, 3, 4, 5, 6, 7, 8, 10, 11, 12}
    && (s.state in {2, 3} ==> s.timer <= 10)
    && (s.state in {4, 6, 8} ==> s.timer <= 30)
    && (s.state in {11, 12} ==> s.timer <= PING_TIMER)
  }

  /** Every call answered true, with nothing to read. */
  predicate StaysUp(s: Proto, nicks: seq<string>)
    decreases |nicks|
  {
    nicks == [] || (Call(s, [], nicks[0]).1 && StaysUp(Call(s, [], nicks[0]).0, nicks[1..]))
  }

  lemma SilentCall(s: Proto, nick: string)
    requires Reachable(s)
    ensures var (t, ok, acts) := Call(s, [], nick);
            && Reachable(t)
            && (ok <==> Remaining(s) > 1)
            && (ok ==> Remaining(t) == Remaining(s) - 1)
  {
  }

  /** With a silent server the client disconnects after exactly the remaining
      calls, whatever nicks it draws. */
  lemma {:induction false} SilentServer(s: Proto, nicks: seq<string>)
    requires Reachable(s)
    ensures StaysUp(s, nicks) <==> |nicks| < Remaining(s)
    decreases |nicks|
  {
    if nicks != [] {
      SilentCall(s, nicks[0]);
      if Call(s, [], nicks[0]).1 {
        SilentServer(Call(s, [], nicks[0]).0, nicks[1..]);
      }
    }
  }

  lemma {:induction false} DrainReaches(s: Proto, msgs: seq<IRCMessage>)
    requires Reachable(s)
    ensures Reachable(Drain(s, msgs).0)
    decreases |msgs|
  {
    if msgs != [] && !Kicked(msgs[0], s) {
      DrainReaches(OnMessage(s, msgs[0]), msgs[1..]);
    }
  }

  lemma {:induction false} SessionReaches(s: Proto, nick: string, calls: seq<Input>)
    ensures Reachable(Session(Ready(s, nick), calls).0)
  {
    if calls != [] {
      SessionReaches(s, nick, calls[..|calls| - 1]);
      var t, last := Session(Ready(s, nick), calls[..|calls| - 1]).0, calls[|calls| - 1];
      DrainReaches(t.(timer := if t.timer > 0 then t.timer - 1 else 0), last.msgs);
    }
  }

  /** From any state of any session a silent server is given up within 121 calls. */
  lemma SilentWithin121(s: Proto, nick: string, calls: seq<Input>, nicks: seq<string>)
    requires |nicks| >= 121
    ensures !StaysUp(Session(Ready(s, nick), calls).0, nicks)
  {
    SessionReaches(s, nick, calls);
    SilentServer(Session(Ready(s, nick), calls).0, nicks);
  }
}
