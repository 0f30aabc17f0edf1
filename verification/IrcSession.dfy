/** Whole sessions of the IRC client: what one message changes, a login that
    completes, and which nick the server knows. */
module IrcSession {
  import opened IrcCodec
  import opened IrcLogin

  // ---- one message ----

  /** The nick before the first exclamation mark, or the whole prefix when it has no
      exclamation mark or no at sign. */
  predicate FromNick(prefix: string, nick: string) {
    if '!' in prefix && '@' in prefix
    then |nick| < |prefix| && prefix[..|nick|] == nick && prefix[|nick|] == '!' && '!' !in nick
    else prefix == nick
  }

  /** A JOIN of the channel with our nick in front. */
  predicate Echo(m: IRCMessage, channel: string, nick: string) {
    m.command == "JOIN" && |m.params| >= 1 && m.params[0] == channel && FromNick(m.prefix, nick)
  }

  lemma EchoIff(m: IRCMessage, channel: string, nick: string)
    ensures OwnJoin(m, channel, nick) <==> Echo(m, channel, nick)
  {
    var p := Find(m.prefix, '!');
    if '!' in m.prefix && '@' in m.prefix {
      assert PrefixNick(m) == m.prefix[..p];
      if FromNick(m.prefix, nick) {
        assert |nick| == p;
      }
    }
  }

  predicate KicksUs(m: IRCMessage, channel: string, nick: string) {
    m.command == "KICK" && |m.params| >= 2 && m.params[0] == channel && m.params[1] == nick
  }

  /** What the machine is waiting for has come. */
  predicate Moves(s: Proto, m: IRCMessage) {
    || (s.state == 2 && m.command == "433")
    || (s.state == 4 && m.command == "004")
    || (s.state == 6 && Echo(m, s.config.channel, s.nick))
    || (s.state == 8 && Echo(m, s.config.debugChannel, s.nick))
    || (s.state == 12 && m.command == "PONG")
  }

  /** One received message: the session ends exactly when it kicks us, the machine
      moves exactly when it has waited for it, and a PING is answered with a PONG that
      carries its first parameter. */
  lemma MessageIff(s: Proto, m: IRCMessage)
    ensures var (t, ok, acts) := Drain(s, [m]);
            && (ok <==> !KicksUs(m, s.config.channel, s.nick))
            && t.config == s.config && t.nick == s.nick
            && t.state == (if !Moves(s, m) then s.state
                           else if s.state == 2 then 3
                           else if s.state == 4 then 5
                           else if s.state == 6 then (if s.config.debugChannel != "" then 7 else 10)
                           else if s.state == 8 then 10
                           else 11)
            && t.timer == (if !Moves(s, m) then s.timer
                           else if s.state == 2 then 10 else if s.state == 12 then 60 else s.timer)
            && acts == [In(m)] + if m.command == "PING"
                                 then [Sent(IRCMessage("", "PONG", if |m.params| > 0 then [m.params[0]] else []))]
                                 else []
  {
    EchoIff(m, s.config.channel, s.nick);
    EchoIff(m, s.config.debugChannel, s.nick);
    assert [m][1..] == [];
    assert Drain(s, [m][1..]) == (s, true, []);
    var u := OnMessage(s, m);
    assert Drain(u, [m][1..]) == (u, true, []);
  }

  /** Messages are taken one by one. */
  lemma DrainSplit(s: Proto, msgs: seq<IRCMessage>)
    requires msgs != []
    ensures var (t, ok, acts) := Drain(s, [msgs[0]]);
            var (u, more, rest) := Drain(t, msgs[1..]);
            Drain(s, msgs) == if ok then (u, more, acts + rest) else (t, false, acts)
  {
    var m := msgs[0];
    assert [m][1..] == [];
    var u := OnMessage(s, m);
    assert Drain(u, [m][1..]) == (u, true, []);
    assert [In(m)] + Replies(m) + [] == [In(m)] + Replies(m);
  }

  // ---- every PING is answered ----

  /** Each PING read is followed at once by the PONG that carries its first parameter,
      and there is no other PONG. */
  predicate Answered(log: seq<Act>) {
    && (forall i | 0 <= i < |log| && log[i].In? && log[i].m.command == "PING" ::
          i + 1 < |log|
          && log[i + 1] == Sent(IRCMessage("", "PONG", if |log[i].m.params| > 0 then [log[i].m.params[0]] else [])))
    && (forall i | 0 <= i < |log| && log[i].Sent? && log[i].m.command == "PONG" ::
          i > 0 && log[i - 1].In? && log[i - 1].m.command == "PING")
  }

  lemma AnsweredConcat(a: seq<Act>, b: seq<Act>)
    requires Answered(a) && Answered(b)
    ensures Answered(a + b)
  {
    var log := a + b;
    forall i | 0 <= i < |log| && log[i].In? && log[i].m.command == "PING"
      ensures i + 1 < |log|
      ensures log[i + 1] == Sent(IRCMessage("", "PONG", if |log[i].m.params| > 0 then [log[i].m.params[0]] else []))
    {
      if i < |a| {
        assert log[i] == a[i];
      } else {
        assert log[i] == b[i - |a|];
      }
    }
    forall i | 0 <= i < |log| && log[i].Sent? && log[i].m.command == "PONG"
      ensures i > 0 && log[i - 1].In? && log[i - 1].m.command == "PING"
    {
      if i < |a| {
        assert log[i] == a[i];
      } else {
        assert log[i] == b[i - |a|];
      }
    }
  }

  lemma {:induction false} DrainAnswers(s: Proto, msgs: seq<IRCMessage>)
    ensures Answered(Drain(s, msgs).2)
    decreases |msgs|
  {
    hide Drain;
    if msgs == [] {
      DrainNothing(s);
    } else {
      DrainSplit(s, msgs);
      MessageIff(s, msgs[0]);
      var (t, ok, acts) := Drain(s, [msgs[0]]);
      DrainAnswers(t, msgs[1..]);
      AnsweredConcat(acts, Drain(t, msgs[1..]).2);
    }
  }

  lemma DrainNothing(s: Proto)
    ensures Drain(s, []) == (s, true, [])
  {
  }

  /** In every session every PING that is read gets its PONG. */
  lemma {:induction false} PingsAnswered(s: Proto, calls: seq<Input>)
    ensures Answered(Session(s, calls).1)
    decreases |calls|
  {
    hide Answered;
    if calls == [] {
      NoneUnanswered();
    } else {
      PingsAnswered(s, calls[..|calls| - 1]);
      var (t, log) := Session(s, calls[..|calls| - 1]);
      var last := calls[|calls| - 1];
      CallAnswers(t, last.msgs, last.nick);
      AnsweredConcat(log, Call(t, last.msgs, last.nick).2);
    }
  }

  lemma NoneUnanswered()
    ensures Answered([])
  {
  }

  lemma CallAnswers(s: Proto, msgs: seq<IRCMessage>, nick: string)
    ensures Answered(Call(s, msgs, nick).2)
  {
    hide Drain, Answered;
    var s0 := s.(timer := if s.timer > 0 then s.timer - 1 else 0);
    DrainAnswers(s0, msgs);
    var (t, ok, acts) := Drain(s0, msgs);
    StepAnswers(t, nick);
    AnsweredConcat(acts, Stepped(t, nick).2);
  }

  lemma StepAnswers(s: Proto, nick: string)
    ensures Answered(Stepped(s, nick).2)
  {
  }

  // ---- the nick that the server knows ----

  /** The nick of the last NICK sent. */
  function Told(log: seq<Act>): seq<string> {
    if log == [] then []
    else
      var last := log[|log| - 1];
      if last.Sent? && last.m.command == "NICK" then last.m.params else Told(log[..|log| - 1])
  }

  /** A PING goes out, and the application is switched on, under the nick told. */
  predicate Current(log: seq<Act>) {
    forall i | 0 <= i < |log| ::
      && (log[i].AppOn? ==> Told(log[..i]) == [log[i].nick])
      && (log[i].Sent? && log[i].m.command == "PING" ==> log[i].m.params == Told(log[..i]))
  }

  predicate NickInv(s: Proto, log: seq<Act>) {
    Current(log) && (s.state != 1 ==> Told(log) == [s.nick])
  }

  lemma ToldMore(log: seq<Act>, a: Act)
    requires Current(log)
    requires a.AppOn? ==> Told(log) == [a.nick]
    requires a.Sent? && a.m.command == "PING" ==> a.m.params == Told(log)
    ensures Current(log + [a])
    ensures Told(log + [a]) == if a.Sent? && a.m.command == "NICK" then a.m.params else Told(log)
  {
    var more := log + [a];
    assert more[..|log|] == log;
    assert forall i | 0 <= i < |log| :: more[i] == log[i] && more[..i] == log[..i];
  }

  lemma {:induction false} DrainTells(s: Proto, log: seq<Act>, msgs: seq<IRCMessage>)
    requires NickInv(s, log) && s.state in {1, 2, 3, 4, 5, 6, 7, 8, 10, 11, 12}
    ensures var (t, ok, acts) := Drain(s, msgs); NickInv(t, log + acts) && (t.state == 1 <==> s.state == 1)
    ensures Drain(s, msgs).0.state in {1, 2, 3, 4, 5, 6, 7, 8, 10, 11, 12}
    decreases |msgs|
  {
    hide Drain, Current, Told, Moves;
    if msgs == [] {
      DrainNothing(s);
      assert log + [] == log;
    } else {
      var m := msgs[0];
      DrainSplit(s, msgs);
      MessageIff(s, m);
      MovesWhere(s, m);
      var (t, ok, acts) := Drain(s, [m]);
      ToldMore(log, In(m));
      if m.command == "PING" {
        ToldMore(log + [In(m)], acts[1]);
        assert log + acts == log + [In(m)] + [acts[1]];
      } else {
        assert log + acts == log + [In(m)];
      }
      DrainTells(t, log + acts, msgs[1..]);
      assert log + (acts + Drain(t, msgs[1..]).2) == log + acts + Drain(t, msgs[1..]).2;
    }
  }

  lemma MovesWhere(s: Proto, m: IRCMessage)
    ensures Moves(s, m) ==> s.state in {2, 4, 6, 8, 12}
  {
  }

  lemma StepTells(s: Proto, log: seq<Act>, nick: string)
    requires NickInv(s, log) && s.state in {1, 2, 3, 4, 5, 6, 7, 8, 10, 11, 12}
    ensures NickInv(Stepped(s, nick).0, log + Stepped(s, nick).2)
    ensures Stepped(s, nick).0.state in {1, 2, 3, 4, 5, 6, 7, 8, 10, 11, 12}
  {
    hide Current, Told;
    var (t, ok, acts) := Stepped(s, nick);
    if acts == [] {
      assert log + acts == log;
    } else {
      ToldMore(log, acts[0]);
      if |acts| == 2 {
        ToldMore(log + [acts[0]], acts[1]);
        assert log + acts == log + [acts[0]] + [acts[1]];
      } else {
        assert log + acts == log + [acts[0]];
      }
    }
  }

  /** In every session the server has been told the nick in use before anything is
      said under it. */
  lemma {:induction false} NickTold(s: Proto, nick: string, calls: seq<Input>)
    ensures var (t, log) := Session(Ready(s, nick), calls);
            NickInv(t, log) && t.state in {1, 2, 3, 4, 5, 6, 7, 8, 10, 11, 12}
    decreases |calls|
  {
    hide NickInv;
    if calls == [] {
      NickNew(Ready(s, nick));
    } else {
      NickTold(s, nick, calls[..|calls| - 1]);
      var (t, log) := Session(Ready(s, nick), calls[..|calls| - 1]);
      var last := calls[|calls| - 1];
      CallTells(t, log, last.msgs, last.nick);
    }
  }

  lemma NickNew(s: Proto)
    requires s.state == 1
    ensures NickInv(s, [])
  {
  }

  lemma CallTells(s: Proto, log: seq<Act>, msgs: seq<IRCMessage>, nick: string)
    requires NickInv(s, log) && s.state in {1, 2, 3, 4, 5, 6, 7, 8, 10, 11, 12}
    ensures var (t, ok, acts) := Call(s, msgs, nick);
            NickInv(t, log + acts) && t.state in {1, 2, 3, 4, 5, 6, 7, 8, 10, 11, 12}
  {
    hide Drain, Stepped, Current, Told;
    var s0 := s.(timer := if s.timer > 0 then s.timer - 1 else 0);
    DrainTells(s0, log, msgs);
    var (t, ok, acts) := Drain(s0, msgs);
    StepTells(t, log + acts, nick);
    assert log + (acts + Stepped(t, nick).2) == log + acts + Stepped(t, nick).2;
  }

  // ---- a login that completes ----

  /** Everything the client says, PONGs left out, and the moment the application is
      switched on. */
  function Said(log: seq<Act>): seq<Act> {
    if log == [] then []
    else
      var last := log[|log| - 1];
      Said(log[..|log| - 1]) + if IsSaid(last) then [last] else []
  }

  lemma {:induction false} SaidConcat(a: seq<Act>, b: seq<Act>)
    ensures Said(a + b) == Said(a) + Said(b)
  {
    if b == [] {
      assert a + b == a;
    } else {
      assert (a + b)[..|a + b| - 1] == a + b[..|b| - 1];
      SaidConcat(a, b[..|b| - 1]);
    }
  }

  predicate IsSaid(a: Act) {
    a.AppOn? || (a.Sent? && a.m.command != "PONG")
  }

  lemma SaidOne(a: Act)
    ensures Said([]) == [] && Said([a]) == if IsSaid(a) then [a] else []
  {
    assert [a][..0] == [];
  }

  lemma SaidShort(acts: seq<Act>)
    requires |acts| <= 2
    ensures Said(acts) == (if |acts| > 0 && IsSaid(acts[0]) then [acts[0]] else [])
                          + if |acts| > 1 && IsSaid(acts[1]) then [acts[1]] else []
  {
    hide Said, IsSaid;
    if |acts| == 0 {
      SaidOne(AppOn(""));
    } else if |acts| == 1 {
      SaidOne(acts[0]);
      assert acts == [acts[0]];
    } else {
      SaidOne(acts[0]);
      SaidOne(acts[1]);
      SaidConcat([acts[0]], [acts[1]]);
      assert acts == [acts[0]] + [acts[1]];
    }
  }

  lemma MessageUnsaid(s: Proto, m: IRCMessage)
    ensures Said(Drain(s, [m]).2) == []
  {
    hide Drain, Said;
    MessageIff(s, m);
    SaidShort(Drain(s, [m]).2);
  }

  /** Messages that neither kick us nor move the machine leave it as it is. */
  lemma {:induction false} DrainIdle(s: Proto, msgs: seq<IRCMessage>)
    requires forall m | m in msgs :: !KicksUs(m, s.config.channel, s.nick) && !Moves(s, m)
    ensures var (t, ok, acts) := Drain(s, msgs); t == s && ok && Said(acts) == []
    decreases |msgs|
  {
    hide Drain, Moves, KicksUs, Said;
    if msgs == [] {
      DrainNothing(s);
      SaidShort([]);
    } else {
      assert msgs[0] in msgs && forall m | m in msgs[1..] :: m in msgs;
      DrainSplit(s, msgs);
      MessageIff(s, msgs[0]);
      MessageUnsaid(s, msgs[0]);
      DrainIdle(s, msgs[1..]);
      SaidConcat(Drain(s, [msgs[0]]).2, Drain(s, msgs[1..]).2);
    }
  }

  /** The state that an answer leads to. */
  function Next(s: Proto): nat {
    if s.state == 4 then 5 else if s.state == 6 && s.config.debugChannel != "" then 7 else 10
  }

  lemma {:induction false} DrainMoves(s: Proto, msgs: seq<IRCMessage>)
    requires s.state in {4, 6, 8} && exists m :: m in msgs && Moves(s, m)
    requires forall m | m in msgs :: !KicksUs(m, s.config.channel, s.nick)
    ensures var (t, ok, acts) := Drain(s, msgs); t == s.(state := Next(s)) && ok && Said(acts) == []
    decreases |msgs|
  {
    hide Drain, KicksUs, Said, Echo;
    var m := msgs[0];
    assert m in msgs && forall x | x in msgs[1..] :: x in msgs;
    DrainSplit(s, msgs);
    MessageIff(s, m);
    MessageUnsaid(s, m);
    var t := Drain(s, [m]).0;
    if Moves(s, m) {
      assert t == s.(state := Next(s));
      DrainIdle(t, msgs[1..]);
    } else {
      var x :| x in msgs && Moves(s, x);
      assert x in msgs[1..];
      DrainMoves(s, msgs[1..]);
    }
    SaidConcat(Drain(s, [m]).2, Drain(t, msgs[1..]).2);
  }

  /** Every call has answered true. */
  predicate AllOk(s: Proto, calls: seq<Input>)
    decreases |calls|
  {
    calls == []
    || (var front := calls[..|calls| - 1];
        var last := calls[|calls| - 1];
        AllOk(s, front) && Call(Session(s, front).0, last.msgs, last.nick).1)
  }

  /** After n calls the machine is in this state, and has said so much. */
  predicate At(s: Proto, calls: seq<Input>, n: nat, t: Proto, said: seq<Act>)
    requires n <= |calls|
  {
    Session(s, calls[..n]).0 == t && Said(Session(s, calls[..n]).1) == said && AllOk(s, calls[..n])
  }

  lemma OneCall(s: Proto, calls: seq<Input>, n: nat, t: Proto, said: seq<Act>)
    requires n < |calls| && At(s, calls, n, t, said)
    ensures var (u, ok, acts) := Call(t, calls[n].msgs, calls[n].nick);
            ok ==> At(s, calls, n + 1, u, said + Said(acts))
  {
    hide Call, Said;
    assert calls[..n + 1][..n] == calls[..n] && calls[..n + 1][n] == calls[n];
    var acts := Call(t, calls[n].msgs, calls[n].nick).2;
    SaidConcat(Session(s, calls[..n]).1, acts);
  }

  /** Nothing in these messages concerns the machine. */
  predicate Idle(t: Proto, msgs: seq<IRCMessage>) {
    forall m | m in msgs :: !KicksUs(m, t.config.channel, t.nick) && !Moves(t, m)
  }

  lemma IdleCall(t: Proto, msgs: seq<IRCMessage>, nick: string)
    requires t.state in {2, 4, 6, 8} && t.timer >= 2 && Idle(t, msgs)
    ensures var (u, ok, acts) := Call(t, msgs, nick); u == t.(timer := t.timer - 1) && ok && Said(acts) == []
  {
    hide Drain, Said, Moves, KicksUs;
    var s0 := t.(timer := t.timer - 1);
    assert Idle(s0, msgs) by {
      MovesAnyTime(t, s0, msgs);
    }
    DrainIdle(s0, msgs);
    SaidShort([]);
    SaidConcat(Drain(s0, msgs).2, []);
  }

  lemma MovesAnyTime(s: Proto, t: Proto, msgs: seq<IRCMessage>)
    requires t == s.(timer := t.timer)
    ensures Idle(s, msgs) <==> Idle(t, msgs)
  {
  }

  /** Waiting. */
  lemma {:induction false} Waits(s: Proto, calls: seq<Input>, n: nat, k: nat, t: Proto, said: seq<Act>)
    requires n + k <= |calls| && At(s, calls, n, t, said) && t.state in {2, 4, 6, 8} && t.timer > k
    requires forall i | n <= i < n + k :: Idle(t, calls[i].msgs)
    ensures At(s, calls, n + k, t.(timer := t.timer - k), said)
    decreases k
  {
    hide At, Idle;
    if k > 0 {
      IdleCall(t, calls[n].msgs, calls[n].nick);
      OneCall(s, calls, n, t, said);
      assert said + [] == said;
      var u := t.(timer := t.timer - 1);
      forall i | n + 1 <= i < n + k
        ensures Idle(u, calls[i].msgs)
      {
        MovesAnyTime(t, u, calls[i].msgs);
      }
      Waits(s, calls, n + 1, k - 1, u, said);
    }
  }

  /** An answer, and what is said next. */
  function Reply(t: Proto): seq<Act> {
    var c := t.config;
    if t.state == 4 then [Sent(IRCMessage("", "JOIN", [c.channel]))]
    else if t.state == 6 && c.debugChannel != "" then [Sent(IRCMessage("", "JOIN", [c.debugChannel]))]
    else [Sent(IRCMessage("", "WHO", [c.channel, "*"])), AppOn(t.nick)]
  }

  function AfterReply(t: Proto): Proto {
    if t.state == 4 then t.(state := 6, timer := 30)
    else if t.state == 6 && t.config.debugChannel != "" then t.(state := 8, timer := 30)
    else t.(state := 11, timer := 60)
  }

  predicate Wanted(t: Proto, msgs: seq<IRCMessage>) {
    && (forall m | m in msgs :: !KicksUs(m, t.config.channel, t.nick))
    && exists m :: m in msgs && Moves(t, m)
  }

  lemma ReplyCall(t: Proto, msgs: seq<IRCMessage>, nick: string)
    requires t.state in {4, 6, 8} && t.timer >= 1 && Wanted(t, msgs)
    ensures var (u, ok, acts) := Call(t, msgs, nick); u == AfterReply(t) && ok && Said(acts) == Reply(t)
  {
    hide Drain, Said, Echo, KicksUs;
    var s0 := t.(timer := t.timer - 1);
    var m :| m in msgs && Moves(t, m);
    assert Moves(s0, m);
    DrainMoves(s0, msgs);
    var v := s0.(state := Next(s0));
    SaidShort(Stepped(v, nick).2);
    SaidConcat(Drain(s0, msgs).2, Stepped(v, nick).2);
  }

  /** What a login waits for. */
  datatype Awaited = Welcome | EchoOf(channel: string, nick: string)

  predicate Is(m: IRCMessage, w: Awaited) {
    match w case Welcome => m.command == "004" case EchoOf(channel, nick) => Echo(m, channel, nick)
  }

  /** The first call from n on in which it comes is a, within thirty calls. */
  predicate InTime(calls: seq<Input>, n: nat, a: nat, w: Awaited) {
    && n <= a < |calls| && a < n + 30 && (exists m :: m in calls[a].msgs && Is(m, w))
    && forall i, m | n <= i < a && m in calls[i].msgs :: !Is(m, w)
  }

  function AwaitedBy(t: Proto): Awaited {
    if t.state == 4 then Welcome
    else if t.state == 6 then EchoOf(t.config.channel, t.nick)
    else EchoOf(t.config.debugChannel, t.nick)
  }

  /** An answer that comes within thirty calls. */
  lemma Answer(s: Proto, calls: seq<Input>, n: nat, a: nat, t: Proto, said: seq<Act>)
    requires n <= |calls| && At(s, calls, n, t, said) && t.state in {4, 6, 8} && t.timer == 30
    requires InTime(calls, n, a, AwaitedBy(t))
    requires forall i, m | 0 <= i < |calls| && m in calls[i].msgs :: !KicksUs(m, t.config.channel, t.nick)
    ensures At(s, calls, a + 1, AfterReply(t), said + Reply(t))
  {
    hide At, Idle, Wanted, KicksUs, Echo;
    forall i | n <= i < a
      ensures Idle(t, calls[i].msgs)
    {
      IdleUntil(calls, n, a, t, i);
    }
    assert Wanted(t, calls[a].msgs) by {
      var m :| m in calls[a].msgs && Is(m, AwaitedBy(t));
      IsMove(t, m);
      WantedBy(t, calls[a].msgs, m);
    }
    Waits(s, calls, n, a - n, t, said);
    var u := t.(timer := 30 - (a - n));
    assert Wanted(u, calls[a].msgs) by {
      WantedAnyTime(t, u, calls[a].msgs);
    }
    ReplyCall(u, calls[a].msgs, calls[a].nick);
    OneCall(s, calls, a, u, said);
  }

  lemma IsMove(t: Proto, m: IRCMessage)
    requires t.state in {4, 6, 8}
    ensures Is(m, AwaitedBy(t)) <==> Moves(t, m)
  {
  }

  lemma IdleUntil(calls: seq<Input>, n: nat, a: nat, t: Proto, i: nat)
    requires t.state in {4, 6, 8} && InTime(calls, n, a, AwaitedBy(t)) && n <= i < a
    requires forall i, m | 0 <= i < |calls| && m in calls[i].msgs :: !KicksUs(m, t.config.channel, t.nick)
    ensures Idle(t, calls[i].msgs)
  {
    hide KicksUs, Is, Moves;
    forall m | m in calls[i].msgs
      ensures !KicksUs(m, t.config.channel, t.nick) && !Moves(t, m)
    {
      IsMove(t, m);
    }
  }

  lemma WantedBy(t: Proto, msgs: seq<IRCMessage>, m: IRCMessage)
    requires (forall x | x in msgs :: !KicksUs(x, t.config.channel, t.nick)) && m in msgs && Moves(t, m)
    ensures Wanted(t, msgs)
  {
  }

  lemma WantedAnyTime(s: Proto, t: Proto, msgs: seq<IRCMessage>)
    requires t == s.(timer := t.timer)
    ensures Wanted(s, msgs) <==> Wanted(t, msgs)
  {
    if m :| m in msgs && Moves(s, m) {
      assert Moves(t, m);
    }
    if m :| m in msgs && Moves(t, m) {
      assert Moves(s, m);
    }
  }

  /** The first eleven calls of a session: the password, the nick and, when ten
      seconds have brought no collision, the user. */
  lemma Opens(s: Proto, calls: seq<Input>)
    requires s.state == 1 && |calls| >= 11
    requires forall i, m | 0 <= i < 11 && m in calls[i].msgs ::
               !KicksUs(m, s.config.channel, s.nick) && m.command != "433"
    ensures var c := s.config;
            At(s, calls, 11, s.(state := 4, timer := 30),
               [Sent(IRCMessage("", "PASS", [c.password])), Sent(IRCMessage("", "NICK", [s.nick])),
                Sent(IRCMessage("", "USER", [c.name, "0", "*", c.versionInfo]))])
  {
    hide At, Said, Drain;
    var c := s.config;
    var first := [Sent(IRCMessage("", "PASS", [c.password])), Sent(IRCMessage("", "NICK", [s.nick]))];
    AtStart(s, calls);
    FirstCall(s, calls[0].msgs, calls[0].nick);
    OneCall(s, calls, 0, s, []);
    var t := s.(state := 2, timer := 10);
    assert [] + first == first;
    Waits(s, calls, 1, 9, t, first);
    var u := t.(timer := 1);
    UserCall(u, calls[10].msgs, calls[10].nick);
    OneCall(s, calls, 10, u, first);
    assert first + [Sent(IRCMessage("", "USER", [c.name, "0", "*", c.versionInfo]))]
        == [Sent(IRCMessage("", "PASS", [c.password])), Sent(IRCMessage("", "NICK", [s.nick])),
            Sent(IRCMessage("", "USER", [c.name, "0", "*", c.versionInfo]))];
  }

  lemma AtStart(s: Proto, calls: seq<Input>)
    ensures At(s, calls, 0, s, [])
  {
    assert calls[..0] == [];
  }

  lemma FirstCall(s: Proto, msgs: seq<IRCMessage>, nick: string)
    requires s.state == 1 && forall m | m in msgs :: !KicksUs(m, s.config.channel, s.nick)
    ensures var (u, ok, acts) := Call(s, msgs, nick);
            && u == s.(state := 2, timer := 10) && ok
            && Said(acts) == [Sent(IRCMessage("", "PASS", [s.config.password])), Sent(IRCMessage("", "NICK", [s.nick]))]
  {
    hide Drain, Said, KicksUs, Echo;
    var s0 := s.(timer := if s.timer > 0 then s.timer - 1 else 0);
    DrainIdle(s0, msgs);
    SaidShort(Stepped(s0, nick).2);
    SaidConcat(Drain(s0, msgs).2, Stepped(s0, nick).2);
  }

  lemma UserCall(u: Proto, msgs: seq<IRCMessage>, nick: string)
    requires u.state == 2 && u.timer == 1
    requires forall m | m in msgs :: !KicksUs(m, u.config.channel, u.nick) && m.command != "433"
    ensures var (v, ok, acts) := Call(u, msgs, nick);
            && v == u.(state := 4, timer := 30) && ok
            && Said(acts) == [Sent(IRCMessage("", "USER", [u.config.name, "0", "*", u.config.versionInfo]))]
  {
    hide Drain, Said, KicksUs, Echo;
    var s0 := u.(timer := 0);
    DrainIdle(s0, msgs);
    SaidShort(Stepped(s0, nick).2);
    SaidConcat(Drain(s0, msgs).2, Stepped(s0, nick).2);
  }

  /** All that is said in a login that goes well. */
  function Script(c: Config, nick: string): seq<Act> {
    [Sent(IRCMessage("", "PASS", [c.password])), Sent(IRCMessage("", "NICK", [nick])),
     Sent(IRCMessage("", "USER", [c.name, "0", "*", c.versionInfo])), Sent(IRCMessage("", "JOIN", [c.channel]))]
    + (if c.debugChannel != "" then [Sent(IRCMessage("", "JOIN", [c.debugChannel]))] else [])
    + [Sent(IRCMessage("", "WHO", [c.channel, "*"])), AppOn(nick)]
  }

  /** A login completes whenever we are not kicked, nobody has our nick, the 004 comes
      within thirty calls of USER, and our own JOIN, or each of two, is echoed within
      thirty calls: every call answers true, and what has been said by the call that
      reads the last echo is exactly the script. */
  lemma {:induction false} LoginCompletes(s: Proto, nick: string, calls: seq<Input>, a: nat, b: nat, c: nat)
    requires forall i, m | 0 <= i < |calls| && m in calls[i].msgs ::
               !KicksUs(m, s.config.channel, nick) && (i < 11 ==> m.command != "433")
    requires InTime(calls, 11, a, Welcome) && InTime(calls, a + 1, b, EchoOf(s.config.channel, nick))
    requires if s.config.debugChannel == "" then c == b
             else InTime(calls, b + 1, c, EchoOf(s.config.debugChannel, nick))
    requires |calls| == c + 1
    ensures AllOk(Ready(s, nick), calls)
    ensures Session(Ready(s, nick), calls).0.state == 11
    ensures Said(Session(Ready(s, nick), calls).1) == Script(s.config, nick)
  {
    hide At, Said, AllOk, KicksUs, Echo;
    var p := Ready(s, nick);
    Opens(p, calls);
    var t := p.(state := 4, timer := 30);
    var first := [Sent(IRCMessage("", "PASS", [s.config.password])), Sent(IRCMessage("", "NICK", [nick])),
                  Sent(IRCMessage("", "USER", [s.config.name, "0", "*", s.config.versionInfo]))];
    Answer(p, calls, 11, a, t, first);
    var u := AfterReply(t);
    Answer(p, calls, a + 1, b, u, first + Reply(t));
    var v := AfterReply(u);
    if s.config.debugChannel != "" {
      Answer(p, calls, b + 1, c, v, first + Reply(t) + Reply(u));
      assert first + Reply(t) + Reply(u) + Reply(v) == Script(s.config, nick);
    } else {
      assert first + Reply(t) + Reply(u) == Script(s.config, nick);
    }
    assert calls[..c + 1] == calls;
    AtEnd(p, calls);
  }

  lemma AtEnd(s: Proto, calls: seq<Input>)
    ensures forall t, said :: At(s, calls, |calls|, t, said) ==>
              Session(s, calls).0 == t && Said(Session(s, calls).1) == said && AllOk(s, calls)
  {
    assert calls[..|calls|] == calls;
  }
}
