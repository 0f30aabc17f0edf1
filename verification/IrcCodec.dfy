/** The IRC line codec: a printer for messages of RFC 2812, section 2.3.1, and
    the receiver that reads them back a byte at a time. */
module IrcCodec {

  datatype IRCMessage = IRCMessage(prefix: string, command: string, params: seq<string>)

  const EMPTY := IRCMessage("", "", [])

  // ---- printing ----

  /** The first n parameters, the last of all introduced by a colon. */
  function ParamsText(ps: seq<string>, n: nat): string
    requires n <= |ps|
  {
    if n == 0 then ""
    else ParamsText(ps, n - 1) + (if n == |ps| then " :" else " ") + ps[n - 1]
  }

  function PrefixText(prefix: string): string {
    if prefix != "" then ":" + prefix + " " else ""
  }

  function Compose(m: IRCMessage): string {
    PrefixText(m.prefix) + m.command + ParamsText(m.params, |m.params|) + "\r\n"
  }

  method ComposeMessage(m: IRCMessage) returns (output: string)
    ensures output == Compose(m)
  {
    var o := "";
    if |m.prefix| > 0 {
      o := ":" + m.prefix + " ";
    }
    o := o + m.command;
    for i := 0 to |m.params|
      invariant o == PrefixText(m.prefix) + m.command + ParamsText(m.params, i)
    {
      if i == |m.params| - 1 {
        o := o + (" :" + m.params[i]);
      } else {
        o := o + (" " + m.params[i]);
      }
    }
    output := o + "\r\n";
  }

  function ComposeAll(ms: seq<IRCMessage>): string {
    if ms == [] then "" else ComposeAll(ms[..|ms| - 1]) + Compose(ms[|ms| - 1])
  }

  // ---- receiving ----

  /** A byte the receiver looks at: positive as a signed char. */
  predicate Positive(b: char) {
    0 < b as int < 128
  }

  datatype Parser = Parser(state: nat, m: IRCMessage, queue: seq<IRCMessage>) {
    predicate Valid() {
      && state <= 5
      && (state < 3 ==> m.params == [])
      && (state == 3 || state == 4 ==> m.params != [])
    }

    function PushPrefix(b: char): Parser {
      this.(m := m.(prefix := m.prefix + [b]))
    }

    function PushCommand(b: char): Parser {
      this.(m := m.(command := m.command + [b]))
    }

    function PushParam(b: char): Parser
      requires m.params != []
    {
      var last := |m.params| - 1;
      this.(m := m.(params := m.params[..last] + [m.params[last] + [b]]))
    }

    function NewParam(): Parser {
      this.(m := m.(params := m.params + [""]))
    }

    function Step(b: char): (p: Parser)
      requires Valid()
      ensures p.Valid()
    {
      if !Positive(b) then this
      else if b == '\n' then Parser(0, EMPTY, queue + [m])
      else if b == '\r' then this
      else match state
        case 0 =>
          if b == ':' then this.(state := 1) else if b == ' ' then this else PushCommand(b).(state := 2)
        case 1 =>
          if b == ' ' then this.(state := 2) else PushPrefix(b)
        case 2 =>
          if b == ' ' then NewParam().(state := 3) else PushCommand(b)
        case 3 =>
          if b == ' ' then NewParam().(state := if |m.params| + 1 >= 15 then 5 else 3)
          else if b == ':' && m.params[|m.params| - 1] == "" then this.(state := 4)
          else PushParam(b)
        case 4 => PushParam(b)
        case _ => this
    }
  }

  const START := Parser(0, EMPTY, [])

  function Feed(p: Parser, bytes: string): (q: Parser)
    requires p.Valid()
    ensures q.Valid()
  {
    if bytes == "" then p else Feed(p, bytes[..|bytes| - 1]).Step(bytes[|bytes| - 1])
  }

  /** One call per read from the socket. */
  function FeedChunks(p: Parser, chunks: seq<string>): (q: Parser)
    requires p.Valid()
    ensures q.Valid()
  {
    if chunks == [] then p else Feed(FeedChunks(p, chunks[..|chunks| - 1]), chunks[|chunks| - 1])
  }

  function Joined(chunks: seq<string>): string {
    if chunks == [] then "" else Joined(chunks[..|chunks| - 1]) + chunks[|chunks| - 1]
  }

  /** The receiving thread's state: the parser state, the message being built,
      with its own count of parameters, and the queue it fills. */
  class IRCReceiver {
    var state: nat
    var prefix: string
    var command: string
    var params: seq<string>
    var numParams: nat
    var recvQ: seq<IRCMessage>

    ghost predicate Valid()
      reads this
    {
      View().Valid() && numParams == |params|
    }

    ghost function View(): Parser
      reads this
    {
      Parser(state, IRCMessage(prefix, command, params), recvQ)
    }

    constructor ()
      ensures Valid() && View() == START
    {
      state, prefix, command, params, numParams, recvQ := 0, "", "", [], 0, [];
    }

    method Entry(buf: string)
      requires Valid()
      modifies this
      ensures Valid() && View() == Feed(old(View()), buf)
    {
      for i := 0 to |buf|
        invariant Valid() && View() == Feed(old(View()), buf[..i])
      {
        assert buf[..i + 1][..i] == buf[..i];
        Byte(buf[i]);
      }
      assert buf[..|buf|] == buf;
    }

    method Byte(b: char)
      requires Valid()
      modifies this
      ensures Valid() && View() == old(View()).Step(b)
    {
      if Positive(b) {
        if b == '\n' {
          recvQ := recvQ + [IRCMessage(prefix, command, params)];
          prefix, command, params, numParams := "", "", [], 0;
          state := 0;
        } else if b == '\r' {
        } else if state == 0 {
          if b == ':' {
            state := 1;
          } else if b == ' ' {
          } else {
            command := command + [b];
            state := 2;
          }
        } else if state == 1 {
          if b == ' ' {
            state := 2;
          } else {
            prefix := prefix + [b];
          }
        } else if state == 2 {
          if b == ' ' {
            state := 3;
            numParams := 1;
            params := params + [""];
          } else {
            command := command + [b];
          }
        } else if state == 3 {
          if b == ' ' {
            numParams := numParams + 1;
            if numParams >= 15 {
              state := 5;
            }
            params := params + [""];
          } else if b == ':' && |params[numParams - 1]| == 0 {
            state := 4;
          } else {
            params := params[..numParams - 1] + [params[numParams - 1] + [b]];
          }
        } else if state == 4 {
          params := params[..numParams - 1] + [params[numParams - 1] + [b]];
        }
      }
    }
  }

  // ---- chunking ----

  lemma {:induction false} FeedConcat(p: Parser, a: string, b: string)
    requires p.Valid()
    ensures Feed(p, a + b) == Feed(Feed(p, a), b)
  {
    if b == "" {
      assert a + b == a;
    } else {
      FeedConcat(p, a, b[..|b| - 1]);
      assert (a + b)[..|a + b| - 1] == a + b[..|b| - 1];
    }
  }

  /** Where the reads cut the stream makes no difference. */
  lemma {:induction false} FeedChunked(p: Parser, chunks: seq<string>)
    requires p.Valid()
    ensures FeedChunks(p, chunks) == Feed(p, Joined(chunks))
  {
    if chunks != [] {
      var init, last := chunks[..|chunks| - 1], chunks[|chunks| - 1];
      FeedChunked(p, init);
      FeedConcat(p, Joined(init), last);
    }
  }

  // ---- which messages survive ----

  /** Characters that the receiver keeps inside a field. */
  predicate Plain(s: string) {
    forall b | b in s :: Positive(b) && b != '\n' && b != '\r'
  }

  predicate Word(s: string) {
    Plain(s) && ' ' !in s
  }

  predicate Middle(s: string) {
    Word(s) && (s != "" ==> s[0] != ':')
  }

  /** At most fourteen parameters, or fifteen with an empty last one; only the
      last may hold spaces or begin with a colon. */
  predicate WellFormed(m: IRCMessage) {
    && Word(m.prefix)
    && Word(m.command)
    && (forall p | p in m.params :: Plain(p))
    && (forall i | 0 <= i < |m.params| - 1 :: Middle(m.params[i]))
    && (|m.params| <= 14 || (|m.params| == 15 && m.params[14] == ""))
  }

  /** The grammar's command is never empty and never looks like a prefix. */
  predicate IsCommand(s: string) {
    s != "" && s[0] != ':'
  }

  lemma {:induction false} FeedPrefix(p: Parser, s: string)
    requires p.Valid() && p.state == 1 && Word(s)
    ensures Feed(p, s) == p.(m := p.m.(prefix := p.m.prefix + s))
  {
    if s != "" {
      FeedPrefix(p, s[..|s| - 1]);
      assert s == s[..|s| - 1] + [s[|s| - 1]];
      assert s[|s| - 1] in s;
    }
  }

  lemma {:induction false} FeedCommand(p: Parser, s: string)
    requires p.Valid() && p.state == 2 && Word(s)
    ensures Feed(p, s) == p.(m := p.m.(command := p.m.command + s))
  {
    if s != "" {
      FeedCommand(p, s[..|s| - 1]);
      assert s == s[..|s| - 1] + [s[|s| - 1]];
      assert s[|s| - 1] in s;
    }
  }

  /** A middle parameter, just opened. */
  lemma {:induction false} FeedMiddle(p: Parser, s: string, ps: seq<string>)
    requires p.state == 3 && p.m.params == ps + [""] && Middle(s)
    ensures Feed(p, s) == p.(m := p.m.(params := ps + [s]))
  {
    if s != "" {
      var t, b := s[..|s| - 1], s[|s| - 1];
      FeedMiddle(p, t, ps);
      assert s == t + [b] && b in s;
      assert (ps + [t])[..|ps|] == ps;
    }
  }

  lemma TrailingStep(q: Parser, b: char, ps: seq<string>, t: string)
    requires q.state == 4 && q.m.params == ps + [t] && Positive(b) && b != '\n' && b != '\r'
    ensures q.Step(b) == q.(m := q.m.(params := ps + [t + [b]]))
  {
    assert (ps + [t])[..|ps|] == ps;
  }

  lemma {:induction false} FeedTrailing(p: Parser, s: string, ps: seq<string>)
    requires p.state == 4 && p.m.params == ps + [""] && Plain(s)
    ensures Feed(p, s) == p.(m := p.m.(params := ps + [s]))
  {
    hide Parser.Step;
    if s != "" {
      var t, b := s[..|s| - 1], s[|s| - 1];
      FeedTrailing(p, t, ps);
      assert s == t + [b] && b in s;
      TrailingStep(Feed(p, t), b, ps, t);
    }
  }

  lemma FeedNothing(p: Parser)
    requires p.Valid()
    ensures Feed(p, "") == p
  {
  }

  lemma Feed1(p: Parser, b: char)
    requires p.Valid()
    ensures Feed(p, [b]) == p.Step(b)
  {
    assert [b][..0] == "";
  }

  lemma FeedBareCommand(p: Parser, c: string)
    requires p.Valid() && p.state == 0 && p.m == EMPTY
    requires Word(c) && IsCommand(c)
    ensures Feed(p, c) == Parser(2, IRCMessage("", c, []), p.queue)
  {
    hide Feed;
    assert c[0] in c;
    Feed1(p, c[0]);
    assert forall b | b in c[1..] :: b in c;
    FeedCommand(p.Step(c[0]), c[1..]);
    FeedConcat(p, [c[0]], c[1..]);
    assert [c[0]] + c[1..] == c;
  }

  lemma FeedPrefixed(p: Parser, prefix: string, c: string)
    requires p.Valid() && p.state == 0 && p.m == EMPTY
    requires Word(prefix) && Word(c)
    ensures Feed(p, ":" + prefix + " " + c) == Parser(2, IRCMessage(prefix, c, []), p.queue)
  {
    hide Feed, Word;
    Feed1(p, ':');
    FeedPrefix(p.Step(':'), prefix);
    FeedConcat(p, ":", prefix);
    var r := Feed(p, ":" + prefix);
    Feed1(r, ' ');
    FeedConcat(p, ":" + prefix, " ");
    FeedCommand(r.Step(' '), c);
    FeedConcat(p, ":" + prefix + " ", c);
  }

  lemma FeedHead(p: Parser, m: IRCMessage)
    requires p.Valid() && p.state == 0 && p.m == EMPTY
    requires WellFormed(m) && (m.prefix != "" || IsCommand(m.command))
    ensures Feed(p, PrefixText(m.prefix) + m.command) == Parser(2, IRCMessage(m.prefix, m.command, []), p.queue)
  {
    hide Feed, Word, IsCommand;
    if m.prefix == "" {
      FeedBareCommand(p, m.command);
      assert PrefixText(m.prefix) + m.command == m.command;
    } else {
      FeedPrefixed(p, m.prefix, m.command);
    }
  }

  lemma FeedOneMiddle(p: Parser, q: Parser, before: string, s: string, ps: seq<string>)
    requires p.Valid() && q == Feed(p, before)
    requires q.state in {2, 3} && q.m.params == ps && |ps| < 14 && Middle(s)
    ensures Feed(p, before + " " + s) == q.(state := 3, m := q.m.(params := ps + [s]))
  {
    hide Feed, Middle;
    Feed1(q, ' ');
    FeedConcat(p, before, " ");
    FeedMiddle(q.Step(' '), s, ps);
    FeedConcat(p, before + " ", s);
  }

  lemma LastBegins(q: Parser, ps: seq<string>)
    requires q.Valid() && q.state in {2, 3} && q.m.params == ps && |ps| <= 14
    ensures var t := q.Step(' ').Step(':');
            t.m == q.m.(params := ps + [""]) && t.queue == q.queue && (|ps| < 14 ==> t.state == 4)
  {
  }

  lemma FeedLast(p: Parser, q: Parser, before: string, s: string, ps: seq<string>)
    requires p.Valid() && q == Feed(p, before)
    requires q.state in {2, 3} && q.m.params == ps && Plain(s) && (|ps| < 14 || (|ps| == 14 && s == ""))
    ensures Feed(p, before + " :" + s).m == q.m.(params := ps + [s])
    ensures Feed(p, before + " :" + s).queue == q.queue
  {
    hide Feed, Plain, Parser.Step;
    LastBegins(q, ps);
    Feed1(q, ' ');
    FeedConcat(p, before, " ");
    var r := q.Step(' ');
    Feed1(r, ':');
    FeedConcat(p, before + " ", ":");
    assert before + " " + ":" == before + " :";
    if |ps| == 14 {
      assert before + " :" + s == before + " :";
    } else {
      FeedTrailing(r.Step(':'), s, ps);
      FeedConcat(p, before + " :", s);
    }
  }

  /** One parameter more, not the last. */
  lemma NextMiddle(m: IRCMessage, n: nat)
    requires WellFormed(m) && 0 < n < |m.params|
    ensures Middle(m.params[n - 1]) && n - 1 < 14
    ensures ParamsText(m.params, n) == ParamsText(m.params, n - 1) + " " + m.params[n - 1]
    ensures m.params[..n - 1] + [m.params[n - 1]] == m.params[..n]
  {
    hide Middle, Plain, Word;
  }

  /** After the first n parameters, none of them the last. */
  lemma {:induction false} FeedMiddles(p: Parser, m: IRCMessage, n: nat)
    requires p == Parser(2, m.(params := []), p.queue)
    requires WellFormed(m) && (n < |m.params| || n == 0)
    ensures Feed(p, ParamsText(m.params, n)) == Parser(if n == 0 then 2 else 3, m.(params := m.params[..n]), p.queue)
  {
    if n == 0 {
      assert m.params[..0] == [];
    } else {
      hide Feed, WellFormed, Middle, Parser.Step, ParamsText;
      FeedMiddles(p, m, n - 1);
      NextMiddle(m, n);
      var before := ParamsText(m.params, n - 1);
      FeedOneMiddle(p, Feed(p, before), before, m.params[n - 1], m.params[..n - 1]);
    }
  }

  /** The last parameter. */
  lemma LastParam(m: IRCMessage)
    requires WellFormed(m) && m.params != []
    ensures var n := |m.params|;
            && Plain(m.params[n - 1]) && (n - 1 < 14 || (n - 1 == 14 && m.params[n - 1] == ""))
            && ParamsText(m.params, n) == ParamsText(m.params, n - 1) + " :" + m.params[n - 1]
            && m.params[..n - 1] + [m.params[n - 1]] == m.params
  {
    hide Middle, Plain, Word;
    assert m.params[|m.params| - 1] in m.params;
  }

  lemma FeedParams(p: Parser, m: IRCMessage)
    requires p == Parser(2, m.(params := []), p.queue)
    requires WellFormed(m)
    ensures Feed(p, ParamsText(m.params, |m.params|)).m == m
    ensures Feed(p, ParamsText(m.params, |m.params|)).queue == p.queue
  {
    var n := |m.params|;
    if n == 0 {
      assert m.params == [];
    } else {
      hide Feed, WellFormed, Middle, Plain, Parser.Step, ParamsText;
      FeedMiddles(p, m, n - 1);
      LastParam(m);
      var before := ParamsText(m.params, n - 1);
      FeedLast(p, Feed(p, before), before, m.params[n - 1], m.params[..n - 1]);
    }
  }

  /** A well-formed message is queued, exactly as it was printed. */
  lemma FeedMessage(p: Parser, m: IRCMessage)
    requires p.Valid() && p.state == 0 && p.m == EMPTY
    requires WellFormed(m) && (m.prefix != "" || IsCommand(m.command))
    ensures Feed(p, Compose(m)) == Parser(0, EMPTY, p.queue + [m])
  {
    var head, tail := PrefixText(m.prefix) + m.command, ParamsText(m.params, |m.params|);
    FeedHead(p, m);
    FeedParams(Feed(p, head), m);
    FeedConcat(p, head, tail);
    var q := Feed(p, head + tail);
    Feed1(q, '\r');
    FeedConcat(p, head + tail, "\r");
    Feed1(q.Step('\r'), '\n');
    FeedConcat(p, head + tail + "\r", "\n");
    assert head + tail + "\r" + "\n" == Compose(m);
  }

  /** The stream round trip: whatever the reads, the messages printed one after
      another are queued again, all of them and in order. */
  lemma {:induction false} StreamRoundTrip(ms: seq<IRCMessage>, chunks: seq<string>)
    requires forall m | m in ms :: WellFormed(m) && (m.prefix != "" || IsCommand(m.command))
    requires Joined(chunks) == ComposeAll(ms)
    ensures FeedChunks(START, chunks) == Parser(0, EMPTY, ms)
  {
    FeedChunked(START, chunks);
    FeedAll(ms);
  }

  lemma {:induction false} FeedAll(ms: seq<IRCMessage>)
    requires forall m | m in ms :: WellFormed(m) && (m.prefix != "" || IsCommand(m.command))
    ensures Feed(START, ComposeAll(ms)) == Parser(0, EMPTY, ms)
  {
    hide Feed, WellFormed, Compose, IsCommand;
    if ms == [] {
      FeedNothing(START);
    } else {
      var init, last := ms[..|ms| - 1], ms[|ms| - 1];
      FeedAll(init);
      assert last in ms;
      FeedMessage(Parser(0, EMPTY, init), last);
      FeedConcat(START, ComposeAll(init), Compose(last));
      assert ms == init + [last];
    }
  }

  // ---- and only those ----

  /** What holds of the message being built, whatever bytes arrive. */
  predicate Building(p: Parser) {
    var ps := p.m.params;
    && p.Valid()
    && Word(p.m.prefix)
    && Word(p.m.command)
    && (forall s | s in ps :: Plain(s))
    && (forall i | 0 <= i < |ps| - 1 :: Middle(ps[i]))
    && (p.state == 3 ==> Middle(ps[|ps| - 1]))
    && (if p.state == 5 then |ps| == 15 && ps[14] == "" else |ps| <= 14)
    && (forall m | m in p.queue :: WellFormed(m))
  }

  /** A parameter grows by one byte. */
  lemma BuildingParam(ps: seq<string>, b: char)
    requires ps != [] && Positive(b) && b != '\n' && b != '\r'
    requires forall s | s in ps :: Plain(s)
    ensures forall s | s in ps[..|ps| - 1] + [ps[|ps| - 1] + [b]] :: Plain(s)
  {
    var last := |ps| - 1;
    assert Plain(ps[last]);
    assert forall s | s in ps[..last] :: s in ps;
  }

  lemma BuildingStep(p: Parser, b: char)
    requires Building(p)
    ensures Building(p.Step(b))
  {
    if Positive(b) && b != '\n' && b != '\r' && p.state in {3, 4} {
      BuildingParam(p.m.params, b);
    }
  }

  lemma {:induction false} BuildingAlways(bytes: string)
    ensures Building(Feed(START, bytes))
  {
    if bytes != "" {
      BuildingAlways(bytes[..|bytes| - 1]);
      BuildingStep(Feed(START, bytes[..|bytes| - 1]), bytes[|bytes| - 1]);
    }
  }

  /** Every message the receiver ever queues is well-formed. */
  lemma OnlyWellFormed(bytes: string, m: IRCMessage)
    requires m in Feed(START, bytes).queue
    ensures WellFormed(m)
  {
    BuildingAlways(bytes);
  }

  // ---- every message ----

  /** The characters of the parameters, and one for each to start it. */
  function ParamsWeight(ps: seq<string>): nat {
    if ps == [] then 0 else ParamsWeight(ps[..|ps| - 1]) + 1 + |ps[|ps| - 1]|
  }

  function Weight(m: IRCMessage): nat {
    |m.prefix| + |m.command| + ParamsWeight(m.params)
  }

  lemma WeightSnoc(ps: seq<string>, p: string)
    ensures ParamsWeight(ps + [p]) == ParamsWeight(ps) + 1 + |p|
  {
    assert (ps + [p])[..|ps|] == ps;
  }

  /** A byte adds at most one to what has been read. */
  lemma StepWeight(p: Parser, b: char)
    requires p.Valid() && b != '\n'
    ensures Weight(p.Step(b).m) <= Weight(p.m) + 1
  {
    var ps := p.m.params;
    if ps != [] {
      var last := |ps| - 1;
      WeightSnoc(ps[..last], ps[last]);
      WeightSnoc(ps[..last], ps[last] + [b]);
      assert ps == ps[..last] + [ps[last]];
    }
    WeightSnoc(ps, "");
  }

  lemma {:induction false} FeedWeight(p: Parser, s: string)
    requires p.Valid() && '\n' !in s
    ensures Weight(Feed(p, s).m) <= Weight(p.m) + |s|
  {
    hide Parser.Step, Weight;
    if s != "" {
      FeedWeight(p, s[..|s| - 1]);
      StepWeight(Feed(p, s[..|s| - 1]), s[|s| - 1]);
    }
  }

  /** A byte of a command stays. */
  lemma {:induction false} CommandStays(p: Parser, s: string)
    requires p.Valid() && '\n' !in s && p.m.command != ""
    ensures Feed(p, s).m.command != ""
  {
    if s != "" {
      CommandStays(p, s[..|s| - 1]);
    }
  }

  /** The length of what is printed for the parameters: one byte more than their
      weight, for the colon. */
  lemma {:induction false} TextLength(ps: seq<string>, n: nat)
    requires n <= |ps|
    ensures |ParamsText(ps, n)| == ParamsWeight(ps[..n]) + if n == |ps| && n > 0 then 1 else 0
  {
    if n > 0 {
      TextLength(ps, n - 1);
      assert ps[..n] == ps[..n - 1] + [ps[n - 1]];
      WeightSnoc(ps[..n - 1], ps[n - 1]);
    } else {
      assert ps[..0] == [];
    }
  }

  lemma {:induction false} TextPlain(ps: seq<string>, n: nat)
    requires n <= |ps| && forall p | p in ps :: Plain(p)
    ensures Plain(ParamsText(ps, n))
  {
    if n > 0 {
      TextPlain(ps, n - 1);
      assert Plain(ps[n - 1]);
    }
  }

  /** Spaces before a message are skipped. */
  lemma {:induction false} FeedSpaces(s: string)
    requires forall i | 0 <= i < |s| :: s[i] == ' '
    ensures Feed(START, s) == START
  {
    if s != "" {
      FeedSpaces(s[..|s| - 1]);
    }
  }

  /** The first byte that is not a space. */
  function Spaces(s: string): (i: nat)
    ensures i <= |s| && (forall j | 0 <= j < i :: s[j] == ' ') && (i < |s| ==> s[i] != ' ')
  {
    if s == "" || s[0] != ' ' then 0 else 1 + Spaces(s[1..])
  }

  lemma HasColon(ps: seq<string>)
    requires ps != []
    ensures ' ' == ParamsText(ps, |ps|)[0] && ':' in ParamsText(ps, |ps|)
  {
    FirstSpace(ps, |ps|);
    var n := |ps|;
    var before := ParamsText(ps, n - 1);
    assert ParamsText(ps, n) == before + " :" + ps[n - 1];
    assert ParamsText(ps, n)[|before| + 1] == ':';
  }

  lemma {:induction false} FirstSpace(ps: seq<string>, n: nat)
    requires 0 < n <= |ps|
    ensures ParamsText(ps, n) != "" && ParamsText(ps, n)[0] == ' '
  {
    if n > 1 {
      FirstSpace(ps, n - 1);
    }
  }

  /** A line that starts with a space gives a command, or loses two bytes. */
  lemma AfterSpaces(text: string, head: string, b: char, tail: string)
    requires Plain(text) && text == head + [b] + tail && head != "" && b != ' '
    requires forall i | 0 <= i < |head| :: head[i] == ' '
    ensures var m := Feed(START, text).m; m.command != "" || Weight(m) <= |text| - 2
  {
    hide Parser.Step, Weight, Feed;
    assert b in text && forall c | c in tail :: c in text;
    FeedSpaces(head);
    FeedConcat(START, head, [b]);
    Feed1(START, b);
    FeedConcat(START, head + [b], tail);
    FirstByte(b);
    FeedWeight(START.Step(b), tail);
    if b != ':' {
      CommandStays(START.Step(b), tail);
    }
  }

  /** Parameters with nothing before them are read as something else. */
  lemma BareParams(m: IRCMessage)
    requires WellFormed(m) && m.prefix == "" && m.command == "" && m.params != []
    ensures Feed(START, ParamsText(m.params, |m.params|)).m != m
  {
    hide Parser.Step, Feed, ParamsText, Plain, Middle, Word;
    var text := ParamsText(m.params, |m.params|);
    HasColon(m.params);
    TextLength(m.params, |m.params|);
    assert m.params[..|m.params|] == m.params;
    TextPlain(m.params, |m.params|);
    var i := Spaces(text);
    var j :| 0 <= j < |text| && text[j] == ':';
    assert i <= j;
    assert text[0] == ' ' && i >= 1;
    assert text == text[..i] + [text[i]] + text[i + 1..];
    AfterSpaces(text, text[..i], text[i], text[i + 1..]);
  }

  lemma FirstByte(b: char)
    requires Positive(b) && b != '\n' && b != '\r' && b != ' '
    ensures b == ':' ==> Weight(START.Step(b).m) == 0
    ensures b != ':' ==> START.Step(b).m.command != ""
  {
  }

  /** A command that begins with a colon is read as a prefix. */
  lemma ColonCommand(m: IRCMessage)
    requires WellFormed(m) && m.prefix == "" && m.command != "" && m.command[0] == ':'
    ensures Feed(START, m.command + ParamsText(m.params, |m.params|)).m != m
  {
    hide Parser.Step;
    var d, text := m.command[1..], ParamsText(m.params, |m.params|);
    assert m.command == ":" + d;
    assert forall c | c in d :: c in m.command;
    Feed1(START, ':');
    ColonFirst();
    FeedPrefix(START.Step(':'), d);
    FeedConcat(START, ":", d);
    var p := Feed(START, m.command);
    FeedConcat(START, m.command, text);
    if m.params == [] {
      FeedNothing(p);
    } else {
      HasColon(m.params);
      TextLength(m.params, |m.params|);
      assert m.params[..|m.params|] == m.params;
      TextPlain(m.params, |m.params|);
      var tail := text[1..];
      assert text == " " + tail;
      Feed1(p, ' ');
      FeedConcat(p, " ", tail);
      SpaceAfterPrefix(p);
      assert forall c | c in tail :: c in text;
      FeedWeight(p.Step(' '), tail);
    }
  }

  lemma ColonFirst()
    ensures START.Step(':') == Parser(1, EMPTY, [])
  {
  }

  lemma SpaceAfterPrefix(p: Parser)
    requires p.Valid() && p.state == 1
    ensures p.Step(' ').m == p.m
  {
  }

  /** What is queued for a printed message. */
  lemma LineQueued(text: string)
    requires Plain(text)
    ensures Feed(START, text + "\r\n").queue == [Feed(START, text).m]
  {
    PlainQueue(text);
    var p := Feed(START, text);
    Feed1(p, '\r');
    FeedConcat(START, text, "\r");
    Feed1(p.Step('\r'), '\n');
    FeedConcat(START, text + "\r", "\n");
    assert text + "\r" + "\n" == text + "\r\n";
  }

  lemma {:induction false} PlainQueue(text: string)
    requires Plain(text)
    ensures Feed(START, text).queue == []
  {
    if text != "" {
      assert text[|text| - 1] in text;
      assert forall b | b in text[..|text| - 1] :: b in text;
      PlainQueue(text[..|text| - 1]);
    }
  }

  lemma BareSurvives(m: IRCMessage)
    requires WellFormed(m) && m.prefix == "" && !IsCommand(m.command)
    ensures Feed(START, Compose(m)).queue == [m] <==> m == EMPTY
  {
    hide Feed, Plain, Parser.Step;
    var text := m.command + ParamsText(m.params, |m.params|);
    TextPlain(m.params, |m.params|);
    BothPlain(m.command, ParamsText(m.params, |m.params|));
    LineQueued(text);
    assert Compose(m) == text + "\r\n";
    if m.command != "" {
      ColonCommand(m);
    } else if m.params != [] {
      assert text == ParamsText(m.params, |m.params|);
      BareParams(m);
    } else {
      FeedNothing(START);
      assert text == "";
    }
  }

  lemma BothPlain(a: string, b: string)
    requires Word(a) && Plain(b)
    ensures Plain(a + b)
  {
  }

  /** So a message survives printing and reading exactly when it is well-formed, and
      has a prefix or a command that does not look like one, or is empty. */
  lemma SurvivesIff(m: IRCMessage)
    ensures Feed(START, Compose(m)).queue == [m] <==>
            WellFormed(m) && (m.prefix != "" || IsCommand(m.command) || m == EMPTY)
  {
    hide WellFormed, Feed, Compose, IsCommand;
    if WellFormed(m) {
      if m.prefix != "" || IsCommand(m.command) {
        FeedMessage(START, m);
      } else {
        BareSurvives(m);
      }
    } else if Feed(START, Compose(m)).queue == [m] {
      assert m in [m];
      OnlyWellFormed(Compose(m), m);
    }
  }

  // ---- the prefix ----

  /** The position of the first c, or the length. */
  function Find(s: string, c: char): (i: nat)
    ensures i <= |s| && (forall j | 0 <= j < i :: s[j] != c) && (i < |s| ==> s[i] == c)
  {
    if s == "" || s[0] == c then 0
    else 1 + Find(s[1..], c)
  }

  /** Nick, name and host; when the at sign comes first, the length of the name
      wraps round and the name runs to the end. */
  method ParsePrefix(prefix: string) returns (ok: bool, components: seq<string>)
    ensures ok <==> '!' in prefix && '@' in prefix
    ensures components == Components(prefix)
  {
    components := [];
    var p1 := Find(prefix, '!');
    if p1 == |prefix| {
      return false, components;
    }
    var p2 := Find(prefix, '@');
    if p2 == |prefix| {
      return false, components;
    }
    components := components + [prefix[..p1]];
    components := components + [if p1 < p2 then prefix[p1 + 1..p2] else prefix[p1 + 1..]];
    components := components + [prefix[p2 + 1..]];
    ok := true;
  }

  function Components(prefix: string): seq<string> {
    var p1, p2 := Find(prefix, '!'), Find(prefix, '@');
    if p1 == |prefix| || p2 == |prefix| then []
    else [prefix[..p1], if p1 < p2 then prefix[p1 + 1..p2] else prefix[p1 + 1..], prefix[p2 + 1..]]
  }

  /** The parts of a prefix are recovered exactly when no separator hides in
      them. */
  lemma PrefixPartsIff(nick: string, name: string, host: string)
    ensures Components(nick + "!" + name + "@" + host) == [nick, name, host] <==>
            '!' !in nick && '@' !in nick && '@' !in name
  {
    var s := nick + "!" + name + "@" + host;
    var p1, p2 := Find(s, '!'), Find(s, '@');
    var at := |nick| + 1 + |name|;
    assert s[|nick|] == '!' && s[at] == '@';
    assert s[..|nick|] == nick && s[..at] == nick + "!" + name && s[at + 1..] == host;
    FindFirst(s, '!', |nick|);
    FindFirst(s, '@', at);
    if p1 == |nick| && p2 == at {
      assert s[p1 + 1..p2] == name;
    }
    if Components(s) == [nick, name, host] {
      assert |s[..p1]| == |nick|;
      assert |s[p2 + 1..]| == |host|;
    }
  }

  lemma FindFirst(s: string, c: char, k: nat)
    requires k < |s| && s[k] == c
    ensures Find(s, c) <= k
    ensures Find(s, c) == k <==> c !in s[..k]
  {
    var i := Find(s, c);
    if i < k {
      assert s[..k][i] == c;
    }
  }
}
