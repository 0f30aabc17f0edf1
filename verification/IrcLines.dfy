/** The IRC receiver against the grammar: every line that arrives is split at its
    spaces and colons, whoever wrote it. */
module IrcLines {
  import opened IrcCodec

  // ---- a line, split ----

  /** Bytes that are not positive, and carriage returns, count for nothing. */
  function Clean(line: string): string {
    if line == "" then ""
    else
      var b := line[|line| - 1];
      Clean(line[..|line| - 1]) + if Positive(b) && b != '\r' then [b] else ""
  }

  function Unspaced(s: string): string {
    s[Spaces(s)..]
  }

  /** Parameters after the space that starts the first: a colon takes the rest of the
      line, and what comes after fourteen of them is given up. */
  function Split(s: string, left: nat): seq<string>
    decreases |s|
  {
    if left == 0 then [""]
    else if s != "" && s[0] == ':' then [s[1..]]
    else
      var i := Find(s, ' ');
      if i == |s| then [s] else [s[..i]] + Split(s[i + 1..], left - 1)
  }

  /** The command up to the first space, and the parameters. */
  function Body(prefix: string, s: string): IRCMessage {
    var i := Find(s, ' ');
    IRCMessage(prefix, s[..i], if i == |s| then [] else Split(s[i + 1..], 14))
  }

  /** A colon in front introduces the prefix, which ends at the first space. */
  function ReadLine(line: string): IRCMessage {
    var s := Unspaced(line);
    if s != "" && s[0] == ':' then
      var i := Find(s, ' ');
      if i == |s| then IRCMessage(s[1..], "", []) else Body(s[1..i], s[i + 1..])
    else Body("", s)
  }

  // ---- the receiver does that ----

  lemma Skipped(p: Parser, b: char)
    requires p.Valid() && (!Positive(b) || b == '\r')
    ensures p.Step(b) == p
  {
  }

  lemma {:induction false} FeedClean(p: Parser, line: string)
    requires p.Valid() && '\n' !in line
    ensures Feed(p, line) == Feed(p, Clean(line)) && Plain(Clean(line))
  {
    hide Parser.Step;
    if line != "" {
      var init, b := line[..|line| - 1], line[|line| - 1];
      assert b in line && forall c | c in init :: c in line;
      if !Positive(b) || b == '\r' {
        Skipped(Feed(p, init), b);
      }
      FeedClean(p, init);
      if Positive(b) && b != '\r' {
        assert (Clean(init) + [b])[..|Clean(init)|] == Clean(init);
      } else {
        assert Clean(init) + "" == Clean(init);
      }
    }
  }

  /** Behind the fifteenth parameter nothing is read. */
  lemma {:induction false} Ignored(p: Parser, s: string)
    requires p.Valid() && p.state == 5 && Plain(s)
    ensures Feed(p, s) == p
  {
    if s != "" {
      assert s[|s| - 1] in s && forall c | c in s[..|s| - 1] :: c in s;
      Ignored(p, s[..|s| - 1]);
    }
  }

  lemma Parts(s: string, i: nat, j: nat)
    requires Plain(s) && i <= j <= |s|
    ensures Plain(s[i..j])
  {
    assert forall c | c in s[i..j] :: c in s;
  }

  lemma TailPlain(s: string, i: nat)
    requires Plain(s) && i <= |s|
    ensures Plain(s[i..])
  {
    assert forall c | c in s[i..] :: c in s;
  }

  lemma SplitCases(s: string, left: nat)
    ensures left == 0 ==> Split(s, left) == [""]
    ensures left > 0 && s != "" && s[0] == ':' ==> Split(s, left) == [s[1..]]
    ensures left > 0 && (s != "" ==> s[0] != ':') ==>
              var i := Find(s, ' ');
              Split(s, left) == if i == |s| then [s] else [s[..i]] + Split(s[i + 1..], left - 1)
  {
  }

  /** A middle parameter that does not end the line. */
  lemma OneParam(p: Parser, s: string, ps: seq<string>, i: nat)
    requires p.state == 3 && p.m.params == ps + [""] && |ps| < 14 && i < |s| && s[i] == ' ' && Middle(s[..i])
    ensures var q := p.(state := if |ps| == 13 then 5 else 3, m := p.m.(params := ps + [s[..i]] + [""]));
            q.Valid() && Feed(p, s) == Feed(q, s[i + 1..])
  {
    hide Feed, Middle;
    FeedMiddle(p, s[..i], ps);
    var r := Feed(p, s[..i]);
    NextParam(r, ps + [s[..i]]);
    Feed1(r, ' ');
    FeedConcat(p, s[..i], " ");
    FeedConcat(p, s[..i] + " ", s[i + 1..]);
    assert s[..i] + " " + s[i + 1..] == s;
  }

  /** A parameter that takes the rest of the line. */
  lemma RestParam(p: Parser, s: string, ps: seq<string>)
    requires p.state == 3 && p.m.params == ps + [""] && Plain(s) && s != "" && s[0] == ':'
    ensures Feed(p, s).m == p.m.(params := ps + [s[1..]]) && Feed(p, s).queue == p.queue
  {
    hide Feed, Plain, Parser.Step;
    ColonParam(p, ps);
    Feed1(p, ':');
    TailPlain(s, 1);
    FeedTrailing(p.Step(':'), s[1..], ps);
    FeedConcat(p, ":", s[1..]);
    assert ":" + s[1..] == s;
  }

  lemma Regroup(a: seq<string>, b: string, c: seq<string>)
    ensures a + ([b] + c) == a + [b] + c
  {
  }

  lemma {:induction false} FeedSplit(p: Parser, s: string, ps: seq<string>)
    requires p.state == 3 && p.m.params == ps + [""] && |ps| < 14 && Plain(s)
    ensures Feed(p, s).m == p.m.(params := ps + Split(s, 14 - |ps|)) && Feed(p, s).queue == p.queue
    decreases |s|
  {
    hide Feed, Plain, Middle, Parser.Step, Split;
    SplitCases(s, 14 - |ps|);
    if s != "" && s[0] == ':' {
      RestParam(p, s, ps);
    } else {
      var i := Find(s, ' ');
      MiddleWord(s, i);
      if i == |s| {
        FeedMiddle(p, s[..i], ps);
        assert s[..i] == s;
      } else {
        OneParam(p, s, ps, i);
        var rest, more := s[i + 1..], ps + [s[..i]];
        var q := p.(state := if |ps| == 13 then 5 else 3, m := p.m.(params := more + [""]));
        TailPlain(s, i + 1);
        Regroup(ps, s[..i], Split(rest, 13 - |ps|));
        if |ps| == 13 {
          SplitCases(rest, 0);
          Ignored(q, rest);
        } else {
          FeedSplit(q, rest, more);
        }
      }
    }
  }

  lemma ColonParam(p: Parser, ps: seq<string>)
    requires p.state == 3 && p.m.params == ps + [""]
    ensures p.Step(':') == p.(state := 4)
  {
  }

  lemma MiddleWord(s: string, i: nat)
    requires Plain(s) && i <= |s| && (s != "" ==> s[0] != ':') && forall j | 0 <= j < i :: s[j] != ' '
    ensures Middle(s[..i])
  {
    assert forall c | c in s[..i] :: c in s;
  }

  lemma NextParam(q: Parser, ps: seq<string>)
    requires q.state == 3 && q.m.params == ps && 0 < |ps| <= 14
    ensures q.Step(' ') == q.(state := if |ps| == 14 then 5 else 3, m := q.m.(params := ps + [""]))
  {
  }

  /** From the command on. */
  lemma FeedBody(p: Parser, s: string)
    requires p.state == 2 && p.m.command == "" && p.m.params == [] && Plain(s)
    ensures Feed(p, s).m == Body(p.m.prefix, s) && Feed(p, s).queue == p.queue
  {
    hide Feed, Plain, Parser.Step;
    var i := Find(s, ' ');
    Parts(s, 0, i);
    WordPart(s, 0, i);
    FeedCommand(p, s[..i]);
    assert "" + s[..i] == s[..i];
    if i == |s| {
      assert s[..i] == s;
    } else {
      AfterCommand(p, Feed(p, s[..i]), s, i);
    }
  }

  lemma WordPart(s: string, i: nat, j: nat)
    requires Plain(s) && i <= j <= |s| && forall k | i <= k < j :: s[k] != ' '
    ensures Word(s[i..j])
  {
    assert forall c | c in s[i..j] :: c in s;
  }

  /** The space behind the command, and the parameters. */
  lemma AfterCommand(p: Parser, q: Parser, s: string, i: nat)
    requires p.Valid() && i < |s| && s[i] == ' ' && Plain(s)
    requires q == Feed(p, s[..i]) && q.state == 2 && q.m.params == []
    ensures Feed(p, s).m == q.m.(params := Split(s[i + 1..], 14)) && Feed(p, s).queue == q.queue
  {
    hide Feed, Plain, Parser.Step;
    hide Split;
    var rest := s[i + 1..];
    FirstParam(q);
    Feed1(q, ' ');
    FeedConcat(p, s[..i], " ");
    FeedConcat(p, s[..i] + " ", rest);
    assert s[..i] + " " + rest == s;
    TailPlain(s, i + 1);
    var none: seq<string> := [];
    assert none + [""] == [""] && none + Split(rest, 14) == Split(rest, 14);
    FeedSplit(q.Step(' '), rest, none);
  }

  lemma FirstParam(q: Parser)
    requires q.state == 2 && q.m.params == []
    ensures q.Step(' ') == q.(state := 3, m := q.m.(params := [""]))
  {
  }

  /** A line without a prefix. */
  lemma FeedUnprefixed(s: string)
    requires Plain(s) && (s != "" ==> s[0] != ':' && s[0] != ' ')
    ensures Feed(START, s).m == Body("", s) && Feed(START, s).queue == []
  {
    hide Feed, Plain, Parser.Step;
    if s == "" {
      FeedNothing(START);
    } else {
      var i := Find(s, ' ');
      WordPart(s, 0, i);
      FeedBareCommand(START, s[..i]);
      if i == |s| {
        assert s[..i] == s;
      } else {
        AfterCommand(START, Feed(START, s[..i]), s, i);
      }
    }
  }

  /** And one with a prefix. */
  lemma FeedWithPrefix(s: string)
    requires Plain(s) && s != "" && s[0] == ':'
    ensures Feed(START, s).m == ReadLine(s) && Feed(START, s).queue == []
  {
    hide Feed, Plain, Parser.Step;
    assert Unspaced(s) == s;
    var i := Find(s, ' ');
    var r := START.Step(':');
    ColonFirst();
    Feed1(START, ':');
    WordPart(s, 1, i);
    FeedPrefix(r, s[1..i]);
    FeedConcat(START, ":", s[1..i]);
    assert ":" + s[1..i] == s[..i];
    var q := Feed(START, s[..i]);
    assert "" + s[1..i] == s[1..i];
    if i == |s| {
      assert s[..i] == s;
    } else {
      PrefixEnds(q);
      Feed1(q, ' ');
      FeedConcat(START, s[..i], " ");
      FeedConcat(START, s[..i] + " ", s[i + 1..]);
      assert s[..i] + " " + s[i + 1..] == s;
      TailPlain(s, i + 1);
      FeedBody(q.Step(' '), s[i + 1..]);
    }
  }

  lemma PrefixEnds(q: Parser)
    requires q.state == 1 && q.m.params == []
    ensures q.Step(' ') == q.(state := 2)
  {
  }

  lemma FeedLine(s: string)
    requires Plain(s)
    ensures Feed(START, s).m == ReadLine(s) && Feed(START, s).queue == []
  {
    hide Feed, Plain, Body;
    var n := Spaces(s);
    FeedSpaces(s[..n]);
    FeedConcat(START, s[..n], s[n..]);
    assert s[..n] + s[n..] == s;
    TailPlain(s, n);
    var rest := s[n..];
    assert rest != "" ==> Spaces(rest) == 0;
    assert Unspaced(rest) == rest && ReadLine(rest) == ReadLine(s);
    if rest != "" && rest[0] == ':' {
      FeedWithPrefix(rest);
    } else {
      FeedUnprefixed(rest);
    }
  }

  // ---- a stream of lines ----

  /** The messages of all the lines that a newline has ended. */
  function Messages(bytes: string): seq<IRCMessage>
    decreases |bytes|
  {
    var i := Find(bytes, '\n');
    if i == |bytes| then [] else [ReadLine(Clean(bytes[..i]))] + Messages(bytes[i + 1..])
  }

  lemma NewLine(p: Parser)
    requires p.Valid()
    ensures p.Step('\n') == Parser(0, EMPTY, p.queue + [p.m])
  {
  }

  /** The queue so far makes no difference to what is read. */
  lemma {:induction false} QueueAside(p: Parser, q: seq<IRCMessage>, bytes: string)
    requires p.Valid()
    ensures Feed(p.(queue := q + p.queue), bytes) == Feed(p, bytes).(queue := q + Feed(p, bytes).queue)
  {
    if bytes != "" {
      QueueAside(p, q, bytes[..|bytes| - 1]);
      var r, b := Feed(p, bytes[..|bytes| - 1]), bytes[|bytes| - 1];
      assert q + (r.queue + [r.m]) == q + r.queue + [r.m];
    }
  }

  /** Whatever bytes arrive, the queue holds exactly the messages of the finished
      lines, in order. */
  lemma {:induction false} QueueIsLines(bytes: string)
    ensures Feed(START, bytes).queue == Messages(bytes)
    decreases |bytes|
  {
    hide Feed, Parser.Step, ReadLine, Clean;
    var i := Find(bytes, '\n');
    var line := bytes[..i];
    FeedClean(START, line);
    FeedLine(Clean(line));
    if i == |bytes| {
      assert line == bytes;
    } else {
      var p := Feed(START, line);
      Feed1(p, '\n');
      NewLine(p);
      FeedConcat(START, line, "\n");
      FeedConcat(START, line + "\n", bytes[i + 1..]);
      assert line + "\n" + bytes[i + 1..] == bytes;
      QueueIsLines(bytes[i + 1..]);
      assert START.(queue := [p.m] + START.queue) == Parser(0, EMPTY, [] + [p.m]);
      QueueAside(START, [p.m], bytes[i + 1..]);
    }
  }

  /** So too for any sequence of reads. */
  lemma ReadsAreLines(chunks: seq<string>)
    ensures FeedChunks(START, chunks).queue == Messages(Joined(chunks))
  {
    FeedChunked(START, chunks);
    QueueIsLines(Joined(chunks));
  }

  // ---- a printed line ----

  /** A well-formed message is printed on one line, which ends in carriage return and
      line feed and holds no other. */
  lemma PrintedLine(m: IRCMessage)
    requires WellFormed(m)
    ensures var text := Compose(m);
            && |text| >= 2 && text[|text| - 2] == '\r' && text[|text| - 1] == '\n'
            && '\r' !in text[..|text| - 2] && '\n' !in text[..|text| - 2]
  {
    var body := PrefixText(m.prefix) + m.command + ParamsText(m.params, |m.params|);
    TextPlain(m.params, |m.params|);
    assert Compose(m) == body + "\r\n" && Compose(m)[..|body|] == body;
    assert Plain(body);
  }
}
