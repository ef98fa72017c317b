/** The commands an upload sends, cut off by a failed write, with the clean-up command run
    together behind them: what the shell can parse of that installs nothing unverified. */
module CutCommands {
  import opened Bytes
  import opened EchoImmunity
  import opened Options
  import opened RemoteShell
  import opened Seqs
  import opened ShellCuts
  import opened ShellGrammar
  import opened ShellSpelling
  import opened ShellWords

  // ----- What such tokens can be parsed as -----

  predicate IsTail(rest: seq<Token>, tokens: seq<Token>) {
    |rest| <= |tokens| && rest == tokens[|tokens| - |rest|..]
  }

  lemma TailOfTail(a: seq<Token>, b: seq<Token>, c: seq<Token>)
    requires IsTail(a, b) && IsTail(b, c)
    ensures IsTail(a, c)
  {
  }

  // Nothing is moved, and nothing but the temporary file removed.
  predicate Tame(c: Command, temp: string) {
    match c
    case Move(_, _) => false
    case Remove(path) => path == temp
    case And(first, second) => Tame(first, temp) && Tame(second, temp)
    case Then(first, second) => Tame(first, temp) && Tame(second, temp)
    case If(condition, yes, no) => Tame(condition, temp) && Tame(yes, temp) && Tame(no, temp)
    case Unless(condition, no) => Tame(condition, temp) && Tame(no, temp)
    case _ => true
  }

  predicate MildAt(tokens: seq<Token>, i: nat, temp: string)
    requires i < |tokens|
  {
    && tokens[i] != Word("mv")
    && (tokens[i] == Word("rm") && i + 3 < |tokens| ==> tokens[i + 3] == Word(temp))
  }

  ghost predicate Mild(tokens: seq<Token>, temp: string) {
    forall i :: 0 <= i < |tokens| ==> MildAt(tokens, i, temp)
  }

  lemma MildTail(rest: seq<Token>, tokens: seq<Token>, temp: string)
    requires Mild(tokens, temp) && IsTail(rest, tokens)
    ensures Mild(rest, temp)
  {
    forall i | 0 <= i < |rest| ensures MildAt(rest, i, temp) {
      assert MildAt(tokens, |tokens| - |rest| + i, temp);
    }
  }

  // A parse leaves a tail of the tokens, and a tame tree if they are mild.
  ghost predicate Tamed(r: Option<Parsed>, tokens: seq<Token>, temp: string) {
    r.Some? ==> IsTail(r.value.rest, tokens) && (Mild(tokens, temp) ==> Tame(r.value.command, temp))
  }

  lemma SimpleTame(t: seq<Token>, temp: string)
    requires Simple(t).Some? && t[0] != Word("mv") && (t[0] == Word("rm") && |t| > 3 ==> t[3] == Word(temp))
    ensures Tame(Simple(t).value, temp)
  {
  }

  lemma PastTail(tokens: seq<Token>, word: string)
    requires Past(tokens, word).Some?
    ensures IsTail(Past(tokens, word).value, tokens)
  {
  }

  lemma {:induction false} PrimaryTamed(tokens: seq<Token>, temp: string)
    ensures Tamed(Primary(tokens), tokens, temp)
    decreases |tokens|, 1
  {
    if Starts(tokens, Word("if")) {
      if Starts(tokens[1..], Word("!")) {
        NegatedTamed(tokens[2..], temp);
        Widened(Negated(tokens[2..]), tokens[2..], tokens, temp);
      } else {
        ConditionalTamed(tokens[1..], temp);
        Widened(Conditional(tokens[1..]), tokens[1..], tokens, temp);
      }
    } else {
      var n := SimpleLength(tokens);
      if Simple(tokens[..n]).Some? && n > 0 && Mild(tokens, temp) {
        assert MildAt(tokens, 0, temp);
        SimpleTame(tokens[..n], temp);
      }
    }
  }

  // What holds of a parse of a tail holds of the tokens in front of it too.
  lemma Widened(r: Option<Parsed>, rest: seq<Token>, tokens: seq<Token>, temp: string)
    requires Tamed(r, rest, temp) && IsTail(rest, tokens)
    ensures Tamed(r, tokens, temp)
  {
    if r.Some? {
      TailOfTail(r.value.rest, rest, tokens);
      if Mild(tokens, temp) {
        MildTail(rest, tokens, temp);
      }
    }
  }

  // A list, behind it a word, and a tail behind that.
  lemma {:induction false} ListPast(tokens: seq<Token>, word: string, temp: string) returns (b: seq<Token>)
    requires List(tokens).Some? && Past(List(tokens).value.rest, word).Some?
    ensures Some(b) == Past(List(tokens).value.rest, word)
    ensures IsTail(b, tokens) && |b| < |tokens|
    ensures Mild(tokens, temp) ==> Tame(List(tokens).value.command, temp) && Mild(b, temp)
    decreases |tokens|, 6
  {
    ListTamed(tokens, temp);
    var a := List(tokens).value.rest;
    PastTail(a, word);
    b := Past(a, word).value;
    TailOfTail(b, a, tokens);
    if Mild(tokens, temp) {
      MildTail(b, tokens, temp);
    }
  }

  lemma {:induction false} NegatedTamed(tokens: seq<Token>, temp: string)
    ensures Tamed(Negated(tokens), tokens, temp)
    decreases |tokens|, 7
  {
    var r := Negated(tokens);
    if r.Some? {
      PrimaryTamed(tokens, temp);
      var a := Primary(tokens).value.rest;
      PastTail(a, "then");
      var b := Past(a, "then").value;
      TailOfTail(b, a, tokens);
      var rest := ListPast(b, "fi", temp);
      TailOfTail(rest, b, tokens);
      if Mild(tokens, temp) {
        MildTail(b, tokens, temp);
      }
    }
  }

  lemma {:induction false} BranchesTamed(condition: Command, tokens: seq<Token>, temp: string)
    ensures TamedFrom(Branches(condition, tokens), condition, tokens, temp)
    decreases |tokens|, 7
  {
    if Branches(condition, tokens).Some? {
      var d := ListPast(tokens, "else", temp);
      var rest := ListPast(d, "fi", temp);
      TailOfTail(rest, d, tokens);
    }
  }

  lemma {:induction false} ConditionalTamed(tokens: seq<Token>, temp: string)
    ensures Tamed(Conditional(tokens), tokens, temp)
    decreases |tokens|, 7
  {
    if Conditional(tokens).Some? {
      var b := ListPast(tokens, "then", temp);
      var condition := List(tokens).value.command;
      assert Conditional(tokens) == Branches(condition, b);
      BranchesTamed(condition, b, temp);
      Followed(Branches(condition, b), condition, b, tokens, temp);
    }
  }

  lemma {:induction false} AndListTamed(tokens: seq<Token>, temp: string)
    ensures Tamed(AndList(tokens), tokens, temp)
    decreases |tokens|, 3
  {
    PrimaryTamed(tokens, temp);
    if Primary(tokens).Some? {
      var Parsed(first, rest) := Primary(tokens).value;
      MoreAndsTamed(first, rest, temp);
      Followed(MoreAnds(first, rest), first, rest, tokens, temp);
    }
  }

  // A parse that goes on from a tame tree.
  ghost predicate TamedFrom(r: Option<Parsed>, first: Command, tokens: seq<Token>, temp: string) {
    r.Some? ==>
      IsTail(r.value.rest, tokens) && (Mild(tokens, temp) && Tame(first, temp) ==> Tame(r.value.command, temp))
  }

  lemma Followed(r: Option<Parsed>, first: Command, rest: seq<Token>, tokens: seq<Token>, temp: string)
    requires TamedFrom(r, first, rest, temp) && IsTail(rest, tokens) && (Mild(tokens, temp) ==> Tame(first, temp))
    ensures Tamed(r, tokens, temp)
  {
    if r.Some? {
      TailOfTail(r.value.rest, rest, tokens);
      if Mild(tokens, temp) {
        MildTail(rest, tokens, temp);
      }
    }
  }

  lemma {:induction false} MoreAndsTamed(first: Command, tokens: seq<Token>, temp: string)
    ensures TamedFrom(MoreAnds(first, tokens), first, tokens, temp)
    decreases |tokens|, 2
  {
    if Starts(tokens, AndIf) {
      PrimaryTamed(tokens[1..], temp);
      Widened(Primary(tokens[1..]), tokens[1..], tokens, temp);
      if Primary(tokens[1..]).Some? {
        var Parsed(second, rest) := Primary(tokens[1..]).value;
        MoreAndsTamed(And(first, second), rest, temp);
        Continued(MoreAnds(And(first, second), rest), And(first, second), first, rest, tokens, temp);
      }
    }
  }

  lemma Continued(r: Option<Parsed>, longer: Command, first: Command, rest: seq<Token>, tokens: seq<Token>,
                  temp: string)
    requires TamedFrom(r, longer, rest, temp) && IsTail(rest, tokens)
    requires Mild(tokens, temp) && Tame(first, temp) ==> Tame(longer, temp)
    ensures TamedFrom(r, first, tokens, temp)
  {
    if r.Some? {
      TailOfTail(r.value.rest, rest, tokens);
      if Mild(tokens, temp) {
        MildTail(rest, tokens, temp);
      }
    }
  }

  lemma {:induction false} ListTamed(tokens: seq<Token>, temp: string)
    ensures Tamed(List(tokens), tokens, temp)
    decreases |tokens|, 5
  {
    AndListTamed(tokens, temp);
    if AndList(tokens).Some? {
      var Parsed(first, rest) := AndList(tokens).value;
      MoreCommandsTamed(first, rest, temp);
      Followed(MoreCommands(first, rest), first, rest, tokens, temp);
    }
  }

  lemma {:induction false} MoreCommandsTamed(first: Command, tokens: seq<Token>, temp: string)
    ensures TamedFrom(MoreCommands(first, tokens), first, tokens, temp)
    decreases |tokens|, 4
  {
    if Starts(tokens, Semicolon) && GoesOn(tokens[1..]) {
      AndListTamed(tokens[1..], temp);
      Widened(AndList(tokens[1..]), tokens[1..], tokens, temp);
      if AndList(tokens[1..]).Some? {
        var Parsed(second, rest) := AndList(tokens[1..]).value;
        MoreCommandsTamed(Then(first, second), rest, temp);
        Continued(MoreCommands(Then(first, second), rest), Then(first, second), first, rest, tokens, temp);
      }
    }
  }

  // ----- Trees that begin with one that is not tame -----

  // A tree led by first, with nothing but tame ones behind it.
  predicate Led(c: Command, first: Command, temp: string) {
    || c == first
    || (c.And? && Led(c.first, first, temp) && Tame(c.second, temp))
    || (c.Then? && Led(c.first, first, temp) && Tame(c.second, temp))
  }

  lemma {:induction false} MoreAndsLed(c: Command, tokens: seq<Token>, first: Command, temp: string)
    requires Led(c, first, temp) && Mild(tokens, temp) && MoreAnds(c, tokens).Some?
    ensures Led(MoreAnds(c, tokens).value.command, first, temp) && IsTail(MoreAnds(c, tokens).value.rest, tokens)
    decreases |tokens|
  {
    if Starts(tokens, AndIf) {
      PrimaryTamed(tokens[1..], temp);
      MildTail(tokens[1..], tokens, temp);
      var Parsed(second, rest) := Primary(tokens[1..]).value;
      TailOfTail(rest, tokens[1..], tokens);
      MildTail(rest, tokens, temp);
      MoreAndsLed(And(c, second), rest, first, temp);
      TailOfTail(MoreAnds(c, tokens).value.rest, rest, tokens);
    }
  }

  lemma {:induction false} MoreCommandsLed(c: Command, tokens: seq<Token>, first: Command, temp: string)
    requires Led(c, first, temp) && Mild(tokens, temp) && MoreCommands(c, tokens).Some?
    ensures Led(MoreCommands(c, tokens).value.command, first, temp)
    decreases |tokens|
  {
    if Starts(tokens, Semicolon) && GoesOn(tokens[1..]) {
      AndListTamed(tokens[1..], temp);
      MildTail(tokens[1..], tokens, temp);
      var Parsed(second, rest) := AndList(tokens[1..]).value;
      TailOfTail(rest, tokens[1..], tokens);
      MildTail(rest, tokens, temp);
      MoreCommandsLed(Then(c, second), rest, first, temp);
    }
  }

  lemma {:induction false} ListLed(tokens: seq<Token>, first: Command, rest: seq<Token>, temp: string)
    requires Primary(tokens) == Some(Parsed(first, rest)) && Mild(rest, temp) && List(tokens).Some?
    ensures Led(List(tokens).value.command, first, temp)
  {
    MoreAndsLed(first, rest, first, temp);
    var Parsed(c, more) := MoreAnds(first, rest).value;
    assert AndList(tokens) == Some(Parsed(c, more));
    MildTail(more, rest, temp);
    MoreCommandsLed(c, more, first, temp);
  }

  // ----- A conditional that the cut has left without its end -----

  predicate FiAt(tokens: seq<Token>, i: nat) {
    i + 1 < |tokens| && tokens[i] == Semicolon && tokens[i + 1] == Word("fi")
  }

  lemma PastFi(rest: seq<Token>, tokens: seq<Token>)
    requires IsTail(rest, tokens) && Past(rest, "fi").Some?
    ensures FiAt(tokens, |tokens| - |rest|)
  {
  }

  lemma ListTail(tokens: seq<Token>)
    requires List(tokens).Some?
    ensures IsTail(List(tokens).value.rest, tokens)
  {
    ListTamed(tokens, "");
  }

  // What follows a list and the word behind it, at the end of longer tokens.
  lemma NextClause(tokens: seq<Token>, word: string, all: seq<Token>) returns (b: seq<Token>)
    requires IsTail(tokens, all) && List(tokens).Some? && Past(List(tokens).value.rest, word).Some?
    ensures Some(b) == Past(List(tokens).value.rest, word) && IsTail(b, all)
  {
    ListTail(tokens);
    var a := List(tokens).value.rest;
    PastTail(a, word);
    b := Past(a, word).value;
    TailOfTail(b, a, tokens);
    TailOfTail(b, tokens, all);
  }

  lemma ConditionalEnds(tokens: seq<Token>, all: seq<Token>) returns (i: nat)
    requires IsTail(tokens, all) && Conditional(tokens).Some?
    ensures FiAt(all, i)
  {
    var b := NextClause(tokens, "then", all);
    assert Conditional(tokens) == Branches(List(tokens).value.command, b);
    var d := NextClause(b, "else", all);
    ListTail(d);
    var e := List(d).value.rest;
    TailOfTail(e, d, all);
    PastFi(e, all);
    i := |all| - |e|;
  }

  lemma NegatedEnds(tokens: seq<Token>, all: seq<Token>) returns (i: nat)
    requires IsTail(tokens, all) && Negated(tokens).Some?
    ensures FiAt(all, i)
  {
    PrimaryTamed(tokens, "");
    var a := Primary(tokens).value.rest;
    PastTail(a, "then");
    var b := Past(a, "then").value;
    TailOfTail(b, a, tokens);
    TailOfTail(b, tokens, all);
    ListTail(b);
    var c := List(b).value.rest;
    TailOfTail(c, b, all);
    PastFi(c, all);
    i := |all| - |c|;
  }

  // Without its end, what begins as a conditional is no command.
  lemma IfNeedsFi(tokens: seq<Token>)
    requires Starts(tokens, Word("if")) && forall i: nat :: !FiAt(tokens, i)
    ensures List(tokens) == None
  {
    if Primary(tokens).Some? {
      if Starts(tokens[1..], Word("!")) {
        var i := NegatedEnds(tokens[2..], tokens);
      } else {
        var i := ConditionalEnds(tokens[1..], tokens);
      }
    }
  }

  // Every semicolon is followed by something else than the end of a conditional.
  predicate Runs(tokens: seq<Token>) {
    forall i :: 0 <= i < |tokens| && tokens[i] == Semicolon ==> i + 1 < |tokens| && tokens[i + 1] != Word("fi")
  }

  // A conditional ends at the end.
  ghost predicate EndsLast(tokens: seq<Token>) {
    forall i: nat :: FiAt(tokens, i) ==> i + 2 == |tokens|
  }

  lemma RunsThen(a: seq<Token>, b: seq<Token>)
    requires Runs(a) && EndsLast(b)
    ensures EndsLast(a + b)
  {
    forall i: nat | FiAt(a + b, i) ensures i + 2 == |a + b| {
      if i >= |a| {
        assert FiAt(b, i - |a|);
      }
    }
  }

  lemma JointThen(word: string, b: seq<Token>)
    requires word != "fi" && EndsLast(b)
    ensures EndsLast(Joint(word, b))
  {
    assert Joint(word, b) == [Semicolon, Word(word)] + b;
    RunsThen([Semicolon, Word(word)], b);
  }

  lemma CutIfHasNoFi(tokens: seq<Token>, j: nat, g: string, temp: string)
    requires EndsLast(tokens) && 0 < j < |tokens|
    ensures forall i: nat :: !FiAt(tokens[..j] + Tail(g, temp), i)
  {
    var ts := tokens[..j] + Tail(g, temp);
    forall i: nat ensures !FiAt(ts, i) {
      if i + 1 < j {
        assert FiAt(ts, i) ==> FiAt(tokens, i);
      } else if i + 1 == j && i + 1 < |ts| {
        assert ts[i + 1] == Word(g + "rm");
        assert |g + "rm"| > 0 && (g + "rm")[|g + "rm"| - 1] == 'm';
      } else if i + 1 < |ts| {
        assert ts[i] == Tail(g, temp)[i - j] && ts[i + 1] == Tail(g, temp)[i + 1 - j];
      }
    }
  }

  // ----- The words of the commands sent -----

  predicate Quiet(tokens: seq<Token>) {
    forall t :: t in tokens ==> t != Word("mv") && t != Word("rm")
  }

  lemma QuietCut(tokens: seq<Token>, j: nat, g: string, temp: string)
    requires Quiet(tokens) && j <= |tokens| && |temp| > 2
    ensures Mild(tokens[..j] + Tail(g, temp), temp)
  {
    var ts := tokens[..j] + Tail(g, temp);
    forall i | 0 <= i < |ts| ensures MildAt(ts, i, temp) {
      if i < j {
        assert ts[i] == tokens[i] && tokens[i] in tokens;
      } else {
        assert ts[i] == Tail(g, temp)[i - j];
        assert |g + "rm"| > 1 && (g + "rm")[|g + "rm"| - 1] == 'm';
        assert i == j ==> ts[i + 3] == Tail(g, temp)[3];
      }
    }
  }

  // The values need no quotes inside their own.
  predicate Bland(c: Command) {
    match c
    case Sum(path) => QuoteFree(path)
    case IsDigest(digest) => QuoteFree(digest)
    case MakeExecutable(path) => QuoteFree(path)
    case Move(from, to) => QuoteFree(from) && QuoteFree(to)
    case Remove(path) => QuoteFree(path)
    case Say(text, more) => QuoteFree(text) && QuoteFree(more)
    case ReportStatus(marker) => QuoteFree(marker)
    case And(first, second) => Bland(first) && Bland(second)
    case Then(first, second) => Bland(first) && Bland(second)
    case If(condition, yes, no) => Bland(condition) && Bland(yes) && Bland(no)
    case Unless(condition, no) => Bland(condition) && Bland(no)
    case _ => true
  }

  lemma UnquotedJoined(a: seq<Piece>, p: Piece, b: seq<Piece>)
    requires AllUnquoted(a) && Unquoted(p) && AllUnquoted(b)
    ensures AllUnquoted(a + ([p] + b))
  {
  }

  lemma UnquotedBehind(p: Piece, b: seq<Piece>)
    requires Unquoted(p) && AllUnquoted(b)
    ensures AllUnquoted([p] + b)
  {
  }

  lemma UnquotedIf(c: seq<Piece>, yes: seq<Piece>, no: seq<Piece>)
    requires AllUnquoted(c) && AllUnquoted(yes) && AllUnquoted(no)
    ensures AllUnquoted(IfPieces(c, yes, no))
  {
    var fi := [End, Bare("fi")];
    assert no + fi == no + ([End] + [Bare("fi")]);
    UnquotedJoined(no, End, [Bare("fi")]);
    UnquotedBehind(Bare("else"), no + fi);
    UnquotedJoined(yes, End, [Bare("else")] + (no + fi));
    UnquotedBehind(Bare("then"), yes + ([End] + ([Bare("else")] + (no + fi))));
    UnquotedJoined(c, End, [Bare("then")] + (yes + ([End] + ([Bare("else")] + (no + fi)))));
    UnquotedBehind(Bare("if"), c + ([End] + ([Bare("then")] + (yes + ([End] + ([Bare("else")] + (no + fi)))))));
  }

  lemma UnquotedUnless(c: seq<Piece>, no: seq<Piece>)
    requires AllUnquoted(c) && AllUnquoted(no)
    ensures AllUnquoted(UnlessPieces(c, no))
  {
    var fi := [End, Bare("fi")];
    assert no + fi == no + ([End] + [Bare("fi")]);
    UnquotedJoined(no, End, [Bare("fi")]);
    UnquotedBehind(Bare("then"), no + fi);
    UnquotedJoined(c, End, [Bare("then")] + (no + fi));
    UnquotedBehind(Bare("!"), c + ([End] + ([Bare("then")] + (no + fi))));
    UnquotedBehind(Bare("if"), [Bare("!")] + (c + ([End] + ([Bare("then")] + (no + fi)))));
  }

  lemma SimpleUnquoted(c: Command)
    requires Bland(c) && !c.And? && !c.Then? && !c.If? && !c.Unless?
    ensures AllUnquoted(PiecesOf(c))
  {
    if c.ReportStatus? {
      forall x | x in StatusFormat(c.marker) ensures x != '\'' {
        assert x in "\\n" || x in c.marker || x in "EXIT:%s\\n";
      }
    }
  }

  lemma {:induction false} BlandUnquoted(c: Command)
    requires Bland(c)
    ensures AllUnquoted(PiecesOf(c))
  {
    match c
    case And(first, second) =>
      BlandUnquoted(first);
      BlandUnquoted(second);
      UnquotedJoined(PiecesOf(first), Also, PiecesOf(second));
    case Then(first, second) =>
      BlandUnquoted(first);
      BlandUnquoted(second);
      UnquotedJoined(PiecesOf(first), End, PiecesOf(second));
    case If(condition, yes, no) =>
      BlandUnquoted(condition);
      BlandUnquoted(yes);
      BlandUnquoted(no);
      UnquotedIf(PiecesOf(condition), PiecesOf(yes), PiecesOf(no));
    case Unless(condition, no) =>
      BlandUnquoted(condition);
      BlandUnquoted(no);
      UnquotedUnless(PiecesOf(condition), PiecesOf(no));
    case _ => SimpleUnquoted(c);
  }

  // The text of a tree, cut anywhere, with the clean-up behind it.
  lemma BlankInFront(text: string, n: nat, rest: string)
    requires n <= |text|
    ensures (" " + text)[..n + 1] + rest == " " + (text[..n] + rest)
  {
    assert (" " + text)[..n + 1] == " " + text[..n];
  }

  lemma {:induction false} SpeltCut(pieces: seq<Piece>, text: string, tokens: seq<Token>, n: nat, temp: string)
    requires Spelt(pieces, text, tokens) && AllUnquoted(pieces) && Plain(temp) && n <= |text|
    ensures IsCut(Tokens(text[..n] + CleanupCommand(temp), None), tokens, temp)
  {
    var cut := text[..n] + CleanupCommand(temp);
    LineCut(pieces, n + 1, None, false, temp);
    BlankInFront(text, n, CleanupCommand(temp));
    BlankReads(cut, None);
    var r := Tokens(cut, None);
    assert r.Some? ==> [] + r.value == r.value;
    assert [] + tokens == tokens;
  }

  lemma {:induction false} TextCut(c: Command, n: nat, temp: string)
    requires Legible(c) && Bland(c) && Plain(temp) && n <= |TextOf(c)|
    ensures IsCut(Tokens(TextOf(c)[..n] + CleanupCommand(temp), None), TokensOf(c), temp)
  {
    AllSpelt(c);
    BlandUnquoted(c);
    SpeltCut(PiecesOf(c), TextOf(c), TokensOf(c), n, temp);
  }

  function Decide(temp: string, remote: string, digest: string): Command {
    If(Verify(temp, remote, digest), SetStatus(false), Then(Remove(temp), SetStatus(true)))
  }

  // What stands behind the decision.
  function Remainder(marker: string): seq<Token> {
    ([Semicolon] + TokensOf(Unless(EchoOn, SetStatus(true)))) + ([Semicolon] + TokensOf(ReportStatus(marker)))
  }

  lemma FinishTokens(temp: string, remote: string, digest: string, marker: string)
    ensures TokensOf(Finish(temp, remote, digest, marker)) == TokensOf(Decide(temp, remote, digest)) + Remainder(marker)
  {
    Assoc(TokensOf(Decide(temp, remote, digest)), [Semicolon] + TokensOf(Unless(EchoOn, SetStatus(true))),
      [Semicolon] + TokensOf(ReportStatus(marker)));
  }

  lemma RemainderIsQuiet(marker: string)
    ensures Quiet(Remainder(marker))
  {
    assert StatusFormat(marker)[0] == '\\';
    assert TokensOf(ReportStatus(marker)) == [Word("printf"), Word(StatusFormat(marker)), Expand("$status")];
    assert TokensOf(Unless(EchoOn, SetStatus(true)))
        == UnlessTokens([Word("stty"), Word("echo")], [Word("status=1")]);
  }

  lemma VerifyRuns(temp: string, remote: string, digest: string)
    ensures Semicolon !in TokensOf(Verify(temp, remote, digest)) && TokensOf(Verify(temp, remote, digest)) != []
  {
    var sum, test, chmod, move := Sum(temp), IsDigest(digest), MakeExecutable(temp), Move(temp, remote);
    assert Semicolon !in TokensOf(And(sum, test));
    assert Semicolon !in TokensOf(And(And(sum, test), chmod));
  }

  lemma RemovalRuns(temp: string)
    ensures Runs(TokensOf(Then(Remove(temp), SetStatus(true))))
  {
    assert TokensOf(Remove(temp)) == [Word("rm"), Word("-f"), Word("--"), Word(temp)];
    assert TokensOf(SetStatus(true)) == [Word("status=1")];
  }

  lemma DecideEndsLast(temp: string, remote: string, digest: string)
    ensures EndsLast(TokensOf(Decide(temp, remote, digest)))
  {
    var s, t := TokensOf(Verify(temp, remote, digest)), TokensOf(SetStatus(false));
    var u := TokensOf(Then(Remove(temp), SetStatus(true)));
    RemovalRuns(temp);
    VerifyRuns(temp, remote, digest);
    IfRegroups(s, t, u, []);
    assert IfTokens(s, t, u) + [] == IfTokens(s, t, u);
    var fi := Joint("fi", []);
    RunsThen(u, fi);
    JointThen("else", u + fi);
    RunsThen(t, Joint("else", u + fi));
    JointThen("then", t + Joint("else", u + fi));
    RunsThen(s, Joint("then", t + Joint("else", u + fi)));
    RunsThen([Word("if")], s + Joint("then", t + Joint("else", u + fi)));
  }

  // ----- What executing them does to files -----

  predicate Harmless(before: Files, after: Files, temp: string) {
    after == before || after == before - {temp}
  }

  lemma {:induction false} TameExec(c: Command, m: Machine, works: Works, hash: seq<byte> -> string, temp: string)
    requires Tame(c, temp)
    ensures Harmless(m.files, Exec(c, m, works, hash).0.files, temp)
  {
    match c
    case And(first, second) =>
      TameExec(first, m, works, hash, temp);
      TameExec(second, Exec(first, m, works, hash).0, works, hash, temp);
    case Then(first, second) =>
      TameExec(first, m, works, hash, temp);
      TameExec(second, Exec(first, m, works, hash).0, works, hash, temp);
    case If(condition, yes, no) =>
      var (next, ok) := Exec(condition, m, works, hash);
      TameExec(condition, m, works, hash, temp);
      TameExec(if ok then yes else no, next, works, hash, temp);
    case Unless(condition, no) =>
      TameExec(condition, m, works, hash, temp);
      TameExec(no, Exec(condition, m, works, hash).0, works, hash, temp);
    case _ =>
  }

  lemma {:induction false} LedExec(c: Command, first: Command, m: Machine, works: Works, hash: seq<byte> -> string,
                                   temp: string)
    requires Led(c, first, temp)
    ensures Harmless(Exec(first, m, works, hash).0.files, Exec(c, m, works, hash).0.files, temp)
  {
    if c != first {
      LedExec(c.first, first, m, works, hash, temp);
      TameExec(c.second, Exec(c.first, m, works, hash).0, works, hash, temp);
    }
  }

  // Nothing but the temporary file is gone, and it has moved to its target at most after
  // all the checks.
  predicate OnlyVerified(temp: string, remote: string, digest: string, m: Machine, after: Files, works: Works,
                         hash: seq<byte> -> string)
  {
    || Harmless(m.files, after, temp)
    || (Good(temp, remote, digest, m, works, hash)
        && Harmless((m.files - {temp})[Target(m.directories, temp, remote) := m.files[temp]], after, temp))
  }

  lemma {:induction false} CutExec(c: Command, temp: string, remote: string, digest: string, m: Machine,
                                   works: Works, hash: seq<byte> -> string)
    requires Tame(c, temp) || Led(c, Decide(temp, remote, digest), temp)
    requires forall data :: ' ' !in hash(data)
    ensures OnlyVerified(temp, remote, digest, m, Exec(c, m, works, hash).0.files, works, hash)
  {
    if Tame(c, temp) {
      TameExec(c, m, works, hash, temp);
    } else {
      LedExec(c, Decide(temp, remote, digest), m, works, hash, temp);
      VerifyMoves(temp, remote, digest, m, works, hash);
      Decides(Verify(temp, remote, digest), Remove(temp), m, works, hash);
    }
  }

  // ----- The finish command and the set-up line, cut -----

  // What the shell does with such a line, as far as it can be parsed.
  ghost predicate CutIsSafe(text: string, temp: string, remote: string, digest: string, m: Machine, works: Works,
                            hash: seq<byte> -> string)
  {
    Parse(text).Some? ==>
      OnlyVerified(temp, remote, digest, m, Exec(Parse(text).value, m, works, hash).0.files, works, hash)
  }

  ghost predicate CutIsHarmless(text: string, temp: string, m: Machine, works: Works, hash: seq<byte> -> string) {
    Parse(text).Some? ==> Harmless(m.files, Exec(Parse(text).value, m, works, hash).0.files, temp)
  }

  lemma {:induction false} TameCut(tokens: seq<Token>, temp: string, m: Machine, works: Works,
                                   hash: seq<byte> -> string)
    requires Mild(tokens, temp) && List(tokens).Some?
    ensures Harmless(m.files, Exec(List(tokens).value.command, m, works, hash).0.files, temp)
  {
    ListTamed(tokens, temp);
    TameExec(List(tokens).value.command, m, works, hash, temp);
  }

  lemma {:induction false} HalfDecision(j: nat, g: string, temp: string, remote: string, digest: string)
    requires 0 < j < |TokensOf(Decide(temp, remote, digest))|
    ensures List(TokensOf(Decide(temp, remote, digest))[..j] + Tail(g, temp)) == None
  {
    var first := TokensOf(Decide(temp, remote, digest));
    DecideEndsLast(temp, remote, digest);
    CutIfHasNoFi(first, j, g, temp);
    assert first[0] == Word("if");
    IfNeedsFi(first[..j] + Tail(g, temp));
  }

  lemma CutOfTwo(first: seq<Token>, more: seq<Token>, j: nat, tail: seq<Token>)
    requires j <= |first + more|
    ensures j <= |first| ==> (first + more)[..j] + tail == first[..j] + tail
    ensures j >= |first| ==> (first + more)[..j] + tail == first + (more[..j - |first|] + tail)
  {
  }

  // Some of the finish command's tokens and the clean-up's behind them are no command at
  // all, or a tame one, or the whole decision with tame ones behind it.
  lemma {:induction false} FinishTokensCut(j: nat, g: string, temp: string, remote: string, digest: string,
                                           marker: string)
    requires |temp| > 2 && j <= |TokensOf(Finish(temp, remote, digest, marker))|
    ensures var r := List(TokensOf(Finish(temp, remote, digest, marker))[..j] + Tail(g, temp));
            r.Some? ==> Tame(r.value.command, temp) || Led(r.value.command, Decide(temp, remote, digest), temp)
  {
    var first, more := TokensOf(Decide(temp, remote, digest)), Remainder(marker);
    FinishTokens(temp, remote, digest, marker);
    CutOfTwo(first, more, j, Tail(g, temp));
    if j == 0 {
      QuietCut([], 0, g, temp);
      assert first[..0] + Tail(g, temp) == [] + Tail(g, temp);
      ListTamed([] + Tail(g, temp), temp);
    } else if j < |first| {
      HalfDecision(j, g, temp, remote, digest);
    } else {
      WholeDecision(j - |first|, g, temp, remote, digest, marker);
    }
  }

  lemma DecideIsList(temp: string, remote: string, digest: string)
    ensures IsList(Verify(temp, remote, digest)) && IsList(Then(Remove(temp), SetStatus(true)))
  {
    assert IsList(Remove(temp)) && IsAndList(SetStatus(true)) && IsAndList(Sum(temp));
    assert IsPrimary(IsDigest(digest)) && IsPrimary(MakeExecutable(temp)) && IsPrimary(Move(temp, remote));
    assert IsAndList(And(Sum(temp), IsDigest(digest)));
    assert IsAndList(And(And(Sum(temp), IsDigest(digest)), MakeExecutable(temp)));
  }

  lemma {:induction false} WholeDecision(k: nat, g: string, temp: string, remote: string, digest: string,
                                         marker: string)
    requires |temp| > 2 && k <= |Remainder(marker)|
    ensures var ts := TokensOf(Decide(temp, remote, digest)) + (Remainder(marker)[..k] + Tail(g, temp));
            List(ts).Some? ==> Led(List(ts).value.command, Decide(temp, remote, digest), temp)
  {
    var rest := Remainder(marker)[..k] + Tail(g, temp);
    var ts := TokensOf(Decide(temp, remote, digest)) + rest;
    RemainderIsQuiet(marker);
    QuietCut(Remainder(marker), k, g, temp);
    DecideIsList(temp, remote, digest);
    IfPrimary(Verify(temp, remote, digest), SetStatus(false), Then(Remove(temp), SetStatus(true)), rest);
    if List(ts).Some? {
      ListLed(ts, Decide(temp, remote, digest), rest, temp);
    }
  }

  lemma FinishIsBland(temp: string, remote: string, digest: string, marker: string)
    requires QuoteFree(temp) && QuoteFree(remote) && QuoteFree(digest) && QuoteFree(marker)
    ensures Bland(Finish(temp, remote, digest, marker))
  {
    VerifyIsBland(temp, remote, digest);
    assert Bland(Remove(temp)) && Bland(SetStatus(true)) && Bland(SetStatus(false)) && Bland(EchoOn);
    assert Bland(Decide(temp, remote, digest));
    assert Bland(Then(Decide(temp, remote, digest), Unless(EchoOn, SetStatus(true))));
  }

  lemma VerifyIsBland(temp: string, remote: string, digest: string)
    requires QuoteFree(temp) && QuoteFree(remote) && QuoteFree(digest)
    ensures Bland(Verify(temp, remote, digest))
  {
    assert Bland(Sum(temp)) && Bland(IsDigest(digest)) && Bland(MakeExecutable(temp)) && Bland(Move(temp, remote));
    assert Bland(And(Sum(temp), IsDigest(digest)));
  }

  // The finish command, cut anywhere by a failed write, with the clean-up command run
  // together behind it.
  lemma {:induction false} CutFinishIsSafe(n: nat, temp: string, remote: string, digest: string, marker: string,
                                           m: Machine, works: Works, hash: seq<byte> -> string)
    requires n <= |TextOf(Finish(temp, remote, digest, marker))|
    requires Plain(temp) && |temp| > 2 && forall data :: ' ' !in hash(data)
    requires QuoteFree(remote) && QuoteFree(digest) && QuoteFree(marker)
    requires '\0' !in remote && '\0' !in digest && '\0' !in marker
    ensures CutIsSafe(TextOf(Finish(temp, remote, digest, marker))[..n] + CleanupCommand(temp),
                      temp, remote, digest, m, works, hash)
  {
    var finish := Finish(temp, remote, digest, marker);
    FinishPhrase(temp, remote, digest, marker);
    FinishIsBland(temp, remote, digest, marker);
    TextCut(finish, n, temp);
    var r := Tokens(TextOf(finish)[..n] + CleanupCommand(temp), None);
    if r.Some? {
      var j: nat, g :| Cut(r.value, TokensOf(finish), j, g, temp);
      FinishTokensCut(j, g, temp, remote, digest, marker);
      if List(r.value).Some? {
        CutExec(List(r.value).value.command, temp, remote, digest, m, works, hash);
      }
    }
  }

  lemma QuietIf(s: seq<Token>, t: seq<Token>, u: seq<Token>)
    requires Quiet(s) && Quiet(t) && Quiet(u)
    ensures Quiet(IfTokens(s, t, u))
  {
  }

  lemma QuietSay(text: string, more: string)
    requires text != "" && more != "" && text[|text| - 1] == '_' && more[|more| - 1] == '_'
    ensures Quiet(TokensOf(Say(text, more)))
  {
  }

  lemma SetUpIsQuiet(p: string, token: string)
    ensures Quiet(TokensOf(SetUp(p, token)))
  {
    var yes, no := Say(p + "READY_", token + "__"), Say(p + "FAILED_", token + "__");
    QuietSay(yes.text, yes.more);
    QuietSay(no.text, no.more);
    QuietIf(TokensOf(EchoOff), TokensOf(yes), TokensOf(no));
  }

  lemma {:induction false} QuietTokensCut(text: string, all: seq<Token>, temp: string, m: Machine, works: Works,
                                          hash: seq<byte> -> string)
    requires IsCut(Tokens(text, None), all, temp) && Quiet(all) && |temp| > 2
    ensures CutIsHarmless(text, temp, m, works, hash)
  {
    if Parse(text).Some? {
      var ts := Tokens(text, None).value;
      var j: nat, g :| Cut(ts, all, j, g, temp);
      QuietCut(all, j, g, temp);
      TameCut(ts, temp, m, works, hash);
    }
  }

  lemma SetUpLegible(p: string, token: string)
    requires QuoteFree(p) && QuoteFree(token) && '\0' !in p && '\0' !in token
    ensures Legible(SetUp(p, token)) && Bland(SetUp(p, token))
  {
    var yes, no := Say(p + "READY_", token + "__"), Say(p + "FAILED_", token + "__");
    assert Legible(yes) && Legible(no) && Bland(yes) && Bland(no);
  }

  // The set-up line, cut in the same way, does no harm to any file but the temporary one.
  lemma {:induction false} CutSetUpIsHarmless(n: nat, p: string, token: string, temp: string, m: Machine, works: Works,
                                              hash: seq<byte> -> string)
    requires n <= |Setup(p, token)| && Plain(temp) && |temp| > 2
    requires QuoteFree(p) && QuoteFree(token) && '\0' !in p && '\0' !in token
    ensures CutIsHarmless(Setup(p, token)[..n] + CleanupCommand(temp), temp, m, works, hash)
  {
    SetUpText(p, token);
    SetUpLegible(p, token);
    TextCut(SetUp(p, token), n, temp);
    SetUpIsQuiet(p, token);
    QuietTokensCut(Setup(p, token)[..n] + CleanupCommand(temp), TokensOf(SetUp(p, token)), temp, m, works, hash);
  }
}
