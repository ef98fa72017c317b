/** From the text of a command back to its tree: the grammar of section 2.10 of the
    POSIX.1-2017 Shell Command Language, as far as the commands of an upload go.  What is
    sent is what is executed. */
module ShellGrammar {
  import opened EchoImmunity
  import opened Options
  import opened RemoteShell
  import opened Seqs
  import opened ShellSpelling
  import opened ShellWords

  // A command, and the tokens behind it.
  datatype Parsed = Parsed(command: Command, rest: seq<Token>)

  // ----- Simple commands -----

  // A simple command goes up to an operator.
  predicate AtOperator(tokens: seq<Token>) {
    tokens == [] || tokens[0] == Semicolon || tokens[0] == AndIf
  }

  function SimpleLength(tokens: seq<Token>): (n: nat)
    ensures n <= |tokens|
  {
    if AtOperator(tokens) then 0 else 1 + SimpleLength(tokens[1..])
  }

  // What the words of a simple command say, if it is one of those in use.
  function Simple(t: seq<Token>): Option<Command> {
    if |t| == 1 then Assignment(t[0])
    else if |t| == 2 then Stty(t[0], t[1])
    else if |t| == 3 then Report(t[0], t[1], t[2])
    else if |t| == 4 && t[1].Word? && t[2].Word? && t[3].Word? then OnFile(t[0], t[1].text, t[2].text, t[3].text)
    else if |t| == 5 && t[1] == Word("sha256sum") then SumOf(t[0], t[2], t[3], t[4])
    else if |t| == 5 && t[1].Expand? then TestOf(t[0], t[1].text, t[2], t[3], t[4])
    else if |t| == 5 && t[3].Word? && t[4].Word? then MoveOf(t[0], t[1], t[2], t[3].text, t[4].text)
    else None
  }

  function Assignment(a: Token): Option<Command> {
    if a == Word("status=0") then Some(SetStatus(false))
    else if a == Word("status=1") then Some(SetStatus(true))
    else None
  }

  function Stty(a: Token, b: Token): Option<Command> {
    if a != Word("stty") then None
    else if b == Word("echo") then Some(EchoOn) else if b == Word("-echo") then Some(EchoOff) else None
  }

  const LEAD := "\\n"
  const TAIL := "EXIT:%s\\n"

  function Report(a: Token, b: Token, c: Token): Option<Command> {
    if a != Word("printf") || !b.Word? || c != Expand("$status") then None
    else
      var n := |b.text|;
      if n < |LEAD| + |TAIL| || b.text[..|LEAD|] != LEAD || b.text[n - |TAIL|..] != TAIL then None
      else Some(ReportStatus(b.text[|LEAD|..n - |TAIL|]))
  }

  function OnFile(a: Token, b: string, c: string, d: string): Option<Command> {
    if a == Word("printf") && b == FORMAT then Some(Say(c, d))
    else if a == Word("chmod") && b == "0755" && c == "--" then Some(MakeExecutable(d))
    else if a == Word("rm") && b == "-f" && c == "--" then Some(Remove(d))
    else None
  }

  function SumOf(a: Token, c: Token, d: Token, e: Token): Option<Command> {
    if a == Capture("actual=") && c == Word("--") && d.Word? && e == Close then Some(Sum(d.text)) else None
  }

  function TestOf(a: Token, b: string, c: Token, d: Token, e: Token): Option<Command> {
    if a == Word("[") && b == "${actual%% *}" && c == Word("=") && d.Word? && e == Word("]")
    then Some(IsDigest(d.text))
    else None
  }

  function MoveOf(a: Token, b: Token, c: Token, from: string, to: string): Option<Command> {
    if a == Word("mv") && b == Word("-f") && c == Word("--") then Some(Move(from, to)) else None
  }

  // ----- The grammar -----

  predicate Starts(tokens: seq<Token>, first: Token) {
    tokens != [] && tokens[0] == first
  }

  // After a semicolon, a list goes on unless a reserved word ends it.
  predicate GoesOn(tokens: seq<Token>) {
    tokens != [] && tokens[0] != Word("then") && tokens[0] != Word("else") && tokens[0] != Word("fi")
  }

  // The rest of the tokens behind a semicolon and this word.
  function Past(tokens: seq<Token>, word: string): (rest: Option<seq<Token>>)
    ensures rest.Some? ==> |rest.value| < |tokens|
  {
    if |tokens| >= 2 && tokens[0] == Semicolon && tokens[1] == Word(word) then Some(tokens[2..]) else None
  }

  function Primary(tokens: seq<Token>): (r: Option<Parsed>)
    ensures r.Some? ==> |r.value.rest| < |tokens|
    decreases |tokens|, 0
  {
    if Starts(tokens, Word("if")) then
      if Starts(tokens[1..], Word("!")) then Negated(tokens[2..]) else Conditional(tokens[1..])
    else
      var n := SimpleLength(tokens);
      match Simple(tokens[..n])
      case None => None
      case Some(c) => if n == 0 then None else Some(Parsed(c, tokens[n..]))
  }

  // The exclamation mark negates one command, not a list.
  function Negated(tokens: seq<Token>): (r: Option<Parsed>)
    ensures r.Some? ==> |r.value.rest| < |tokens|
    decreases |tokens|, 4
  {
    match Primary(tokens)
    case None => None
    case Some(Parsed(condition, a)) =>
      match Past(a, "then")
      case None => None
      case Some(b) =>
        match List(b)
        case None => None
        case Some(Parsed(no, c)) =>
          match Past(c, "fi")
          case None => None
          case Some(rest) => Some(Parsed(Unless(condition, no), rest))
  }

  function Conditional(tokens: seq<Token>): (r: Option<Parsed>)
    ensures r.Some? ==> |r.value.rest| < |tokens|
    decreases |tokens|, 4
  {
    match List(tokens)
    case None => None
    case Some(Parsed(condition, a)) =>
      match Past(a, "then")
      case None => None
      case Some(b) => Branches(condition, b)
  }

  function Branches(condition: Command, tokens: seq<Token>): (r: Option<Parsed>)
    ensures r.Some? ==> |r.value.rest| < |tokens|
    decreases |tokens|, 4
  {
    match List(tokens)
    case None => None
    case Some(Parsed(yes, c)) =>
      match Past(c, "else")
      case None => None
      case Some(d) =>
        match List(d)
        case None => None
        case Some(Parsed(no, e)) =>
          match Past(e, "fi")
          case None => None
          case Some(rest) => Some(Parsed(If(condition, yes, no), rest))
  }

  // Commands joined by &&, from the left.
  function AndList(tokens: seq<Token>): (r: Option<Parsed>)
    ensures r.Some? ==> |r.value.rest| < |tokens|
    decreases |tokens|, 2
  {
    match Primary(tokens)
    case None => None
    case Some(Parsed(first, rest)) => MoreAnds(first, rest)
  }

  function MoreAnds(first: Command, tokens: seq<Token>): (r: Option<Parsed>)
    ensures r.Some? ==> |r.value.rest| <= |tokens|
    decreases |tokens|, 1
  {
    if !Starts(tokens, AndIf) then Some(Parsed(first, tokens))
    else match Primary(tokens[1..])
      case None => None
      case Some(Parsed(second, rest)) => MoreAnds(And(first, second), rest)
  }

  // Such commands one after the other, from the left.
  function List(tokens: seq<Token>): (r: Option<Parsed>)
    ensures r.Some? ==> |r.value.rest| < |tokens|
    decreases |tokens|, 3
  {
    match AndList(tokens)
    case None => None
    case Some(Parsed(first, rest)) => MoreCommands(first, rest)
  }

  function MoreCommands(first: Command, tokens: seq<Token>): (r: Option<Parsed>)
    ensures r.Some? ==> |r.value.rest| <= |tokens|
    decreases |tokens|, 1
  {
    if !Starts(tokens, Semicolon) || !GoesOn(tokens[1..]) then Some(Parsed(first, tokens))
    else match AndList(tokens[1..])
      case None => None
      case Some(Parsed(second, rest)) => MoreCommands(Then(first, second), rest)
  }

  // The tree of a whole text.
  function Parse(text: string): Option<Command> {
    match Tokens(text, None)
    case None => None
    case Some(tokens) =>
      match List(tokens)
      case None => None
      case Some(Parsed(c, rest)) => if rest == [] then Some(c) else None
  }

  // ----- Trees of the grammar -----

  predicate IsSimple(c: Command) {
    !c.And? && !c.Then? && !c.If? && !c.Unless?
  }

  predicate IsPrimary(c: Command)
    decreases c, 0
  {
    match c
    case If(condition, yes, no) => IsList(condition) && IsList(yes) && IsList(no)
    case Unless(condition, no) => IsPrimary(condition) && IsList(no)
    case _ => IsSimple(c)
  }

  predicate IsAndList(c: Command)
    decreases c, 1
  {
    match c
    case And(first, second) => IsAndList(first) && IsPrimary(second)
    case _ => IsPrimary(c)
  }

  predicate IsList(c: Command)
    decreases c, 2
  {
    match c
    case Then(first, second) => IsList(first) && IsAndList(second)
    case _ => IsAndList(c)
  }

  // ----- Reading back -----

  predicate NoOperator(tokens: seq<Token>) {
    forall i :: 0 <= i < |tokens| ==> tokens[i] != Semicolon && tokens[i] != AndIf
  }

  lemma {:induction false} SimpleLengthIs(tokens: seq<Token>, rest: seq<Token>)
    requires NoOperator(tokens) && AtOperator(rest)
    ensures SimpleLength(tokens + rest) == |tokens|
  {
    if tokens == [] {
      assert tokens + rest == rest;
    } else {
      assert (tokens + rest)[1..] == tokens[1..] + rest;
      SimpleLengthIs(tokens[1..], rest);
    }
  }

  lemma ReportReads(marker: string)
    ensures Report(Word("printf"), Word(StatusFormat(marker)), Expand("$status")) == Some(ReportStatus(marker))
  {
    var format := StatusFormat(marker);
    assert format == LEAD + marker + TAIL;
    assert format[..|LEAD|] == LEAD && format[|format| - |TAIL|..] == TAIL;
    assert format[|LEAD|..|format| - |TAIL|] == marker;
  }

  // Reserved words do not start a simple command.
  predicate Ordinary(t: Token) {
    t != Word("if") && t != Word("!") && t != Word("then") && t != Word("else") && t != Word("fi")
  }

  lemma {:induction false} SimpleReads(c: Command)
    requires IsSimple(c)
    ensures Simple(TokensOf(c)) == Some(c) && NoOperator(TokensOf(c)) && TokensOf(c) != [] && Ordinary(TokensOf(c)[0])
  {
    match c
    case ReportStatus(marker) => ReportReads(marker);
    case _ =>
  }

  lemma {:induction false} Heads(c: Command)
    ensures TokensOf(c) != [] && GoesOn(TokensOf(c)) && TokensOf(c)[0] != Word("!")
  {
    match c
    case And(first, _) => Heads(first);
    case Then(first, _) => Heads(first);
    case If(_, _, _) =>
    case Unless(_, _) =>
    case _ => SimpleReads(c);
  }

  lemma {:induction false} SimplePrimary(c: Command, t: seq<Token>, rest: seq<Token>)
    requires Simple(t) == Some(c) && NoOperator(t) && t != [] && Ordinary(t[0]) && AtOperator(rest)
    ensures Primary(t + rest) == Some(Parsed(c, rest))
  {
    SimpleLengthIs(t, rest);
    assert (t + rest)[..|t|] == t && (t + rest)[|t|..] == rest;
  }

  // A word that joins lists, and the list behind it.
  function Joint(word: string, tokens: seq<Token>): seq<Token> {
    [Semicolon] + ([Word(word)] + tokens)
  }

  lemma PastJoint(word: string, tokens: seq<Token>)
    ensures Past(Joint(word, tokens), word) == Some(tokens)
  {
    assert Joint(word, tokens)[2..] == tokens;
  }

  lemma {:induction false} IfReads(a: seq<Token>, b: seq<Token>, d: seq<Token>, rest: seq<Token>,
                                   condition: Command, yes: Command, no: Command)
    requires List(a) == Some(Parsed(condition, Joint("then", b)))
    requires List(b) == Some(Parsed(yes, Joint("else", d)))
    requires List(d) == Some(Parsed(no, Joint("fi", rest)))
    requires a != [] && a[0] != Word("!")
    ensures Primary([Word("if")] + a) == Some(Parsed(If(condition, yes, no), rest))
  {
    PastJoint("then", b);
    PastJoint("else", d);
    PastJoint("fi", rest);
    assert ([Word("if")] + a)[1..] == a;
    assert Branches(condition, b) == Some(Parsed(If(condition, yes, no), rest));
    assert Conditional(a) == Some(Parsed(If(condition, yes, no), rest));
  }

  lemma {:induction false} UnlessReads(a: seq<Token>, b: seq<Token>, rest: seq<Token>, condition: Command, no: Command)
    requires Primary(a) == Some(Parsed(condition, Joint("then", b)))
    requires List(b) == Some(Parsed(no, Joint("fi", rest)))
    ensures Primary([Word("if")] + ([Word("!")] + a)) == Some(Parsed(Unless(condition, no), rest))
  {
    PastJoint("then", b);
    PastJoint("fi", rest);
    var all := [Word("if")] + ([Word("!")] + a);
    assert all[1..] == [Word("!")] + a && all[2..] == a;
    assert Negated(a) == Some(Parsed(Unless(condition, no), rest));
  }

  lemma JointEnds(word: string, tokens: seq<Token>)
    requires word == "then" || word == "else" || word == "fi"
    ensures AtOperator(Joint(word, tokens)) && Starts(Joint(word, tokens), Semicolon)
        && !GoesOn(Joint(word, tokens)[1..])
  {
    assert Joint(word, tokens)[1..] == [Word(word)] + tokens;
  }

  lemma FiJoint(t: seq<Token>, rest: seq<Token>)
    ensures (t + FI) + rest == t + Joint("fi", rest)
  {
    Assoc(t, FI, rest);
    Assoc([Semicolon], [Word("fi")], rest);
  }

  lemma JointMore(t: seq<Token>, word: string, more: seq<Token>, rest: seq<Token>)
    ensures (t + ([Semicolon] + ([Word(word)] + more))) + rest == t + Joint(word, more + rest)
  {
    Assoc(t, [Semicolon] + ([Word(word)] + more), rest);
    Assoc([Semicolon], [Word(word)] + more, rest);
    Assoc([Word(word)], more, rest);
  }

  // Everything that is written in front of an operator is read as one command.
  lemma {:induction false} PrimaryReads(c: Command, rest: seq<Token>)
    requires IsPrimary(c) && AtOperator(rest)
    ensures Primary(TokensOf(c) + rest) == Some(Parsed(c, rest))
    decreases c, 1
  {
    match c
    case If(condition, yes, no) => IfPrimary(condition, yes, no, rest);
    case Unless(condition, no) => UnlessPrimary(condition, no, rest);
    case _ =>
      SimpleReads(c);
      SimplePrimary(c, TokensOf(c), rest);
  }

  // A list in front of a reserved word.
  lemma {:induction false} ClauseReads(c: Command, word: string, more: seq<Token>)
    requires IsList(c) && (word == "then" || word == "else" || word == "fi")
    ensures List(TokensOf(c) + Joint(word, more)) == Some(Parsed(c, Joint(word, more)))
    decreases c, 5
  {
    JointEnds(word, more);
    ListReads(c, Joint(word, more));
  }

  lemma {:induction false} ConditionReads(c: Command, more: seq<Token>)
    requires IsPrimary(c)
    ensures Primary(TokensOf(c) + Joint("then", more)) == Some(Parsed(c, Joint("then", more)))
    decreases c, 2
  {
    JointEnds("then", more);
    PrimaryReads(c, Joint("then", more));
  }

  lemma {:induction false} IfPrimary(condition: Command, yes: Command, no: Command, rest: seq<Token>)
    requires IsList(condition) && IsList(yes) && IsList(no)
    ensures Primary(TokensOf(If(condition, yes, no)) + rest) == Some(Parsed(If(condition, yes, no), rest))
    decreases If(condition, yes, no), 0
  {
    IfClauses(condition, yes, no, rest);
    Heads(condition);
    IfJoined(TokensOf(condition), TokensOf(yes), TokensOf(no), rest, condition, yes, no);
  }

  lemma {:induction false} IfClauses(condition: Command, yes: Command, no: Command, rest: seq<Token>)
    requires IsList(condition) && IsList(yes) && IsList(no)
    ensures IfParts(TokensOf(condition), TokensOf(yes), TokensOf(no), rest, condition, yes, no)
    decreases If(condition, yes, no), -1
  {
    var d := TokensOf(no) + Joint("fi", rest);
    ClauseReads(no, "fi", rest);
    ClauseReads(yes, "else", d);
    ClauseReads(condition, "then", TokensOf(yes) + Joint("else", d));
  }

  // Each part of a conditional is read up to the word behind it.
  predicate IfParts(s: seq<Token>, t: seq<Token>, u: seq<Token>, rest: seq<Token>,
                    condition: Command, yes: Command, no: Command)
  {
    var d := u + Joint("fi", rest);
    var b := t + Joint("else", d);
    && List(s + Joint("then", b)) == Some(Parsed(condition, Joint("then", b)))
    && List(b) == Some(Parsed(yes, Joint("else", d)))
    && List(d) == Some(Parsed(no, Joint("fi", rest)))
  }

  lemma {:induction false} IfJoined(s: seq<Token>, t: seq<Token>, u: seq<Token>, rest: seq<Token>,
                                    condition: Command, yes: Command, no: Command)
    requires s != [] && s[0] != Word("!")
    requires IfParts(s, t, u, rest, condition, yes, no)
    ensures Primary(IfTokens(s, t, u) + rest) == Some(Parsed(If(condition, yes, no), rest))
  {
    var d := u + Joint("fi", rest);
    var b := t + Joint("else", d);
    var a := s + Joint("then", b);
    assert a[0] == s[0];
    IfReads(a, b, d, rest, condition, yes, no);
    IfRegroups(s, t, u, rest);
  }

  lemma IfRegroups(s: seq<Token>, t: seq<Token>, u: seq<Token>, rest: seq<Token>)
    ensures IfTokens(s, t, u) + rest
         == [Word("if")] + (s + Joint("then", t + Joint("else", u + Joint("fi", rest))))
  {
    FiJoint(u, rest);
    JointMore(t, "else", u + FI, rest);
    var middle := t + ([Semicolon] + ([Word("else")] + (u + FI)));
    JointMore(s, "then", middle, rest);
    Assoc([Word("if")], s + ([Semicolon] + ([Word("then")] + middle)), rest);
  }

  lemma {:induction false} UnlessPrimary(condition: Command, no: Command, rest: seq<Token>)
    requires IsPrimary(condition) && IsList(no)
    ensures Primary(TokensOf(Unless(condition, no)) + rest) == Some(Parsed(Unless(condition, no), rest))
    decreases Unless(condition, no), 0
  {
    UnlessClauses(condition, no, rest);
    UnlessJoined(TokensOf(condition), TokensOf(no), rest, condition, no);
  }

  lemma {:induction false} UnlessClauses(condition: Command, no: Command, rest: seq<Token>)
    requires IsPrimary(condition) && IsList(no)
    ensures UnlessParts(TokensOf(condition), TokensOf(no), rest, condition, no)
    decreases Unless(condition, no), -1
  {
    ClauseReads(no, "fi", rest);
    ConditionReads(condition, TokensOf(no) + Joint("fi", rest));
  }

  predicate UnlessParts(s: seq<Token>, u: seq<Token>, rest: seq<Token>, condition: Command, no: Command) {
    var b := u + Joint("fi", rest);
    && Primary(s + Joint("then", b)) == Some(Parsed(condition, Joint("then", b)))
    && List(b) == Some(Parsed(no, Joint("fi", rest)))
  }

  lemma {:induction false} UnlessJoined(s: seq<Token>, u: seq<Token>, rest: seq<Token>, condition: Command, no: Command)
    requires UnlessParts(s, u, rest, condition, no)
    ensures Primary(UnlessTokens(s, u) + rest)
         == Some(Parsed(Unless(condition, no), rest))
  {
    var b := u + Joint("fi", rest);
    UnlessReads(s + Joint("then", b), b, rest, condition, no);
    UnlessRegroups(s, u, rest);
  }

  lemma UnlessRegroups(s: seq<Token>, u: seq<Token>, rest: seq<Token>)
    ensures UnlessTokens(s, u) + rest
         == [Word("if")] + ([Word("!")] + (s + Joint("then", u + Joint("fi", rest))))
  {
    FiJoint(u, rest);
    JointMore(s, "then", u + FI, rest);
    var body := s + ([Semicolon] + ([Word("then")] + (u + FI)));
    Assoc([Word("!")], body, rest);
    Assoc([Word("if")], [Word("!")] + body, rest);
  }

  lemma {:induction false} AndListReads(c: Command, rest: seq<Token>)
    requires IsAndList(c) && AtOperator(rest)
    ensures AndList(TokensOf(c) + rest) == MoreAnds(c, rest)
    decreases c, 2
  {
    if c.And? {
      var more := [AndIf] + (TokensOf(c.second) + rest);
      AndListReads(c.first, more);
      PrimaryReads(c.second, rest);
      assert more[1..] == TokensOf(c.second) + rest;
      Assoc(TokensOf(c.first), [AndIf] + TokensOf(c.second), rest);
      Assoc([AndIf], TokensOf(c.second), rest);
    } else {
      PrimaryReads(c, rest);
    }
  }

  lemma {:induction false} ListPrefix(c: Command, rest: seq<Token>)
    requires IsList(c) && (rest == [] || rest[0] == Semicolon)
    ensures List(TokensOf(c) + rest) == MoreCommands(c, rest)
    decreases c, 3
  {
    if c.Then? {
      var more := [Semicolon] + (TokensOf(c.second) + rest);
      ListPrefix(c.first, more);
      Heads(c.second);
      AndListReads(c.second, rest);
      assert more[1..] == TokensOf(c.second) + rest;
      Assoc(TokensOf(c.first), [Semicolon] + TokensOf(c.second), rest);
      Assoc([Semicolon], TokensOf(c.second), rest);
    } else {
      AndListReads(c, rest);
    }
  }

  // A list is read up to its end or to the reserved word that ends it.
  lemma {:induction false} ListReads(c: Command, rest: seq<Token>)
    requires IsList(c) && (rest == [] || (rest[0] == Semicolon && !GoesOn(rest[1..])))
    ensures List(TokensOf(c) + rest) == Some(Parsed(c, rest))
    decreases c, 4
  {
    ListPrefix(c, rest);
  }

  // The shell reads the text of a tree as that tree.
  lemma {:induction false} ReadsBack(c: Command)
    requires IsList(c) && Legible(c)
    ensures Parse(TextOf(c)) == Some(c)
  {
    TextReads(c);
    ListReads(c, []);
    assert TokensOf(c) + [] == TokensOf(c);
  }

  // What the kinds of commands are made of.
  predicate Phrase(c: Command) {
    IsPrimary(c) && IsAndList(c) && IsList(c) && Legible(c)
  }

  lemma {:induction false} SimplePhrase(c: Command)
    requires IsSimple(c) && Legible(c)
    ensures Phrase(c)
  {
  }

  lemma {:induction false} AndPhrase(first: Command, second: Command)
    requires IsAndList(first) && Legible(first) && Phrase(second)
    ensures IsAndList(And(first, second)) && IsList(And(first, second)) && Legible(And(first, second))
  {
  }

  lemma {:induction false} ThenPhrase(first: Command, second: Command)
    requires IsList(first) && Legible(first) && Phrase(second)
    ensures IsList(Then(first, second)) && Legible(Then(first, second))
  {
  }

  lemma {:induction false} IfPhrase(condition: Command, yes: Command, no: Command)
    requires IsList(condition) && IsList(yes) && IsList(no) && Legible(condition) && Legible(yes) && Legible(no)
    ensures Phrase(If(condition, yes, no))
  {
    var c := If(condition, yes, no);
    assert IsPrimary(c);
    assert IsAndList(c);
  }

  lemma {:induction false} UnlessPhrase(condition: Command, no: Command)
    requires Phrase(condition) && IsList(no) && Legible(no)
    ensures Phrase(Unless(condition, no))
  {
    var c := Unless(condition, no);
    assert IsPrimary(c);
    assert IsAndList(c);
  }

  lemma FinishPhrase(temp: string, remote: string, digest: string, marker: string)
    requires '\0' !in temp && '\0' !in remote && '\0' !in digest && '\0' !in marker && QuoteFree(marker)
    ensures IsList(Finish(temp, remote, digest, marker)) && Legible(Finish(temp, remote, digest, marker))
  {
    var remove, failed, fine := Remove(temp), SetStatus(true), SetStatus(false);
    VerifyPhrase(temp, remote, digest);
    SimplePhrase(remove);
    SimplePhrase(failed);
    SimplePhrase(fine);
    SimplePhrase(EchoOn);
    SimplePhrase(ReportStatus(marker));
    ThenPhrase(remove, failed);
    var decide, restore := If(Verify(temp, remote, digest), fine, Then(remove, failed)), Unless(EchoOn, failed);
    IfPhrase(Verify(temp, remote, digest), fine, Then(remove, failed));
    UnlessPhrase(EchoOn, failed);
    ThenPhrase(decide, restore);
    ThenPhrase(Then(decide, restore), ReportStatus(marker));
  }

  // The finish command, whatever the paths, the digest and the marker.
  lemma FinishReadsBack(temp: string, remote: string, digest: string, marker: string)
    requires '\0' !in temp && '\0' !in remote && '\0' !in digest && '\0' !in marker && QuoteFree(marker)
    ensures Parse(TextOf(Finish(temp, remote, digest, marker))) == Some(Finish(temp, remote, digest, marker))
  {
    FinishPhrase(temp, remote, digest, marker);
    ReadsBack(Finish(temp, remote, digest, marker));
  }

  lemma VerifyPhrase(temp: string, remote: string, digest: string)
    requires '\0' !in temp && '\0' !in remote && '\0' !in digest
    ensures IsList(Verify(temp, remote, digest)) && Legible(Verify(temp, remote, digest))
  {
    var sum, test, chmod := Sum(temp), IsDigest(digest), MakeExecutable(temp);
    SimplePhrase(sum);
    SimplePhrase(test);
    SimplePhrase(chmod);
    SimplePhrase(Move(temp, remote));
    AndPhrase(sum, test);
    AndPhrase(And(sum, test), chmod);
    AndPhrase(And(And(sum, test), chmod), Move(temp, remote));
  }

  // The set-up line, whatever the prefix and the token.
  lemma SetUpReadsBack(p: string, token: string)
    requires '\0' !in p && '\0' !in token
    ensures Parse(Setup(p, token)) == Some(SetUp(p, token))
  {
    var yes, no := Say(p + "READY_", token + "__"), Say(p + "FAILED_", token + "__");
    SetUpText(p, token);
    SimplePhrase(EchoOff);
    SimplePhrase(yes);
    SimplePhrase(no);
    IfPhrase(EchoOff, yes, no);
    ReadsBack(SetUp(p, token));
  }

  // And the clean-up, whatever the path.
  lemma CleanUpReadsBack(temp: string)
    requires '\0' !in temp
    ensures Parse(CleanupCommand(temp)) == Some(CleanUp(temp))
  {
    CleanUpText(temp);
    SimplePhrase(Remove(temp));
    SimplePhrase(EchoOn);
    ThenPhrase(Remove(temp), EchoOn);
    ReadsBack(CleanUp(temp));
  }
}
