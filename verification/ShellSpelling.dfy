/** The text of a command as the shell tokenizes it, section 2.3 of the POSIX.1-2017 Shell
    Command Language. */
module ShellSpelling {
  import opened EchoImmunity
  import opened Options
  import opened RemoteShell
  import opened Seqs
  import opened ShellWords

  // ----- The tokens of a tree -----

  function TokensOf(c: Command): seq<Token> {
    match c
    case Sum(path) => [Capture("actual="), Word("sha256sum"), Word("--"), Word(path), Close]
    case IsDigest(digest) => [Word("["), Expand("${actual%% *}"), Word("="), Word(digest), Word("]")]
    case MakeExecutable(path) => [Word("chmod"), Word("0755"), Word("--"), Word(path)]
    case Move(from, to) => [Word("mv"), Word("-f"), Word("--"), Word(from), Word(to)]
    case Remove(path) => [Word("rm"), Word("-f"), Word("--"), Word(path)]
    case EchoOn => [Word("stty"), Word("echo")]
    case EchoOff => [Word("stty"), Word("-echo")]
    case Say(text, more) => [Word("printf"), Word(FORMAT), Word(text), Word(more)]
    case SetStatus(failed) => [Word(if failed then "status=1" else "status=0")]
    case ReportStatus(marker) => [Word("printf"), Word(StatusFormat(marker)), Expand("$status")]
    case And(first, second) => TokensOf(first) + ([AndIf] + TokensOf(second))
    case Then(first, second) => TokensOf(first) + ([Semicolon] + TokensOf(second))
    case If(condition, yes, no) => IfTokens(TokensOf(condition), TokensOf(yes), TokensOf(no))
    case Unless(condition, no) => UnlessTokens(TokensOf(condition), TokensOf(no))
  }

  function IfTokens(s: seq<Token>, t: seq<Token>, u: seq<Token>): seq<Token> {
    [Word("if")] + (s + ([Semicolon] + ([Word("then")] + (t + ([Semicolon] + ([Word("else")] + (u + FI)))))))
  }

  function UnlessTokens(s: seq<Token>, u: seq<Token>): seq<Token> {
    [Word("if")] + ([Word("!")] + (s + ([Semicolon] + ([Word("then")] + (u + FI)))))
  }

  const FI: seq<Token> := [Semicolon] + [Word("fi")]

  function PiecesOf(c: Command): seq<Piece> {
    match c
    case Sum(path) => [Open("actual="), Glued("sha256sum"), Bare("--"), Value(path), Shut]
    case IsDigest(digest) => [Bracket('['), Param("${actual%% *}"), Bare("="), Value(digest), Bracket(']')]
    case MakeExecutable(path) => [Bare("chmod"), Bare("0755"), Bare("--"), Value(path)]
    case Move(from, to) => [Bare("mv"), Bare("-f"), Bare("--"), Value(from), Value(to)]
    case Remove(path) => [Bare("rm"), Bare("-f"), Bare("--"), Value(path)]
    case EchoOn => [Bare("stty"), Bare("echo")]
    case EchoOff => [Bare("stty"), Bare("-echo")]
    case Say(text, more) => [Bare("printf"), Value(FORMAT), Value(text), Value(more)]
    case SetStatus(failed) => [Bare(if failed then "status=1" else "status=0")]
    case ReportStatus(marker) => [Bare("printf"), Value(StatusFormat(marker)), Param("$status")]
    case And(first, second) => PiecesOf(first) + ([Also] + PiecesOf(second))
    case Then(first, second) => PiecesOf(first) + ([End] + PiecesOf(second))
    case If(condition, yes, no) => IfPieces(PiecesOf(condition), PiecesOf(yes), PiecesOf(no))
    case Unless(condition, no) => UnlessPieces(PiecesOf(condition), PiecesOf(no))
  }

  function IfPieces(c: seq<Piece>, yes: seq<Piece>, no: seq<Piece>): seq<Piece> {
    [Bare("if")] + (c + ([End] + ([Bare("then")] + (yes + ([End] + ([Bare("else")] + (no + [End, Bare("fi")])))))))
  }

  function UnlessPieces(c: seq<Piece>, no: seq<Piece>): seq<Piece> {
    [Bare("if")] + ([Bare("!")] + (c + ([End] + ([Bare("then")] + (no + [End, Bare("fi")])))))
  }

  // The values in c can be words.
  predicate Legible(c: Command) {
    match c
    case Sum(path) => '\0' !in path
    case IsDigest(digest) => '\0' !in digest
    case MakeExecutable(path) => '\0' !in path
    case Move(from, to) => '\0' !in from && '\0' !in to
    case Remove(path) => '\0' !in path
    case Say(text, more) => '\0' !in text && '\0' !in more
    case ReportStatus(marker) => '\0' !in marker && QuoteFree(marker)
    case And(first, second) => Legible(first) && Legible(second)
    case Then(first, second) => Legible(first) && Legible(second)
    case If(condition, yes, no) => Legible(condition) && Legible(yes) && Legible(no)
    case Unless(condition, no) => Legible(condition) && Legible(no)
    case _ => true
  }

  // The pieces are written as the text, behind a blank, and read as the tokens.
  predicate Spelt(pieces: seq<Piece>, text: string, tokens: seq<Token>) {
    WrittenAll(pieces) == " " + text && ReadAll(pieces) == tokens && Complete(pieces)
  }

  // ----- Simple commands -----

  // A piece that stands by itself, with a blank or an end in front.
  predicate Alone(p: Piece) {
    Readable(p) && !p.Glued? && !p.Open?
  }

  lemma Row1(a: Piece)
    requires Readable(a) && !a.Open?
    ensures WrittenAll([a]) == Written(a) && ReadAll([a]) == [Read(a)] && Fitting([a], a.Glued?)
  {
    Cons(a, []);
    assert [a] + [] == [a] && Written(a) + "" == Written(a) && [Read(a)] + [] == [Read(a)];
  }

  // One more piece in front of others.
  lemma {:induction false} RowNext(a: Piece, more: seq<Piece>, text: string, tokens: seq<Token>)
    requires more != [] && WrittenAll(more) == text && ReadAll(more) == tokens && Fitting(more, a.Open?)
    requires Readable(a) && !more[|more| - 1].Open?
    ensures var all := [a] + more;
            && WrittenAll(all) == Written(a) + text && ReadAll(all) == [Read(a)] + tokens
            && Fitting(all, a.Glued?) && !all[|all| - 1].Open?
  {
    Cons(a, more);
  }

  lemma Row2(a: Piece, b: Piece, text: string)
    requires Alone(a) && Alone(b) && Written(a) + Written(b) == " " + text
    ensures Spelt([a, b], text, [Read(a), Read(b)])
  {
    Row1(b);
    RowNext(a, [b], Written(b), [Read(b)]);
    assert [a] + [b] == [a, b] && [Read(a)] + [Read(b)] == [Read(a), Read(b)];
  }

  lemma Row3(a: Piece, b: Piece, c: Piece, text: string)
    requires Alone(a) && Alone(b) && Alone(c) && Written(a) + (Written(b) + Written(c)) == " " + text
    ensures Spelt([a, b, c], text, [Read(a), Read(b), Read(c)])
  {
    Row1(c);
    RowNext(b, [c], Written(c), [Read(c)]);
    RowNext(a, [b] + [c], Written(b) + Written(c), [Read(b)] + [Read(c)]);
    assert [a] + ([b] + [c]) == [a, b, c] && [Read(a)] + ([Read(b)] + [Read(c)]) == [Read(a), Read(b), Read(c)];
  }

  lemma Row4(a: Piece, b: Piece, c: Piece, d: Piece, text: string)
    requires Alone(a) && Alone(b) && Alone(c) && Alone(d)
    requires Written(a) + (Written(b) + (Written(c) + Written(d))) == " " + text
    ensures Spelt([a, b, c, d], text, [Read(a), Read(b), Read(c), Read(d)])
  {
    Row1(d);
    RowNext(c, [d], Written(d), [Read(d)]);
    RowNext(b, [c] + [d], Written(c) + Written(d), [Read(c)] + [Read(d)]);
    RowNext(a, [b] + ([c] + [d]), Written(b) + (Written(c) + Written(d)), [Read(b)] + ([Read(c)] + [Read(d)]));
    assert [a] + ([b] + ([c] + [d])) == [a, b, c, d];
    assert [Read(a)] + ([Read(b)] + ([Read(c)] + [Read(d)])) == [Read(a), Read(b), Read(c), Read(d)];
  }

  lemma LastThree(c: Piece, d: Piece, e: Piece)
    requires Alone(c) && Alone(d) && Alone(e)
    ensures var all := [c] + ([d] + [e]);
            && WrittenAll(all) == Written(c) + (Written(d) + Written(e))
            && ReadAll(all) == [Read(c)] + ([Read(d)] + [Read(e)])
            && Fitting(all, false) && !all[|all| - 1].Open?
  {
    Row1(e);
    RowNext(d, [e], Written(e), [Read(e)]);
    RowNext(c, [d] + [e], Written(d) + Written(e), [Read(d)] + [Read(e)]);
  }

  // Five pieces, of which the second is glued to the first if that is an opening.
  lemma Row5(a: Piece, b: Piece, c: Piece, d: Piece, e: Piece, text: string)
    requires Readable(a) && !a.Glued? && Readable(b) && !b.Open? && (b.Glued? <==> a.Open?)
    requires Alone(c) && Alone(d) && Alone(e)
    requires Written(a) + (Written(b) + (Written(c) + (Written(d) + Written(e)))) == " " + text
    ensures Spelt([a, b, c, d, e], text, [Read(a), Read(b), Read(c), Read(d), Read(e)])
  {
    LastThree(c, d, e);
    TwoInFront(a, b, [c] + ([d] + [e]), Written(c) + (Written(d) + Written(e)), [Read(c)] + ([Read(d)] + [Read(e)]),
        text);
    assert [a] + ([b] + ([c] + ([d] + [e]))) == [a, b, c, d, e];
    assert [Read(a)] + ([Read(b)] + ([Read(c)] + ([Read(d)] + [Read(e)])))
        == [Read(a), Read(b), Read(c), Read(d), Read(e)];
  }

  lemma {:induction false} TwoInFront(a: Piece, b: Piece, more: seq<Piece>, w: string, t: seq<Token>, text: string)
    requires Readable(a) && !a.Glued? && Readable(b) && !b.Open? && (b.Glued? <==> a.Open?)
    requires more != [] && WrittenAll(more) == w && ReadAll(more) == t && Fitting(more, false)
        && !more[|more| - 1].Open?
    requires Written(a) + (Written(b) + w) == " " + text
    ensures Spelt([a] + ([b] + more), text, [Read(a)] + ([Read(b)] + t))
  {
    RowNext(b, more, w, t);
    RowNext(a, [b] + more, Written(b) + w, [Read(b)] + t);
  }

  // Fixed text in front, run together.
  lemma Front3(a: string, b: string, c: string, abc: string, rest: string)
    requires a + (b + c) == abc
    ensures a + (b + (c + rest)) == abc + rest
  {
    Assoc(b, c, rest);
    Assoc(a, b + c, rest);
  }

  lemma OptionsSpelt(name: string, option: string, front: string, q: string)
    requires name + " " + option + " -- " == front
    ensures (" " + name) + ((" " + option) + ((" " + "--") + (" " + q))) == " " + (front + q)
  {
    assert (" " + name) + ((" " + option) + ((" " + "--") + " ")) == " " + front;
    Assoc(" " + "--", " ", q);
    Assoc(" " + option, (" " + "--") + " ", q);
    Assoc(" " + name, (" " + option) + ((" " + "--") + " "), q);
    Assoc(" ", front, q);
  }

  // The fixed words of the commands are plain.
  lemma FileWords()
    ensures IsBare("chmod") && IsBare("0755") && IsBare("--") && IsBare("mv") && IsBare("-f") && IsBare("rm")
  {
  }

  lemma SumWords()
    ensures IsBare("actual=") && IsBare("sha256sum") && IsBare("=") && IsParam("${actual%% *}")
  {
  }

  lemma StatusWords()
    ensures IsBare("status=0") && IsBare("status=1") && IsBare("printf") && IsParam("$status")
  {
  }

  lemma PlainKeywords()
    ensures IsBare("if") && IsBare("then") && IsBare("else") && IsBare("fi") && IsBare("!")
    ensures IsBare("stty") && IsBare("echo") && IsBare("-echo")
  {
  }

  lemma SpeltMakeExecutable(path: string)
    requires '\0' !in path
    ensures Spelt(PiecesOf(MakeExecutable(path)), TextOf(MakeExecutable(path)), TokensOf(MakeExecutable(path)))
  {
    FileWords();
    OptionsSpelt("chmod", "0755", "chmod 0755 -- ", ShellQuote(path));
    Row4(Bare("chmod"), Bare("0755"), Bare("--"), Value(path), "chmod 0755 -- " + ShellQuote(path));
  }

  lemma SpeltRemove(path: string)
    requires '\0' !in path
    ensures Spelt(PiecesOf(Remove(path)), TextOf(Remove(path)), TokensOf(Remove(path)))
  {
    FileWords();
    OptionsSpelt("rm", "-f", "rm -f -- ", ShellQuote(path));
    Row4(Bare("rm"), Bare("-f"), Bare("--"), Value(path), "rm -f -- " + ShellQuote(path));
  }

  lemma SpeltMove(from: string, to: string)
    requires '\0' !in from && '\0' !in to
    ensures Spelt(PiecesOf(Move(from, to)), TextOf(Move(from, to)), TokensOf(Move(from, to)))
  {
    FileWords();
    var q, r := ShellQuote(from), ShellQuote(to);
    Assoc(" ", q, " " + r);
    OptionsSpelt("mv", "-f", "mv -f -- ", q + (" " + r));
    Assoc("mv -f -- " + q, " ", r);
    Assoc("mv -f -- ", q, " " + r);
    Row5(Bare("mv"), Bare("-f"), Bare("--"), Value(from), Value(to), "mv -f -- " + q + " " + r);
  }

  lemma SpeltSum(path: string)
    requires '\0' !in path
    ensures Spelt(PiecesOf(Sum(path)), TextOf(Sum(path)), TokensOf(Sum(path)))
  {
    SumWords();
    FileWords();
    SumText(ShellQuote(path));
    Row5(Open("actual="), Glued("sha256sum"), Bare("--"), Value(path), Shut,
        "actual=$(sha256sum -- " + ShellQuote(path) + ")");
  }

  lemma SumText(q: string)
    ensures (" " + "actual=" + "$(") + ("sha256sum" + ((" " + "--") + ((" " + q) + ")")))
        == " " + ("actual=$(sha256sum -- " + q + ")")
  {
    Assoc(" ", q, ")");
    Assoc(" " + "--", " ", q + ")");
    assert " " + "--" + " " == " -- ";
    assert " " + "actual=" + "$(" == " actual=$(";
    assert " actual=$(" + ("sha256sum" + " -- ") == " actual=$(sha256sum -- ";
    Front3(" actual=$(", "sha256sum", " -- ", " actual=$(sha256sum -- ", q + ")");
    Assoc("actual=$(sha256sum -- ", q, ")");
    Assoc(" ", "actual=$(sha256sum -- ", q + ")");
    assert " " + "actual=$(sha256sum -- " == " actual=$(sha256sum -- ";
  }

  lemma SpeltIsDigest(digest: string)
    requires '\0' !in digest
    ensures Spelt(PiecesOf(IsDigest(digest)), TextOf(IsDigest(digest)), TokensOf(IsDigest(digest)))
  {
    SumWords();
    var test := "[ \"${actual%% *}\" = " + ShellQuote(digest) + " ]";
    DigestText(ShellQuote(digest));
    Row5(Bracket('['), Param("${actual%% *}"), Bare("="), Value(digest), Bracket(']'), test);
  }

  lemma DigestText(q: string)
    ensures (" " + ['[']) + ((" \"" + "${actual%% *}" + "\"") + ((" " + "=") + ((" " + q) + (" " + [']']))))
         == " " + ("[ \"${actual%% *}\" = " + q + " ]")
  {
    DigestWords();
    Assoc(" ", q, " ]");
    Assoc(" " + "=", " ", q + " ]");
    Front3(" [", " \"${actual%% *}\"", " = ", " [ \"${actual%% *}\" = ", q + " ]");
    Assoc("[ \"${actual%% *}\" = ", q, " ]");
    Assoc(" ", "[ \"${actual%% *}\" = ", q + " ]");
  }

  lemma DigestWords()
    ensures " " + ['['] == " [" && " " + [']'] == " ]" && " " + "=" + " " == " = "
    ensures " \"" + "${actual%% *}" + "\"" == " \"${actual%% *}\""
    ensures " [" + (" \"${actual%% *}\"" + " = ") == " [ \"${actual%% *}\" = "
    ensures " " + "[ \"${actual%% *}\" = " == " [ \"${actual%% *}\" = "
  {
  }

  lemma SpeltStty()
    ensures Spelt(PiecesOf(EchoOn), TextOf(EchoOn), TokensOf(EchoOn))
    ensures Spelt(PiecesOf(EchoOff), TextOf(EchoOff), TokensOf(EchoOff))
  {
    PlainKeywords();
    assert (" " + "stty") + (" " + "echo") == " " + "stty echo";
    Row2(Bare("stty"), Bare("echo"), "stty echo");
    assert (" " + "stty") + (" " + "-echo") == " " + "stty -echo";
    Row2(Bare("stty"), Bare("-echo"), "stty -echo");
  }

  lemma SpeltSetStatus(failed: bool)
    ensures Spelt(PiecesOf(SetStatus(failed)), TextOf(SetStatus(failed)), TokensOf(SetStatus(failed)))
  {
    StatusWords();
    Row1(Bare(if failed then "status=1" else "status=0"));
  }

  lemma SpeltPrintf(format: string, text: string, more: string)
    requires '\0' !in format && '\0' !in text && '\0' !in more
    ensures Spelt([Bare("printf"), Value(format), Value(text), Value(more)],
                  "printf " + PrintfArguments(format, text, more, ""),
                  [Word("printf"), Word(format), Word(text), Word(more)])
  {
    StatusWords();
    SayText(format, text, more);
    Row4(Bare("printf"), Value(format), Value(text), Value(more), "printf " + PrintfArguments(format, text, more, ""));
  }

  lemma SayText(format: string, text: string, more: string)
    ensures (" " + "printf") + ((" " + ShellQuote(format)) + ((" " + ShellQuote(text)) + (" " + ShellQuote(more))))
         == " " + ("printf " + PrintfArguments(format, text, more, ""))
  {
    var third := ShellQuote(more) + "";
    assert third == ShellQuote(more);
    var second := ShellQuote(text) + (" " + third);
    Assoc(" ", ShellQuote(text), " " + third);
    Assoc(" ", ShellQuote(format), " " + second);
    var all := ShellQuote(format) + (" " + second);
    Assoc(" " + "printf", " ", all);
    assert " " + "printf" + " " == " " + "printf ";
    Assoc(" ", "printf ", all);
  }

  lemma SpeltReport(marker: string)
    requires '\0' !in marker && QuoteFree(marker)
    ensures Spelt(PiecesOf(ReportStatus(marker)), TextOf(ReportStatus(marker)), TokensOf(ReportStatus(marker)))
  {
    var format := StatusFormat(marker);
    StatusWords();
    StatusFormatPlain(marker);
    QuoteFreeBody(format);
    ReportText(marker);
    Row3(Bare("printf"), Value(format), Param("$status"), "printf '\\n" + marker + "EXIT:%s\\n' \"$status\"");
  }

  lemma StatusFormatPlain(marker: string)
    requires '\0' !in marker && QuoteFree(marker)
    ensures '\0' !in StatusFormat(marker) && QuoteFree(StatusFormat(marker))
  {
    forall c | c in StatusFormat(marker) ensures c != '\0' && c != '\'' {
      assert c in "\\n" || c in marker || c in "EXIT:%s\\n";
    }
  }

  lemma ReportText(marker: string)
    ensures (" " + "printf") + ((" " + ("'" + StatusFormat(marker) + "'")) + (" \"" + "$status" + "\""))
         == " " + ("printf '\\n" + marker + "EXIT:%s\\n' \"$status\"")
  {
    var tail := "EXIT:%s\\n";
    var end := "' \"$status\"";
    assert " \"" + "$status" + "\"" == " \"$status\"" && "'" + " \"$status\"" == end;
    assert "'" + ("\\n" + marker + tail) + "'" == "'\\n" + (marker + (tail + "'"));
    Assoc(" ", "'\\n" + (marker + (tail + "'")), " \"$status\"");
    Assoc("'\\n", marker + (tail + "'"), " \"$status\"");
    Assoc(marker, tail + "'", " \"$status\"");
    assert (tail + "'") + " \"$status\"" == "EXIT:%s\\n' \"$status\"";
    var rest := marker + "EXIT:%s\\n' \"$status\"";
    Assoc(" " + "printf", " ", "'\\n" + rest);
    Assoc((" " + "printf") + " ", "'\\n", rest);
    assert " " + "printf" + " " + "'\\n" == " " + "printf '\\n";
    Assoc(" ", "printf '\\n", rest);
    Assoc("printf '\\n", marker, "EXIT:%s\\n' \"$status\"");
  }

  // ----- Compound commands -----

  // A mark between two commands.
  lemma SpeltBetween(a: seq<Piece>, x: string, s: seq<Token>, mark: Piece, between: string,
                                        b: seq<Piece>, y: string, t: seq<Token>)
    requires Spelt(a, x, s) && Spelt(b, y, t) && (mark.End? || mark.Also?) && Written(mark) + " " == between
    ensures Spelt(a + ([mark] + b), x + between + y, s + ([Read(mark)] + t))
  {
    Cons(mark, b);
    Joined(a, [mark] + b);
    CompleteJoined(a, [mark] + b);
    BetweenText(x, Written(mark), between, y);
  }

  lemma BetweenText(x: string, mark: string, between: string, y: string)
    requires mark + " " == between
    ensures (" " + x) + (mark + (" " + y)) == " " + (x + between + y)
  {
    Assoc(mark, " ", y);
    Assoc(" ", x, between + y);
    Assoc(x, between, y);
  }

  // A word in front of a command.
  lemma SpeltBehind(word: string, front: string, a: seq<Piece>, x: string, s: seq<Token>)
    requires IsBare(word) && Spelt(a, x, s) && word + " " == front
    ensures Spelt([Bare(word)] + a, front + x, [Word(word)] + s)
  {
    Cons(Bare(word), a);
    Assoc(" " + word, " ", x);
    Assoc(" ", word, " ");
    Assoc(" ", front, x);
  }

  lemma SpeltFi(a: seq<Piece>, x: string, s: seq<Token>)
    requires Spelt(a, x, s)
    ensures Spelt(a + [End, Bare("fi")], x + "; fi", s + FI)
  {
    PlainKeywords();
    Row1(Bare("fi"));
    RowNext(End, [Bare("fi")], " " + "fi", [Word("fi")]);
    assert [End] + [Bare("fi")] == [End, Bare("fi")];
    assert ";" + (" " + "fi") == "; fi";
    Joined(a, [End, Bare("fi")]);
    CompleteJoined(a, [End, Bare("fi")]);
    Assoc(" ", x, "; fi");
  }

  // "then" or "else" between two lists.
  lemma SpeltClause(a: seq<Piece>, x: string, s: seq<Token>, word: string, front: string, between: string,
                                       b: seq<Piece>, y: string, t: seq<Token>)
    requires Spelt(a, x, s) && Spelt(b, y, t) && IsBare(word) && word + " " == front && "; " + front == between
    ensures Spelt(a + ([End] + ([Bare(word)] + b)), x + (between + y), s + ([Semicolon] + ([Word(word)] + t)))
  {
    SpeltBehind(word, front, b, y, t);
    SpeltBetween(a, x, s, End, "; ", [Bare(word)] + b, front + y, [Word(word)] + t);
    Assoc(x, "; ", front + y);
    Assoc("; ", front, y);
  }

  lemma SpeltIf(c: seq<Piece>, x: string, s: seq<Token>, yes: seq<Piece>, y: string, t: seq<Token>,
                                   no: seq<Piece>, z: string, u: seq<Token>)
    requires Spelt(c, x, s) && Spelt(yes, y, t) && Spelt(no, z, u)
    ensures Spelt(IfPieces(c, yes, no), IfText(x, y, z), IfTokens(s, t, u))
  {
    PlainKeywords();
    var last := no + [End, Bare("fi")];
    SpeltFi(no, z, u);
    SpeltClause(yes, y, t, "else", "else ", "; else ", last, z + "; fi", u + FI);
    var middle := yes + ([End] + ([Bare("else")] + last));
    var text, tokens := y + ("; else " + (z + "; fi")), t + ([Semicolon] + ([Word("else")] + (u + FI)));
    SpeltClause(c, x, s, "then", "then ", "; then ", middle, text, tokens);
    SpeltBehind("if", "if ", c + ([End] + ([Bare("then")] + middle)), x + ("; then " + text),
                s + ([Semicolon] + ([Word("then")] + tokens)));
    FlatIf(x, y, z);
  }

  lemma FlatIf(x: string, y: string, z: string)
    ensures "if " + (x + ("; then " + (y + ("; else " + (z + "; fi")))))
         == "if " + x + "; then " + y + "; else " + z + "; fi"
  {
    var a := "if " + x;
    var b := a + "; then ";
    var c := b + y;
    var d := c + "; else ";
    Assoc(d, z, "; fi");
    Assoc(c, "; else ", z + "; fi");
    Assoc(b, y, "; else " + (z + "; fi"));
    Assoc(a, "; then ", y + ("; else " + (z + "; fi")));
    Assoc("if ", x, "; then " + (y + ("; else " + (z + "; fi"))));
  }

  lemma SpeltUnless(c: seq<Piece>, x: string, s: seq<Token>, no: seq<Piece>, z: string, u: seq<Token>)
    requires Spelt(c, x, s) && Spelt(no, z, u)
    ensures Spelt(UnlessPieces(c, no), UnlessText(x, z), UnlessTokens(s, u))
  {
    PlainKeywords();
    SpeltFi(no, z, u);
    SpeltClause(c, x, s, "then", "then ", "; then ", no + [End, Bare("fi")], z + "; fi", u + FI);
    var body, text := c + ([End] + ([Bare("then")] + (no + [End, Bare("fi")]))), x + ("; then " + (z + "; fi"));
    var tokens := s + ([Semicolon] + ([Word("then")] + (u + FI)));
    SpeltBehind("!", "! ", body, text, tokens);
    SpeltBehind("if", "if ", [Bare("!")] + body, "! " + text, [Word("!")] + tokens);
    FlatUnless(x, z);
  }

  lemma FlatUnless(x: string, z: string)
    ensures "if " + ("! " + (x + ("; then " + (z + "; fi")))) == "if ! " + x + "; then " + z + "; fi"
  {
    var text := x + ("; then " + (z + "; fi"));
    Assoc("if ", "! ", text);
    assert "if " + "! " == "if ! ";
    var a := "if ! " + x;
    Assoc(a + "; then ", z, "; fi");
    Assoc(a, "; then ", z + "; fi");
    Assoc("if ! ", x, "; then " + (z + "; fi"));
  }

  // ----- Every command -----

  lemma FormatPlain()
    ensures '\0' !in FORMAT
  {
  }

  lemma {:induction false} SimpleSpelt(c: Command)
    requires Legible(c) && !c.And? && !c.Then? && !c.If? && !c.Unless?
    ensures IsSpelt(c)
  {
    match c
    case Sum(path) => SpeltSum(path);
    case IsDigest(digest) => SpeltIsDigest(digest);
    case MakeExecutable(path) => SpeltMakeExecutable(path);
    case Move(from, to) => SpeltMove(from, to);
    case Remove(path) => SpeltRemove(path);
    case EchoOn => SpeltStty();
    case EchoOff => SpeltStty();
    case Say(text, more) =>
      FormatPlain();
      SpeltPrintf(FORMAT, text, more);
    case SetStatus(failed) => SpeltSetStatus(failed);
    case ReportStatus(marker) => SpeltReport(marker);
  }

  predicate IsSpelt(c: Command) {
    Spelt(PiecesOf(c), TextOf(c), TokensOf(c))
  }

  lemma {:induction false} SpelledOut(c: Command, pieces: seq<Piece>, text: string, tokens: seq<Token>)
    requires Spelt(pieces, text, tokens)
    requires PiecesOf(c) == pieces && TextOf(c) == text && TokensOf(c) == tokens
    ensures IsSpelt(c)
  {
  }

  lemma {:induction false} BranchedPieces(a: Command, b: Command, d: Command)
    ensures PiecesOf(If(a, b, d)) == IfPieces(PiecesOf(a), PiecesOf(b), PiecesOf(d))
    ensures PiecesOf(Unless(a, b)) == UnlessPieces(PiecesOf(a), PiecesOf(b))
  {
  }

  lemma {:induction false} BranchedText(a: Command, b: Command, d: Command)
    ensures TextOf(If(a, b, d)) == IfText(TextOf(a), TextOf(b), TextOf(d))
    ensures TextOf(Unless(a, b)) == UnlessText(TextOf(a), TextOf(b))
  {
  }

  lemma {:induction false} BranchedTokens(a: Command, b: Command, d: Command)
    ensures TokensOf(If(a, b, d)) == IfTokens(TokensOf(a), TokensOf(b), TokensOf(d))
    ensures TokensOf(Unless(a, b)) == UnlessTokens(TokensOf(a), TokensOf(b))
  {
  }

  lemma {:induction false} SpelledBetween(c: Command, a: seq<Piece>, x: string, s: seq<Token>,
                                          mark: Piece, between: string, b: seq<Piece>, y: string, t: seq<Token>)
    requires Spelt(a, x, s) && Spelt(b, y, t) && (mark.End? || mark.Also?) && Written(mark) + " " == between
    requires PiecesOf(c) == a + ([mark] + b) && TextOf(c) == x + between + y && TokensOf(c) == s + ([Read(mark)] + t)
    ensures IsSpelt(c)
  {
    SpeltBetween(a, x, s, mark, between, b, y, t);
  }

  lemma {:induction false} JoinedPieces(a: Command, b: Command)
    ensures PiecesOf(And(a, b)) == PiecesOf(a) + ([Also] + PiecesOf(b))
    ensures PiecesOf(Then(a, b)) == PiecesOf(a) + ([End] + PiecesOf(b))
  {
  }

  lemma {:induction false} JoinedText(a: Command, b: Command)
    ensures TextOf(And(a, b)) == TextOf(a) + " && " + TextOf(b)
    ensures TextOf(Then(a, b)) == TextOf(a) + "; " + TextOf(b)
  {
  }

  lemma {:induction false} JoinedTokens(a: Command, b: Command)
    ensures TokensOf(And(a, b)) == TokensOf(a) + ([AndIf] + TokensOf(b))
    ensures TokensOf(Then(a, b)) == TokensOf(a) + ([Semicolon] + TokensOf(b))
  {
  }

  lemma MarkText()
    ensures Written(Also) + " " == " && " && Written(End) + " " == "; "
  {
  }

  lemma {:induction false} SpeltAnd(a: Command, b: Command)
    requires IsSpelt(a) && IsSpelt(b)
    ensures IsSpelt(And(a, b))
  {
    JoinedPieces(a, b);
    JoinedText(a, b);
    JoinedTokens(a, b);
    MarkText();
    SpelledBetween(And(a, b), PiecesOf(a), TextOf(a), TokensOf(a), Also, " && ", PiecesOf(b), TextOf(b), TokensOf(b));
  }

  lemma {:induction false} SpeltThen(a: Command, b: Command)
    requires IsSpelt(a) && IsSpelt(b)
    ensures IsSpelt(Then(a, b))
  {
    JoinedPieces(a, b);
    JoinedText(a, b);
    JoinedTokens(a, b);
    MarkText();
    SpelledBetween(Then(a, b), PiecesOf(a), TextOf(a), TokensOf(a), End, "; ", PiecesOf(b), TextOf(b), TokensOf(b));
  }

  lemma SpeltConditional(a: Command, b: Command, d: Command)
    requires IsSpelt(a) && IsSpelt(b) && IsSpelt(d)
    ensures IsSpelt(If(a, b, d))
  {
    var p, x, s, q, y, t := PiecesOf(a), TextOf(a), TokensOf(a), PiecesOf(b), TextOf(b), TokensOf(b);
    var r, z, u := PiecesOf(d), TextOf(d), TokensOf(d);
    SpeltIf(p, x, s, q, y, t, r, z, u);
    BranchedPieces(a, b, d);
    BranchedText(a, b, d);
    BranchedTokens(a, b, d);
    SpelledOut(If(a, b, d), IfPieces(p, q, r), IfText(x, y, z), IfTokens(s, t, u));
  }

  lemma SpeltNegated(a: Command, b: Command)
    requires IsSpelt(a) && IsSpelt(b)
    ensures IsSpelt(Unless(a, b))
  {
    var p, x, s, q, y, t := PiecesOf(a), TextOf(a), TokensOf(a), PiecesOf(b), TextOf(b), TokensOf(b);
    SpeltUnless(p, x, s, q, y, t);
    BranchedPieces(a, b, b);
    BranchedText(a, b, b);
    BranchedTokens(a, b, b);
    SpelledOut(Unless(a, b), UnlessPieces(p, q), UnlessText(x, y), UnlessTokens(s, t));
  }

  lemma {:induction false} AllSpelt(c: Command)
    requires Legible(c)
    ensures IsSpelt(c)
  {
    match c
    case And(a, b) =>
      AllSpelt(a);
      AllSpelt(b);
      SpeltAnd(a, b);
    case Then(a, b) =>
      AllSpelt(a);
      AllSpelt(b);
      SpeltThen(a, b);
    case If(a, b, d) =>
      AllSpelt(a);
      AllSpelt(b);
      AllSpelt(d);
      SpeltConditional(a, b, d);
    case Unless(a, b) =>
      AllSpelt(a);
      AllSpelt(b);
      SpeltNegated(a, b);
    case _ => SimpleSpelt(c);
  }

  // The shell reads the text of every command, whatever the paths in it, as its tokens.
  lemma {:induction false} TextReads(c: Command)
    requires Legible(c)
    ensures Tokens(TextOf(c), None) == Some(TokensOf(c))
  {
    AllSpelt(c);
    CommandReads(PiecesOf(c), None, false);
    BlankReads(TextOf(c), None);
    var r := Tokens(TextOf(c), None);
    assert r.Some? ==> [] + r.value == r.value;
    assert [] + TokensOf(c) == TokensOf(c);
  }

  // Whatever the path, the clean-up removes that path and nothing else, then turns echo on.
  lemma CleanupReads(tempPath: string)
    requires '\0' !in tempPath
    ensures Tokens(CleanupCommand(tempPath), None)
         == Some([Word("rm"), Word("-f"), Word("--"), Word(tempPath), Semicolon, Word("stty"), Word("echo")])
  {
    CleanUpText(tempPath);
    TextReads(CleanUp(tempPath));
    var remove, echo := [Word("rm"), Word("-f"), Word("--"), Word(tempPath)], [Word("stty"), Word("echo")];
    assert TokensOf(Remove(tempPath)) == remove && TokensOf(EchoOn) == echo;
    assert TokensOf(CleanUp(tempPath)) == remove + ([Semicolon] + echo);
    assert remove + ([Semicolon] + echo)
        == [Word("rm"), Word("-f"), Word("--"), Word(tempPath), Semicolon, Word("stty"), Word("echo")];
    assert Legible(Remove(tempPath)) && Legible(EchoOn);
  }
}
