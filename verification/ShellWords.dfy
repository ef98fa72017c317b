/** Quoting for the POSIX shell, and the part of the shell that undoes it: sections 2.2.1
    (backslash), 2.2.2 (single quotes), 2.2.3 (double quotes), 2.3 (tokens), 2.6.3 (command
    substitution), 2.7.2 (redirecting output) and 2.7.4 (here-documents) of the POSIX.1-2017
    Shell Command Language.

    The reader of tokens knows blanks, semicolons, the operator &&, backslashes, quotes,
    substitutions that follow an assignment, > in front of a blank and << in front of a quoted
    delimiter.  It gives up on everything else that means something to the shell outside
    quotes. */
module ShellWords {
  import opened Options
  import opened Seqs

  datatype Token =
    | Word(text: string)
    | Semicolon
    | AndIf
    | Capture(name: string)  // a word that goes on with the output of a command
    | Close                  // the end of that command
    | Expand(text: string)   // a word in double quotes, still to be expanded
    | Into                   // the next word names the file that output goes to
    | Document               // the next word ends a here-document whose text is taken as it is

  predicate IsBlank(c: char) {
    c == ' ' || c == '\t'
  }

  // Stands for itself outside quotes.  Others do too, but no command here needs them.
  predicate IsPlain(c: char) {
    'a' <= c <= 'z' || 'A' <= c <= 'Z' || '+' <= c <= ':' || c == '=' || c == '_' || c == '@' || c == '!'
  }

  function Started(word: Option<string>): string {
    if word.Some? then word.value else ""
  }

  function Finished(word: Option<string>): seq<Token> {
    if word.Some? then [Word(word.value)] else []
  }

  function Prepend(tokens: seq<Token>, r: Option<seq<Token>>): Option<seq<Token>> {
    if r.Some? then Some(tokens + r.value) else None
  }

  // Nothing more can belong to the word in front.
  predicate Delimited(rest: string) {
    rest == [] || IsBlank(rest[0]) || rest[0] == ';' || rest[0] == ')'
  }

  // Where the double quotes end that have been opened in front of text.
  function Closing(text: string): (end: Option<nat>)
    ensures end.Some? ==> end.value < |text|
  {
    if text == [] || text[0] in {'\\', '`', '(', '\0'} then None
    else if text[0] == '"' then Some(0)
    else match Closing(text[1..])
      case None => None
      case Some(n) => Some(n + 1)
  }

  // The tokens of text, of whose first word `word` has been read already.
  function Tokens(text: string, word: Option<string>): Option<seq<Token>>
    decreases |text|, 2
  {
    if text == [] then Some(Finished(word))
    else if IsBlank(text[0]) then Prepend(Finished(word), Tokens(text[1..], None))
    else if text[0] == ';' then Prepend(Finished(word) + [Semicolon], Tokens(text[1..], None))
    else if text[0] == '\'' then Quoted(text[1..], Started(word))
    else if text[0] == '\\' && |text| > 1 && text[1] != '\n' && text[1] != '\0' then
        Tokens(text[2..], Some(Started(word) + [text[1]]))
    else if IsPlain(text[0]) then Tokens(text[1..], Some(Started(word) + [text[0]]))
    else Operators(text, word)
  }

  function Operators(text: string, word: Option<string>): Option<seq<Token>>
    requires text != []
    decreases |text|, 1
  {
    if |text| > 1 && text[0] == '&' && text[1] == '&' then Prepend(Finished(word) + [AndIf], Tokens(text[2..], None))
    else if |text| > 1 && text[0] == '$' && text[1] == '(' && word.Some? then
        Prepend([Capture(word.value)], Tokens(text[2..], None))
    else if text[0] == ')' && Delimited(text[1..]) then Prepend(Finished(word) + [Close], Tokens(text[1..], None))
    else if text[0] in {'[', ']'} && word.None? && Delimited(text[1..]) then Tokens(text[1..], Some([text[0]]))
    else if text[0] == '"' && word.None? then Doubled(text[1..])
    else if word.None? then Redirections(text)
    else None
  }

  function Redirections(text: string): Option<seq<Token>>
    requires text != []
    decreases |text|, 0
  {
    if |text| > 1 && text[0] == '>' && IsBlank(text[1]) then Prepend([Into], Tokens(text[1..], None))
    else if |text| > 2 && text[0] == '<' && text[1] == '<' && text[2] == '\'' then
      Prepend([Document], Tokens(text[2..], None))
    else None
  }

  // A word in double quotes, from behind the first of them.
  function Doubled(text: string): Option<seq<Token>>
    decreases |text|, 1
  {
    match Closing(text)
    case None => None
    case Some(end) =>
      if Delimited(text[end + 1..]) then Prepend([Expand(text[..end])], Tokens(text[end + 1..], None)) else None
  }

  // The same inside single quotes: everything up to the next quote stands for itself.
  function Quoted(text: string, word: string): Option<seq<Token>>
    decreases |text|
  {
    if text == [] || text[0] == '\0' then None
    else if text[0] == '\'' then Tokens(text[1..], Some(word))
    else Quoted(text[1..], word + [text[0]])
  }

  // Every quote becomes: close, an escaped quote, open.
  function QuoteBody(value: string): string {
    if value == [] then ""
    else (if value[0] == '\'' then "'\\''" else [value[0]]) + QuoteBody(value[1..])
  }

  function ShellQuote(value: string): string {
    "'" + QuoteBody(value) + "'"
  }

  // The rest of the text after a quoted value, with the value added to the word; nothing
  // if the value holds a NUL, which no word can.
  function AfterQuote(value: string, rest: string, word: string): Option<seq<Token>> {
    if '\0' in value then None else Tokens(rest, Some(word + value))
  }

  lemma {:induction false} BodyReads(value: string, rest: string, word: string)
    ensures Quoted(QuoteBody(value) + "'" + rest, word) == AfterQuote(value, rest, word)
  {
    var text := QuoteBody(value) + "'" + rest;
    if value == [] {
      assert text[1..] == rest;
      assert word + value == word;
    } else {
      var c, more := value[0], value[1..];
      var tail := QuoteBody(more) + "'" + rest;
      BodyReads(more, rest, word + [c]);
      assert word + value == (word + [c]) + more;
      assert value == [c] + more;
      if c == '\'' {
        QuoteReads(text, tail, word);
      } else {
        assert text == [c] + tail;
        assert text[1..] == tail;
      }
    }
  }

  // The four characters that stand for a quote.
  lemma {:induction false} QuoteReads(text: string, tail: string, word: string)
    requires text == "'\\''" + tail
    ensures Quoted(text, word) == Quoted(tail, word + "'")
  {
    var closed := text[1..];
    assert closed == "\\''" + tail;
    var escaped := closed[2..];
    assert escaped == "'" + tail;
    assert escaped[1..] == tail;
    assert Tokens(closed, Some(word)) == Tokens(escaped, Some(word + ['\'']));
  }

  // A quoted value, wherever it stands, adds exactly the value to the word being read.
  lemma {:induction false} QuoteIsOneWord(value: string, rest: string, word: Option<string>)
    ensures Tokens(ShellQuote(value) + rest, word) == AfterQuote(value, rest, Started(word))
  {
    var text := ShellQuote(value) + rest;
    BodyReads(value, rest, Started(word));
    assert text[1..] == QuoteBody(value) + "'" + rest;
  }

  // The shell reads shellQuote(value) as the one word `value` exactly for the values that
  // can be words at all.
  lemma QuoteInverted(value: string)
    ensures Tokens(ShellQuote(value), None) == Some([Word(value)]) <==> '\0' !in value
  {
    QuoteIsOneWord(value, [], None);
    assert ShellQuote(value) + [] == ShellQuote(value);
    assert "" + value == value;
  }

  function QuoteAll(values: seq<string>): string
    requires values != []
  {
    ShellQuote(values[0]) + if |values| == 1 then "" else " " + QuoteAll(values[1..])
  }

  function AsWords(values: seq<string>): seq<Token> {
    if values == [] then [] else [Word(values[0])] + AsWords(values[1..])
  }

  // Quoted values with blanks between them come back as the list they were.
  lemma {:induction false} QuoteAllInverted(values: seq<string>)
    requires values != [] && forall v :: v in values ==> '\0' !in v
    ensures Tokens(QuoteAll(values), None) == Some(AsWords(values))
  {
    var rest := if |values| == 1 then "" else " " + QuoteAll(values[1..]);
    QuoteIsOneWord(values[0], rest, None);
    assert "" + values[0] == values[0];
    if |values| > 1 {
      QuoteAllInverted(values[1..]);
      assert rest[1..] == QuoteAll(values[1..]);
    } else {
      assert AsWords(values) == [Word(values[0])] + [] == [Word(values[0])];
    }
  }

  // ----- Whole commands -----

  lemma {:induction false} PlainHead(c: char, rest: string, word: Option<string>)
    requires IsPlain(c)
    ensures Tokens([c] + rest, word) == Tokens(rest, Some(Started(word) + [c]))
  {
    assert ([c] + rest)[1..] == rest;
  }

  lemma {:induction false} PlainReads(plain: string, rest: string, word: string)
    requires forall c :: c in plain ==> IsPlain(c)
    ensures Tokens(plain + rest, Some(word)) == Tokens(rest, Some(word + plain))
  {
    if plain == [] {
      assert plain + rest == rest && word + plain == word;
    } else {
      var c, more := plain[0], plain[1..];
      assert c in plain && forall d :: d in more ==> d in plain;
      assert plain + rest == [c] + (more + rest);
      PlainHead(c, more + rest, Some(word));
      PlainReads(more, rest, word + [c]);
      assert (word + [c]) + more == word + plain;
    }
  }

  lemma {:induction false} FirstReads(plain: string, rest: string)
    requires plain != [] && forall c :: c in plain ==> IsPlain(c)
    ensures Tokens(plain + rest, None) == Tokens(rest, Some(plain))
  {
    var c, more := plain[0], plain[1..];
    assert c in plain && forall d :: d in more ==> d in plain;
    assert plain + rest == [c] + (more + rest);
    PlainHead(c, more + rest, None);
    assert "" + [c] == [c];
    PlainReads(more, rest, [c]);
    assert [c] + more == plain;
  }

  // A command, piece by piece: bare words, quoted values, words in double quotes, brackets,
  // the ends of simple commands, and substitutions with the word that they start with.
  datatype Piece =
    | Bare(text: string) | Value(value: string) | Param(text: string) | Bracket(c: char)
    | End | Also | Open(name: string) | Glued(text: string) | Shut

  predicate IsBare(text: string) {
    text != [] && forall c :: c in text ==> IsPlain(c)
  }

  predicate IsParam(text: string) {
    forall c :: c in text ==> c !in {'"', '\\', '`', '(', '\0'}
  }

  predicate Readable(p: Piece) {
    match p
    case Bare(text) => IsBare(text)
    case Value(value) => '\0' !in value
    case Param(text) => IsParam(text)
    case Bracket(c) => c in {'[', ']'}
    case Open(name) => IsBare(name)
    case Glued(text) => IsBare(text)
    case _ => true
  }

  // The pieces can be read one after the other; the first is glued to what is in front if
  // and only if that is the opening of a substitution.
  predicate Fitting(pieces: seq<Piece>, open: bool) {
    pieces != [] ==>
      Readable(pieces[0]) && (pieces[0].Glued? <==> open) && Fitting(pieces[1..], pieces[0].Open?)
  }

  predicate Complete(pieces: seq<Piece>) {
    pieces != [] && Fitting(pieces, false) && !pieces[|pieces| - 1].Open?
  }

  // How a piece is written behind others.
  function Written(p: Piece): string {
    match p
    case Bare(text) => " " + text
    case Value(value) => " " + ShellQuote(value)
    case Param(text) => " \"" + text + "\""
    case Bracket(c) => " " + [c]
    case End => ";"
    case Also => " &&"
    case Open(name) => " " + name + "$("
    case Glued(text) => text
    case Shut => ")"
  }

  function Read(p: Piece): Token {
    match p
    case Bare(text) => Word(text)
    case Value(value) => Word(value)
    case Param(text) => Expand(text)
    case Bracket(c) => Word([c])
    case End => Semicolon
    case Also => AndIf
    case Open(name) => Capture(name)
    case Glued(text) => Word(text)
    case Shut => Close
  }

  function WrittenAll(pieces: seq<Piece>): string {
    if pieces == [] then "" else Written(pieces[0]) + WrittenAll(pieces[1..])
  }

  function ReadAll(pieces: seq<Piece>): seq<Token> {
    if pieces == [] then [] else [Read(pieces[0])] + ReadAll(pieces[1..])
  }

  // Whether a piece is a word that what follows could still be part of.
  predicate IsWord(p: Piece) {
    p.Bare? || p.Value? || p.Bracket? || p.Glued?
  }

  lemma {:induction false} BlankReads(rest: string, word: Option<string>)
    ensures Tokens(" " + rest, word) == Prepend(Finished(word), Tokens(rest, None))
  {
    assert (" " + rest)[1..] == rest;
  }

  lemma {:induction false} ClosingAt(text: string, rest: string)
    requires IsParam(text)
    ensures Closing(text + ("\"" + rest)) == Some(|text|)
  {
    var all := text + ("\"" + rest);
    if text != [] {
      assert all[0] == text[0] && text[0] in text;
      assert all[1..] == text[1..] + ("\"" + rest);
      assert forall c :: c in text[1..] ==> c in text;
      ClosingAt(text[1..], rest);
    }
  }

  lemma {:induction false} ParamReads(text: string, rest: string, word: Option<string>)
    requires IsParam(text) && Delimited(rest)
    ensures Tokens(" \"" + text + "\"" + rest, word)
        == Prepend(Finished(word), Prepend([Expand(text)], Tokens(rest, None)))
  {
    var inner := text + ("\"" + rest);
    assert " \"" + text + "\"" + rest == " " + ("\"" + inner);
    BlankReads("\"" + inner, word);
    assert ("\"" + inner)[1..] == inner;
    assert Tokens("\"" + inner, None) == Operators("\"" + inner, None) == Doubled(inner);
    ClosingAt(text, rest);
    assert inner[..|text|] == text && inner[|text| + 1..] == rest;
  }

  lemma {:induction false} OpenReads(name: string, rest: string, word: Option<string>)
    requires IsBare(name)
    ensures Tokens(" " + name + "$(" + rest, word)
        == Prepend(Finished(word), Prepend([Capture(name)], Tokens(rest, None)))
  {
    assert " " + name + "$(" + rest == " " + (name + ("$(" + rest));
    BlankReads(name + ("$(" + rest), word);
    FirstReads(name, "$(" + rest);
    assert ("$(" + rest)[2..] == rest;
  }

  lemma {:induction false} MarkReads(p: Piece, rest: string, word: Option<string>)
    requires p.End? || p.Also? || (p.Shut? && Delimited(rest))
    ensures Tokens(Written(p) + rest, word)
         == if p.Also? then Prepend(Finished(word), Prepend([AndIf], Tokens(rest, None)))
            else Prepend(Finished(word) + [Read(p)], Tokens(rest, None))
  {
    match p
    case End => assert (";" + rest)[1..] == rest;
    case Shut => assert (")" + rest)[1..] == rest;
    case Also =>
      assert " &&" + rest == " " + ("&&" + rest);
      BlankReads("&&" + rest, word);
      assert ("&&" + rest)[2..] == rest;
      assert Tokens("&&" + rest, None) == Operators("&&" + rest, None);
      assert Finished(None) + [AndIf] == [AndIf];
  }

  lemma {:induction false} WordReads(p: Piece, rest: string, word: Option<string>)
    requires Readable(p) && IsWord(p) && (p.Glued? ==> word.None?) && (p.Bracket? ==> Delimited(rest))
    ensures Tokens(Written(p) + rest, word) == Prepend(Finished(word), Tokens(rest, Some(Read(p).text)))
  {
    match p
    case Bare(text) =>
      Assoc(" ", text, rest);
      BlankReads(text + rest, word);
      FirstReads(text, rest);
    case Value(value) =>
      Assoc(" ", ShellQuote(value), rest);
      BlankReads(ShellQuote(value) + rest, word);
      QuoteIsOneWord(value, rest, None);
      assert "" + value == value;
    case Bracket(c) =>
      Assoc(" ", [c], rest);
      BlankReads([c] + rest, word);
      assert ([c] + rest)[1..] == rest;
    case Glued(text) =>
      FirstReads(text, rest);
      var r := Tokens(rest, Some(text));
      assert r.Some? ==> [] + r.value == r.value;
  }

  lemma PrependTwice(a: seq<Token>, b: seq<Token>, r: Option<seq<Token>>)
    ensures Prepend(a, Prepend(b, r)) == Prepend(a + b, r)
  {
    if r.Some? {
      Assoc(a, b, r.value);
    }
  }

  // One piece: it ends the word being read, and adds its token or starts the next word.
  lemma {:induction false} PieceReads(p: Piece, rest: string, word: Option<string>)
    requires Readable(p) && (p.Glued? ==> word.None?) && (p.Bracket? || p.Param? || p.Shut? ==> Delimited(rest))
    ensures Tokens(Written(p) + rest, word)
         == if IsWord(p) then Prepend(Finished(word), Tokens(rest, Some(Read(p).text)))
            else Prepend(Finished(word) + [Read(p)], Tokens(rest, None))
  {
    PrependTwice(Finished(word), [Read(p)], Tokens(rest, None));
    match p
    case Param(text) => ParamReads(text, rest, word);
    case Open(name) => OpenReads(name, rest, word);
    case End => MarkReads(p, rest, word);
    case Also => MarkReads(p, rest, word);
    case Shut => MarkReads(p, rest, word);
    case _ => WordReads(p, rest, word);
  }

  lemma {:induction false} FittingDelimits(pieces: seq<Piece>)
    requires Fitting(pieces, false)
    ensures Delimited(WrittenAll(pieces))
  {
  }

  // The shell reads a command of fitting pieces as exactly those pieces.
  lemma {:induction false} CommandReads(pieces: seq<Piece>, word: Option<string>, open: bool)
    requires Fitting(pieces, open) && (open ==> word.None?)
    ensures Tokens(WrittenAll(pieces), word) == Some(Finished(word) + ReadAll(pieces))
  {
    if pieces == [] {
      assert Finished(word) + [] == Finished(word);
    } else {
      var p, more := pieces[0], pieces[1..];
      if !p.Open? {
        FittingDelimits(more);
      }
      PieceReads(p, WrittenAll(more), word);
      CommandReads(more, if IsWord(p) then Some(Read(p).text) else None, p.Open?);
      Assoc(Finished(word), [Read(p)], ReadAll(more));
      assert [] + ReadAll(more) == ReadAll(more);
    }
  }

  // ----- The line that begins a here-document -----

  function HeaderLine(path: string, delimiter: string): string {
    "base64 -d > " + ShellQuote(path) + " <<" + ShellQuote(delimiter)
  }

  lemma {:induction false} RedirectionHead(text: string)
    requires text != [] && (text[0] == '>' || text[0] == '<')
    ensures Tokens(text, None) == Redirections(text)
  {
    assert !IsBlank(text[0]) && !IsPlain(text[0]);
    assert Operators(text, None) == Redirections(text);
  }

  lemma DocumentReads(delimiter: string)
    requires '\0' !in delimiter
    ensures Tokens("<<" + ShellQuote(delimiter), None) == Some([Document] + [Word(delimiter)])
  {
    var text := "<<" + ShellQuote(delimiter);
    assert text[2..] == ShellQuote(delimiter) && text[2] == '\'';
    QuoteInverted(delimiter);
    RedirectionHead(text);
  }

  lemma {:induction false} IntoReads(path: string, rest: string)
    requires '\0' !in path
    ensures Tokens("> " + (ShellQuote(path) + rest), None) == Prepend([Into], Tokens(rest, Some(path)))
  {
    var quoted := ShellQuote(path) + rest;
    var text := "> " + quoted;
    assert text[1..] == " " + quoted;
    BlankReads(quoted, None);
    QuoteIsOneWord(path, rest, None);
    assert "" + path == path;
    RedirectionHead(text);
    PrependTwice([Into], [], Tokens(quoted, None));
    assert [Into] + [] == [Into];
  }

  lemma {:induction false} TwoWordsRead(one: string, two: string, rest: string)
    requires IsBare(one) && IsBare(two)
    ensures Tokens(one + (" " + (two + (" " + rest))), None) == Prepend([Word(one)] + [Word(two)], Tokens(rest, None))
  {
    FirstReads(one, " " + (two + (" " + rest)));
    BlankReads(two + (" " + rest), Some(one));
    FirstReads(two, " " + rest);
    BlankReads(rest, Some(two));
    PrependTwice([Word(one)], [Word(two)], Tokens(rest, None));
  }

  // Whatever the path and the delimiter, the line decodes into that path a here-document
  // that ends at that delimiter.
  lemma HeaderReads(path: string, delimiter: string)
    requires '\0' !in path && '\0' !in delimiter
    ensures Tokens(HeaderLine(path, delimiter), None)
         == Some([Word("base64"), Word("-d"), Into, Word(path), Document, Word(delimiter)])
  {
    var document := "<<" + ShellQuote(delimiter);
    var into := "> " + (ShellQuote(path) + (" " + document));
    HeaderSplits(ShellQuote(path), ShellQuote(delimiter));
    TwoWordsRead("base64", "-d", into);
    IntoReads(path, " " + document);
    BlankReads(document, Some(path));
    DocumentReads(delimiter);
    assert ([Word("base64")] + [Word("-d")]) + ([Into] + ([Word(path)] + ([Document] + [Word(delimiter)])))
        == [Word("base64"), Word("-d"), Into, Word(path), Document, Word(delimiter)];
  }

  lemma HeaderSplits(path: string, delimiter: string)
    ensures "base64 -d > " + path + " <<" + delimiter
         == "base64" + (" " + ("-d" + (" " + ("> " + (path + (" " + ("<<" + delimiter)))))))
  {
    var more := path + (" <<" + delimiter);
    assert " " + ("<<" + delimiter) == " <<" + delimiter;
    Assoc("base64 -d > ", path, " <<" + delimiter);
    assert "base64 -d > " == "base64" + (" " + ("-d" + (" " + "> ")));
    Assoc(" ", "> ", more);
    Assoc("-d", " " + "> ", more);
    Assoc(" ", "-d" + (" " + "> "), more);
    Assoc("base64", " " + ("-d" + (" " + "> ")), more);
    Assoc("base64 -d > " + path, " <<", delimiter);
  }

  // ----- Putting pieces together -----

  lemma {:induction false} Cons(p: Piece, more: seq<Piece>)
    ensures WrittenAll([p] + more) == Written(p) + WrittenAll(more)
    ensures ReadAll([p] + more) == [Read(p)] + ReadAll(more)
    ensures Fitting([p] + more, p.Glued?) <==> Readable(p) && Fitting(more, p.Open?)
  {
    assert ([p] + more)[1..] == more;
  }

  lemma {:induction false} Joined(a: seq<Piece>, b: seq<Piece>)
    ensures WrittenAll(a + b) == WrittenAll(a) + WrittenAll(b)
    ensures ReadAll(a + b) == ReadAll(a) + ReadAll(b)
  {
    if a == [] {
      assert a + b == b && "" + WrittenAll(b) == WrittenAll(b) && [] + ReadAll(b) == ReadAll(b);
    } else {
      Joined(a[1..], b);
      assert (a + b)[1..] == a[1..] + b;
      Assoc(Written(a[0]), WrittenAll(a[1..]), WrittenAll(b));
      Assoc([Read(a[0])], ReadAll(a[1..]), ReadAll(b));
    }
  }

  lemma {:induction false} FittingJoined(a: seq<Piece>, b: seq<Piece>, open: bool)
    requires a != [] && Fitting(a, open) && !a[|a| - 1].Open? && Fitting(b, false)
    ensures Fitting(a + b, open)
  {
    assert (a + b)[1..] == a[1..] + b;
    if |a| == 1 {
      assert a[1..] + b == b;
    } else {
      FittingJoined(a[1..], b, a[0].Open?);
    }
  }

  lemma CompleteJoined(a: seq<Piece>, b: seq<Piece>)
    requires Complete(a) && Complete(b)
    ensures Complete(a + b)
  {
    FittingJoined(a, b, false);
  }
}
