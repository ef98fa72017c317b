/** Lines that a failed write has cut off, with the clean-up command run together behind them:
    as far as the shell can read such a line, it is some tokens of the line that was meant,
    and those of the clean-up. */
module ShellCuts {
  import opened EchoImmunity
  import opened Options
  import opened RemoteShell
  import opened Seqs
  import opened ShellSpelling
  import opened ShellWords

  // ----- What the reader makes of the clean-up behind a cut -----

  // What the path of the temporary file must be like: plain through and through.
  predicate Plain(temp: string) {
    IsBare(temp) && QuoteFree(temp) && '\0' !in temp
  }

  // The tokens of the clean-up, when the word in front has begun with g.
  function Tail(g: string, temp: string): seq<Token> {
    [Word(g + "rm"), Word("-f"), Word("--"), Word(temp), Semicolon, Word("stty"), Word("echo")]
  }

  // The text of the clean-up behind the first word.
  function Behind(temp: string): string {
    " " + ("-f" + (" " + ("--" + (" " + (ShellQuote(temp) + (";" + (" " + ("stty" + (" " + "echo")))))))))
  }

  lemma CleanupSplits(temp: string)
    ensures CleanupCommand(temp) == "rm" + Behind(temp)
  {
    var q := ShellQuote(temp);
    assert "; stty echo" == ";" + (" " + ("stty" + (" " + "echo")));
    assert "rm -f -- " == "rm" + (" " + ("-f" + (" " + ("--" + " "))));
    Assoc("rm -f -- ", q, "; stty echo");
    var rest := q + "; stty echo";
    Assoc("--", " ", rest);
    Assoc(" ", "--" + " ", rest);
    Assoc("-f", " " + ("--" + " "), rest);
    Assoc(" ", "-f" + (" " + ("--" + " ")), rest);
    Assoc("rm", " " + ("-f" + (" " + ("--" + " "))), rest);
  }

  lemma BareNext(word: string, next: string, rest: string)
    requires IsBare(next)
    ensures Tokens(" " + (next + rest), Some(word)) == Prepend([Word(word)], Tokens(rest, Some(next)))
  {
    BlankReads(next + rest, Some(word));
    FirstReads(next, rest);
  }

  lemma QuotedNext(word: string, value: string, rest: string)
    requires '\0' !in value
    ensures Tokens(" " + (ShellQuote(value) + rest), Some(word)) == Prepend([Word(word)], Tokens(rest, Some(value)))
  {
    BlankReads(ShellQuote(value) + rest, Some(word));
    QuoteIsOneWord(value, rest, None);
    assert "" + value == value;
  }

  lemma EndNext(word: string, rest: string)
    ensures Tokens(";" + rest, Some(word)) == Prepend([Word(word)] + [Semicolon], Tokens(rest, None))
  {
    assert (";" + rest)[1..] == rest;
  }

  lemma {:induction false} LastWords()
    ensures Tokens(" " + ("stty" + (" " + "echo")), None) == Some([Word("stty")] + [Word("echo")])
  {
    PlainKeywords();
    BlankReads("stty" + (" " + "echo"), None);
    FirstReads("stty", " " + "echo");
    assert "echo" + "" == "echo";
    BareNext("stty", "echo", "");
    assert Tokens("", Some("echo")) == Some([Word("echo")]);
    assert [] + ([Word("stty")] + [Word("echo")]) == [Word("stty")] + [Word("echo")];
  }

  lemma {:induction false} BehindReads(word: string, temp: string)
    requires '\0' !in temp
    ensures Tokens(Behind(temp), Some(word)) == Some([Word(word)] + ([Word("-f")] + ([Word("--")]
              + (([Word(temp)] + [Semicolon]) + ([Word("stty")] + [Word("echo")])))))
  {
    FileWords();
    var last := " " + ("stty" + (" " + "echo"));
    BareNext(word, "-f", " " + ("--" + (" " + (ShellQuote(temp) + (";" + last)))));
    BareNext("-f", "--", " " + (ShellQuote(temp) + (";" + last)));
    QuotedNext("--", temp, ";" + last);
    EndNext(temp, last);
    LastWords();
  }

  // The clean-up behind a word that has begun, or behind none.
  lemma CleanupGlued(word: Option<string>, temp: string)
    requires '\0' !in temp
    ensures Tokens(CleanupCommand(temp), word) == Some(Tail(Started(word), temp))
  {
    CleanupSplits(temp);
    var g := Started(word);
    if word.Some? {
      PlainReads("rm", Behind(temp), g);
    } else {
      FirstReads("rm", Behind(temp));
      assert "" + "rm" == "rm";
    }
    BehindReads(g + "rm", temp);
    assert [Word(g + "rm")] + ([Word("-f")] + ([Word("--")]
             + (([Word(temp)] + [Semicolon]) + ([Word("stty")] + [Word("echo")])))) == Tail(g, temp);
  }

  // A quote that the cut has left open is closed by the next one, and that one's partner
  // opens a quote for good.
  lemma {:induction false} OpenQuote(part: string, temp: string, word: string)
    requires QuoteFree(part) && '\0' !in part && Plain(temp)
    ensures Quoted(part + CleanupCommand(temp), word) == None
  {
    QuoteFreeBody(temp);
    var front := part + "rm -f -- ";
    var raw := temp + ("'" + "; stty echo");
    assert CleanupCommand(temp) == "rm -f -- " + ("'" + raw) by {
      Assoc("rm -f -- ", ShellQuote(temp), "; stty echo");
      assert ShellQuote(temp) + "; stty echo" == "'" + raw;
    }
    Assoc(part, "rm -f -- ", "'" + raw);
    assert forall c :: c in front ==> c in part || c in "rm -f -- ";
    QuotedUpTo(front, raw, word);
    PlainReads(temp, "'" + "; stty echo", word + front);
    assert ("'" + "; stty echo")[1..] == "; stty echo";
    NeverClosed("; stty echo", word + front + temp);
  }

  lemma {:induction false} QuotedUpTo(front: string, rest: string, word: string)
    requires QuoteFree(front) && '\0' !in front
    ensures Quoted(front + ("'" + rest), word) == Tokens(rest, Some(word + front))
  {
    var text := front + ("'" + rest);
    if front == "" {
      assert text[0] == '\'' && text[1..] == rest;
      assert word + front == word;
    } else {
      assert text[0] == front[0] && front[0] in front;
      assert text[1..] == front[1..] + ("'" + rest);
      assert forall c :: c in front[1..] ==> c in front;
      QuotedUpTo(front[1..], rest, word + [front[0]]);
      assert (word + [front[0]]) + front[1..] == word + front;
    }
  }

  lemma {:induction false} NeverClosed(text: string, word: string)
    requires QuoteFree(text)
    ensures Quoted(text, word) == None
  {
    if text != "" && text[0] != '\0' {
      assert text[0] in text;
      assert forall c :: c in text[1..] ==> c in text;
      NeverClosed(text[1..], word + [text[0]]);
    }
  }

  // ----- One piece, cut -----

  // What can come of it: nothing; the clean-up behind what was read before, its first word
  // perhaps begun by the piece or by the word in front; or the same behind the piece's token.
  ghost predicate CutAt(r: Option<seq<Token>>, word: Option<string>, token: Token, temp: string) {
    || r == None
    || r == Some(Tail(Started(word), temp))
    || (exists g :: r == Some(Finished(word) + Tail(g, temp)))
    || r == Some((Finished(word) + [token]) + Tail("", temp))
  }

  lemma BlankCut(g: string, word: Option<string>, rest: string, temp: string)
    requires '\0' !in temp && Tokens(rest, None) == Some(Tail(g, temp))
    ensures Tokens(" " + rest, word) == Some(Finished(word) + Tail(g, temp))
  {
    BlankReads(rest, word);
  }

  lemma WordCut(text: string, i: nat, temp: string)
    requires IsBare(text) && i <= |text| && '\0' !in temp
    ensures Tokens(text[..i] + CleanupCommand(temp), None) == Some(Tail(text[..i], temp))
  {
    var clean := CleanupCommand(temp);
    if i == 0 {
      assert text[..i] + clean == clean;
      CleanupGlued(None, temp);
    } else {
      assert forall c :: c in text[..i] ==> c in text;
      FirstReads(text[..i], clean);
      CleanupGlued(Some(text[..i]), temp);
    }
  }

  lemma QuoteCut(value: string, i: nat, rest: string)
    requires 0 < i <= |value| + 1
    ensures ("'" + value + "'")[..i] + rest == "'" + (value[..i - 1] + rest)
  {
    assert ("'" + value + "'")[..i] == "'" + value[..i - 1];
  }

  lemma {:induction false} InsideCut(value: string, k: nat, temp: string)
    requires '\0' !in value && QuoteFree(value) && k <= |value| && Plain(temp)
    ensures Tokens("'" + (value[..k] + CleanupCommand(temp)), None) == None
  {
    var rest := value[..k] + CleanupCommand(temp);
    assert ("'" + rest)[1..] == rest;
    assert forall c :: c in value[..k] ==> c in value;
    OpenQuote(value[..k], temp, "");
  }

  lemma {:induction false} ValueCut(value: string, i: nat, temp: string)
    requires '\0' !in value && QuoteFree(value) && i <= |ShellQuote(value)| && Plain(temp)
    ensures var r := Tokens(ShellQuote(value)[..i] + CleanupCommand(temp), None);
            r == None || r == Some(Tail("", temp)) || r == Some(Tail(value, temp))
  {
    var clean, q := CleanupCommand(temp), ShellQuote(value);
    QuoteFreeBody(value);
    if i == 0 {
      assert q[..i] + clean == clean;
      CleanupGlued(None, temp);
    } else if i == |q| {
      assert q[..i] == q;
      QuoteIsOneWord(value, clean, None);
      assert "" + value == value;
      CleanupGlued(Some(value), temp);
    } else {
      InsideCut(value, i - 1, temp);
      QuoteCut(value, i, clean);
    }
  }

  lemma {:induction false} NotClosing(text: string)
    requires '"' !in text
    ensures Closing(text) == None
  {
    if text != "" {
      assert text[0] in text;
      assert forall c :: c in text[1..] ==> c in text;
      NotClosing(text[1..]);
    }
  }

  lemma CleanupPlain(temp: string)
    requires Plain(temp)
    ensures '"' !in CleanupCommand(temp) && !Delimited(CleanupCommand(temp)) && CleanupCommand(temp)[0] == 'r'
  {
    QuoteFreeBody(temp);
    forall c | c in CleanupCommand(temp) ensures c != '"' {
      assert c in "rm -f -- " || c in "'" || c in temp || c in "; stty echo";
    }
    assert CleanupCommand(temp)[0] == "rm -f -- "[0];
  }

  lemma ParamTexts(text: string, clean: string)
    ensures ("\"" + text + "\"")[..0] + clean == clean
    ensures ("\"" + text + "\"")[..|text| + 2] + clean == "\"" + (text + ("\"" + clean))
  {
  }

  lemma ParamText(text: string, i: nat, clean: string)
    requires 0 < i < |text| + 2
    ensures ("\"" + text + "\"")[..i] + clean == "\"" + (text[..i - 1] + clean)
  {
  }

  lemma ParamCut(text: string, i: nat, temp: string)
    requires IsParam(text) && i <= |text| + 2 && Plain(temp)
    ensures var r := Tokens(("\"" + text + "\"")[..i] + CleanupCommand(temp), None);
            r == None || r == Some(Tail("", temp))
  {
    ParamTexts(text, CleanupCommand(temp));
    if i == 0 {
      CleanupGlued(None, temp);
    } else if i == |text| + 2 {
      ParamWhole(text, temp);
    } else {
      ParamText(text, i, CleanupCommand(temp));
      assert '"' !in text && forall c :: c in text[..i - 1] ==> c in text;
      ParamInside(text[..i - 1], temp);
    }
  }

  lemma {:induction false} ParamWhole(text: string, temp: string)
    requires IsParam(text) && Plain(temp)
    ensures Tokens("\"" + (text + ("\"" + CleanupCommand(temp))), None) == None
  {
    var inner := text + ("\"" + CleanupCommand(temp));
    CleanupPlain(temp);
    DoubledHead(inner);
    ClosingAt(text, CleanupCommand(temp));
    assert inner[|text| + 1..] == CleanupCommand(temp);
  }

  lemma {:induction false} ParamInside(part: string, temp: string)
    requires '"' !in part && Plain(temp)
    ensures Tokens("\"" + (part + CleanupCommand(temp)), None) == None
  {
    var inner := part + CleanupCommand(temp);
    CleanupPlain(temp);
    DoubledHead(inner);
    assert forall c :: c in inner ==> c in part || c in CleanupCommand(temp);
    NotClosing(inner);
  }

  lemma {:induction false} DoubledHead(inner: string)
    ensures Tokens("\"" + inner, None) == Doubled(inner)
  {
    var text := "\"" + inner;
    assert text[0] == '"' && text[1..] == inner;
    assert !IsBlank('"') && !IsPlain('"');
    assert Operators(text, None) == Doubled(inner);
  }

  // The values in the pieces need no quotes inside their own.
  predicate Unquoted(p: Piece) {
    p.Value? ==> QuoteFree(p.value)
  }

  // The same behind a blank: nothing, or the clean-up with its first word begun.
  ghost predicate Begun(r: Option<seq<Token>>, temp: string) {
    r == None || exists g :: r == Some(Tail(g, temp))
  }

  lemma BegunBehind(rest: string, word: Option<string>, token: Token, temp: string)
    requires Begun(Tokens(rest, None), temp)
    ensures CutAt(Tokens(" " + rest, word), word, token, temp)
  {
    BlankReads(rest, word);
  }

  // A word, a value, a parameter or a bracket, of which the cut has left the blank and more.
  lemma BlankPieceCut(p: Piece, i: nat, temp: string)
    requires Readable(p) && Unquoted(p) && Plain(temp)
    requires p.Bare? || p.Value? || p.Param? || p.Bracket?
    requires i <= |Written(p)| - 1
    ensures Begun(Tokens(Written(p)[1..][..i] + CleanupCommand(temp), None), temp)
  {
    var inner := Written(p)[1..];
    match p
    case Bare(text) =>
      assert inner == text;
      WordCut(text, i, temp);
    case Value(value) =>
      assert inner == ShellQuote(value);
      ValueCut(value, i, temp);
    case Param(text) =>
      assert inner == "\"" + text + "\"";
      ParamCut(text, i, temp);
    case Bracket(c) =>
      assert inner == [c];
      BracketCut(c, i, temp);
  }

  // A bracket, a dollar sign, an ampersand or a parenthesis with a word run together behind it
  // is nothing that the reader knows.
  lemma {:induction false} OddHead(c: char, rest: string, word: Option<string>)
    requires c in {'[', ']', '$', '&', ')'} && rest != "" && rest[0] == 'r'
    ensures Tokens([c] + rest, word) == None
  {
    var text := [c] + rest;
    assert text[0] == c && text[1] == 'r' && text[1..] == rest;
    assert Redirections(text) == None;
    assert Operators(text, word) == None;
    assert !IsBlank(c) && !IsPlain(c);
  }

  lemma BracketCut(c: char, i: nat, temp: string)
    requires c in {'[', ']'} && i <= 1 && Plain(temp)
    ensures var r := Tokens([c][..i] + CleanupCommand(temp), None); r == None || r == Some(Tail("", temp))
  {
    var clean := CleanupCommand(temp);
    if i == 0 {
      assert [c][..i] + clean == clean;
      CleanupGlued(None, temp);
    } else {
      assert [c][..i] == [c];
      CleanupPlain(temp);
      OddHead(c, clean, None);
    }
  }

  lemma OpenText(name: string, i: nat, clean: string)
    requires i <= |name| + 2
    ensures i <= |name| ==> (name + "$(")[..i] == name[..i]
    ensures i == |name| + 1 ==> (name + "$(")[..i] + clean == name + ("$" + clean)
    ensures i == |name| + 2 ==> " " + ((name + "$(")[..i] + clean) == " " + name + "$(" + clean
  {
  }

  lemma OpenCut(name: string, i: nat, word: Option<string>, temp: string)
    requires IsBare(name) && i <= |name| + 2 && Plain(temp)
    ensures CutAt(Tokens(" " + ((name + "$(")[..i] + CleanupCommand(temp)), word), word, Capture(name), temp)
  {
    OpenText(name, i, CleanupCommand(temp));
    if i <= |name| {
      WordCut(name, i, temp);
      BlankCut(name[..i], word, name[..i] + CleanupCommand(temp), temp);
    } else if i == |name| + 1 {
      DollarCut(name, word, temp);
    } else {
      OpenedCut(name, word, temp);
    }
  }

  lemma {:induction false} DollarCut(name: string, word: Option<string>, temp: string)
    requires IsBare(name) && Plain(temp)
    ensures Tokens(" " + (name + ("$" + CleanupCommand(temp))), word) == None
  {
    var clean := CleanupCommand(temp);
    CleanupPlain(temp);
    BlankReads(name + ("$" + clean), word);
    FirstReads(name, "$" + clean);
    OddHead('$', clean, Some(name));
  }

  lemma {:induction false} OpenedCut(name: string, word: Option<string>, temp: string)
    requires IsBare(name) && Plain(temp)
    ensures Tokens(" " + name + "$(" + CleanupCommand(temp), word)
         == Some((Finished(word) + [Capture(name)]) + Tail("", temp))
  {
    OpenReads(name, CleanupCommand(temp), word);
    CleanupGlued(None, temp);
    PrependTwice(Finished(word), [Capture(name)], Some(Tail("", temp)));
  }

  lemma AlsoTexts(clean: string)
    ensures "&&"[..0] + clean == clean && "&&"[..1] + clean == "&" + clean
    ensures " " + ("&&"[..2] + clean) == " &&" + clean
  {
  }

  lemma AlsoCut(i: nat, word: Option<string>, temp: string)
    requires i <= 2 && Plain(temp)
    ensures CutAt(Tokens(" " + ("&&"[..i] + CleanupCommand(temp)), word), word, AndIf, temp)
  {
    AlsoTexts(CleanupCommand(temp));
    if i == 0 {
      BareCleanup(word, AndIf, temp);
    } else if i == 1 {
      HalfAlsoCut(word, temp);
    } else {
      WholeAlsoCut(word, temp);
    }
  }

  // Nothing is left of the piece but its blank.
  lemma BareCleanup(word: Option<string>, token: Token, temp: string)
    requires Plain(temp)
    ensures CutAt(Tokens(" " + CleanupCommand(temp), word), word, token, temp)
  {
    CleanupGlued(None, temp);
    BlankCut("", word, CleanupCommand(temp), temp);
  }

  lemma HalfAlsoCut(word: Option<string>, temp: string)
    requires Plain(temp)
    ensures Tokens(" " + ("&" + CleanupCommand(temp)), word) == None
  {
    CleanupPlain(temp);
    OddHead('&', CleanupCommand(temp), None);
    BlankReads("&" + CleanupCommand(temp), word);
  }

  lemma WholeAlsoCut(word: Option<string>, temp: string)
    requires Plain(temp)
    ensures Tokens(" &&" + CleanupCommand(temp), word) == Some((Finished(word) + [AndIf]) + Tail("", temp))
  {
    MarkReads(Also, CleanupCommand(temp), word);
    CleanupGlued(None, temp);
    PrependTwice(Finished(word), [AndIf], Some(Tail("", temp)));
  }

  lemma MarkCut(p: Piece, word: Option<string>, temp: string)
    requires (p.End? || p.Shut?) && Plain(temp)
    ensures CutAt(Tokens(Written(p) + CleanupCommand(temp), word), word, Read(p), temp)
  {
    if p.End? {
      MarkReads(p, CleanupCommand(temp), word);
      CleanupGlued(None, temp);
    } else {
      CleanupPlain(temp);
      OddHead(')', CleanupCommand(temp), word);
    }
  }

  lemma BlankSplit(w: string, k: nat, rest: string)
    requires 1 <= k <= |w| && w[0] == ' '
    ensures w[..k] + rest == " " + (w[1..][..k - 1] + rest)
  {
    assert w[..k] == " " + w[1..][..k - 1];
  }

  // Any piece, cut anywhere.
  lemma {:induction false} PieceCut(p: Piece, k: nat, word: Option<string>, temp: string)
    requires Readable(p) && Unquoted(p) && Plain(temp) && (p.Glued? ==> word.None?) && k <= |Written(p)|
    ensures CutAt(Tokens(Written(p)[..k] + CleanupCommand(temp), word), word, Read(p), temp)
  {
    var clean, w := CleanupCommand(temp), Written(p);
    if k == 0 {
      assert w[..k] + clean == clean;
      CleanupGlued(word, temp);
    } else if p.End? || p.Shut? {
      assert w[..k] == w;
      MarkCut(p, word, temp);
    } else if p.Glued? {
      WordCut(p.text, k, temp);
      assert [] + Tail(p.text[..k], temp) == Tail(p.text[..k], temp);
    } else {
      BlankSplit(w, k, clean);
      if p.Open? {
        assert w[1..] == p.name + "$(";
        OpenCut(p.name, k - 1, word, temp);
      } else if p.Also? {
        assert w[1..] == "&&";
        AlsoCut(k - 1, word, temp);
      } else {
        BlankPieceCut(p, k - 1, temp);
        BegunBehind(w[1..][..k - 1] + clean, word, Read(p), temp);
      }
    }
  }

  // ----- A line, cut -----

  // Some of the tokens, and the clean-up behind them.
  predicate Cut(ts: seq<Token>, all: seq<Token>, j: nat, g: string, temp: string) {
    j <= |all| && ts == all[..j] + Tail(g, temp)
  }

  ghost predicate IsCut(r: Option<seq<Token>>, all: seq<Token>, temp: string) {
    r.Some? ==> exists j: nat, g: string :: Cut(r.value, all, j, g, temp)
  }

  predicate AllUnquoted(pieces: seq<Piece>) {
    forall p :: p in pieces ==> Unquoted(p)
  }

  lemma CutHere(r: Option<seq<Token>>, word: Option<string>, token: Token, more: seq<Token>, temp: string)
    requires CutAt(r, word, token, temp)
    ensures IsCut(r, Finished(word) + ([token] + more), temp)
  {
    var front, all := Finished(word), Finished(word) + ([token] + more);
    if r.Some? {
      if r == Some(Tail(Started(word), temp)) {
        assert all[..0] + Tail(Started(word), temp) == Tail(Started(word), temp);
        assert Cut(r.value, all, 0, Started(word), temp);
      } else if g :| r == Some(front + Tail(g, temp)) {
        assert all[..|front|] == front;
        assert Cut(r.value, all, |front|, g, temp);
      } else {
        assert all[..|front| + 1] == front + [token];
        assert Cut(r.value, all, |front| + 1, "", temp);
      }
    }
  }

  // What is in front of a cut stays in front.
  lemma CutBehind(front: seq<Token>, r: Option<seq<Token>>, all: seq<Token>, temp: string)
    requires IsCut(r, all, temp)
    ensures IsCut(Prepend(front, r), front + all, temp)
  {
    if r.Some? {
      var j: nat, g :| Cut(r.value, all, j, g, temp);
      assert (front + all)[..|front| + j] == front + all[..j];
      Assoc(front, all[..j], Tail(g, temp));
      assert Cut(front + r.value, front + all, |front| + j, g, temp);
    }
  }

  lemma CutBeyond(front: string, more: string, n: nat, rest: string)
    requires |front| <= n <= |front + more|
    ensures (front + more)[..n] + rest == front + (more[..n - |front|] + rest)
  {
    assert (front + more)[..n] == front + more[..n - |front|];
    Assoc(front, more[..n - |front|], rest);
  }

  // The line is cut behind its first piece.
  lemma {:induction false} CutLater(p: Piece, more: seq<Piece>, k: nat, word: Option<string>, temp: string)
    requires Fitting([p] + more, p.Glued?) && (p.Glued? ==> word.None?) && 0 < k <= |WrittenAll(more)|
    requires var w := if IsWord(p) then Some(Read(p).text) else None;
             var part := Tokens(WrittenAll(more)[..k] + CleanupCommand(temp), w);
             IsCut(part, Finished(w) + ReadAll(more), temp)
    ensures IsCut(Tokens(Written(p) + (WrittenAll(more)[..k] + CleanupCommand(temp)), word),
                  Finished(word) + ([Read(p)] + ReadAll(more)), temp)
  {
    var rest := WrittenAll(more)[..k] + CleanupCommand(temp);
    assert ([p] + more)[1..] == more;
    if !p.Open? {
      FittingDelimits(more);
      assert rest[0] == WrittenAll(more)[0];
    }
    PieceReads(p, rest, word);
    if IsWord(p) {
      CutBehind(Finished(word), Tokens(rest, Some(Read(p).text)), [Read(p)] + ReadAll(more), temp);
    } else {
      assert [] + ReadAll(more) == ReadAll(more);
      CutBehind(Finished(word) + [Read(p)], Tokens(rest, None), ReadAll(more), temp);
      Assoc(Finished(word), [Read(p)], ReadAll(more));
    }
  }

  // A line of fitting pieces, cut anywhere, with the clean-up behind it: as far as it can be
  // read, some of its tokens with those of the clean-up behind them.
  lemma {:induction false} LineCut(pieces: seq<Piece>, n: nat, word: Option<string>, open: bool, temp: string)
    requires Fitting(pieces, open) && (open ==> word.None?) && AllUnquoted(pieces) && Plain(temp)
    requires n <= |WrittenAll(pieces)|
    ensures IsCut(Tokens(WrittenAll(pieces)[..n] + CleanupCommand(temp), word), Finished(word) + ReadAll(pieces), temp)
    decreases |pieces|
  {
    var clean := CleanupCommand(temp);
    if pieces == [] {
      assert WrittenAll(pieces)[..n] + clean == clean;
      CleanupGlued(word, temp);
      var r := Tail(Started(word), temp);
      assert (Finished(word) + ReadAll(pieces))[..0] + r == r;
      assert Cut(r, Finished(word) + ReadAll(pieces), 0, Started(word), temp);
    } else {
      var p, more := pieces[0], pieces[1..];
      assert p in pieces && [p] + more == pieces;
      if n <= |Written(p)| {
        assert (Written(p) + WrittenAll(more))[..n] == Written(p)[..n];
        PieceCut(p, n, word, temp);
        CutHere(Tokens(Written(p)[..n] + clean, word), word, Read(p), ReadAll(more), temp);
      } else {
        var k := n - |Written(p)|;
        assert forall q :: q in more ==> q in pieces;
        LineCut(more, k, if IsWord(p) then Some(Read(p).text) else None, p.Open?, temp);
        CutLater(p, more, k, word, temp);
        CutBeyond(Written(p), WrittenAll(more), n, clean);
      }
    }
  }
}
