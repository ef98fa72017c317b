/** The here-document that carries an upload: section 2.7.4 of the POSIX.1-2017 Shell
    Command Language, with the delimiter quoted, so that the body is taken literally. */
module HereDocument {
  import opened Base64
  import opened Bytes
  import opened LineWriter
  import opened Options
  import opened Seqs
  import opened Text

  datatype Document = Open | Closed(body: string, rest: string)

  // The terminal turns the carriage return that ends a sent line into a newline.  Lines
  // belong to the body until one of them is the delimiter; without one the document stays
  // open and the shell goes on waiting.
  function ReadDocument(input: string, delimiter: string): Document
    decreases |input|
  {
    match LineEndFrom(input, 0)
    case None => Open
    case Some(end) =>
      if input[..end] == delimiter then Closed("", input[end + 1..])
      else match ReadDocument(input[end + 1..], delimiter)
        case Open => Open
        case Closed(body, rest) => Closed(input[..end] + "\n" + body, rest)
  }

  lemma {:induction false} OneLine(line: string, more: string, delimiter: string)
    requires NoLineEnd(line)
    ensures ReadDocument(line + ("\r" + more), delimiter)
            == if line == delimiter then Closed("", more)
               else match ReadDocument(more, delimiter)
                 case Open => Open
                 case Closed(body, rest) => Closed(line + "\n" + body, rest)
  {
    var input := line + ("\r" + more);
    assert input[|line|] == '\r' && forall i :: 0 <= i < |line| ==> input[i] == line[i];
    assert LineEndFrom(input, 0) == Some(|line|);
    assert input[..|line|] == line && input[|line| + 1..] == more;
  }

  // The text without its line ends, which is what base64 -d looks at.
  function Strip(s: string): string {
    if s == "" then "" else (if IsLineEnd(s[0]) then "" else [s[0]]) + Strip(s[1..])
  }

  lemma {:induction false} StripLine(line: string, more: string)
    requires NoLineEnd(line)
    ensures Strip(line + "\n" + more) == line + Strip(more)
  {
    if line == "" {
      assert (line + "\n" + more)[1..] == more;
      assert "" + Strip(more) == Strip(more);
    } else {
      assert line[0] in line;
      assert (line + "\n" + more)[1..] == line[1..] + "\n" + more;
      StripLine(line[1..], more);
      Assoc([line[0]], line[1..], Strip(more));
      assert [line[0]] + line[1..] == line;
    }
  }

  // A text whose lines cannot be mistaken for the delimiter fills the document, which ends
  // exactly at the delimiter line, and reads back whole.
  lemma {:induction false} LinesRead(text: string, delimiter: string, after: string)
    requires NoLineEnd(text) && NoLineEnd(delimiter)
    requires exists c :: c in delimiter && c !in text
    ensures var d := ReadDocument(Lines(text) + (delimiter + ("\r" + after)), delimiter);
            d.Closed? && d.rest == after && Strip(d.body) == text
  {
    var c :| c in delimiter && c !in text;
    var ending := delimiter + ("\r" + after);
    OneLine(delimiter, after, delimiter);
    if text == "" {
      assert Lines(text) + ending == ending;
    } else if |text| < WIDTH {
      ShortLineReads(text, delimiter, ending);
    } else {
      var line, more := text[..WIDTH], text[WIDTH..];
      assert text == line + more;
      LinesRead(more, delimiter, after);
      LongLineReads(text, line, more, delimiter, ending);
    }
  }

  lemma ShortLineIs(text: string)
    requires 0 < |text| < WIDTH
    ensures Lines(text) == text + "\r"
  {
    assert "" + (text + "\r") == text + "\r";
  }

  // A short line is the last one.
  lemma {:induction false} ShortLineReads(text: string, delimiter: string, ending: string)
    requires 0 < |text| < WIDTH && NoLineEnd(text) && text != delimiter
    requires var d := ReadDocument(ending, delimiter); d.Closed? && d.body == ""
    ensures var d := ReadDocument(Lines(text) + ending, delimiter);
            d.Closed? && d.rest == ReadDocument(ending, delimiter).rest && Strip(d.body) == text
  {
    ShortLineIs(text);
    Assoc(text, "\r", ending);
    OneLine(text, ending, delimiter);
    StripLine(text, "");
    assert text + "" == text;
  }

  // A full first line is added in front of what the rest reads as.
  lemma {:induction false} LongLineReads(text: string, line: string, more: string, delimiter: string, ending: string)
    requires |line| == WIDTH && text == line + more && NoLineEnd(line) && line != delimiter
    requires var d := ReadDocument(Lines(more) + ending, delimiter); d.Closed? && Strip(d.body) == more
    ensures var d := ReadDocument(Lines(text) + ending, delimiter);
            d.Closed? && d.rest == ReadDocument(Lines(more) + ending, delimiter).rest && Strip(d.body) == text
  {
    assert text[..WIDTH] == line && text[WIDTH..] == more;
    LinesStep(text);
    Assoc(line, "\r" + Lines(more), ending);
    Assoc("\r", Lines(more), ending);
    OneLine(line, Lines(more) + ending, delimiter);
    StripLine(line, ReadDocument(Lines(more) + ending, delimiter).body);
  }

  lemma LinesStep(text: string)
    requires |text| >= WIDTH
    ensures Lines(text) == text[..WIDTH] + ("\r" + Lines(text[WIDTH..]))
  {
    var more := text[WIDTH..];
    var last := if Remainder(more) == "" then "" else Remainder(more) + "\r";
    Assoc(text[..WIDTH], "\r", FullLines(more));
    Assoc(text[..WIDTH], "\r" + FullLines(more), last);
    Assoc("\r", FullLines(more), last);
  }

  // Until the delimiter arrives the document stays open.
  lemma {:induction false} LinesStayOpen(text: string, delimiter: string)
    requires NoLineEnd(text) && exists c :: c in delimiter && c !in text
    ensures ReadDocument(Lines(text), delimiter) == Open
  {
    var c :| c in delimiter && c !in text;
    if text == "" {
      assert Lines(text) == "";
    } else if |text| < WIDTH {
      assert Lines(text) == text + ("\r" + "");
      OneLine(text, "", delimiter);
    } else {
      var line, more := text[..WIDTH], text[WIDTH..];
      assert text == line + more;
      LinesStayOpen(more, delimiter);
      LinesStep(text);
      OneLine(line, Lines(more), delimiter);
    }
  }

  // Whole lines without some character of the delimiter, whatever else is in them.
  ghost predicate OtherLines(text: string, delimiter: string) {
    EndsLine(text) && exists c :: c in delimiter && c !in text
  }

  // The first line of the input, and what the rest reads as.
  lemma {:induction false} ReadsOn(input: string, delimiter: string, end: nat)
    requires LineEndFrom(input, 0) == Some(end)
    ensures input[..end] == delimiter ==> ReadDocument(input, delimiter).Closed?
    ensures input[..end] != delimiter ==>
              var later := ReadDocument(input[end + 1..], delimiter);
              && (ReadDocument(input, delimiter).Open? <==> later.Open?)
              && (later.Closed? ==> ReadDocument(input, delimiter).rest == later.rest)
  {
  }

  lemma {:induction false} FirstOther(text: string, delimiter: string, more: string)
    requires OtherLines(text, delimiter) && text != ""
    ensures var end := LineEndFrom(text, 0).value;
            && LineEndFrom(text, 0).Some? && LineEndFrom(text + more, 0) == Some(end)
            && text[..end] != delimiter && (text + more)[..end] == text[..end]
            && (text + more)[end + 1..] == text[end + 1..] + more && OtherLines(text[end + 1..], delimiter)
  {
    var c :| c in delimiter && c !in text;
    LineEndStable(text, more);
    var end := LineEndFrom(text, 0).value;
    assert c !in text[..end] && c !in text[end + 1..];
    DropAppend(text, more, end + 1);
    TakeAppend(text, more, end);
  }

  // They keep the document open, and the delimiter behind them ends it.
  lemma {:induction false} OtherLinesRead(text: string, delimiter: string)
    requires OtherLines(text, delimiter) && NoLineEnd(delimiter)
    ensures ReadDocument(text, delimiter) == Open
    ensures var d := ReadDocument(text + (delimiter + "\r"), delimiter); d.Closed? && d.rest == ""
    decreases |text|
  {
    var ending := delimiter + "\r";
    if text == "" {
      assert text + ending == delimiter + ("\r" + "");
      OneLine(delimiter, "", delimiter);
    } else {
      var end := LineEndFrom(text, 0).value;
      FirstOther(text, delimiter, ending);
      ReadsOn(text, delimiter, end);
      ReadsOn(text + ending, delimiter, end);
      OtherLinesRead(text[end + 1..], delimiter);
    }
  }

  // The lines of a payload are such lines.
  lemma {:induction false} LinesAreOther(text: string, delimiter: string)
    requires exists c :: c in delimiter && c !in text && c != '\r'
    ensures OtherLines(Lines(text), delimiter)
  {
    var c :| c in delimiter && c !in text && c != '\r';
    LinesEnd(text);
    LinesHold(text, c);
    assert c in delimiter && c !in Lines(text);
  }

  lemma {:induction false} LinesEnd(text: string)
    ensures EndsLine(Lines(text))
  {
    if |text| >= WIDTH {
      LinesStep(text);
      LinesEnd(text[WIDTH..]);
      var more := Lines(text[WIDTH..]);
      assert more == "" ==> text[..WIDTH] + ("\r" + more) == text[..WIDTH] + "\r";
    }
  }

  lemma {:induction false} LinesHold(text: string, c: char)
    requires c !in text && c != '\r'
    ensures c !in Lines(text)
  {
    if |text| >= WIDTH {
      LinesStep(text);
      assert c !in text[..WIDTH] && c !in text[WIDTH..];
      LinesHold(text[WIDTH..], c);
    }
  }

  // Whole lines that keep the document open do not matter to what follows them.
  lemma {:induction false} OpenThen(text: string, more: string, delimiter: string)
    requires EndsLine(text) && ReadDocument(text, delimiter).Open?
    ensures ReadDocument(text + more, delimiter).Open? <==> ReadDocument(more, delimiter).Open?
    decreases |text|
  {
    if text == "" {
      assert text + more == more;
    } else {
      EndsSomewhere(text);
      var end := LineEndFrom(text, 0).value;
      OpenLine(text, more, delimiter, end, text[end + 1..]);
      OpenThen(text[end + 1..], more, delimiter);
    }
  }

  // The same for the first line alone.
  lemma OpenLine(text: string, more: string, delimiter: string, end: nat, later: string)
    requires LineEndFrom(text, 0) == Some(end) && later == text[end + 1..] && ReadDocument(text, delimiter).Open?
    ensures ReadDocument(later, delimiter).Open?
    ensures ReadDocument(text + more, delimiter).Open? <==> ReadDocument(later + more, delimiter).Open?
  {
    ReadsOn(text, delimiter, end);
    LineEndStable(text, more);
    ReadsOn(text + more, delimiter, end);
    DropAppend(text, more, end + 1);
    TakeAppend(text, more, end);
  }

  lemma EndsSomewhere(text: string)
    requires EndsLine(text) && text != ""
    ensures LineEndFrom(text, 0).Some? && EndsLine(text[LineEndFrom(text, 0).value + 1..])
  {
    assert IsLineEnd(text[|text| - 1]);
  }

  // Text without some character of the delimiter keeps the document open, even if its last line
  // is not complete.
  lemma {:induction false} OtherTextStaysOpen(text: string, delimiter: string, c: char)
    requires c in delimiter && c !in text
    ensures ReadDocument(text, delimiter) == Open
    decreases |text|
  {
    if LineEndFrom(text, 0).Some? {
      var end := LineEndFrom(text, 0).value;
      assert c !in text[..end] && c !in text[end + 1..];
      OtherTextStaysOpen(text[end + 1..], delimiter, c);
    }
  }

  // The upload's delimiter.
  function Delimiter(token: string): string {
    "__DRONEOS_UPLOAD_DATA_" + token + "__"
  }

  lemma {:induction false} EncodedHasNoLineEnds(source: seq<byte>)
    ensures NoLineEnd(Encode(source)) && '_' !in Encode(source)
  {
    EncodeAlphabet(source);
    assert !InAlphabet('_') && !InAlphabet('\r') && !InAlphabet('\n');
  }

  lemma DelimiterIsALine(token: string)
    requires NoLineEnd(token)
    ensures NoLineEnd(Delimiter(token)) && Delimiter(token)[0] == '_'
  {
    forall c | c in Delimiter(token) ensures !IsLineEnd(c) {
      assert c in "__DRONEOS_UPLOAD_DATA_" || c in token || c in "__";
    }
  }

  // What the remote shell makes of the payload: whatever the source and the token, the
  // document ends at its delimiter and nowhere before, and decodes to the source.
  lemma {:induction false} PayloadSurvives(source: seq<byte>, token: string, after: string)
    requires NoLineEnd(token)
    ensures ReadDocument(Lines(Encode(source)), Delimiter(token)) == Open
    ensures var d := ReadDocument(Lines(Encode(source)) + (Delimiter(token) + ("\r" + after)), Delimiter(token));
            d.Closed? && d.rest == after && Decode(Strip(d.body)) == Some(source)
  {
    EncodedHasNoLineEnds(source);
    DelimiterIsALine(token);
    LinesStayOpen(Encode(source), Delimiter(token));
    LinesRead(Encode(source), Delimiter(token), after);
    DecodeEncode(source);
  }

  // ----- The code -----

  // Sends the text of a source through the line writer in the given pieces, as the
  // encoder produces them, and closes the last line.
  method StreamBase64Upload(source: seq<byte>, pieces: seq<string>, lines: Base64LineWriter) returns (ok: bool)
    requires lines.Valid() && !lines.broken && lines.text == ""
    requires Join(pieces) == Encode(source)
    modifies lines, lines.line, lines.destination
    ensures lines.Valid()
    ensures old(lines.destination.Healthy()) ==> ok
    // Exactly when it succeeds: no write fails, or takes nothing.
    ensures ok <==> lines.destination.faults == old(lines.destination.faults)
    ensures ok ==> lines.destination.written == old(lines.destination.written) + Lines(Encode(source))
  {
    ok := true;
    var i := 0;
    assert pieces[..0] == [];
    while i < |pieces| && ok
      invariant i <= |pieces| && lines.Valid() && lines.broken == !ok
      invariant lines.before == old(lines.before)
      invariant old(lines.destination.Healthy()) ==> ok && lines.destination.Healthy()
      invariant ok ==> lines.text == Join(pieces[..i])
      invariant lines.destination.faults == old(lines.destination.faults) + if ok then 0 else 1
    {
      var consumed;
      consumed, ok := lines.Write(pieces[i]);
      assert pieces[..i + 1] == pieces[..i] + [pieces[i]];
      JoinAppend(pieces[..i], [pieces[i]]);
      assert Join([pieces[i]]) == pieces[i] + Join([]) == pieces[i];
      i := i + 1;
    }
    assert ok ==> pieces[..i] == pieces;
    var closed := lines.Close();
    ok := ok && closed;
    assert old(lines.before) + "" == old(lines.before);
  }
}
