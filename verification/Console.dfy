/** What the terminal shows while commands run, and what the client reads from it: from the
    echo of a line and the output of printf to the markers and the status that count. */
module Console {
  import opened Bytes
  import opened EchoImmunity
  import opened Options
  import opened RemoteShell
  import opened Seqs
  import opened Text
  import SerialRunner
  import ShellWords
  import Upload

  // ----- A needle that cannot reach from one part of a text into the next -----

  // Some character of b is not in the needle, and the last one of the needle is not in front
  // of it.
  predicate Fences(b: string, k: nat, needle: string) {
    && needle != [] && k < |b| && b[k] !in needle
    && needle[|needle| - 1] !in b[..k]
  }

  lemma LacksJoined(a: string, b: string, k: nat, needle: string)
    requires Fences(b, k, needle) && !Contains(a, needle) && !Contains(b, needle)
    ensures !Contains(a + b, needle)
  {
    forall i: nat ensures !At(a + b, i, needle) {
      if i + |needle| <= |a| {
        AtStable(a, b, i, needle);
      } else if i >= |a| {
        AtBehind(a, b, i - |a|, needle);
      } else {
        NotAtJoin(a, b, k, i, needle);
      }
    }
  }

  lemma AtBehind(a: string, b: string, i: nat, needle: string)
    ensures At(a + b, |a| + i, needle) <==> At(b, i, needle)
  {
    if i + |needle| <= |b| {
      assert (a + b)[|a| + i..|a| + i + |needle|] == b[i..i + |needle|];
    }
  }

  // The needle would begin in a and end in b.
  lemma NotAtJoin(a: string, b: string, k: nat, i: nat, needle: string)
    requires Fences(b, k, needle) && i < |a| < i + |needle|
    ensures !At(a + b, i, needle)
  {
    var last := i + |needle| - 1;
    if last < |a| + |b| {
      if last - |a| < k {
        assert b[..k][last - |a|] == (a + b)[last];
        NotAt(a + b, i, needle, |needle| - 1);
      } else {
        assert needle[|a| + k - i] in needle;
        NotAt(a + b, i, needle, |a| + k - i);
      }
    }
  }

  lemma ContainsMore(a: string, b: string, c: string, needle: string)
    requires Contains(b, needle)
    ensures Contains(a + b + c, needle)
  {
    var i: nat :| At(b, i, needle);
    AtBehind(a, b, i, needle);
    AtStable(a + b, c, |a| + i, needle);
  }

  // A text that ends with a line end keeps a needle without one from what follows.
  lemma LacksThen(a: string, b: string, needle: string)
    requires EndsLine(a) && NoLineEnd(needle) && needle != [] && !Contains(a, needle) && !Contains(b, needle)
    ensures !Contains(a + b, needle)
  {
    forall i: nat ensures !At(a + b, i, needle) {
      if i + |needle| < |a| {
        AtStable(a, b, i, needle);
      } else if i >= |a| {
        AtBehind(a, b, i - |a|, needle);
      } else {
        NotAcross(a, b, i, needle);
      }
    }
  }

  // ----- The answer to the set-up line -----

  // The line and its end as the terminal echoes them.
  function Echoed(line: string, echo: bool): string {
    if echo then line + "\r\n" else ""
  }

  // What is shown from before the set-up line to after it: some text, the echo, what the
  // line prints, some more text.
  function SetUpShown(before: string, p: string, token: string, m: Machine, works: Works, hash: seq<byte> -> string,
                      after: string): string
  {
    before + Echoed(Setup(p, token), m.echo) + Exec(SetUp(p, token), m.(printed := ""), works, hash).0.printed + after
  }

  // The text around holds neither marker.
  ghost predicate Free(text: string, p: string, token: string) {
    !Contains(text, Ready(p, token)) && !Contains(text, Failed(p, token))
  }

  lemma EchoFences(p: string, token: string, needle: string)
    requires QuoteFree(needle) && needle != [] && needle[|needle| - 1] == '_'
    ensures Fences(Setup(p, token), |"if stty -echo; then printf "|, needle)
  {
    var front := "if stty -echo; then printf ";
    var text := Setup(p, token);
    assert text[..|front|] == front && '_' !in front;
    assert text[|front|] == '\'';
  }

  // The echo adds nothing to what can be mistaken.
  lemma EchoAddsNothing(before: string, p: string, token: string, echo: bool, needle: string)
    requires QuoteFree(needle) && NoLineEnd(needle) && needle != [] && needle[|needle| - 1] == '_'
    requires !Contains(before, needle) && !Contains(Setup(p, token), needle)
    ensures !Contains(before + Echoed(Setup(p, token), echo), needle)
  {
    if echo {
      EchoFences(p, token, needle);
      LacksJoined(before, Setup(p, token), |"if stty -echo; then printf "|, needle);
      LacksShortEnd(before + Setup(p, token), needle);
      Assoc(before, Setup(p, token), "\r\n");
    } else {
      assert before + "" == before;
    }
  }

  lemma LacksShortEnd(a: string, needle: string)
    requires NoLineEnd(needle) && needle != [] && !Contains(a, needle)
    ensures !Contains(a + "\r\n", needle)
  {
    assert needle[0] in needle;
    assert "\r\n"[0] == '\r';
    LacksFirst("\r\n", needle);
    LacksJoined(a, "\r\n", 0, needle);
  }

  lemma MarkersPlain(p: string, token: string)
    requires MarkerPrefix(p) && NoLineEnd(p) && QuoteFree(token) && NoLineEnd(token)
    ensures QuoteFree(Ready(p, token)) && NoLineEnd(Ready(p, token)) && QuoteFree(Failed(p, token))
        && NoLineEnd(Failed(p, token))
    ensures Ready(p, token) != [] && Ready(p, token)[|Ready(p, token)| - 1] == '_'
    ensures Failed(p, token) != [] && Failed(p, token)[|Failed(p, token)| - 1] == '_'
  {
    forall c | c in Ready(p, token) ensures c != '\'' && !IsLineEnd(c) {
      assert c in p || c in "READY_" || c in token || c in "__";
    }
    forall c | c in Failed(p, token) ensures c != '\'' && !IsLineEnd(c) {
      assert c in p || c in "FAILED_" || c in token || c in "__";
    }
  }

  // What is printed begins and ends with a line end, so nothing around it can complete a
  // marker, or hide one.
  lemma PrintedDecides(front: string, printed: string, after: string, needle: string)
    requires printed != "" && printed[0] == '\n' && printed[|printed| - 1] == '\n' && NoLineEnd(needle) && needle != []
    requires !Contains(front, needle) && !Contains(after, needle)
    ensures Contains(front + printed + after, needle) <==> Contains(printed, needle)
  {
    if Contains(printed, needle) {
      ContainsMore(front, printed, after, needle);
    } else {
      assert printed[..0] == [];
      LacksJoined(front, printed, 0, needle);
      assert (front + printed)[|front| + |printed| - 1] == '\n';
      LacksThen(front + printed, after, needle);
    }
  }

  // What the set-up line prints.
  lemma {:induction false} SetUpPrints(p: string, token: string, m: Machine, works: Works, hash: seq<byte> -> string)
    requires MarkerPrefix(p)
    ensures var printed := Exec(SetUp(p, token), m.(printed := ""), works, hash).0.printed;
            && printed != "" && printed[0] == '\n' && printed[|printed| - 1] == '\n'
            && (Contains(printed, Ready(p, token)) <==> works.echoOff)
            && (Contains(printed, Failed(p, token)) <==> !works.echoOff)
  {
    var yes, no, b := p + "READY_", p + "FAILED_", token + "__";
    SetUpSays(yes, no, b, m.(printed := ""), works, hash);
    assert forall line: string :: "" + line == line;
    PrintfJoins(if works.echoOff then yes else no, b);
    SetUpAnswers(p, token, m.(printed := ""), works, hash);
  }

  // The whole screen holds the ready marker exactly if echo could be turned off, and the
  // failed one exactly if it could not: neither the echo of the line nor anything around
  // it can be mistaken for an answer.
  lemma SetUpIsRead(before: string, p: string, token: string, m: Machine, works: Works,
                                       hash: seq<byte> -> string, after: string)
    requires MarkerPrefix(p) && NoLineEnd(p) && QuoteFree(token) && NoLineEnd(token)
    requires Free(before, p, token) && Free(after, p, token)
    ensures var shown := SetUpShown(before, p, token, m, works, hash, after);
            && (Contains(shown, Ready(p, token)) <==> works.echoOff)
            && (Contains(shown, Failed(p, token)) <==> !works.echoOff)
  {
    MarkersPlain(p, token);
    EchoImmune(p, token);
    EchoAddsNothing(before, p, token, m.echo, Ready(p, token));
    EchoAddsNothing(before, p, token, m.echo, Failed(p, token));
    SetUpPrints(p, token, m, works, hash);
    var front := before + Echoed(Setup(p, token), m.echo);
    var printed := Exec(SetUp(p, token), m.(printed := ""), works, hash).0.printed;
    PrintedDecides(front, printed, after, Ready(p, token));
    PrintedDecides(front, printed, after, Failed(p, token));
  }

  lemma PartLacks(shown: string, seen: string, n: nat, needle: string)
    requires seen <= shown && Contains(Last(seen, n), needle)
    ensures Contains(shown, needle)
  {
    var part := Last(seen, n);
    var cut := |seen| - |part|;
    var i: nat :| At(part, i, needle);
    assert part == seen[cut..];
    AtWithin(seen, cut, i, needle);
    AtStable(seen, shown[|seen|..], cut + i, needle);
    assert shown == seen + shown[|seen|..];
  }

  // So the client, whose buffer is part of what has been shown so far, decides right as soon
  // as it finds one of the two.
  lemma AnswerIsRight(seen: string, before: string, p: string, token: string, m: Machine, works: Works,
                                         hash: seq<byte> -> string, after: string)
    requires MarkerPrefix(p) && NoLineEnd(p) && QuoteFree(token) && NoLineEnd(token)
    requires Free(before, p, token) && Free(after, p, token)
    requires seen <= SetUpShown(before, p, token, m, works, hash, after)
    ensures var buffer := Last(seen, SerialRunner.MAX_BUFFER);
            Contains(buffer, Ready(p, token)) || Contains(buffer, Failed(p, token)) ==>
              (Contains(buffer, Failed(p, token)) <==> !works.echoOff)
  {
    var shown, buffer := SetUpShown(before, p, token, m, works, hash, after), Last(seen, SerialRunner.MAX_BUFFER);
    SetUpIsRead(before, p, token, m, works, hash, after);
    if Contains(buffer, Ready(p, token)) {
      PartLacks(shown, seen, SerialRunner.MAX_BUFFER, Ready(p, token));
    }
    if Contains(buffer, Failed(p, token)) {
      PartLacks(shown, seen, SerialRunner.MAX_BUFFER, Failed(p, token));
    }
  }

  // ----- The status -----

  // A marker that printf takes as it is.
  predicate Verbatim(marker: string) {
    forall c :: c in marker ==> c != '\\' && c != '%' && !IsLineEnd(c)
  }

  lemma {:induction false} PrintfVerbatim(text: string, rest: string, arguments: seq<string>)
    requires Verbatim(text)
    ensures Printf(text + rest, arguments) == text + Printf(rest, arguments)
  {
    if text == "" {
      assert text + rest == rest;
    } else {
      var all := text + rest;
      assert text[0] in text && all[0] == text[0];
      assert all[1..] == text[1..] + rest;
      assert forall c :: c in text[1..] ==> c in text;
      PrintfVerbatim(text[1..], rest, arguments);
      assert text == [text[0]] + text[1..];
      Assoc([text[0]], text[1..], Printf(rest, arguments));
    }
  }

  lemma PrintfEnd(argument: string)
    ensures Printf("%s\\n", [argument]) == argument + "\n"
  {
    assert "%s\\n"[..2] == "%s" && "%s\\n"[2..] == "\\n" && "\\n"[2..] == "";
    assert [argument][1..] == [];
    assert Printf("\\n", []) == "\n" + Printf("", []) == "\n";
  }

  lemma {:induction false} StatusLineIs(marker: string, status: nat)
    requires Verbatim(marker)
    ensures StatusLine(marker, status) == "\n" + ((marker + "EXIT:") + (Decimal(status) + "\n"))
  {
    var d := Decimal(status);
    var body := marker + "EXIT:";
    assert StatusFormat(marker) == "\\n" + (body + "%s\\n");
    assert ("\\n" + (body + "%s\\n"))[..2] == "\\n" && ("\\n" + (body + "%s\\n"))[2..] == body + "%s\\n";
    forall c | c in body ensures c != '\\' && c != '%' && !IsLineEnd(c) {
      assert c in marker || c in "EXIT:";
    }
    PrintfVerbatim(body, "%s\\n", [d]);
    PrintfEnd(d);
  }

  // What is shown up to the status line of a command and after it.
  function StatusShown(noise: string, marker: string, status: nat, after: string): string {
    noise + StatusLine(marker, status) + after
  }

  // The parts of it that matter to the reader.
  lemma {:induction false} StatusStandsOut(noise: string, marker: string, status: nat, after: string)
    requires Verbatim(marker) && NoStatus(noise + "\n", marker + "EXIT:") && status < INT_LIMIT
    requires |marker| + |Decimal(status)| + 6 <= SerialRunner.MAX_NEEDLE
    ensures var tail := Decimal(status) + ("\n" + after);
            && StatusShown(noise, marker, status, after) == (noise + "\n") + ((marker + "EXIT:") + tail)
            && SerialRunner.FirstStatus(noise + "\n", marker + "EXIT:", tail) && Number(tail) == Some(status)
            && SerialRunner.LineLength(tail) == |Decimal(status)| + 1
  {
    var d, prefix := Decimal(status), marker + "EXIT:";
    StatusLineIs(marker, status);
    FirstLineIs(d, '\n', after);
    AtoiOfDecimal(status);
    forall c | c in prefix ensures !IsLineEnd(c) {
      assert c in marker || c in "EXIT:";
    }
    Assoc(noise, "\n", prefix + (d + "\n"));
    Assoc(noise + "\n", prefix + (d + "\n"), after);
    Assoc(prefix, d + "\n", after);
    Assoc(d, "\n", after);
  }

  // The status that the client reads, at whatever moments it looks and however much has been
  // shown before, is the one that the command reported; and when that line has been shown
  // it does read it.
  lemma {:induction false} ExitIsRight(searches: seq<string>, noise: string, marker: string, status: nat, after: string)
    requires Verbatim(marker) && NoStatus(noise + "\n", marker + "EXIT:") && status < INT_LIMIT
    requires |marker| + |Decimal(status)| + 6 <= SerialRunner.MAX_NEEDLE
    requires SerialRunner.Searched(searches, marker + "EXIT:") && |searches[0]| <= |noise| + SerialRunner.MAX_BUFFER
    requires searches[|searches| - 1] <= StatusShown(noise, marker, status, after)
    ensures var last := searches[|searches| - 1];
            var got := Status(Last(last, SerialRunner.MAX_BUFFER), marker + "EXIT:");
            && (got.Some? ==> got == Some(status))
            && (|last| >= |noise| + |StatusLine(marker, status)| ==> got == Some(status))
  {
    var tail := Decimal(status) + ("\n" + after);
    StatusStandsOut(noise, marker, status, after);
    StatusLineIs(marker, status);
    SerialRunner.StatusNotMissed(searches, noise + "\n", marker + "EXIT:", tail);
  }

  // ----- The answers of an upload -----

  // What the client reads while the finish command of an upload runs is the status that the
  // remote end of the conversation reports.
  lemma {:induction false} UploadStatusIsRight(
    w: Upload.World, r: Upload.Remote, digest: string, luck: Upload.Luck, others: Files, m: Machine,
    searches: seq<string>, noise: string, after: string)
    requires Upload.Apart(w.names, others) && Upload.Shows(w, r, others, m) && m.printed == ""
    requires forall data :: ' ' !in w.hash(data)
    requires var marker := Upload.Marker(w.names.token);
             && Verbatim(marker) && |marker| + 7 <= SerialRunner.MAX_NEEDLE && NoStatus(noise + "\n", marker + "EXIT:")
             && SerialRunner.Searched(searches, marker + "EXIT:") && |searches[0]| <= |noise| + SerialRunner.MAX_BUFFER
             && var tree := Finish(w.names.tempPath, w.names.remote, digest, marker);
             searches[|searches| - 1] <= noise + Exec(tree, m, Upload.WorksOf(luck), w.hash).0.printed + after
    ensures var buffer := Last(searches[|searches| - 1], SerialRunner.MAX_BUFFER);
            var got := Status(buffer, Upload.Marker(w.names.token) + "EXIT:");
            var output := Upload.RunFinish(w, r, digest, luck).output;
            got.Some? ==> got.value >= 0 && output == r.output + [Upload.Exit(got.value)]
  {
    Upload.FinishRefines(w, r, digest, luck, others, m);
    var output := Upload.RunFinish(w, r, digest, luck).output;
    var status := output[|r.output|].status;
    var line := StatusLine(Upload.Marker(w.names.token), status);
    assert "" + line == line;
    assert |Decimal(status)| == 1;
    ExitIsRight(searches, noise, Upload.Marker(w.names.token), status, after);
  }

  lemma JoinedLine(a: string, b: string)
    requires NoLineEnd(a) && NoLineEnd(b)
    ensures NoLineEnd(a + b) && (b != "" ==> (a + b)[|a + b| - 1] == b[|b| - 1])
  {
  }

  lemma CompoundLines(x: string, y: string, z: string)
    requires NoLineEnd(x) && NoLineEnd(y) && NoLineEnd(z)
    ensures NoLineEnd(x + " && " + y) && NoLineEnd(x + "; " + y)
    ensures NoLineEnd(IfText(x, y, z)) && NoLineEnd(UnlessText(x, z))
  {
  }

  lemma SimpleLines(path: string)
    requires NoLineEnd(path)
    ensures NoLineEnd(TextOf(Sum(path))) && NoLineEnd(TextOf(IsDigest(path))) && NoLineEnd(TextOf(MakeExecutable(path)))
    ensures NoLineEnd(TextOf(Remove(path)))
  {
    QuotedIsALine(path);
  }

  lemma {:induction false} AndLine(a: Command, b: Command)
    requires NoLineEnd(TextOf(a)) && NoLineEnd(TextOf(b))
    ensures NoLineEnd(TextOf(And(a, b)))
  {
    CompoundLines(TextOf(a), TextOf(b), "");
  }

  lemma {:induction false} ThenLine(a: Command, b: Command)
    requires NoLineEnd(TextOf(a)) && NoLineEnd(TextOf(b)) && TextOf(b) != ""
    ensures var text := TextOf(Then(a, b));
            NoLineEnd(text) && text != "" && text[|text| - 1] == TextOf(b)[|TextOf(b)| - 1]
  {
    CompoundLines(TextOf(a), TextOf(b), "");
    JoinedLine(TextOf(a) + "; ", TextOf(b));
  }

  lemma {:induction false} IfLine(a: Command, b: Command, d: Command)
    requires NoLineEnd(TextOf(a)) && NoLineEnd(TextOf(b)) && NoLineEnd(TextOf(d))
    ensures TextOf(If(a, b, d)) != "" && NoLineEnd(TextOf(If(a, b, d)))
    ensures TextOf(Unless(a, d)) != "" && NoLineEnd(TextOf(Unless(a, d)))
  {
    CompoundLines(TextOf(a), TextOf(b), TextOf(d));
  }

  // The finish command is one line that ends in a quote, which the prefix of the status line
  // does not hold.
  lemma FinishLine(temp: string, remote: string, digest: string, marker: string)
    requires NoLineEnd(temp) && NoLineEnd(remote) && NoLineEnd(digest) && NoLineEnd(marker)
    ensures var line := TextOf(Finish(temp, remote, digest, marker));
            line != "" && NoLineEnd(line) && line[|line| - 1] == '"'
  {
    var verify, failed, fine := Verify(temp, remote, digest), SetStatus(true), SetStatus(false);
    VerifyLine(temp, remote, digest);
    SimpleLines(temp);
    ThenLine(Remove(temp), failed);
    var decide, restore := If(verify, fine, Then(Remove(temp), failed)), Unless(EchoOn, failed);
    IfLine(verify, fine, Then(Remove(temp), failed));
    IfLine(EchoOn, fine, failed);
    ThenLine(decide, restore);
    ReportLine(marker);
    ThenLine(Then(decide, restore), ReportStatus(marker));
  }

  lemma ReportLine(marker: string)
    requires NoLineEnd(marker)
    ensures var text := TextOf(ReportStatus(marker)); text != "" && NoLineEnd(text) && text[|text| - 1] == '"'
  {
    JoinedLine("printf '\\n", marker);
    JoinedLine("printf '\\n" + marker, "EXIT:%s\\n' \"$status\"");
  }

  lemma VerifyLine(temp: string, remote: string, digest: string)
    requires NoLineEnd(temp) && NoLineEnd(remote) && NoLineEnd(digest)
    ensures NoLineEnd(TextOf(Verify(temp, remote, digest)))
  {
    SimpleLines(temp);
    SimpleLines(digest);
    QuotedIsALine(temp);
    QuotedIsALine(remote);
    assert NoLineEnd(TextOf(Move(temp, remote)));
    AndLine(Sum(temp), IsDigest(digest));
    AndLine(And(Sum(temp), IsDigest(digest)), MakeExecutable(temp));
    AndLine(And(And(Sum(temp), IsDigest(digest)), MakeExecutable(temp)), Move(temp, remote));
  }

  // So neither what was shown before nor the echo of the command holds a status.
  lemma EchoedFinish(before: string, names: Upload.Names, digest: string, echo: bool)
    requires echo ==> NoLineEnd(names.tempPath) && NoLineEnd(names.remote) && NoLineEnd(digest)
    requires Verbatim(Upload.Marker(names.token)) && '"' !in names.token
    requires !Contains(before, Upload.Marker(names.token) + "EXIT:")
    ensures NoStatus(before + Echoed(Upload.FinishCommand(names, digest), echo) + "\n",
              Upload.Marker(names.token) + "EXIT:")
  {
    var marker := Upload.Marker(names.token);
    var prefix, line := marker + "EXIT:", Upload.FinishCommand(names, digest);
    forall c | c in prefix ensures !IsLineEnd(c) && c != '"' {
      assert c in marker || c in "EXIT:";
      assert c in marker ==> c in "__DRONEOS_UPLOAD_" || c in names.token || c in "__";
    }
    if echo {
      FinishLine(names.tempPath, names.remote, digest, marker);
      EchoIsNoStatus(before, line, "\r\n\n", prefix);
      assert before + (line + "\r\n") + "\n" == before + (line + "\r\n\n");
    } else {
      assert before + "" == before;
      assert prefix[0] in prefix && "\n"[0] == '\n';
      LacksFirst("\n", prefix);
      LacksJoined(before, "\n", 0, prefix);
      NoneMeansNoStatus(before + "\n", prefix);
    }
  }

  // So it is whether or not the terminal echoes the command, which holds the marker itself.
  lemma {:induction false} UploadStatusDespiteEcho(
    w: Upload.World, r: Upload.Remote, digest: string, luck: Upload.Luck, others: Files, m: Machine,
    searches: seq<string>, before: string, after: string)
    requires Upload.Apart(w.names, others) && Upload.Shows(w, r, others, m) && m.printed == ""
    requires forall data :: ' ' !in w.hash(data)
    requires m.echo ==> NoLineEnd(w.names.tempPath) && NoLineEnd(w.names.remote) && NoLineEnd(digest)
    requires var marker, noise := Upload.Marker(w.names.token),
                                  before + Echoed(Upload.FinishCommand(w.names, digest), m.echo);
             && Verbatim(marker) && '"' !in w.names.token && |marker| + 7 <= SerialRunner.MAX_NEEDLE
             && !Contains(before, marker + "EXIT:")
             && SerialRunner.Searched(searches, marker + "EXIT:") && |searches[0]| <= |noise| + SerialRunner.MAX_BUFFER
             && var tree := Finish(w.names.tempPath, w.names.remote, digest, marker);
             searches[|searches| - 1] <= noise + Exec(tree, m, Upload.WorksOf(luck), w.hash).0.printed + after
    ensures var buffer := Last(searches[|searches| - 1], SerialRunner.MAX_BUFFER);
            var got := Status(buffer, Upload.Marker(w.names.token) + "EXIT:");
            var output := Upload.RunFinish(w, r, digest, luck).output;
            got.Some? ==> got.value >= 0 && output == r.output + [Upload.Exit(got.value)]
  {
    EchoedFinish(before, w.names, digest, m.echo);
    UploadStatusIsRight(w, r, digest, luck, others, m, searches,
      before + Echoed(Upload.FinishCommand(w.names, digest), m.echo), after);
  }

  // And what it reads after the set-up line is the answer of the remote end.
  lemma UploadAnswerIsRight(
    w: Upload.World, r: Upload.Remote, luck: Upload.Luck, m: Machine, seen: string, before: string, after: string)
    requires r.doc == None && r.prompt == Upload.Blank && QuoteFree(w.names.token) && NoLineEnd(w.names.token)
    requires Free(before, UPLOAD, w.names.token) && Free(after, UPLOAD, w.names.token)
    requires seen <= SetUpShown(before, UPLOAD, w.names.token, m, Upload.WorksOf(luck), w.hash, after)
    ensures var ready, failed := Ready(UPLOAD, w.names.token), Failed(UPLOAD, w.names.token);
            var buffer := Last(seen, SerialRunner.MAX_BUFFER);
            Contains(buffer, ready) || Contains(buffer, failed) ==>
              Upload.Run(w, r, Upload.SetUp, luck).output
                == r.output + [if Contains(buffer, failed) then Upload.Refused else Upload.Ready]
  {
    PrefixesInUse();
    UploadHasNoLineEnd();
    AnswerIsRight(seen, before, UPLOAD, w.names.token, m, Upload.WorksOf(luck), w.hash, after);
  }

  lemma UploadHasNoLineEnd()
    ensures NoLineEnd(UPLOAD)
  {
  }
}
