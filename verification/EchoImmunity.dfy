/** The setup line of a remote command, which turns echo off and answers with a marker.
    The terminal echoes the line itself, so the markers must not stand in it. */
module EchoImmunity {
  import opened Options
  import opened Seqs
  import opened ShellWords
  import opened Text

  // The two prefixes in use, for exec and for upload.
  const EXEC := "__DRONEOS_EXEC_"
  const UPLOAD := "__DRONEOS_UPLOAD_"

  predicate QuoteFree(s: string) {
    '\'' !in s
  }

  // What matters about the prefixes.
  predicate MarkerPrefix(p: string) {
    |p| >= 2 && p[0] == '_' && 'F' !in p && QuoteFree(p)
  }

  lemma PrefixesInUse()
    ensures MarkerPrefix(EXEC) && MarkerPrefix(UPLOAD)
  {
  }

  function Ready(p: string, token: string): string {
    p + "READY_" + (token + "__")
  }

  function Failed(p: string, token: string): string {
    p + "FAILED_" + (token + "__")
  }

  // The markers of an upload.
  lemma UploadMarkers(token: string)
    ensures Ready(UPLOAD, token) == "__DRONEOS_UPLOAD_READY_" + token + "__"
    ensures Failed(UPLOAD, token) == "__DRONEOS_UPLOAD_FAILED_" + token + "__"
    ensures Ready(EXEC, token) == "__DRONEOS_EXEC_READY_" + token + "__"
    ensures Failed(EXEC, token) == "__DRONEOS_EXEC_FAILED_" + token + "__"
  {
    assert UPLOAD + "READY_" == "__DRONEOS_UPLOAD_READY_" && UPLOAD + "FAILED_" == "__DRONEOS_UPLOAD_FAILED_";
    assert EXEC + "READY_" == "__DRONEOS_EXEC_READY_" && EXEC + "FAILED_" == "__DRONEOS_EXEC_FAILED_";
    Assoc("__DRONEOS_UPLOAD_READY_", token, "__");
    Assoc("__DRONEOS_UPLOAD_FAILED_", token, "__");
    Assoc("__DRONEOS_EXEC_READY_", token, "__");
    Assoc("__DRONEOS_EXEC_FAILED_", token, "__");
  }

  const FORMAT := "\\n%s%s\\n"

  function PrintfArguments(format: string, a: string, b: string, rest: string): string {
    ShellQuote(format) + (" " + (ShellQuote(a) + (" " + (ShellQuote(b) + rest))))
  }

  // The markers are sent in two halves that printf puts together.
  function Setup(p: string, token: string): string {
    "if stty -echo; then printf "
    + PrintfArguments(FORMAT, p + "READY_", token + "__",
        "; else printf " + PrintfArguments(FORMAT, p + "FAILED_", token + "__", "; fi"))
  }

  // ----- The echo holds no marker -----

  // Quoting adds no line end.
  lemma {:induction false} QuotedIsALine(value: string)
    requires NoLineEnd(value)
    ensures NoLineEnd(QuoteBody(value)) && NoLineEnd(ShellQuote(value))
  {
    if value != "" {
      assert value[0] in value && forall c :: c in value[1..] ==> c in value;
      QuotedIsALine(value[1..]);
    }
  }

  lemma LacksShort(text: string, needle: string)
    requires |text| < |needle|
    ensures !Contains(text, needle)
  {
  }

  lemma LacksFirst(text: string, needle: string)
    requires needle != [] && needle[0] !in text
    ensures !Contains(text, needle)
  {
    forall i: nat ensures !At(text, i, needle) {
      if i + |needle| <= |text| {
        NotAt(text, i, needle, 0);
      }
    }
  }

  // A needle without quotes cannot reach across one.
  lemma LacksAcross(a: string, b: string, needle: string)
    requires QuoteFree(needle) && !Contains(a, needle) && !Contains(b, needle)
    ensures !Contains(a + ("'" + b), needle)
  {
    var text := a + ("'" + b);
    forall i: nat ensures !At(text, i, needle) {
      if i + |needle| <= |a| {
        assert a[i..i + |needle|] == text[i..i + |needle|];
        assert !At(a, i, needle);
      } else if i > |a| && i + |needle| <= |text| {
        var j := i - |a| - 1;
        assert b[j..j + |needle|] == text[i..i + |needle|];
        assert !At(b, j, needle);
      } else if i + |needle| <= |text| {
        NotAt(text, i, needle, |a| - i);
      }
    }
  }

  lemma {:induction false} QuoteFreeBody(value: string)
    requires QuoteFree(value)
    ensures QuoteBody(value) == value
  {
    if value != [] {
      assert forall i :: 0 <= i < |value[1..]| ==> value[1..][i] == value[1 + i];
      QuoteFreeBody(value[1..]);
    }
  }

  lemma LacksQuoted(a: string, value: string, b: string, needle: string)
    requires QuoteFree(needle) && QuoteFree(value)
    requires !Contains(a, needle) && !Contains(value, needle) && !Contains(b, needle)
    ensures !Contains(a + (ShellQuote(value) + b), needle)
  {
    QuoteFreeBody(value);
    LacksAcross(value, b, needle);
    LacksAcross(a, value + ("'" + b), needle);
    assert a + (ShellQuote(value) + b) == a + ("'" + (value + ("'" + b)));
  }

  lemma ArgumentsLack(front: string, a: string, b: string, rest: string, needle: string)
    requires QuoteFree(needle) && QuoteFree(a) && QuoteFree(b) && needle != [] && needle[0] == '_'
    requires !Contains(front, needle) && !Contains(a, needle) && !Contains(b, needle) && !Contains(rest, needle)
    ensures !Contains(front + PrintfArguments(FORMAT, a, b, rest), needle)
  {
    LacksFirst(" ", needle);
    LacksFirst(FORMAT, needle);
    LacksQuoted(" ", b, rest, needle);
    LacksQuoted(" ", a, " " + (ShellQuote(b) + rest), needle);
    LacksQuoted(front, FORMAT, " " + (ShellQuote(a) + (" " + (ShellQuote(b) + rest))), needle);
  }

  lemma SetupLacks(p: string, token: string, needle: string)
    requires MarkerPrefix(p) && QuoteFree(token) && QuoteFree(needle) && needle != [] && needle[0] == '_'
    requires |needle| > |p| + 7 && |needle| > |token| + 2
    ensures !Contains(Setup(p, token), needle)
  {
    var tail := "; else printf " + PrintfArguments(FORMAT, p + "FAILED_", token + "__", "; fi");
    LacksFirst("; fi", needle);
    LacksFirst("; else printf ", needle);
    LacksFirst("if stty -echo; then printf ", needle);
    LacksShort(p + "READY_", needle);
    LacksShort(p + "FAILED_", needle);
    LacksShort(token + "__", needle);
    ArgumentsLack("; else printf ", p + "FAILED_", token + "__", "; fi", needle);
    ArgumentsLack("if stty -echo; then printf ", p + "READY_", token + "__", tail, needle);
  }

  // Neither marker stands in the line that is sent, whatever the token.
  lemma EchoImmune(p: string, token: string)
    requires MarkerPrefix(p) && QuoteFree(token)
    ensures !Contains(Setup(p, token), Ready(p, token)) && !Contains(Setup(p, token), Failed(p, token))
  {
    SetupLacks(p, token, Ready(p, token));
    SetupLacks(p, token, Failed(p, token));
  }

  // The shell check that follows a login has no such protection: the line that asks for
  // its marker contains it.
  lemma ConfirmationIsEchoed(marker: string)
    ensures Contains("printf '\\n" + marker + "\\n'", marker)
  {
    var text := "printf '\\n" + marker + "\\n'";
    var i := |"printf '\\n"|;
    assert text[i..i + |marker|] == marker;
    assert At(text, i, marker);
  }

  // ----- The answer holds exactly one -----

  // printf with this format: a newline, both arguments, a newline.
  function Printf(format: string, arguments: seq<string>): string
    decreases |format|
  {
    if format == [] then ""
    else if |format| >= 2 && format[..2] == "\\n" then "\n" + Printf(format[2..], arguments)
    else if |format| >= 2 && format[..2] == "%s" then
      (if arguments == [] then "" else arguments[0])
        + Printf(format[2..], if arguments == [] then [] else arguments[1..])
    else [format[0]] + Printf(format[1..], arguments)
  }

  lemma PrintfJoins(a: string, b: string)
    ensures Printf(FORMAT, [a, b]) == "\n" + (a + (b + "\n"))
  {
    assert FORMAT[2..] == "%s%s\\n" && "%s%s\\n"[2..] == "%s\\n" && "%s\\n"[2..] == "\\n" && "\\n"[2..] == "";
    assert [a, b][1..] == [b] && [b][1..] == [];
    assert Printf("\\n", []) == "\n" + Printf("", []) == "\n";
    assert "%s\\n"[..2] == "%s" && "%s%s\\n"[..2] == "%s" && FORMAT[..2] == "\\n";
    assert Printf("%s\\n", [b]) == b + Printf("\\n", []);
    assert Printf("%s%s\\n", [a, b]) == a + Printf("%s\\n", [b]);
  }

  // When echo could be turned off, the ready marker is printed and the failed one is not;
  // otherwise the other way round.
  lemma AnswerIsUnambiguous(p: string, token: string)
    requires MarkerPrefix(p)
    ensures var yes := Printf(FORMAT, [p + "READY_", token + "__"]);
            Contains(yes, Ready(p, token)) && !Contains(yes, Failed(p, token))
    ensures var no := Printf(FORMAT, [p + "FAILED_", token + "__"]);
            Contains(no, Failed(p, token)) && !Contains(no, Ready(p, token))
  {
    var yes, no := "\n" + Ready(p, token) + "\n", "\n" + Failed(p, token) + "\n";
    PrintfJoins(p + "READY_", token + "__");
    PrintfJoins(p + "FAILED_", token + "__");
    assert yes == Printf(FORMAT, [p + "READY_", token + "__"]);
    assert no == Printf(FORMAT, [p + "FAILED_", token + "__"]);
    assert At(yes, 1, Ready(p, token));
    assert At(no, 1, Failed(p, token));
    ReadyLacksFailed(p, token);
    FailedLacksReady(p, token);
  }

  lemma ReadyLacksFailed(p: string, token: string)
    requires MarkerPrefix(p)
    ensures !Contains("\n" + Ready(p, token) + "\n", Failed(p, token))
  {
    var text, needle := "\n" + Ready(p, token) + "\n", Failed(p, token);
    assert text[0] == '\n' && text[1 + |p|] == 'R' && needle[|p|] == 'F';
    forall i: nat ensures !At(text, i, needle) {
      if i + |needle| <= |text| {
        NotAt(text, i, needle, if i == 0 then 0 else |p|);
      }
    }
  }

  lemma FailedLacksReady(p: string, token: string)
    requires MarkerPrefix(p)
    ensures !Contains("\n" + Failed(p, token) + "\n", Ready(p, token))
  {
    var text, needle := "\n" + Failed(p, token) + "\n", Ready(p, token);
    assert text[0] == '\n' && text[1 + |p|] == 'F';
    assert needle[|p|] == 'R' && forall j :: 0 <= j < |p| ==> needle[j] == p[j];
    forall i: nat ensures !At(text, i, needle) {
      if i == 0 {
        NotAt(text, i, needle, 0);
      } else if i + |needle| <= |text| {
        var j := 1 + |p| - i;
        assert j < |p| ==> p[j] in p;
        NotAt(text, i, needle, j);
      }
    }
  }
}
