/** The compound commands that begin, end and undo an upload, as trees: how they are written,
    and what the shell does with them, section 2.9 of the POSIX.1-2017 Shell Command
    Language.  Any of the utilities they call may fail. */
module RemoteShell {
  import opened Bytes
  import opened EchoImmunity
  import opened Seqs
  import opened ShellWords
  import Text

  type Files = map<string, seq<byte>>

  // The last component of a path that does not end in a slash.
  function Base(path: string): string {
    if path == "" || path[|path| - 1] == '/' then "" else Base(path[..|path| - 1]) + [path[|path| - 1]]
  }

  // Where mv puts a file: in the second form of the utility, inside a directory.
  function Target(directories: set<string>, from: string, to: string): string {
    if to in directories then Inside(from, to) else to
  }

  function Inside(from: string, directory: string): string {
    directory + "/" + Base(from)
  }

  datatype Command =
    | Sum(path: string)                      // into the variable `actual`
    | IsDigest(digest: string)               // the first word of `actual`
    | MakeExecutable(path: string)
    | Move(from: string, to: string)
    | Remove(path: string)
    | EchoOn
    | EchoOff
    | Say(text: string, more: string)         // both on one line, by printf
    | SetStatus(failed: bool)
    | ReportStatus(marker: string)
    | And(first: Command, second: Command)
    | Then(first: Command, second: Command)
    | If(condition: Command, yes: Command, no: Command)
    | Unless(condition: Command, no: Command)

  function TextOf(c: Command): string {
    match c
    case Sum(path) => "actual=$(sha256sum -- " + ShellQuote(path) + ")"
    case IsDigest(digest) => "[ \"${actual%% *}\" = " + ShellQuote(digest) + " ]"
    case MakeExecutable(path) => "chmod 0755 -- " + ShellQuote(path)
    case Move(from, to) => "mv -f -- " + ShellQuote(from) + " " + ShellQuote(to)
    case Remove(path) => "rm -f -- " + ShellQuote(path)
    case EchoOn => "stty echo"
    case EchoOff => "stty -echo"
    case Say(first, second) => "printf " + PrintfArguments(FORMAT, first, second, "")
    case SetStatus(failed) => if failed then "status=1" else "status=0"
    case ReportStatus(marker) => "printf '\\n" + marker + "EXIT:%s\\n' \"$status\""
    case And(first, second) => TextOf(first) + " && " + TextOf(second)
    case Then(first, second) => TextOf(first) + "; " + TextOf(second)
    case If(condition, yes, no) => IfText(TextOf(condition), TextOf(yes), TextOf(no))
    case Unless(condition, no) => UnlessText(TextOf(condition), TextOf(no))
  }

  function IfText(condition: string, yes: string, no: string): string {
    "if " + condition + "; then " + yes + "; else " + no + "; fi"
  }

  function UnlessText(condition: string, no: string): string {
    "if ! " + condition + "; then " + no + "; fi"
  }

  // Which utilities work.
  datatype Works = Works(echoOff: bool, sha: bool, chmod: bool, mv: bool, rm: bool, echoOn: bool)

  datatype Machine = Machine(
    files: Files, directories: set<string>, echo: bool, actual: string, status: nat, reports: seq<nat>,
    printed: string)

  function StatusFormat(marker: string): string {
    "\\n" + marker + "EXIT:%s\\n"
  }

  // What reporting a status prints.
  function StatusLine(marker: string, status: nat): string {
    Printf(StatusFormat(marker), [Text.Decimal(status)])
  }

  function FirstWord(s: string): string {
    if s == "" || s[0] == ' ' then "" else [s[0]] + FirstWord(s[1..])
  }

  lemma {:induction false} FirstWordOf(word: string, rest: string)
    requires ' ' !in word && (rest == "" || rest[0] == ' ')
    ensures FirstWord(word + rest) == word
  {
    if word == "" {
      assert word + rest == rest;
    } else {
      assert (word + rest)[1..] == word[1..] + rest;
      FirstWordOf(word[1..], rest);
    }
  }

  // The machine afterwards, and whether the command succeeded.
  function Exec(c: Command, m: Machine, works: Works, hash: seq<byte> -> string): (Machine, bool) {
    match c
    case Sum(path) =>
      if path in m.files && works.sha then (m.(actual := hash(m.files[path]) + "  " + path), true)
      else (m.(actual := ""), false)
    case IsDigest(digest) => (m, FirstWord(m.actual) == digest)
    case MakeExecutable(path) => (m, path in m.files && works.chmod)
    case Move(from, to) =>
      var target := Target(m.directories, from, to);
      if from in m.files && works.mv && target !in m.directories then
        (m.(files := (m.files - {from})[target := m.files[from]]), true)
      else (m, false)
    case Remove(path) => if works.rm then (m.(files := m.files - {path}), true) else (m, false)
    case EchoOn => (m.(echo := m.echo || works.echoOn), works.echoOn)
    case EchoOff => (m.(echo := m.echo && !works.echoOff), works.echoOff)
    case Say(first, second) => (m.(printed := m.printed + Line(first, second)), true)
    case SetStatus(failed) => (m.(status := if failed then 1 else 0), true)
    case ReportStatus(marker) =>
      (m.(reports := m.reports + [m.status], printed := m.printed + StatusLine(marker, m.status)), true)
    case And(first, second) =>
      var (next, ok) := Exec(first, m, works, hash);
      if ok then Exec(second, next, works, hash) else (next, false)
    case Then(first, second) => Exec(second, Exec(first, m, works, hash).0, works, hash)
    case If(condition, yes, no) =>
      var (next, ok) := Exec(condition, m, works, hash);
      Exec(if ok then yes else no, next, works, hash)
    case Unless(condition, no) =>
      var (next, ok) := Exec(condition, m, works, hash);
      if ok then (next, true) else Exec(no, next, works, hash)
  }

  function Verify(temp: string, remote: string, digest: string): Command {
    And(And(And(Sum(temp), IsDigest(digest)), MakeExecutable(temp)), Move(temp, remote))
  }

  // Verify and install, or remove; turn echo on; report.
  function Finish(temp: string, remote: string, digest: string, marker: string): Command {
    Then(
      Then(
        If(Verify(temp, remote, digest), SetStatus(false), Then(Remove(temp), SetStatus(true))),
        Unless(EchoOn, SetStatus(true))),
      ReportStatus(marker))
  }

  function CleanUp(temp: string): Command {
    Then(Remove(temp), EchoOn)
  }

  // The file at temp is there, and everything works that makes it the one at its target.
  predicate Good(temp: string, remote: string, digest: string, m: Machine, works: Works, hash: seq<byte> -> string) {
    && temp in m.files && works.sha && hash(m.files[temp]) == digest && works.chmod
    && works.mv && Target(m.directories, temp, remote) !in m.directories
  }

  lemma {:induction false} VerifyMoves(temp: string, remote: string, digest: string, m: Machine, works: Works,
                                       hash: seq<byte> -> string)
    requires forall data :: ' ' !in hash(data)
    ensures var (r, ok) := Exec(Verify(temp, remote, digest), m, works, hash);
            && ok == Good(temp, remote, digest, m, works, hash)
            && r.files == (if ok then (m.files - {temp})[Target(m.directories, temp, remote) := m.files[temp]]
                else m.files)
            && r == m.(files := r.files, actual := r.actual)
  {
    var sum, test, chmod, move := Sum(temp), IsDigest(digest), MakeExecutable(temp), Move(temp, remote);
    var summed := Exec(sum, m, works, hash);
    if summed.1 {
      FirstWordOf(hash(m.files[temp]), "  " + temp);
      assert hash(m.files[temp]) + ("  " + temp) == hash(m.files[temp]) + "  " + temp;
    }
    var tested := Exec(And(sum, test), m, works, hash);
    assert tested == if summed.1 then Exec(test, summed.0, works, hash) else summed;
    var made := Exec(And(And(sum, test), chmod), m, works, hash);
    assert made == if tested.1 then Exec(chmod, tested.0, works, hash) else tested;
    assert Exec(Verify(temp, remote, digest), m, works, hash)
        == if made.1 then Exec(move, made.0, works, hash) else made;
  }

  // What the finish command does, to every file there is: if all goes well the verified file
  // moves to its target; otherwise nothing but the temporary file can go.  The status it
  // reports is 0 exactly when it moved the file and echo is on again.
  lemma {:induction false} FinishMoves(temp: string, remote: string, digest: string, marker: string,
                                       m: Machine, works: Works, hash: seq<byte> -> string)
    requires forall data :: ' ' !in hash(data)
    ensures var r, good := Exec(Finish(temp, remote, digest, marker), m, works, hash).0,
                           Good(temp, remote, digest, m, works, hash);
            && r.files == (if good then (m.files - {temp})[Target(m.directories, temp, remote) := m.files[temp]]
                           else if works.rm then m.files - {temp} else m.files)
            && r.directories == m.directories && r.echo == (m.echo || works.echoOn)
            && r.reports == m.reports + [if good && works.echoOn then 0 else 1]
            && r.printed == m.printed + StatusLine(marker, if good && works.echoOn then 0 else 1)
  {
    VerifyMoves(temp, remote, digest, m, works, hash);
    var verify := Verify(temp, remote, digest);
    var verified := Exec(verify, m, works, hash);
    var first := If(verify, SetStatus(false), Then(Remove(temp), SetStatus(true)));
    var decided := Exec(first, m, works, hash).0;
    Decides(verify, Remove(temp), m, works, hash);
    var second := Unless(EchoOn, SetStatus(true));
    var restored := Exec(second, decided, works, hash).0;
    Restores(decided, works, hash);
    assert Exec(Then(first, second), m, works, hash).0 == restored;
    assert Exec(Then(Then(first, second), ReportStatus(marker)), m, works, hash).0
        == Exec(ReportStatus(marker), restored, works, hash).0;
  }

  // No path is a file and a directory.
  predicate Consistent(m: Machine) {
    m.files.Keys !! m.directories
  }

  // There is a file with the digest at path.
  predicate Installed(m: Machine, path: string, digest: string, hash: seq<byte> -> string) {
    path in m.files && hash(m.files[path]) == digest
  }

  // Exactly when a reported 0 means that the file is where it was meant to be: the
  // destination must not be a directory.  If it is one, the file is inside it, under its
  // temporary name, and there is still no file at the destination.
  lemma {:induction false} FinishInstalls(temp: string, remote: string, digest: string, marker: string,
                                          m: Machine, works: Works, hash: seq<byte> -> string)
    requires forall data :: ' ' !in hash(data)
    requires Consistent(m)
    requires Exec(Finish(temp, remote, digest, marker), m, works, hash).0.reports == m.reports + [0]
    ensures var r := Exec(Finish(temp, remote, digest, marker), m, works, hash).0;
            && (Installed(r, remote, digest, hash) <==> remote !in m.directories)
            && (remote in m.directories ==> Installed(r, Inside(temp, remote), digest, hash) && remote !in r.files)
  {
    FinishMoves(temp, remote, digest, marker, m, works, hash);
    assert |Inside(temp, remote)| > |remote|;
    assert Exec(Finish(temp, remote, digest, marker), m, works, hash).0.reports[|m.reports|] == 0;
  }

  lemma {:induction false} Restores(m: Machine, works: Works, hash: seq<byte> -> string)
    ensures Exec(Unless(EchoOn, SetStatus(true)), m, works, hash).0
         == if works.echoOn then m.(echo := true) else m.(status := 1)
  {
    var next := Exec(EchoOn, m, works, hash).0;
    assert !works.echoOn ==> next == m;
    assert Exec(SetStatus(true), next, works, hash).0 == next.(status := 1);
  }

  lemma {:induction false} Decides(verify: Command, undo: Command, m: Machine, works: Works, hash: seq<byte> -> string)
    requires undo.Remove?
    ensures var (verified, ok) := Exec(verify, m, works, hash);
            Exec(If(verify, SetStatus(false), Then(undo, SetStatus(true))), m, works, hash).0
              == if ok then verified.(status := 0) else Exec(undo, verified, works, hash).0.(status := 1)
  {
    var verified := Exec(verify, m, works, hash).0;
    assert Exec(Then(undo, SetStatus(true)), verified, works, hash)
        == Exec(SetStatus(true), Exec(undo, verified, works, hash).0, works, hash);
  }

  // ----- The other two commands -----

  // The command that undoes a failed upload.
  function CleanupCommand(tempPath: string): string {
    "rm -f -- " + ShellQuote(tempPath) + "; stty echo"
  }

  // The command as it is sent is the tree, written down.
  lemma CleanUpText(temp: string)
    ensures TextOf(CleanUp(temp)) == CleanupCommand(temp)
  {
    var front := "rm -f -- " + ShellQuote(temp);
    assert front + "; " + "stty echo" == front + ("; " + "stty echo");
    assert "; " + "stty echo" == "; stty echo";
  }

  // Turn echo off, and say whether that worked.
  function SetUp(p: string, token: string): Command {
    If(EchoOff, Say(p + "READY_", token + "__"), Say(p + "FAILED_", token + "__"))
  }

  lemma ArgumentsThen(format: string, a: string, b: string, rest: string)
    ensures PrintfArguments(format, a, b, "") + rest == PrintfArguments(format, a, b, rest)
  {
    var third := ShellQuote(b) + "";
    var second := ShellQuote(a) + (" " + third);
    assert third == ShellQuote(b);
    Assoc(" ", third, rest);
    Assoc(ShellQuote(a), " " + third, rest);
    Assoc(" ", second, rest);
    Assoc(ShellQuote(format), " " + second, rest);
  }

  lemma SetUpText(p: string, token: string)
    ensures TextOf(SetUp(p, token)) == Setup(p, token)
  {
    var ready, failed, b := p + "READY_", p + "FAILED_", token + "__";
    Spelled(PrintfArguments(FORMAT, ready, b, ""), PrintfArguments(FORMAT, failed, b, ""));
    ArgumentsThen(FORMAT, failed, b, "; fi");
    ArgumentsThen(FORMAT, ready, b, "; else printf " + PrintfArguments(FORMAT, failed, b, "; fi"));
  }

  // The fixed parts of the set-up line, around its arguments.
  lemma Spelled(yes: string, no: string)
    ensures "if " + "stty -echo" + "; then " + ("printf " + yes) + "; else " + ("printf " + no) + "; fi"
         == "if stty -echo; then printf " + (yes + ("; else printf " + (no + "; fi")))
  {
    assert "if " + "stty -echo" + "; then " == "if stty -echo; then ";
    Assoc("if stty -echo; then ", "printf ", yes);
    assert "if stty -echo; then " + "printf " == "if stty -echo; then printf ";
    var front := "if stty -echo; then printf " + yes;
    Assoc(front, "; else ", "printf " + no);
    Assoc("; else ", "printf ", no);
    assert "; else " + "printf " == "; else printf ";
    Assoc(front, "; else printf " + no, "; fi");
    Assoc("; else printf ", no, "; fi");
    Assoc("if stty -echo; then printf ", yes, "; else printf " + (no + "; fi"));
  }

  // What a format makes of two arguments; a name that keeps its making out of sight.
  function Line(first: string, second: string): string {
    Printf(FORMAT, [first, second])
  }

  lemma {:induction false} SetUpSays(yes: string, no: string, b: string, m: Machine, works: Works,
      hash: seq<byte> -> string)
    ensures Exec(If(EchoOff, Say(yes, b), Say(no, b)), m, works, hash).0
         == m.(echo := m.echo && !works.echoOff, printed := m.printed + Line(if works.echoOff then yes else no, b))
  {
    var next := Exec(EchoOff, m, works, hash).0;
    var said := Say(if works.echoOff then yes else no, b);
    assert Exec(said, next, works, hash).0 == next.(printed := next.printed + Line(said.text, b));
    assert Exec(If(EchoOff, Say(yes, b), Say(no, b)), m, works, hash) == Exec(said, next, works, hash);
  }

  // What the set-up line does: it turns echo off if that is possible, and what it prints
  // contains the ready marker exactly if it was, and the failed one exactly if it was not.
  lemma {:induction false} SetUpAnswers(p: string, token: string, m: Machine, works: Works, hash: seq<byte> -> string)
    requires MarkerPrefix(p) && m.printed == ""
    ensures var r := Exec(SetUp(p, token), m, works, hash).0;
            && r.echo == (m.echo && !works.echoOff) && r.files == m.files
            && (Text.Contains(r.printed, Ready(p, token)) <==> works.echoOff)
            && (Text.Contains(r.printed, Failed(p, token)) <==> !works.echoOff)
  {
    var yes, no, b := p + "READY_", p + "FAILED_", token + "__";
    SetUpSays(yes, no, b, m, works, hash);
    assert forall line: string :: "" + line == line;
    AnswerLines(p, token);
  }

  lemma AnswerLines(p: string, token: string)
    requires MarkerPrefix(p)
    ensures var yes, no := Line(p + "READY_", token + "__"), Line(p + "FAILED_", token + "__");
            && Text.Contains(yes, Ready(p, token)) && !Text.Contains(yes, Failed(p, token))
            && Text.Contains(no, Failed(p, token)) && !Text.Contains(no, Ready(p, token))
  {
    AnswerIsUnambiguous(p, token);
  }
}
