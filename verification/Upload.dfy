/** A file upload over the serial console: the client's conversation, and the shell at the
    other end, which consumes what was sent at its own pace.

    The shell takes its input strictly in order, so its state depends only on how much of the
    input it has consumed, and what the client may see at any moment is what some prefix
    of the input makes the shell print. */
module Upload {
  import opened Base64
  import opened Bytes
  import opened HereDocument
  import opened LineWriter
  import opened Options
  import opened ShellWords
  import CutCommands
  import EchoImmunity
  import Seqs
  import ShellCuts
  import ShellGrammar
  import Text
  import RemoteShell

  type Data = seq<byte>

  datatype Names = Names(tempPath: string, remote: string, token: string)

  // What the client sends: single lines, but for the payload.
  datatype Item =
    | SetUp
    | Header
    | Payload(text: string)
    | EndOfData
    | Finish(digest: string)
    | CleanUp
    | Cut(item: Item, text: string)  // a failed write, which may leave some text behind

  function FinishCommand(names: Names, digest: string): string {
    RemoteShell.TextOf(RemoteShell.Finish(names.tempPath, names.remote, digest, Marker(names.token)))
  }

  function Marker(token: string): string {
    "__DRONEOS_UPLOAD_" + token + "__"
  }

  function Sent(names: Names, item: Item): string {
    match item
    case SetUp => EchoImmunity.Setup(EchoImmunity.UPLOAD, names.token) + "\r"
    case Header => HeaderLine(names.tempPath, Delimiter(names.token)) + "\r"
    case Payload(text) => text
    case EndOfData => Delimiter(names.token) + "\r"
    case Finish(digest) => FinishCommand(names, digest) + "\r"
    case CleanUp => RemoteShell.CleanupCommand(names.tempPath) + "\r"
    case Cut(_, text) => text
  }

  // ----- The remote shell -----

  datatype Reply = Ready | Refused | Exit(status: nat)

  // Text at the prompt that is not a complete line yet.  If part of it is a finish
  // command, it may still come to verify and install.
  datatype Prompt = Blank | Scrap(digest: Option<string>)

  datatype Remote = Remote(
    echo: bool,
    doc: Option<string>,  // the text of a here-document that has not ended
    prompt: Prompt,
    temp: Option<Data>,
    dest: Option<Data>,    // the file at the remote path
    inside: Option<Data>,  // the file that mv makes if that path is a directory
    output: seq<Reply>)

  datatype Arrival = Whole | Partial | Absent

  // How the commands of one item turn out.
  datatype Luck = Luck(
    echoOff: bool,        // stty -echo works
    arrival: Arrival,     // what base64 -d leaves in the temporary file
    partial: Data,
    sha: bool, chmod: bool, mv: bool,
    rm: bool, echoOn: bool,
    install: bool,        // a garbled line amounts to a finish command
    scrapTemp: Option<Data>, scrapEcho: bool, scrapDoc: Option<string>, scrapPending: bool)

  datatype World = World(names: Names, hash: Data -> string, directories: set<string>, luck: nat -> Luck, start: Remote)
  {
    predicate IntoDirectory() {
      names.remote in directories
    }

    // mv cannot put a file where a directory is.
    predicate Blocked() {
      RemoteShell.Target(directories, names.tempPath, names.remote) in directories
    }
  }

  function DigestIn(item: Item): Option<string> {
    match item
    case Finish(digest) => Some(digest)
    case Cut(inner, _) => DigestIn(inner)
    case _ => None
  }

  function Received(luck: Luck, body: string): Option<Data> {
    match luck.arrival
    case Absent => None
    case Partial => Some(luck.partial)
    case Whole => if Decode(Strip(body)).Some? then Decode(Strip(body)) else Some(luck.partial)
  }

  // In a here-document every line that is not the delimiter is data.
  function Feed(r: Remote, text: string, delimiter: string, digest: Option<string>, luck: Luck): Remote
    requires r.doc.Some?
  {
    match ReadDocument(r.doc.value + text, delimiter)
    case Open => r.(doc := Some(r.doc.value + text))
    case Closed(body, rest) =>
      r.(doc := None, temp := Received(luck, body), prompt := if rest == "" then Blank else Scrap(digest))
  }

  // Verify, install, turn echo on, report.
  function RunFinish(w: World, r: Remote, digest: string, luck: Luck): Remote {
    var good := r.temp.Some? && luck.sha && w.hash(r.temp.value) == digest && luck.chmod && luck.mv && !w.Blocked();
    var status := if good && luck.echoOn then 0 else 1;
    r.(dest := if good && !w.IntoDirectory() then r.temp else r.dest,
       inside := if good && w.IntoDirectory() then r.temp else r.inside,
       temp := if good || luck.rm then None else r.temp,
       echo := r.echo || luck.echoOn,
       output := r.output + [Exit(status)])
  }

  // A line made of the remains of one write and all of another may do anything to the
  // terminal and the temporary file; it can install only by way of a finish command in it.
  function RunScrap(w: World, r: Remote, digest: Option<string>, luck: Luck): Remote {
    var install := luck.install && digest.Some? && r.temp.Some? && w.hash(r.temp.value) == digest.value && !w.Blocked();
    r.(dest := if install && !w.IntoDirectory() then r.temp else r.dest,
       inside := if install && w.IntoDirectory() then r.temp else r.inside,
       temp := luck.scrapTemp, echo := luck.scrapEcho, doc := luck.scrapDoc,
       prompt := if luck.scrapPending then Scrap(digest) else Blank)
  }

  function Run(w: World, r: Remote, item: Item, luck: Luck): Remote {
    if r.doc.Some? then Feed(r, Sent(w.names, item), Delimiter(w.names.token), DigestIn(item), luck)
    else if r.prompt.Scrap? then RunScrap(w, r, if DigestIn(item).Some? then DigestIn(item) else r.prompt.digest, luck)
    else match item
      case SetUp => r.(echo := r.echo && !luck.echoOff, output := r.output + [if luck.echoOff then Ready else Refused])
      case Header => r.(doc := Some(""))
      case Payload(text) => r.(prompt := if text == "" then Blank else Scrap(None))
      case EndOfData => r  // no such command
      case Finish(digest) => RunFinish(w, r, digest, luck)
      case CleanUp => r.(temp := if luck.rm then None else r.temp, echo := r.echo || luck.echoOn)
      case Cut(_, text) => r.(prompt := Scrap(DigestIn(item)))
  }

  // The shell after consuming all of items.
  function After(w: World, items: seq<Item>): Remote {
    if items == [] then w.start
    else Run(w, After(w, items[..|items| - 1]), items[|items| - 1], w.luck(|items| - 1))
  }

  lemma {:induction false} AfterOne(w: World, items: seq<Item>, item: Item)
    ensures After(w, items + [item]) == Run(w, After(w, items), item, w.luck(|items|))
  {
    assert (items + [item])[..|items|] == items;
  }

  // A prompt with nothing pending.
  ghost predicate AtPrompt(r: Remote) {
    r.doc == None && r.prompt == Blank && r.temp == None && r.echo && r.output == []
  }

  // ----- The destination is safe, whatever is sent and however it arrives -----

  ghost predicate DigestsAre(items: seq<Item>, digest: string) {
    forall i :: 0 <= i < |items| ==> DigestIn(items[i]) == None || DigestIn(items[i]) == Some(digest)
  }

  // The destination is as it was or has the digest, and a directory stays one; a scrap at
  // the prompt can install nothing else.
  ghost predicate Safe(w: World, r: Remote, digest: string) {
    && (r.dest == w.start.dest || (!w.IntoDirectory() && r.dest.Some? && w.hash(r.dest.value) == digest))
    && (r.inside == w.start.inside || (w.IntoDirectory() && r.inside.Some? && w.hash(r.inside.value) == digest))
    && (r.prompt.Scrap? && r.prompt.digest.Some? ==> r.prompt.digest.value == digest)
  }

  lemma FeedSafe(w: World, r: Remote, text: string, delimiter: string, d: Option<string>, luck: Luck,
                                    digest: string)
    requires Safe(w, r, digest) && r.doc.Some? && (d == None || d == Some(digest))
    ensures Safe(w, Feed(r, text, delimiter, d, luck), digest)
  {
  }

  lemma ScrapSafe(w: World, r: Remote, d: Option<string>, luck: Luck, digest: string)
    requires Safe(w, r, digest) && (d == None || d == Some(digest))
    ensures Safe(w, RunScrap(w, r, d, luck), digest)
  {
  }

  lemma FinishSafe(w: World, r: Remote, luck: Luck, digest: string)
    requires Safe(w, r, digest)
    ensures Safe(w, RunFinish(w, r, digest, luck), digest)
  {
  }

  lemma {:induction false} RunSafe(w: World, r: Remote, item: Item, luck: Luck, digest: string)
    requires Safe(w, r, digest) && (DigestIn(item) == None || DigestIn(item) == Some(digest))
    ensures Safe(w, Run(w, r, item, luck), digest)
  {
    if r.doc.Some? {
      FeedSafe(w, r, Sent(w.names, item), Delimiter(w.names.token), DigestIn(item), luck, digest);
    } else if r.prompt.Scrap? {
      ScrapSafe(w, r, if DigestIn(item).Some? then DigestIn(item) else r.prompt.digest, luck, digest);
    } else if item.Finish? {
      FinishSafe(w, r, luck, digest);
    }
  }

  lemma {:induction false} DestinationSafe(w: World, items: seq<Item>, digest: string)
    requires w.start.prompt == Blank && DigestsAre(items, digest)
    ensures Safe(w, After(w, items), digest)
  {
    if items != [] {
      var n := |items| - 1;
      DestinationSafe(w, items[..n], digest);
      RunSafe(w, After(w, items[..n]), items[n], w.luck(n), digest);
    }
  }

  // At every moment of the conversation, then, however far the shell has come.
  lemma {:induction false} AlwaysSafe(w: World, items: seq<Item>, digest: string, n: nat)
    requires w.start.prompt == Blank && DigestsAre(items, digest) && n <= |items|
    ensures Safe(w, After(w, items[..n]), digest)
  {
    DestinationSafe(w, items[..n], digest);
  }

  // ----- A conversation without failed writes -----

  function Script(data: Data, digest: string): seq<Item> {
    [SetUp, Header, Payload(Lines(Encode(data))), EndOfData, Finish(digest)]
  }

  // What arrives of the data.
  function Arrived(luck: Luck, data: Data): Option<Data> {
    match luck.arrival
    case Whole => Some(data)
    case Partial => Some(luck.partial)
    case Absent => None
  }

  function Answer(luck: Luck): Reply {
    if luck.echoOff then Ready else Refused
  }

  lemma {:induction false} AfterSetUp(w: World)
    requires AtPrompt(w.start)
    ensures After(w, [SetUp]) == w.start.(echo := !w.luck(0).echoOff, output := [Answer(w.luck(0))])
  {
    AfterOne(w, [], SetUp);
    assert [] + [SetUp] == [SetUp];
    assert [] + [Answer(w.luck(0))] == [Answer(w.luck(0))];
  }

  lemma {:induction false} FeedPayload(r: Remote, data: Data, token: string, luck: Luck)
    requires Text.NoLineEnd(token) && r.doc == Some("")
    ensures Feed(r, Lines(Encode(data)), Delimiter(token), None, luck) == r.(doc := Some(Lines(Encode(data))))
  {
    PayloadSurvives(data, token, "");
    assert "" + Lines(Encode(data)) == Lines(Encode(data));
  }

  lemma {:induction false} FeedEndOfData(r: Remote, data: Data, token: string, luck: Luck)
    requires Text.NoLineEnd(token) && r.doc == Some(Lines(Encode(data)))
    ensures Feed(r, Delimiter(token) + "\r", Delimiter(token), None, luck)
            == r.(doc := None, temp := Arrived(luck, data), prompt := Blank)
  {
    PayloadSurvives(data, token, "");
    assert "\r" + "" == "\r";
  }

  // The whole payload arrives in the temporary file, as far as base64 -d is lucky.
  lemma {:induction false} AfterData(w: World, data: Data, digest: string)
    requires AtPrompt(w.start) && Text.NoLineEnd(w.names.token)
    ensures After(w, Script(data, digest)[..4])
            == After(w, [SetUp]).(temp := Arrived(w.luck(3), data))
  {
    var s := Script(data, digest);
    assert s[..1] == [SetUp];
    assert s[..2] == s[..1] + [s[1]] && s[..3] == s[..2] + [s[2]] && s[..4] == s[..3] + [s[3]];
    AfterSetUp(w);
    AfterOne(w, s[..1], s[1]);
    var r2 := After(w, s[..2]);
    AfterOne(w, s[..2], s[2]);
    FeedPayload(r2, data, w.names.token, w.luck(2));
    var r3 := After(w, s[..3]);
    AfterOne(w, s[..3], s[3]);
    FeedEndOfData(r3, data, w.names.token, w.luck(3));
  }

  lemma {:induction false} AfterFinish(w: World, data: Data, digest: string)
    requires AtPrompt(w.start) && Text.NoLineEnd(w.names.token)
    ensures After(w, Script(data, digest)) == RunFinish(w, After(w, Script(data, digest)[..4]), digest, w.luck(4))
  {
    var s := Script(data, digest);
    assert s == s[..4] + [s[4]];
    AfterOne(w, s[..4], s[4]);
    AfterData(w, data, digest);
    AfterSetUp(w);
  }

  // A file with this digest has arrived where mv puts it.
  ghost predicate Placed(w: World, r: Remote, digest: string) {
    if w.IntoDirectory() then r.dest == w.start.dest && r.inside.Some? && w.hash(r.inside.value) == digest
    else r.inside == w.start.inside && r.dest.Some? && w.hash(r.dest.value) == digest
  }

  // Status 0 means that the file was verified and moved, and that echo is back on.
  lemma {:induction false} ZeroMeansPlaced(w: World, data: Data, digest: string)
    requires AtPrompt(w.start) && Text.NoLineEnd(w.names.token)
    requires Exit(0) in After(w, Script(data, digest)).output
    ensures var r := After(w, Script(data, digest));
            && Placed(w, r, digest)
            && r.temp == None && r.doc == None && r.prompt == Blank && r.echo
  {
    AfterFinish(w, data, digest);
    AfterData(w, data, digest);
    AfterSetUp(w);
  }

  // A directory is not a file.
  ghost predicate Consistent(w: World) {
    w.IntoDirectory() ==> w.start.dest == None
  }

  // Exactly when status 0 means installed: the remote path must not be a directory.
  lemma {:induction false} ZeroMeansInstalled(w: World, data: Data, digest: string)
    requires AtPrompt(w.start) && Text.NoLineEnd(w.names.token) && Consistent(w)
    requires Exit(0) in After(w, Script(data, digest)).output
    ensures Installed(w, Script(data, digest), digest) <==> !w.IntoDirectory()
    ensures Clean(After(w, Script(data, digest)))
  {
    ZeroMeansPlaced(w, data, digest);
  }

  // Every command works.
  ghost predicate Lucky(w: World) {
    && !w.Blocked()
    && forall n :: var l := w.luck(n); l.echoOff && l.arrival == Whole && l.sha && l.chmod && l.mv && l.echoOn
  }

  // When every command works, status 0 is reported, and the destination is the source, byte
  // for byte, if and only if it is not a directory.
  lemma {:induction false} LuckyUpload(w: World, data: Data)
    requires AtPrompt(w.start) && Text.NoLineEnd(w.names.token) && Lucky(w) && Consistent(w)
    ensures var r := After(w, Script(data, w.hash(data)));
            && r.output == [Ready, Exit(0)]
            && (r.dest == Some(data) <==> !w.IntoDirectory())
            && (w.IntoDirectory() ==> r.dest == None && r.inside == Some(data))
  {
    AfterFinish(w, data, w.hash(data));
    AfterData(w, data, w.hash(data));
    AfterSetUp(w);
    assert [Ready] + [Exit(0)] == [Ready, Exit(0)];
  }

  // No open document, nothing half typed, no temporary file, echo on.
  ghost predicate Clean(r: Remote) {
    r.doc == None && r.prompt == Blank && r.temp == None && r.echo
  }

  // A file with this digest is in place and nothing is left behind.
  ghost predicate Installed(w: World, sent: seq<Item>, digest: string) {
    var r := After(w, sent);
    r.dest.Some? && w.hash(r.dest.value) == digest && Clean(r)
  }

  ghost predicate Injective(hash: Data -> string) {
    forall a, b :: hash(a) == hash(b) ==> a == b
  }

  // The two commands that undo the set-up work.
  ghost predicate CanUndo(w: World) {
    forall n :: w.luck(n).rm && w.luck(n).echoOn
  }

  // Ready for the next command.
  ghost predicate Quiet(r: Remote) {
    r.doc == None && r.prompt == Blank
  }

  lemma {:induction false} CleanUpCleans(w: World, items: seq<Item>)
    requires CanUndo(w) && Quiet(After(w, items))
    ensures Clean(After(w, items + [CleanUp]))
  {
    AfterOne(w, items, CleanUp);
    var r := After(w, items);
    assert Run(w, r, CleanUp, w.luck(|items|)) == r.(temp := None, echo := true);
  }

  // After each part of the conversation the shell is ready for the next command.
  lemma {:induction false} QuietAfter(w: World, data: Data, digest: string)
    requires AtPrompt(w.start) && Text.NoLineEnd(w.names.token)
    ensures Quiet(After(w, [SetUp]))
    ensures Quiet(After(w, Script(data, digest)[..4]))
    ensures Quiet(After(w, Script(data, digest)))
  {
    AfterSetUp(w);
    AfterData(w, data, digest);
    AfterFinish(w, data, digest);
  }

  lemma {:induction false} RefusedIsClean(w: World)
    requires AtPrompt(w.start) && Refused in After(w, [SetUp]).output
    ensures Clean(After(w, [SetUp]))
  {
    AfterSetUp(w);
  }

  // ----- RunFinish is what the command does -----

  function WorksOf(luck: Luck): RemoteShell.Works {
    RemoteShell.Works(luck.echoOff, luck.sha, luck.chmod, luck.mv, luck.rm, luck.echoOn)
  }

  function At(path: string, file: Option<Data>): RemoteShell.Files {
    if file.Some? then map[path := file.value] else map[]
  }

  function InsidePath(names: Names): string {
    RemoteShell.Inside(names.tempPath, names.remote)
  }

  // All files of the machine: the three that an upload can touch and all others.
  function FilesOf(names: Names, temp: Option<Data>, dest: Option<Data>, inside: Option<Data>,
                   others: RemoteShell.Files): RemoteShell.Files
  {
    others + At(names.tempPath, temp) + At(names.remote, dest) + At(InsidePath(names), inside)
  }

  // Three paths, and none of the other files.
  ghost predicate Apart(names: Names, others: RemoteShell.Files) {
    && names.tempPath != names.remote && names.tempPath != InsidePath(names) && names.remote != InsidePath(names)
    && names.tempPath !in others && names.remote !in others && InsidePath(names) !in others
  }

  lemma FilesRemoved(names: Names, r: Remote, others: RemoteShell.Files)
    requires Apart(names, others)
    ensures FilesOf(names, r.temp, r.dest, r.inside, others) - {names.tempPath}
         == FilesOf(names, None, r.dest, r.inside, others)
  {
  }

  lemma FileMoved(names: Names, r: Remote, others: RemoteShell.Files)
    requires Apart(names, others) && r.temp.Some?
    ensures (FilesOf(names, r.temp, r.dest, r.inside, others) - {names.tempPath})[names.remote := r.temp.value]
         == FilesOf(names, None, r.temp, r.inside, others)
  {
    FilesRemoved(names, r, others);
  }

  lemma FileMovedInside(names: Names, r: Remote, others: RemoteShell.Files)
    requires Apart(names, others) && r.temp.Some?
    ensures (FilesOf(names, r.temp, r.dest, r.inside, others) - {names.tempPath})[InsidePath(names) := r.temp.value]
         == FilesOf(names, None, r.dest, r.temp, others)
  {
    FilesRemoved(names, r, others);
  }

  // m is the machine that r tells about.
  ghost predicate Shows(w: World, r: Remote, others: RemoteShell.Files, m: RemoteShell.Machine) {
    && m.files == FilesOf(w.names, r.temp, r.dest, r.inside, others)
    && m.directories == w.directories && m.echo == r.echo
  }

  lemma TempShown(w: World, r: Remote, others: RemoteShell.Files, m: RemoteShell.Machine)
    requires Apart(w.names, others) && Shows(w, r, others, m)
    ensures w.names.tempPath in m.files <==> r.temp.Some?
    ensures r.temp.Some? ==> m.files[w.names.tempPath] == r.temp.value
  {
  }

  // The tree that is sent, run on a whole file system, has just the effect of RunFinish,
  // and leaves every other file alone.
  lemma {:induction false} FinishRefines(w: World, r: Remote, digest: string, luck: Luck, others: RemoteShell.Files,
                                         m: RemoteShell.Machine)
    requires Apart(w.names, others) && Shows(w, r, others, m)
    requires forall data :: ' ' !in w.hash(data)
    ensures var tree := RemoteShell.Finish(w.names.tempPath, w.names.remote, digest, Marker(w.names.token));
            var done, f := RemoteShell.Exec(tree, m, WorksOf(luck), w.hash).0, RunFinish(w, r, digest, luck);
            && Shows(w, f, others, done)
            && |f.output| == |r.output| + 1 && f.output[|r.output|].Exit?
            && done.reports == m.reports + [f.output[|r.output|].status]
            && done.printed == m.printed + RemoteShell.StatusLine(Marker(w.names.token), f.output[|r.output|].status)
  {
    var temp, remote, works := w.names.tempPath, w.names.remote, WorksOf(luck);
    RemoteShell.FinishMoves(temp, remote, digest, Marker(w.names.token), m, works, w.hash);
    TempShown(w, r, others, m);
    FilesRemoved(w.names, r, others);
    if RemoteShell.Good(temp, remote, digest, m, works, w.hash) {
      FileMoved(w.names, r, others);
      FileMovedInside(w.names, r, others);
    }
  }

  lemma {:induction false} CleanUpRefines(w: World, r: Remote, luck: Luck, others: RemoteShell.Files,
      m: RemoteShell.Machine)
    requires Apart(w.names, others) && Shows(w, r, others, m) && Quiet(r)
    ensures var done := RemoteShell.Exec(RemoteShell.CleanUp(w.names.tempPath), m, WorksOf(luck), w.hash).0;
            Shows(w, Run(w, r, CleanUp, luck), others, done)
  {
    var works := WorksOf(luck);
    FilesRemoved(w.names, r, others);
    var remove := RemoteShell.Remove(w.names.tempPath);
    assert RemoteShell.Exec(RemoteShell.CleanUp(w.names.tempPath), m, works, w.hash)
        == RemoteShell.Exec(RemoteShell.EchoOn, RemoteShell.Exec(remove, m, works, w.hash).0, works, w.hash);
  }

  // The set-up tree has the effect of its item, and the shell's answer is told by which of
  // the two markers it prints.
  lemma {:induction false} SetUpRefines(w: World, r: Remote, luck: Luck, others: RemoteShell.Files,
      m: RemoteShell.Machine)
    requires Apart(w.names, others) && Shows(w, r, others, m) && Quiet(r) && m.printed == ""
    ensures var tree := RemoteShell.SetUp(EchoImmunity.UPLOAD, w.names.token);
            var done, f := RemoteShell.Exec(tree, m, WorksOf(luck), w.hash).0, Run(w, r, SetUp, luck);
            && Shows(w, f, others, done) && f.output == r.output + [Answer(luck)]
            && (Text.Contains(done.printed, EchoImmunity.Ready(EchoImmunity.UPLOAD, w.names.token))
                <==> Answer(luck) == Ready)
            && (Text.Contains(done.printed, EchoImmunity.Failed(EchoImmunity.UPLOAD, w.names.token))
                <==> Answer(luck) == Refused)
  {
    EchoImmunity.PrefixesInUse();
    SetUpEffect(EchoImmunity.UPLOAD, w.names.token, m, WorksOf(luck), w.hash);
  }

  lemma {:induction false} SetUpEffect(p: string, token: string, m: RemoteShell.Machine, works: RemoteShell.Works,
                                       hash: Data -> string)
    requires EchoImmunity.MarkerPrefix(p) && m.printed == ""
    ensures var done := RemoteShell.Exec(RemoteShell.SetUp(p, token), m, works, hash).0;
            && done.files == m.files && done.directories == m.directories && done.echo == (m.echo && !works.echoOff)
            && (Text.Contains(done.printed, EchoImmunity.Ready(p, token)) <==> works.echoOff)
            && (Text.Contains(done.printed, EchoImmunity.Failed(p, token)) <==> !works.echoOff)
  {
    RemoteShell.SetUpAnswers(p, token, m, works, hash);
    RemoteShell.SetUpSays(p + "READY_", p + "FAILED_", token + "__", m, works, hash);
  }

  // The marker and the delimiter of an upload begin like its other markers, and are different.
  lemma Wires(token: string)
    ensures Marker(token) == EchoImmunity.UPLOAD + token + "__"
    ensures Delimiter(token) == EchoImmunity.UPLOAD + "DATA_" + token + "__" && Delimiter(token) != Marker(token)
  {
    assert "__DRONEOS_UPLOAD_" + "DATA_" == "__DRONEOS_UPLOAD_DATA_";
  }

  // ----- What is sent is what is executed -----

  lemma MarkerPlain(token: string)
    requires '\0' !in token && EchoImmunity.QuoteFree(token)
    ensures '\0' !in Marker(token) && EchoImmunity.QuoteFree(Marker(token))
  {
    forall c | c in Marker(token) ensures c != '\0' && c != '\'' {
      assert c in "__DRONEOS_UPLOAD_" || c in token || c in "__";
    }
  }

  // The shell reads the lines of an upload as the trees whose effects are those of their
  // items, and the header as the beginning of a here-document that is decoded into the
  // temporary file, whatever the paths, the digest and the token.
  lemma CommandsReadBack(names: Names, digest: string)
    requires '\0' !in names.tempPath && '\0' !in names.remote && '\0' !in digest
    requires '\0' !in names.token && EchoImmunity.QuoteFree(names.token)
    ensures ShellGrammar.Parse(FinishCommand(names, digest))
         == Some(RemoteShell.Finish(names.tempPath, names.remote, digest, Marker(names.token)))
    ensures ShellGrammar.Parse(RemoteShell.CleanupCommand(names.tempPath)) == Some(RemoteShell.CleanUp(names.tempPath))
    ensures ShellGrammar.Parse(EchoImmunity.Setup(EchoImmunity.UPLOAD, names.token))
         == Some(RemoteShell.SetUp(EchoImmunity.UPLOAD, names.token))
    ensures Tokens(HeaderLine(names.tempPath, Delimiter(names.token)), None)
         == Some([Word("base64"), Word("-d"), Into, Word(names.tempPath), Document, Word(Delimiter(names.token))])
  {
    MarkerPlain(names.token);
    forall c | c in Delimiter(names.token) ensures c != '\0' {
      assert c in "__DRONEOS_UPLOAD_DATA_" || c in names.token || c in "__";
    }
    HeaderReads(names.tempPath, Delimiter(names.token));
    ShellGrammar.FinishReadsBack(names.tempPath, names.remote, digest, Marker(names.token));
    ShellGrammar.CleanUpReadsBack(names.tempPath);
    ShellGrammar.SetUpReadsBack(EchoImmunity.UPLOAD, names.token);
  }

  // The part of a path up to its last slash.
  function Directory(path: string): string {
    if path == "" || path[|path| - 1] == '/' then path else Directory(path[..|path| - 1])
  }

  function TempPath(remote: string, token: string): Option<string> {
    if remote == "" || '\0' in remote || remote[|remote| - 1] == '/' then None
    else if RemoteShell.Base(remote) == "." || RemoteShell.Base(remote) == ".." then None
    else Some(remote + (".droneos-upload-" + token + ".tmp"))
  }

  predicate EndsWith(path: string, end: string) {
    |end| <= |path| && path[|path| - |end|..] == end
  }

  lemma {:induction false} BaseIsDots(path: string, dots: string)
    requires dots != "" && '/' !in dots
    ensures RemoteShell.Base(path) == dots <==> path == dots || EndsWith(path, "/" + dots)
    decreases |dots|
  {
    var n, m := |path| - 1, |dots| - 1;
    assert ("/" + dots)[m + 1] == dots[m];
    if path != "" && path[n] != '/' {
      var base := RemoteShell.Base(path[..n]);
      if m == 0 {
        BaseIsEmpty(path[..n]);
        LastTwo(path, "/", dots);
      } else {
        BaseIsDots(path[..n], dots[..m]);
        LastTwo(path, "/" + dots[..m], [dots[m]]);
        assert "/" + dots == "/" + dots[..m] + [dots[m]] && dots == dots[..m] + [dots[m]];
        assert path == path[..n] + [path[n]];
      }
    } else if path != "" {
      assert dots[m] in dots && path[|path| - 1] != dots[m];
    }
  }

  lemma BaseIsEmpty(path: string)
    ensures RemoteShell.Base(path) == "" <==> path == "" || path[|path| - 1] == '/'
  {
  }

  lemma LastTwo(path: string, front: string, last: string)
    requires path != "" && |last| == 1
    ensures var n := |path| - 1;
            EndsWith(path, front + last) <==> path[n] == last[0] && EndsWith(path[..n], front)
  {
    var n := |path| - 1;
    if |front| + 1 <= |path| {
      var k := n - |front|;
      assert path[k..] == path[..n][k..] + [path[n]];
      assert (front + last)[|front|] == last[0] && (front + last)[..|front|] == front;
      assert path[k..][..|front|] == path[..n][k..] && path[k..][|front|] == path[n];
    }
  }

  // Exactly which destinations are refused, and what the temporary path is otherwise.
  lemma {:induction false} TempPathExactlyWhen(remote: string, token: string)
    ensures TempPath(remote, token).None? <==>
              || remote == "" || '\0' in remote || remote == "." || remote == ".."
              || EndsWith(remote, "/") || EndsWith(remote, "/.") || EndsWith(remote, "/..")
    ensures TempPath(remote, token).Some? ==>
              TempPath(remote, token).value == remote + ".droneos-upload-" + token + ".tmp"
  {
    OneDot(remote);
    TwoDots(remote);
    EndsInSlash(remote);
    Seqs.Assoc(remote, ".droneos-upload-" + token, ".tmp");
    Seqs.Assoc(remote, ".droneos-upload-", token);
  }

  lemma SlashDots()
    ensures "/" + "." == "/." && "/" + ".." == "/.."
  {
  }

  lemma OneDot(path: string)
    ensures RemoteShell.Base(path) == "." <==> path == "." || EndsWith(path, "/.")
  {
    SlashDots();
    BaseIsDots(path, ".");
  }

  lemma TwoDots(path: string)
    ensures RemoteShell.Base(path) == ".." <==> path == ".." || EndsWith(path, "/..")
  {
    SlashDots();
    BaseIsDots(path, "..");
  }

  lemma EndsInSlash(path: string)
    ensures EndsWith(path, "/") <==> path != "" && path[|path| - 1] == '/'
  {
  }

  lemma {:induction false} DirectoryOfLonger(path: string, suffix: string)
    requires '/' !in suffix
    ensures Directory(path + suffix) == Directory(path)
  {
    if suffix == "" {
      assert path + suffix == path;
    } else {
      var n := |suffix| - 1;
      assert suffix[n] in suffix;
      assert (path + suffix)[..|path| + n] == path + suffix[..n];
      DirectoryOfLonger(path, suffix[..n]);
    }
  }

  // The temporary file is another file in the directory of the destination, so that moving
  // it is one renaming.
  lemma {:induction false} TempPathIsBeside(remote: string, token: string)
    requires TempPath(remote, token).Some? && '/' !in token && '\0' !in token
    ensures var temp := TempPath(remote, token).value;
            && temp != remote && Directory(temp) == Directory(remote) && '\0' !in temp
            && temp != RemoteShell.Inside(temp, remote)
  {
    var suffix := ".droneos-upload-" + token + ".tmp";
    assert |suffix| > 0;
    forall c | c in suffix ensures c != '/' && c != '\0' {
      assert c in ".droneos-upload-" || c in token || c in ".tmp";
    }
    DirectoryOfLonger(remote, suffix);
    var temp := TempPath(remote, token).value;
    assert temp[|remote|] == '.' && RemoteShell.Inside(temp, remote)[|remote|] == '/';
  }

  // If the temporary path is plain, so is everything in it.
  lemma PlainNames(names: Names)
    requires TempPath(names.remote, names.token) == Some(names.tempPath) && ShellCuts.Plain(names.tempPath)
    ensures |names.tempPath| > 2
    ensures EchoImmunity.QuoteFree(names.remote) && '\0' !in names.remote
    ensures EchoImmunity.QuoteFree(names.token) && '\0' !in names.token
    ensures EchoImmunity.QuoteFree(Marker(names.token)) && '\0' !in Marker(names.token)
  {
    var middle := ".droneos-upload-" + names.token + ".tmp";
    PartsPlain(names.remote, names.token, names.tempPath);
    MarkerPlain(names.token);
    assert |middle| > 2;
  }

  lemma PartsPlain(remote: string, token: string, temp: string)
    requires temp == remote + (".droneos-upload-" + token + ".tmp")
    requires EchoImmunity.QuoteFree(temp) && '\0' !in temp
    ensures EchoImmunity.QuoteFree(remote) && '\0' !in remote
    ensures EchoImmunity.QuoteFree(token) && '\0' !in token
  {
    assert forall c :: c in remote || c in token ==> c in temp;
  }

  // A write that fails leaves part of its line behind, and the clean-up command joins it.  For
  // a plain path, what the shell can parse of such a finish command touches no file but the
  // temporary one, which it moves to its target only with the digest, past all checks.
  lemma CutFinishIsSafe(names: Names, digest: string, n: nat, m: RemoteShell.Machine, works: RemoteShell.Works,
                        hash: Data -> string)
    requires TempPath(names.remote, names.token) == Some(names.tempPath) && ShellCuts.Plain(names.tempPath)
    requires EchoImmunity.QuoteFree(digest) && '\0' !in digest && forall data :: ' ' !in hash(data)
    requires n <= |FinishCommand(names, digest)|
    ensures CutCommands.CutIsSafe(FinishCommand(names, digest)[..n] + RemoteShell.CleanupCommand(names.tempPath),
              names.tempPath, names.remote, digest, m, works, hash)
  {
    PlainNames(names);
    CutCommands.CutFinishIsSafe(n, names.tempPath, names.remote, digest, Marker(names.token), m, works, hash);
  }

  // Of such a set-up line, it touches no file but the temporary one.
  lemma CutSetUpIsHarmless(names: Names, n: nat, m: RemoteShell.Machine, works: RemoteShell.Works,
                           hash: Data -> string)
    requires TempPath(names.remote, names.token) == Some(names.tempPath) && ShellCuts.Plain(names.tempPath)
    requires n <= |EchoImmunity.Setup(EchoImmunity.UPLOAD, names.token)|
    ensures var line := EchoImmunity.Setup(EchoImmunity.UPLOAD, names.token);
            CutCommands.CutIsHarmless(line[..n] + RemoteShell.CleanupCommand(names.tempPath),
              names.tempPath, m, works, hash)
  {
    PlainNames(names);
    CutCommands.CutSetUpIsHarmless(n, EchoImmunity.UPLOAD, names.token, names.tempPath, m, works, hash);
  }

  // Such a path is accepted: an upload to /opt, where every command works, reports success
  // and installs nothing there.
  lemma DirectoryAccepted(token: string, data: Data, hash: Data -> string) returns (w: World)
    requires Text.NoLineEnd(token)
    ensures TempPath(w.names.remote, token) == Some(w.names.tempPath) && w.names.token == token && w.hash == hash
    ensures AtPrompt(w.start) && Consistent(w)
    ensures var r := After(w, Script(data, hash(data))); r.output == [Ready, Exit(0)] && r.dest == None
  {
    var luck := Luck(true, Whole, [], true, true, true, true, true, false, None, true, None, false);
    var start := Remote(true, None, Blank, None, None, None, []);
    var temp := "/opt" + (".droneos-upload-" + token + ".tmp");
    w := World(Names(temp, "/opt", token), hash, {"/opt"}, _ => luck, start);
    assert |RemoteShell.Inside(temp, "/opt")| > |"/opt"|;
    OptIsAName();
    LuckyUpload(w, data);
  }

  lemma OptIsAName()
    ensures TempPath("/opt", "").Some?
  {
    assert "/opt"[..3] == "/op" && "/op"[..2] == "/o" && "/o"[..1] == "/";
    assert RemoteShell.Base("/o") == RemoteShell.Base("/") + "o" == "o";
    assert RemoteShell.Base("/op") == RemoteShell.Base("/o") + "p";
    assert RemoteShell.Base("/opt") == RemoteShell.Base("/op") + "t";
  }
}
