/** An upload that is broken off: which writes are attempted, what arrives of them, and that
    the remote end is then left clean. */
module BrokenOff {
  import opened Base64
  import opened HereDocument
  import opened LineWriter
  import opened Options
  import opened Seqs
  import opened Text
  import opened Upload
  import EchoImmunity
  import RemoteShell
  import ShellWords

  // How one write ends: taken, taken but reported as failed, cut off with some text left
  // at the other end, or lost.
  datatype Fate = Taken | Misreported | CutOff(text: string) | Lost

  // The fate of the write with that number; beyond the list all goes well.
  function FateAt(fates: seq<Fate>, i: nat): Fate {
    if i < |fates| then fates[i] else Taken
  }

  // What a write leaves at the other end.
  function Left(item: Item, fate: Fate): seq<Item> {
    match fate
    case Taken => [item]
    case Misreported => [item]
    case CutOff(text) => [Cut(item, text)]
    case Lost => []
  }

  // What all the writes leave there.
  function Arriving(attempts: seq<Item>, fates: seq<Fate>): seq<Item> {
    if attempts == [] then []
    else
      var n := |attempts| - 1;
      Arriving(attempts[..n], fates) + Left(attempts[n], FateAt(fates, n))
  }

  // The first n writes succeed.
  ghost predicate AllTaken(fates: seq<Fate>, n: nat) {
    forall i :: 0 <= i < n ==> FateAt(fates, i).Taken?
  }

  lemma OneMoreTaken(fates: seq<Fate>, n: nat)
    ensures AllTaken(fates, n + 1) <==> AllTaken(fates, n) && FateAt(fates, n).Taken?
  {
  }

  lemma {:induction false} ArrivingOne(attempts: seq<Item>, item: Item, fates: seq<Fate>)
    ensures Arriving(attempts + [item], fates)
         == Arriving(attempts, fates) + Left(item, FateAt(fates, |attempts|))
  {
    assert (attempts + [item])[..|attempts|] == attempts;
  }

  lemma {:induction false} TakenArrives(attempts: seq<Item>, fates: seq<Fate>)
    requires AllTaken(fates, |attempts|)
    ensures Arriving(attempts, fates) == attempts
  {
    if attempts != [] {
      var n := |attempts| - 1;
      TakenArrives(attempts[..n], fates);
      assert attempts == attempts[..n] + [attempts[n]];
    }
  }

  // No digest arrives that was not sent.
  lemma {:induction false} ArrivingDigests(attempts: seq<Item>, fates: seq<Fate>, digest: string)
    requires DigestsAre(attempts, digest)
    ensures DigestsAre(Arriving(attempts, fates), digest)
  {
    if attempts != [] {
      var n := |attempts| - 1;
      ArrivingDigests(attempts[..n], fates, digest);
      assert DigestIn(attempts[n]) == None || DigestIn(attempts[n]) == Some(digest);
    }
  }

  // ----- What is attempted -----

  // What is attempted after an upload has been broken off: what the line writer still holds,
  // the delimiter, and the clean-up.
  function Deferred(heredocOpen: bool, restoreNeeded: bool, held: string): seq<Item> {
    (if heredocOpen then (if held == "" then [] else [Payload(held)]) + [EndOfData] else [])
    + (if restoreNeeded then [CleanUp] else [])
  }

  // The line writer holds something exactly if it was the payload, the third item, that failed.
  function Held(fates: seq<Fate>, k: nat, residue: string): string {
    if k == 3 && !FateAt(fates, 2).Taken? then residue else ""
  }

  // The conversation stopped after its first k items.  They were attempted in order, none
  // after a failed one; then everything deferred was, whatever became of each.  Only when
  // the terminal refused is nothing left to do.
  ghost predicate StoppedAt(w: World, data: Data, residue: string, fates: seq<Fate>, attempts: seq<Item>, k: nat) {
    && 1 <= k <= 5 && AllTaken(fates, k - 1)
    && (|| attempts == Script(data, w.hash(data))[..k] + Deferred(2 <= k <= 4, true, Held(fates, k, residue))
        || (k == 1 && attempts == [SetUp] && AllTaken(fates, 1) && Refused in After(w, [SetUp]).output))
  }

  // Where the conversation stops, with what is then left to do.
  ghost predicate Breaks(w: World, data: Data, residue: string, fates: seq<Fate>, attempts: seq<Item>,
                         heredocOpen: bool, restoreNeeded: bool, held: string)
  {
    var k := |attempts|;
    && 1 <= k <= 5 && attempts == Script(data, w.hash(data))[..k] && AllTaken(fates, k - 1)
    && heredocOpen == (2 <= k <= 4) && held == Held(fates, k, residue)
    && (restoreNeeded || (k == 1 && AllTaken(fates, 1) && Refused in After(w, [SetUp]).output))
  }

  lemma {:induction false} DeferredStops(w: World, data: Data, residue: string, fates: seq<Fate>, attempts: seq<Item>,
                                         heredocOpen: bool, restoreNeeded: bool, held: string)
    requires Breaks(w, data, residue, fates, attempts, heredocOpen, restoreNeeded, held)
    ensures StoppedAt(w, data, residue, fates, attempts + Deferred(heredocOpen, restoreNeeded, held), |attempts|)
    ensures !restoreNeeded ==> attempts + Deferred(heredocOpen, restoreNeeded, held) == [SetUp]
                               && Arriving([SetUp], fates) == [SetUp]
  {
    if !restoreNeeded {
      TakenArrives([SetUp], fates);
    }
  }

  lemma {:induction false} DeferredDigests(w: World, data: Data, residue: string, fates: seq<Fate>,
                                           attempts: seq<Item>, k: nat)
    requires StoppedAt(w, data, residue, fates, attempts, k)
    ensures DigestsAre(attempts, w.hash(data))
  {
  }

  // ----- What that leaves behind -----

  // The writes from number `from` up to number `to` arrive whole, though some may be reported
  // as failed.
  ghost predicate Arrive(fates: seq<Fate>, from: nat, to: nat) {
    forall i :: from <= i < to ==> FateAt(fates, i).Taken? || FateAt(fates, i).Misreported?
  }

  lemma {:induction false} DeferredArrives(first: seq<Item>, later: seq<Item>, fates: seq<Fate>)
    requires Arrive(fates, |first|, |first| + |later|)
    ensures Arriving(first + later, fates) == Arriving(first, fates) + later
  {
    if later == [] {
      assert first + later == first;
    } else {
      var n := |later| - 1;
      assert Arrive(fates, |first|, |first| + n);
      DeferredArrives(first, later[..n], fates);
      var fate := FateAt(fates, |first| + n);
      assert fate.Taken? || fate.Misreported?;
      LastArrives(first, later[..n], later[n], fates, fate);
      assert later == later[..n] + [later[n]];
    }
  }

  lemma {:induction false} LastArrives(first: seq<Item>, more: seq<Item>, last: Item, fates: seq<Fate>, fate: Fate)
    requires Arriving(first + more, fates) == Arriving(first, fates) + more
    requires fate == FateAt(fates, |first| + |more|) && (fate.Taken? || fate.Misreported?)
    ensures Arriving(first + (more + [last]), fates) == Arriving(first, fates) + (more + [last])
  {
    ArrivingOne(first + more, last, fates);
    Assoc(first, more, [last]);
    Assoc(Arriving(first, fates), more, [last]);
  }

  // Of the first k items, of which only the last can have failed, all arrived or all but that.
  lemma {:induction false} FirstArrive(script: seq<Item>, k: nat, fates: seq<Fate>)
    requires 1 <= k <= |script| && AllTaken(fates, k - 1) && !FateAt(fates, k - 1).CutOff?
    ensures Arriving(script[..k], fates) == script[..if FateAt(fates, k - 1).Lost? then k - 1 else k]
  {
    LastOfFirst(script, k);
    LastOneMay(script[..k - 1], script[k - 1], fates);
  }

  lemma LastOfFirst(script: seq<Item>, k: nat)
    requires 1 <= k <= |script|
    ensures script[..k] == script[..k - 1] + [script[k - 1]]
  {
  }

  lemma {:induction false} LastOneMay(first: seq<Item>, last: Item, fates: seq<Fate>)
    requires AllTaken(fates, |first|) && !FateAt(fates, |first|).CutOff?
    ensures Arriving(first + [last], fates) == if FateAt(fates, |first|).Lost? then first else first + [last]
  {
    TakenArrives(first, fates);
    ArrivingOne(first, last, fates);
    assert first + [] == first;
  }

  // The text of the document so far can be ended by the delimiter.
  ghost predicate Endable(w: World, r: Remote) {
    r.doc.Some? && OtherLines(r.doc.value, Delimiter(w.names.token))
  }

  // The delimiter ends a document, and at the prompt it is no command.
  lemma {:induction false} DelimiterQuiets(w: World, items: seq<Item>)
    requires Text.NoLineEnd(w.names.token)
    requires Endable(w, After(w, items)) || Quiet(After(w, items))
    ensures Quiet(After(w, items + [EndOfData]))
  {
    var r := After(w, items);
    AfterOne(w, items, EndOfData);
    DelimiterIsALine(w.names.token);
    if r.doc.Some? {
      OtherLinesRead(r.doc.value, Delimiter(w.names.token));
    }
  }

  // The document is open, and no line in it can be the delimiter.
  ghost predicate Filling(r: Remote) {
    r.doc.Some? && '_' !in r.doc.value
  }

  lemma LinesJoined(text: string, more: string, delimiter: string)
    requires '_' !in text && '_' !in more && more != "" && EndsLine(more) && delimiter != "" && delimiter[0] == '_'
    ensures OtherLines(text + more, delimiter)
  {
    assert (text + more)[|text + more| - 1] == more[|more| - 1];
    assert delimiter[0] in delimiter && '_' !in text + more;
  }

  // What the line writer sends again is lines of the payload, and ends the line that a write
  // may have broken off in the middle.
  lemma {:induction false} ResentKeepsOpen(w: World, items: seq<Item>, held: string)
    requires Text.NoLineEnd(w.names.token) && Filling(After(w, items)) && held != "" && EndsLine(held) && '_' !in held
    ensures Endable(w, After(w, items + [Payload(held)]))
  {
    var r := After(w, items);
    DelimiterIsALine(w.names.token);
    LinesJoined(r.doc.value, held, Delimiter(w.names.token));
    OtherLinesRead(r.doc.value + held, Delimiter(w.names.token));
    AfterOne(w, items, Payload(held));
  }

  lemma ScriptParts(data: Data, digest: string)
    ensures var s := Script(data, digest);
            && s[..0] == [] && s[..1] == [SetUp] && s[..2] == [SetUp] + [Header]
            && s[..3] == ([SetUp] + [Header]) + [Payload(Lines(Encode(data)))] && s[..5] == s
  {
  }

  // The document is open, and can be ended by the delimiter, whatever the payload.
  ghost predicate Open(w: World, r: Remote) {
    Endable(w, r) && Filling(r)
  }

  lemma {:induction false} HeaderOpens(w: World)
    requires AtPrompt(w.start) && Text.NoLineEnd(w.names.token)
    ensures After(w, [SetUp] + [Header]).doc == Some("") && Open(w, After(w, [SetUp] + [Header]))
  {
    AfterSetUp(w);
    AfterOne(w, [SetUp], Header);
    DelimiterIsALine(w.names.token);
    assert Delimiter(w.names.token)[0] in Delimiter(w.names.token);
  }

  lemma {:induction false} PayloadStaysOpen(w: World, items: seq<Item>, data: Data)
    requires Text.NoLineEnd(w.names.token) && After(w, items).doc == Some("")
    ensures Open(w, After(w, items + [Payload(Lines(Encode(data)))]))
  {
    var payload, delimiter := Lines(Encode(data)), Delimiter(w.names.token);
    DelimiterIsALine(w.names.token);
    assert delimiter[0] in delimiter;
    EncodedHasNoLineEnds(data);
    LinesAreOther(Encode(data), delimiter);
    LinesHold(Encode(data), '_');
    AfterOne(w, items, Payload(payload));
    FeedPayload(After(w, items), data, w.names.token, w.luck(|items|));
  }

  lemma {:induction false} OpenParts(w: World, data: Data, digest: string)
    requires AtPrompt(w.start) && Text.NoLineEnd(w.names.token)
    ensures Open(w, After(w, Script(data, digest)[..2])) && Open(w, After(w, Script(data, digest)[..3]))
  {
    ScriptParts(data, digest);
    HeaderOpens(w);
    PayloadStaysOpen(w, [SetUp] + [Header], data);
  }

  lemma {:induction false} QuietParts(w: World, data: Data, digest: string)
    requires AtPrompt(w.start) && Text.NoLineEnd(w.names.token)
    ensures Quiet(After(w, Script(data, digest)[..0])) && Quiet(After(w, Script(data, digest)[..1]))
    ensures Quiet(After(w, Script(data, digest)[..4])) && Quiet(After(w, Script(data, digest)[..5]))
  {
    ScriptParts(data, digest);
    QuietAfter(w, data, digest);
    assert After(w, []) == w.start;
  }

  // After each part of the conversation the prompt is back, or the document has whole lines of
  // the payload in it.
  lemma {:induction false} PartsAreEndable(w: World, data: Data, digest: string, k: nat)
    requires AtPrompt(w.start) && Text.NoLineEnd(w.names.token) && k <= 5
    ensures var r := After(w, Script(data, digest)[..k]); if k == 2 || k == 3 then Open(w, r) else Quiet(r)
  {
    if k == 2 || k == 3 {
      OpenParts(w, data, digest);
    } else {
      QuietParts(w, data, digest);
    }
  }

  lemma DeferredSplits(sent: seq<Item>, held: string)
    ensures sent + Deferred(true, true, held)
         == ((if held == "" then sent else sent + [Payload(held)]) + [EndOfData]) + [CleanUp]
    ensures sent + Deferred(false, true, held) == sent + [CleanUp]
  {
  }

  // The deferred part, when the document may be open.
  lemma {:induction false} OpenCleans(w: World, sent: seq<Item>, held: string)
    requires Text.NoLineEnd(w.names.token) && CanUndo(w) && EndsLine(held) && '_' !in held
    requires if held == "" then Open(w, After(w, sent)) || Quiet(After(w, sent)) else Filling(After(w, sent))
    ensures Clean(After(w, sent + Deferred(true, true, held)))
  {
    DeferredSplits(sent, held);
    var more := if held == "" then sent else sent + [Payload(held)];
    if held != "" {
      ResentKeepsOpen(w, sent, held);
    }
    DelimiterQuiets(w, more);
    CleanUpCleans(w, more + [EndOfData]);
  }

  // A part of the payload, cut off anywhere.
  lemma {:induction false} CutKeepsFilling(w: World, data: Data, digest: string, text: string)
    requires AtPrompt(w.start) && Text.NoLineEnd(w.names.token) && '_' !in text
    ensures Filling(After(w, Script(data, digest)[..2] + [Cut(Script(data, digest)[2], text)]))
  {
    var cut := Cut(Script(data, digest)[2], text);
    ScriptParts(data, digest);
    HeaderOpens(w);
    AfterOne(w, [SetUp] + [Header], cut);
    assert Delimiter(w.names.token)[0] == '_';
    OtherTextStaysOpen(text, Delimiter(w.names.token), '_');
    assert "" + text == text;
  }

  // The deferred part behind the first k items, or all of them but the last.
  lemma {:induction false} DeferredCleans(w: World, data: Data, digest: string, k: nat, n: nat, held: string)
    requires AtPrompt(w.start) && Text.NoLineEnd(w.names.token) && CanUndo(w)
    requires 1 <= k <= 5 && k - 1 <= n <= k && (k == 3 || held == "") && EndsLine(held) && '_' !in held
    ensures Clean(After(w, Script(data, digest)[..n] + Deferred(2 <= k <= 4, true, held)))
  {
    var sent := Script(data, digest)[..n];
    PartsAreEndable(w, data, digest, n);
    if 2 <= k <= 4 {
      OpenCleans(w, sent, held);
    } else {
      DeferredSplits(sent, held);
      CleanUpCleans(w, sent);
    }
  }

  // What the last of the first k writes may have left: nothing, all of it, or a part of the
  // payload that the line writer sends again.
  ghost predicate Mended(fates: seq<Fate>, k: nat, residue: string)
    requires k > 0
  {
    match FateAt(fates, k - 1)
    case CutOff(text) => k == 3 && '_' !in text && residue != ""
    case _ => true
  }

  // Wherever an upload stops, because a write was lost, or reported as failed, or because an
  // answer did not come or was the wrong one, or because a write of the payload was cut off:
  // if the deferred writes get through, the remote end is clean once it has consumed them.
  lemma {:induction false} BrokenOffCleans(w: World, data: Data, residue: string, fates: seq<Fate>,
                                           attempts: seq<Item>, k: nat)
    requires AtPrompt(w.start) && Text.NoLineEnd(w.names.token) && CanUndo(w)
    requires StoppedAt(w, data, residue, fates, attempts, k) && Mended(fates, k, residue)
    requires Arrive(fates, k, |attempts|)
    requires EndsLine(Held(fates, k, residue)) && '_' !in Held(fates, k, residue)
    ensures Clean(After(w, Arriving(attempts, fates)))
  {
    var script := Script(data, w.hash(data));
    var held := Held(fates, k, residue);
    if attempts == script[..k] + Deferred(2 <= k <= 4, true, held) {
      DeferredArrives(script[..k], Deferred(2 <= k <= 4, true, held), fates);
      if FateAt(fates, k - 1).CutOff? {
        CutPayloadCleans(w, data, fates, FateAt(fates, 2).text, residue);
      } else {
        FirstArrive(script, k, fates);
        DeferredCleans(w, data, w.hash(data), k, if FateAt(fates, k - 1).Lost? then k - 1 else k, held);
      }
    } else {
      TakenArrives(attempts, fates);
      RefusedIsClean(w);
    }
  }

  lemma {:induction false} CutArrives(script: seq<Item>, k: nat, fates: seq<Fate>, text: string)
    requires 1 <= k <= |script| && AllTaken(fates, k - 1) && FateAt(fates, k - 1) == CutOff(text)
    ensures Arriving(script[..k], fates) == script[..k - 1] + [Cut(script[k - 1], text)]
  {
    LastOfFirst(script, k);
    TakenArrives(script[..k - 1], fates);
    ArrivingOne(script[..k - 1], script[k - 1], fates);
  }

  lemma {:induction false} CutPayloadCleans(w: World, data: Data, fates: seq<Fate>, text: string, residue: string)
    requires AtPrompt(w.start) && Text.NoLineEnd(w.names.token) && CanUndo(w)
    requires AllTaken(fates, 2) && FateAt(fates, 2) == CutOff(text) && '_' !in text
    requires residue != "" && EndsLine(residue) && '_' !in residue
    ensures Clean(After(w, Arriving(Script(data, w.hash(data))[..3], fates) + Deferred(true, true, residue)))
  {
    var script := Script(data, w.hash(data));
    CutArrives(script, 3, fates, text);
    CutKeepsFilling(w, data, w.hash(data), text);
    OpenCleans(w, script[..2] + [Cut(script[2], text)], residue);
  }

  // Not so a delimiter that was cut off: the one sent again is the end of a longer line, and
  // the document, still open, swallows the clean-up command too.
  lemma {:induction false} CutDelimiterStaysOpen(w: World, data: Data, residue: string, fates: seq<Fate>,
                                                 attempts: seq<Item>, text: string)
    requires AtPrompt(w.start) && Text.NoLineEnd(w.names.token) && Text.NoLineEnd(w.names.tempPath)
    requires StoppedAt(w, data, residue, fates, attempts, 4) && Arrive(fates, 4, |attempts|)
    requires FateAt(fates, 3) == CutOff(text) && text != "" && Text.NoLineEnd(text)
    ensures var r := After(w, Arriving(attempts, fates)); r.doc.Some? && !Clean(r)
  {
    var script := Script(data, w.hash(data));
    DeferredArrives(script[..4], Deferred(true, true, ""), fates);
    CutArrives(script, 4, fates, text);
    DeferredSplits(script[..3] + [Cut(script[3], text)], "");
    OpenParts(w, data, w.hash(data));
    SwallowsAll(w, script[..3], text);
  }

  lemma {:induction false} SwallowsAll(w: World, items: seq<Item>, text: string)
    requires Text.NoLineEnd(w.names.token) && Text.NoLineEnd(w.names.tempPath) && Endable(w, After(w, items))
    requires text != "" && Text.NoLineEnd(text)
    ensures After(w, items + [Cut(EndOfData, text)] + [EndOfData] + [CleanUp]).doc.Some?
  {
    var one, two := items + [Cut(EndOfData, text)], items + [Cut(EndOfData, text)] + [EndOfData];
    var body, delimiter := After(w, items).doc.value, Delimiter(w.names.token);
    DelimiterIsALine(w.names.token);
    OtherLinesRead(body, delimiter);
    AfterOne(w, items, Cut(EndOfData, text));
    PartStaysOpen(body, text, delimiter);
    AfterOne(w, one, EndOfData);
    LongerLineStaysOpen(body, text, delimiter);
    AfterOne(w, two, CleanUp);
    var command := RemoteShell.CleanupCommand(w.names.tempPath);
    CleanUpIsALine(w.names.tempPath);
    LineStaysOpen(body + text + (delimiter + "\r"), command, delimiter);
  }

  lemma PartStaysOpen(body: string, text: string, delimiter: string)
    requires EndsLine(body) && ReadDocument(body, delimiter) == Document.Open && Text.NoLineEnd(text)
    ensures ReadDocument(body + text, delimiter) == Document.Open
  {
    OpenThen(body, text, delimiter);
  }

  lemma LongerLineStaysOpen(body: string, text: string, delimiter: string)
    requires EndsLine(body) && ReadDocument(body, delimiter) == Document.Open
    requires text != "" && Text.NoLineEnd(text) && Text.NoLineEnd(delimiter)
    ensures ReadDocument(body + text + (delimiter + "\r"), delimiter) == Document.Open
  {
    assert (text + delimiter) + ("\r" + "") == text + (delimiter + "\r");
    OneLine(text + delimiter, "", delimiter);
    Assoc(body, text, delimiter + "\r");
    OpenThen(body, text + (delimiter + "\r"), delimiter);
  }

  lemma LineStaysOpen(body: string, line: string, delimiter: string)
    requires EndsLine(body) && ReadDocument(body, delimiter) == Document.Open
    requires Text.NoLineEnd(line) && line != delimiter
    ensures ReadDocument(body + (line + "\r"), delimiter) == Document.Open
  {
    assert line + ("\r" + "") == line + "\r";
    OneLine(line, "", delimiter);
    OpenThen(body, line + "\r", delimiter);
  }

  lemma CleanUpIsALine(path: string)
    requires Text.NoLineEnd(path)
    ensures var command := RemoteShell.CleanupCommand(path); Text.NoLineEnd(command) && command[0] == 'r'
  {
    EchoImmunity.QuotedIsALine(path);
    forall c | c in RemoteShell.CleanupCommand(path) ensures !Text.IsLineEnd(c) {
      assert c in "rm -f -- " || c in ShellWords.ShellQuote(path) || c in "; stty echo";
    }
    assert RemoteShell.CleanupCommand(path)[0] == "rm -f -- "[0];
  }

  // Whether what has arrived leaves the remote end clean: if no write failed, whatever else
  // did; and after one that was lost, reported as failed, or a part of the payload, if the
  // deferred ones get through.
  ghost predicate LeavesClean(w: World, residue: string, fates: seq<Fate>, attempts: seq<Item>, k: nat)
    requires k > 0
  {
    CanUndo(w)
    && (AllTaken(fates, |attempts|)
        || (EndsLine(residue) && '_' !in residue && Mended(fates, k, residue) && Arrive(fates, k, |attempts|)))
    ==> Clean(After(w, Arriving(attempts, fates)))
  }

  lemma {:induction false} StoppedMeans(w: World, data: Data, residue: string, fates: seq<Fate>, attempts: seq<Item>,
                                        k: nat)
    requires AtPrompt(w.start) && Text.NoLineEnd(w.names.token)
    requires StoppedAt(w, data, residue, fates, attempts, k)
    ensures DigestsAre(Arriving(attempts, fates), w.hash(data)) && LeavesClean(w, residue, fates, attempts, k)
  {
    DeferredDigests(w, data, residue, fates, attempts, k);
    ArrivingDigests(attempts, fates, w.hash(data));
    EnoughAttempts(w, data, residue, fates, attempts, k);
    if CanUndo(w) {
      if AllTaken(fates, |attempts|)
        || (EndsLine(residue) && '_' !in residue && Mended(fates, k, residue) && Arrive(fates, k, |attempts|))
      {
        BrokenOffCleans(w, data, residue, fates, attempts, k);
      }
    }
  }

  lemma {:induction false} EnoughAttempts(w: World, data: Data, residue: string, fates: seq<Fate>,
                                          attempts: seq<Item>, k: nat)
    requires StoppedAt(w, data, residue, fates, attempts, k)
    ensures |attempts| >= k
    ensures AllTaken(fates, |attempts|) ==>
              Held(fates, k, residue) == "" && FateAt(fates, k - 1).Taken? && Arrive(fates, k, |attempts|)
  {
  }
}
