/** The client's side of an upload, with its deferred clean-up. */
module UploadClient {
  import opened Base64
  import opened BrokenOff
  import opened HereDocument
  import opened LineWriter
  import opened Options
  import opened Upload
  import Text

  // The serial link and the shell behind it.
  class Link {
    const world: World
    // How the writes end, from the first one on, and how much of its input the shell has
    // consumed at the end of each coming wait.  Beyond these lists all goes well.
    const fates: seq<Fate>
    var waits: seq<nat>
    // What has reached the other end, the number of writes so far, and whether one has failed.
    var sent: seq<Item>
    var writes: nat
    var faulty: bool
    // What was written, whatever became of it.
    ghost var attempts: seq<Item>

    ghost predicate Valid()
      reads this
    {
      && writes == |attempts| && sent == Arriving(attempts, fates)
      && (faulty <==> !AllTaken(fates, |attempts|))
    }

    // Nothing goes wrong on the link from now on.
    ghost predicate Smooth()
      reads this
    {
      (forall i :: writes <= i < |fates| ==> fates[i].Taken?) && waits == []
    }

    constructor (world: World, fates: seq<Fate>, waits: seq<nat>)
      ensures Valid() && attempts == [] && this.world == world && this.fates == fates && this.waits == waits
    {
      this.world, this.fates, this.waits := world, fates, waits;
      sent, writes, faulty, attempts := [], 0, false, [];
    }

    method Write(item: Item) returns (ok: bool)
      requires Valid()
      modifies this
      ensures Valid() && waits == old(waits) && attempts == old(attempts) + [item]
      ensures ok == FateAt(fates, |old(attempts)|).Taken? && faulty == (old(faulty) || !ok)
      ensures sent == old(sent) + Left(item, FateAt(fates, |old(attempts)|))
      ensures old(Smooth()) ==> ok && Smooth()
    {
      var fate := FateAt(fates, writes);
      ArrivingOne(attempts, item, fates);
      OneMoreTaken(fates, writes);
      sent := sent + Left(item, fate);
      ok := fate.Taken?;
      faulty := faulty || !ok;
      writes, attempts := writes + 1, attempts + [item];
    }

    // Waits for an exit status, or for the answer to the set-up, among what the shell has
    // printed by then; None when the time is up.
    method Wait(exit: bool) returns (reply: Option<Reply>)
      modifies `waits
      ensures waits == if old(waits) == [] then [] else old(waits)[1..]
      ensures reply == FirstOf(After(world, sent[..Seen(old(waits), 0, |sent|)]).output, exit)
      ensures reply.Some? ==> reply.value.Exit? == exit && reply.value in After(world, sent).output
      ensures old(Smooth()) ==> Smooth() && reply == FirstOf(After(world, sent).output, exit)
    {
      var n := Seen(waits, 0, |sent|);
      if waits != [] {
        waits := waits[1..];
      }
      OutputGrows(world, sent, n);
      assert n == |sent| ==> sent[..n] == sent;
      FirstOfIn(After(world, sent[..n]).output, exit);
      reply := FirstOf(After(world, sent[..n]).output, exit);
    }
  }

  // How much of the n items sent the shell has consumed at the end of the wait with that number.
  function Seen(waits: seq<nat>, i: nat, n: nat): (seen: nat)
    ensures seen <= n
  {
    if i < |waits| && waits[i] <= n then waits[i] else n
  }

  // Both answers are the right ones, as far as the shell has come by then.
  ghost predicate Answered(w: World, waits: seq<nat>, script: seq<Item>)
    requires |script| == 5
  {
    && FirstOf(After(w, [SetUp][..Seen(waits, 0, 1)]).output, false) == Some(Ready)
    && FirstOf(After(w, script[..Seen(waits, 1, 5)]).output, true) == Some(Exit(0))
  }

  function FirstOf(replies: seq<Reply>, exit: bool): Option<Reply> {
    if replies == [] then None
    else if replies[0].Exit? == exit then Some(replies[0])
    else FirstOf(replies[1..], exit)
  }

  lemma {:induction false} FirstOfIn(replies: seq<Reply>, exit: bool)
    ensures var r := FirstOf(replies, exit); r.Some? ==> r.value in replies && r.value.Exit? == exit
  {
    if replies != [] {
      FirstOfIn(replies[1..], exit);
    }
  }

  lemma {:induction false} OutputGrows(w: World, items: seq<Item>, n: nat)
    requires n <= |items|
    ensures After(w, items[..n]).output <= After(w, items).output
  {
    if n == |items| {
      assert items[..n] == items;
    } else {
      var m := |items| - 1;
      OutputGrows(w, items[..m], n);
      assert items[..m][..n] == items[..n];
      RunPrints(w, After(w, items[..m]), items[m], w.luck(m));
    }
  }

  lemma RunPrints(w: World, r: Remote, item: Item, luck: Luck)
    ensures r.output <= Run(w, r, item, luck).output
  {
    if r.doc.Some? {
      FeedPrints(r, Sent(w.names, item), Delimiter(w.names.token), DigestIn(item), luck);
    }
  }

  lemma FeedPrints(r: Remote, text: string, delimiter: string, digest: Option<string>, luck: Luck)
    requires r.doc.Some?
    ensures r.output <= Feed(r, text, delimiter, digest, luck).output
  {
  }

  // The file to upload: what could be read of it, and whether reading it then failed.
  datatype Source = Source(data: Data, failed: bool)

  // The first item, and the wait for its answer.
  method BeginUpload(link: Link) returns (ok: bool, restoreNeeded: bool)
    requires link.Valid() && link.attempts == [] && AtPrompt(link.world.start)
    modifies link
    ensures link.Valid() && link.attempts == [SetUp]
    ensures link.faulty ==> link.waits == old(link.waits)
    ensures !link.faulty ==> link.waits == if old(link.waits) == [] then [] else old(link.waits)[1..]
    ensures ok <==> AllTaken(link.fates, 1)
                    && FirstOf(After(link.world, [SetUp][..Seen(old(link.waits), 0, 1)]).output, false) == Some(Ready)
    ensures ok ==> !link.faulty && restoreNeeded
    ensures !restoreNeeded ==> !link.faulty && Refused in After(link.world, [SetUp]).output
    ensures old(link.Smooth()) && Lucky(link.world) ==> ok && link.Smooth()
    ensures old(link.Smooth()) && !link.world.luck(0).echoOff ==> !ok && !restoreNeeded
  {
    restoreNeeded := true;
    ok := link.Write(SetUp);
    assert [] + [SetUp] == [SetUp];
    if !ok {
      return;
    }
    AfterSetUp(link.world);
    TakenArrives([SetUp], link.fates);
    var reply := link.Wait(false);
    if reply.None? {
      ok := false;
    } else if reply.value == Refused {
      ok, restoreNeeded := false, false;
    }
  }

  // The document: its header, the data, its end.  `residue` is what the line writer goes on
  // holding when a write of the data fails, and `held` what it holds in fact.
  method SendDocument(link: Link, source: Source, residue: string, ghost digest: string)
    returns (ok: bool, heredocOpen: bool, held: string)
    requires link.Valid() && link.attempts == [SetUp] && !link.faulty
    modifies link
    ensures link.Valid() && link.waits == old(link.waits)
    ensures 2 <= |link.attempts| <= 4 && link.attempts == Script(source.data, digest)[..|link.attempts|]
    ensures AllTaken(link.fates, |link.attempts| - 1)
    ensures ok ==> !link.faulty && !source.failed && !heredocOpen && |link.attempts| == 4
    ensures !ok ==> heredocOpen && held == Held(link.fates, |link.attempts|, residue)
    ensures !ok ==> link.faulty || (source.failed && |link.attempts| == 3)
    ensures ok <==> AllTaken(link.fates, 4) && !source.failed
    ensures old(link.Smooth()) && !source.failed ==> ok && link.Smooth()
  {
    ghost var script := Script(source.data, digest);
    heredocOpen, held := true, "";
    ok := link.Write(Header);
    assert link.attempts == script[..2];
    if !ok {
      return;
    }
    ok := link.Write(Payload(Lines(Encode(source.data))));
    assert link.attempts == script[..3];
    if !ok {
      held := residue;
      return;
    }
    if source.failed {
      ok := false;
      return;
    }
    ok := link.Write(EndOfData);
    assert link.attempts == script[..4];
    if ok {
      heredocOpen := false;
    }
  }

  // The conversation, up to where it stops, and what is then left to undo.
  method Converse(link: Link, source: Source, residue: string)
    returns (ok: bool, heredocOpen: bool, restoreNeeded: bool, held: string)
    requires link.Valid() && link.attempts == []
    requires AtPrompt(link.world.start) && Text.NoLineEnd(link.world.names.token) && Consistent(link.world)
    modifies link
    ensures link.Valid()
    ensures var script, k := Script(source.data, link.world.hash(source.data)), |link.attempts|;
            1 <= k <= 5 && link.attempts == script[..k] && AllTaken(link.fates, k - 1)
    ensures !ok ==>
              Breaks(link.world, source.data, residue, link.fates, link.attempts, heredocOpen, restoreNeeded, held)
    ensures ok <==> AllTaken(link.fates, 5) && !source.failed
                    && Answered(link.world, old(link.waits), Script(source.data, link.world.hash(source.data)))
    ensures ok ==> |link.attempts| == 5 && !link.faulty
    ensures ok ==> link.sent == Script(source.data, link.world.hash(source.data))
    ensures ok ==> Exit(0) in After(link.world, link.sent).output
    ensures old(link.Smooth()) && !source.failed && Lucky(link.world) ==> ok
    ensures old(link.Smooth()) && !link.world.luck(0).echoOff ==> !ok && !heredocOpen && !restoreNeeded
  {
    var digest := link.world.hash(source.data);
    ghost var script := Script(source.data, digest);
    heredocOpen, held := false, "";
    ok, restoreNeeded := BeginUpload(link);
    assert script[..1] == [SetUp];
    if !ok {
      return;
    }
    ok, heredocOpen, held := SendDocument(link, source, residue, digest);
    if !ok {
      return;
    }
    held := "";
    ok := FinishUpload(link, source.data, digest);
  }

  lemma LastItem(data: Data, digest: string)
    ensures var s := Script(data, digest); s[..4] + [Finish(digest)] == s && s[..5] == s && |s| == 5
  {
  }

  lemma {:induction false} LuckyAnswer(w: World, data: Data)
    requires AtPrompt(w.start) && Text.NoLineEnd(w.names.token) && Lucky(w) && Consistent(w)
    ensures FirstOf(After(w, Script(data, w.hash(data))).output, true) == Some(Exit(0))
  {
    LuckyUpload(w, data);
    assert [Ready, Exit(0)][1..] == [Exit(0)];
  }

  // The finish command, and the wait for the status it reports.
  method FinishUpload(link: Link, data: Data, digest: string) returns (ok: bool)
    requires link.Valid() && link.attempts == Script(data, digest)[..4] && !link.faulty
    requires AtPrompt(link.world.start) && Text.NoLineEnd(link.world.names.token) && Consistent(link.world)
    requires digest == link.world.hash(data)
    modifies link
    ensures link.Valid() && link.attempts == Script(data, digest) == Script(data, digest)[..5]
    ensures ok ==> !link.faulty && link.sent == Script(data, digest)
    ensures ok ==> Exit(0) in After(link.world, link.sent).output
    ensures ok <==> AllTaken(link.fates, 5)
                    && FirstOf(After(link.world, Script(data, digest)[..Seen(old(link.waits), 0, 5)]).output, true)
                       == Some(Exit(0))
    ensures old(link.Smooth()) && Lucky(link.world) ==> ok
  {
    LastItem(data, digest);
    ok := link.Write(Finish(digest));
    if !ok {
      return;
    }
    TakenArrives(link.attempts, link.fates);
    if Lucky(link.world) {
      LuckyAnswer(link.world, data);
    }
    var reply := link.Wait(true);
    ok := reply.Some? && reply.value.status == 0;
  }

  // The deferred part: everything is attempted, in order, whatever becomes of it.
  method Undo(link: Link, heredocOpen: bool, restoreNeeded: bool, held: string)
    requires link.Valid()
    modifies link
    ensures link.Valid() && link.attempts == old(link.attempts) + Deferred(heredocOpen, restoreNeeded, held)
    ensures Arrive(link.fates, |old(link.attempts)|, |link.attempts|) ==>
              link.sent == old(link.sent) + Deferred(heredocOpen, restoreNeeded, held)
  {
    var ok;
    if heredocOpen {
      if held != "" {
        ok := link.Write(Payload(held));
      }
      ok := link.Write(EndOfData);
    }
    if restoreNeeded {
      ok := link.Write(CleanUp);
    }
    ghost var deferred := Deferred(heredocOpen, restoreNeeded, held);
    DeferredParts(old(link.attempts), heredocOpen, restoreNeeded, held);
    if Arrive(link.fates, |old(link.attempts)|, |link.attempts|) {
      DeferredArrives(old(link.attempts), deferred, link.fates);
    }
  }

  lemma DeferredParts(was: seq<Item>, heredocOpen: bool, restoreNeeded: bool, held: string)
    ensures var first := if heredocOpen && held != "" then was + [Payload(held)] else was;
            var more := if heredocOpen then first + [EndOfData] else first;
            was + Deferred(heredocOpen, restoreNeeded, held) == if restoreNeeded then more + [CleanUp] else more
  {
  }

  // The deferred part of an upload that has failed.
  method Abandon(link: Link, ghost data: Data, ghost residue: string, heredocOpen: bool, restoreNeeded: bool,
                 held: string)
    requires link.Valid() && AtPrompt(link.world.start) && Text.NoLineEnd(link.world.names.token)
    requires Breaks(link.world, data, residue, link.fates, link.attempts, heredocOpen, restoreNeeded, held)
    modifies link
    ensures link.Valid() && StoppedAt(link.world, data, residue, link.fates, link.attempts, |old(link.attempts)|)
    ensures DigestsAre(link.sent, link.world.hash(data)) && (!restoreNeeded ==> link.sent == [SetUp])
    ensures LeavesClean(link.world, residue, link.fates, link.attempts, |old(link.attempts)|)
  {
    ghost var k := |link.attempts|;
    DeferredStops(link.world, data, residue, link.fates, link.attempts, heredocOpen, restoreNeeded, held);
    Undo(link, heredocOpen, restoreNeeded, held);
    StoppedMeans(link.world, data, residue, link.fates, link.attempts, k);
  }

  // What success means: the verified file has been moved and nothing is left open; and the
  // file is where it was meant to be if and only if that is not a directory.
  ghost predicate Succeeded(w: World, sent: seq<Item>, data: Data) {
    var r, digest := After(w, sent), w.hash(data);
    && Clean(r) && Placed(w, r, digest) && (Installed(w, sent, digest) <==> !w.IntoDirectory())
    && (Injective(w.hash) || Lucky(w) ==> (r.dest == Some(data) <==> !w.IntoDirectory()))
  }

  lemma {:induction false} ZeroSucceeds(w: World, data: Data)
    requires AtPrompt(w.start) && Text.NoLineEnd(w.names.token) && Consistent(w)
    requires Exit(0) in After(w, Script(data, w.hash(data))).output
    ensures Succeeded(w, Script(data, w.hash(data)), data)
    ensures DigestsAre(Script(data, w.hash(data)), w.hash(data))
  {
    ZeroMeansPlaced(w, data, w.hash(data));
    ZeroMeansInstalled(w, data, w.hash(data));
    if Lucky(w) {
      LuckyUpload(w, data);
    }
  }

  ghost predicate SafeThroughout(w: World, sent: seq<Item>, digest: string) {
    forall n :: 0 <= n <= |sent| ==> Safe(w, After(w, sent[..n]), digest)
  }

  lemma {:induction false} AlwaysSafeAll(w: World, sent: seq<Item>, digest: string)
    requires w.start.prompt == Blank && DigestsAre(sent, digest)
    ensures SafeThroughout(w, sent, digest)
  {
    forall n | 0 <= n <= |sent| ensures Safe(w, After(w, sent[..n]), digest) {
      AlwaysSafe(w, sent, digest, n);
    }
  }

  // The whole upload; it stops after the first k items of the conversation.
  method RunUpload(link: Link, source: Source, residue: string) returns (ok: bool, ghost k: nat)
    requires link.Valid() && link.attempts == []
    requires AtPrompt(link.world.start) && Text.NoLineEnd(link.world.names.token) && Consistent(link.world)
    modifies link
    ensures link.Valid()
    // What is written, whatever becomes of it: all of the conversation, or as much as succeeds
    // of it and one item more, and then everything that is deferred.
    ensures ok ==> link.attempts == link.sent == Script(source.data, link.world.hash(source.data))
    ensures !ok ==> StoppedAt(link.world, source.data, residue, link.fates, link.attempts, k)
    // Exactly when it reports success.
    ensures ok <==> AllTaken(link.fates, 5) && !source.failed
                    && Answered(link.world, old(link.waits), Script(source.data, link.world.hash(source.data)))
    // At every moment the destination is the old file or one with the digest of the source.
    ensures SafeThroughout(link.world, link.sent, link.world.hash(source.data))
    ensures ok ==> Succeeded(link.world, link.sent, source.data)
    // When nothing goes wrong anywhere, the file is uploaded.
    ensures old(link.Smooth()) && !source.failed && Lucky(link.world) ==> ok
    // When the terminal refuses, nothing more is sent.
    ensures old(link.Smooth()) && !link.world.luck(0).echoOff ==> !ok && link.sent == [SetUp]
    // Without failed writes the remote ends up clean whatever happened; and so it does after one
    // that was lost, reported as failed, or a part of the payload, if the deferred ones get through.
    ensures !ok ==> LeavesClean(link.world, residue, link.fates, link.attempts, k)
  {
    var heredocOpen, restoreNeeded, held;
    ghost var digest := link.world.hash(source.data);
    ok, heredocOpen, restoreNeeded, held := Converse(link, source, residue);
    k := |link.attempts|;
    if ok {
      ZeroSucceeds(link.world, source.data);
    } else {
      Abandon(link, source.data, residue, heredocOpen, restoreNeeded, held);
    }
    AlwaysSafeAll(link.world, link.sent, digest);
  }
}
