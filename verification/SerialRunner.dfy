/** The serial console reader: a bounded buffer of what was last received, a wait for one
    of several texts, and a wait for the exit status. */
module SerialRunner {
  import opened Contexts
  import opened Options
  import opened Seqs
  import opened Text

  const MAX_BUFFER := 65536
  const SCRATCH := 1024

  // The longest text whose arrival cannot be missed, however the reads fall.
  const MAX_NEEDLE := MAX_BUFFER - (SCRATCH - 1)

  // needle occupies the characters of text that end just before position end.
  predicate EndsAt(text: string, end: nat, needle: string) {
    |needle| <= end <= |text| && text[end - |needle|..end] == needle
  }

  // A text that ends in the last read survives the trimming that this read causes if
  // and only if it and what came after it fit the buffer.
  lemma SurvivesTrimming(stream: string, end: nat, needle: string)
    requires EndsAt(stream, end, needle)
    ensures |needle| + (|stream| - end) <= MAX_BUFFER ==> Contains(Last(stream, MAX_BUFFER), needle)
    ensures |needle| + (|stream| - end) <= MAX_BUFFER <==> |stream| - |Last(stream, MAX_BUFFER)| <= end - |needle|
  {
    var kept := Last(stream, MAX_BUFFER);
    var cut := |stream| - |kept|;
    if cut <= end - |needle| {
      assert kept == stream[cut..];
      assert kept[end - |needle| - cut..end - cut] == stream[end - |needle|..end];
      assert At(kept, end - |needle| - cut, needle);
    }
  }

  // A text of at most MAX_NEEDLE characters that a read completes is in the buffer when that
  // read returns.
  lemma FoundAtItsRead(stream: string, data: string, end: nat, needle: string)
    requires |data| <= 1024 && |needle| <= 64513
    requires |stream| < end && EndsAt(stream + data, end, needle)
    ensures Contains(Last(stream + data, 65536), needle)
  {
    SurvivesTrimming(stream + data, end, needle);
  }

  // None of the needles ends in text between the two positions.
  ghost predicate NoneEnds(text: string, from: nat, to: nat, needles: seq<string>) {
    forall needle, end: nat :: needle in needles && 0 < |needle| <= 64513 && from < end <= to ==>
      !EndsAt(text, end, needle)
  }

  lemma NoneEndsAppend(text: string, data: string, from: nat, to: nat, needles: seq<string>)
    requires NoneEnds(text, from, to, needles) && to <= |text|
    ensures NoneEnds(text + data, from, to, needles)
  {
    forall needle, end: nat | needle in needles && 0 < |needle| <= MAX_NEEDLE && from < end <= to
      ensures !EndsAt(text + data, end, needle)
    {
      assert !EndsAt(text, end, needle);
      if |needle| <= end {
        assert (text + data)[end - |needle|..end] == text[end - |needle|..end];
      }
    }
  }

  // A failed search of the buffer is a failed search of all that one read has added.
  lemma SearchedThrough(text: string, from: nat, searched: nat, needles: seq<string>)
    requires NoneEnds(text, from, searched, needles) && searched <= |text| <= searched + SCRATCH
    requires forall i :: 0 <= i < |needles| && needles[i] != "" ==> !Contains(Last(text, MAX_BUFFER), needles[i])
    ensures NoneEnds(text, from, |text|, needles)
  {
    forall needle, end: nat | needle in needles && 0 < |needle| <= MAX_NEEDLE && from < end <= |text|
      ensures !EndsAt(text, end, needle)
    {
      var i :| 0 <= i < |needles| && needles[i] == needle;
      if end <= searched {
        assert !EndsAt(text, end, needle);
      } else if EndsAt(text, end, needle) {
        SurvivesTrimming(text, end, needle);
      }
    }
  }

  // The stream as it was at each search for a status, which failed every time but the last.
  ghost predicate Searched(searches: seq<string>, prefix: string) {
    && searches != []
    && forall i :: 0 <= i < |searches| - 1 ==> Between(searches[i], searches[i + 1], prefix)
  }

  ghost predicate Between(one: string, next: string, prefix: string) {
    one <= next && |next| <= |one| + SCRATCH && Status(Last(one, MAX_BUFFER), prefix) == None
  }

  lemma SearchedMore(searches: seq<string>, next: string, prefix: string)
    requires Searched(searches, prefix) && Between(searches[|searches| - 1], next, prefix)
    ensures Searched(searches + [next], prefix)
  {
  }

  // The length of the first line of text, with its end.
  function LineLength(text: string): nat
    requires FirstLine(text).Line?
  {
    |text| - |FirstLine(text).rest|
  }

  // A status line at the beginning of a line, behind text that holds none.
  ghost predicate FirstStatus(text: string, prefix: string, tail: string) {
    && EndsLine(text) && NoStatus(text, prefix) && NoLineEnd(prefix) && prefix != ""
    && Number(tail).Some? && |prefix| + LineLength(tail) <= MAX_NEEDLE
  }

  lemma NumberOfPart(tail: string, n: nat)
    requires FirstLine(tail).Line? && LineLength(tail) <= n <= |tail|
    ensures Number(tail[..n]) == Number(tail)
  {
    var end := LineEndFrom(tail, 0).value;
    assert tail[..n][end] == tail[end];
    assert tail[..n][..end] == tail[..end];
  }

  // As long as its beginning has not been trimmed away, the buffer shows this status or
  // none, and shows it when the line is complete.
  lemma {:induction false} BufferStatus(seen: string, text: string, prefix: string, tail: string)
    requires FirstStatus(text, prefix, tail) && seen <= text + (prefix + tail) && |seen| <= |text| + MAX_BUFFER
    ensures var status := Status(Last(seen, MAX_BUFFER), prefix);
            && (status.Some? ==> status == Number(tail))
            && (|seen| >= |text| + |prefix| + LineLength(tail) ==> status == Number(tail))
  {
    var cut := |seen| - |Last(seen, MAX_BUFFER)|;
    assert Last(seen, MAX_BUFFER) == seen[cut..];
    if |seen| >= |text| + |prefix| + LineLength(tail) {
      CompleteStatus(seen, text, prefix, tail, cut);
    } else if Status(seen[cut..], prefix).Some? {
      WholeStatus(text, prefix, tail, cut, seen);
    }
  }

  lemma CutParts(seen: string, text: string, more: string, cut: nat)
    requires seen <= text + more && cut <= |text| && cut <= |seen|
    ensures seen[cut..] + (text + more)[|seen|..] == text[cut..] + more
    ensures |seen| >= |text| ==> seen[cut..] == text[cut..] + more[..|seen| - |text|]
  {
    var whole := text + more;
    assert whole == seen + whole[|seen|..];
    DropAppend(seen, whole[|seen|..], cut);
    DropAppend(text, more, cut);
    if |seen| >= |text| {
      assert seen == text + more[..|seen| - |text|];
      DropAppend(text, more[..|seen| - |text|], cut);
    }
  }

  lemma {:induction false} CompleteStatus(seen: string, text: string, prefix: string, tail: string, cut: nat)
    requires FirstStatus(text, prefix, tail) && seen <= text + (prefix + tail) && cut <= |text|
    requires |seen| >= |text| + |prefix| + LineLength(tail)
    ensures Status(seen[cut..], prefix) == Number(tail)
  {
    var n := |seen| - |text| - |prefix|;
    NumberOfPart(tail, n);
    NoStatusAfter(text, prefix, cut);
    StatusBehind(text[cut..], prefix, tail[..n]);
    CutParts(seen, text, prefix + tail, cut);
    assert (prefix + tail)[..|seen| - |text|] == prefix + tail[..n];
  }

  lemma {:induction false} WholeStatus(text: string, prefix: string, tail: string, cut: nat, seen: string)
    requires FirstStatus(text, prefix, tail) && seen <= text + (prefix + tail) && cut <= |text| && cut <= |seen|
    requires Status(seen[cut..], prefix).Some?
    ensures Status(seen[cut..], prefix) == Number(tail)
  {
    NoStatusAfter(text, prefix, cut);
    StatusBehind(text[cut..], prefix, tail);
    CutParts(seen, text, prefix + tail, cut);
    StatusStable(seen[cut..], (text + (prefix + tail))[|seen|..], prefix);
  }

  // However long the stream is, the first status line in it, if it begins a line and is not
  // too long, is the one that is read, and the read that completes it is the last one.
  lemma {:induction false} StatusNotMissed(searches: seq<string>, text: string, prefix: string, tail: string)
    requires Searched(searches, prefix) && FirstStatus(text, prefix, tail) && |searches[0]| <= |text| + MAX_BUFFER
    requires searches[|searches| - 1] <= text + (prefix + tail)
    ensures var last := searches[|searches| - 1];
            var status := Status(Last(last, MAX_BUFFER), prefix);
            && (status.Some? ==> status == Number(tail))
            && (|last| >= |text| + |prefix| + LineLength(tail) ==> status == Number(tail))
    decreases |searches|
  {
    var last := |searches| - 1;
    if last > 0 {
      assert Between(searches[last - 1], searches[last], prefix);
      assert searches[..last][last - 1] == searches[last - 1];
      StatusNotMissed(searches[..last], text, prefix, tail);
    }
    BufferStatus(searches[last], text, prefix, tail);
  }

  datatype ReadError = Fine | Eof | Broken

  datatype ReadStep = ReadStep(data: string, error: ReadError)

  // All the characters that the port still holds.
  function Carried(steps: seq<ReadStep>): string {
    if steps == [] then "" else steps[0].data + Carried(steps[1..])
  }

  // Nothing but a broken port breaks a read.
  ghost predicate Sound(steps: seq<ReadStep>) {
    forall step :: step in steps ==> step.error != Broken
  }

  // How often the port will still break a read.
  function Breaks(steps: seq<ReadStep>): nat {
    if steps == [] then 0 else (if steps[0].error == Broken then 1 else 0) + Breaks(steps[1..])
  }

  // The console port, as the list of answers it will give.
  class Port {
    var steps: seq<ReadStep>

    constructor (steps: seq<ReadStep>)
      ensures this.steps == steps
    {
      this.steps := steps;
    }

    // At most `room` characters; the rest of an answer, and its error, wait.
    method Read(room: nat) returns (data: string, error: ReadError)
      modifies this
      ensures |data| <= room
      ensures data + Carried(steps) == Carried(old(steps))
      ensures Breaks(old(steps)) == Breaks(steps) + if error == Broken then 1 else 0
      ensures Sound(old(steps)) ==> Sound(steps) && error != Broken
    {
      if steps == [] {
        return [], Eof;
      }
      var step := steps[0];
      if |step.data| <= room {
        steps := steps[1..];
        return step.data, step.error;
      }
      var later := steps[1..];
      steps := [ReadStep(step.data[room..], step.error)] + later;
      assert steps[1..] == later;
      assert step.data[..room] + step.data[room..] == step.data;
      Assoc(step.data[..room], step.data[room..], Carried(later));
      return step.data[..room], Fine;
    }
  }

  datatype Ending = Matched | Expired | ReadFailed | MirrorFailed

  class SerialRunner {
    const port: Port
    // Whether each coming write to the mirror fails; no mirror is a mirror that never does.
    var mirror: seq<bool>
    var recent: string

    // Everything appended since the last reset.
    ghost var stream: string

    ghost predicate Valid()
      reads this
    {
      recent == Last(stream, 65536)
    }

    constructor (port: Port, mirror: seq<bool>)
      ensures Valid() && stream == [] && this.port == port
    {
      this.port, this.mirror := port, mirror;
      recent, stream := [], [];
    }

    method Reset()
      modifies this
      ensures Valid() && stream == [] && mirror == old(mirror)
    {
      recent, stream := [], [];
    }

    // Keeps the last MAX_BUFFER characters.  A failing mirror keeps the data out.
    method Append(data: string) returns (ok: bool)
      requires Valid()
      modifies this
      ensures Valid()
      ensures ok == (old(mirror) == [] || !old(mirror)[0])
      ensures true !in old(mirror) ==> true !in mirror
      ensures stream == if ok then old(stream) + data else old(stream)
    {
      if mirror != [] {
        var failed := mirror[0];
        mirror := mirror[1..];
        if failed {
          return false;
        }
      }
      LastAppend(stream, data, MAX_BUFFER);
      stream := stream + data;
      recent := recent + data;
      if |recent| > MAX_BUFFER {
        recent := recent[|recent| - MAX_BUFFER..];
      }
      return true;
    }

    // One read, and what both of the following loops do with it.
    method ReadOn() returns (failure: Option<Ending>)
      requires Valid()
      modifies this, port
      ensures Valid() && old(stream) <= stream && |stream| <= |old(stream)| + 1024
      ensures failure.None? || failure == Some(MirrorFailed) || failure == Some(ReadFailed)
      ensures failure != Some(MirrorFailed) ==> stream + Carried(port.steps) == old(stream) + Carried(old(port.steps))
      ensures failure == Some(MirrorFailed) ==> true in old(mirror)
      ensures true !in old(mirror) ==> true !in mirror
      ensures failure == Some(ReadFailed) ==> !Sound(old(port.steps))
      ensures failure != Some(MirrorFailed) ==>
                Breaks(old(port.steps)) == Breaks(port.steps) + if failure == Some(ReadFailed) then 1 else 0
      ensures Sound(old(port.steps)) ==> Sound(port.steps)
    {
      var data, error := port.Read(SCRATCH);
      Assoc(stream, data, Carried(port.steps));
      if |data| > 0 {
        var ok := Append(data);
        if !ok {
          return Some(MirrorFailed);
        }
      }
      return if error == Broken then Some(ReadFailed) else None;
    }

    // Reads until one of the needles is in the buffer.  `searched` is how much of the stream
    // was there at the last search that failed: none of the needles was completed between
    // the call and then, so none was missed.
    method Expect(ctx: Context, needles: seq<string>) returns (text: string, ending: Ending, ghost searched: nat)
      requires Valid()
      modifies this, port, ctx
      ensures Valid() && old(stream) <= stream && |old(stream)| <= searched <= |stream| <= searched + SCRATCH
      ensures ending == Matched ==>
                text == recent && exists needle :: needle in needles && needle != "" && Contains(text, needle)
      ensures ending == Expired ==> searched == |stream|
      ensures ending == Expired ==> ctx.checks == 0
      ensures ending == ReadFailed ==> !Sound(old(port.steps))
      ensures ending == MirrorFailed ==> true in old(mirror)
      ensures ending != MirrorFailed ==> stream + Carried(port.steps) == old(stream) + Carried(old(port.steps))
      // Every error of the port ends the wait, and is reported.
      ensures ending != MirrorFailed ==>
                Breaks(old(port.steps)) == Breaks(port.steps) + if ending == ReadFailed then 1 else 0
      ensures NoneEnds(stream, |old(stream)|, searched, needles)
    {
      searched := |stream|;
      while true
        invariant Valid() && old(stream) <= stream && |old(stream)| <= searched <= |stream| <= searched + SCRATCH
        invariant NoneEnds(stream, |old(stream)|, searched, needles)
        invariant stream + Carried(port.steps) == old(stream) + Carried(old(port.steps))
        invariant Breaks(port.steps) == Breaks(old(port.steps))
        invariant Sound(old(port.steps)) ==> Sound(port.steps)
        invariant true !in old(mirror) ==> true !in mirror
        decreases ctx.checks
      {
        text := recent;
        for i := 0 to |needles|
          invariant forall j :: 0 <= j < i && needles[j] != "" ==> !Contains(text, needles[j])
        {
          if needles[i] != "" && Index(text, needles[i]).Some? {
            return text, Matched, searched;
          }
        }
        SearchedThrough(stream, |old(stream)|, searched, needles);
        searched := |stream|;
        var done := ctx.Done();
        if done {
          return text, Expired, searched;
        }
        ghost var was := stream;
        var failure := ReadOn();
        NoneEndsAppend(was, stream[|was|..], |old(stream)|, searched, needles);
        assert was + stream[|was|..] == stream;
        if failure.Some? {
          return text, failure.value, searched;
        }
      }
    }

    // The search of the buffer for a complete numeric status line.
    method ScanStatus(prefix: string) returns (status: Option<int>)
      ensures status == Status(recent, prefix)
    {
      var text := recent;
      var offset := 0;
      while true
        invariant offset <= |text| && Status(text[offset..], prefix) == Status(recent, prefix)
        decreases |text| - offset
      {
        var found := Index(text[offset..], prefix);
        if found.None? {
          return None;
        }
        var start := found.value + offset + |prefix|;
        var line := text[start..];
        assert line == text[offset..][found.value + |prefix|..];
        var end := LineEndFrom(line, 0);
        if end.None? {
          return None;
        }
        var number := Atoi(TrimSpace(line[..end.value]));
        if number.Some? {
          return number;
        }
        offset := start + end.value + 1;
        assert text[offset..] == line[end.value + 1..];
      }
    }

    // Reads until the buffer holds a complete numeric status line.  `searches` is the stream
    // as it was at each search.
    method WaitExitStatus(ctx: Context, marker: string)
      returns (status: Option<int>, ending: Ending, ghost searches: seq<string>)
      requires Valid()
      modifies this, port, ctx
      ensures Valid() && old(stream) <= stream
      ensures Searched(searches, marker + "EXIT:") && searches[0] == old(stream)
      ensures searches[|searches| - 1] <= stream && |stream| <= |searches[|searches| - 1]| + SCRATCH
      ensures status == Status(Last(searches[|searches| - 1], MAX_BUFFER), marker + "EXIT:")
      ensures ending == Matched || ending == Expired ==> searches[|searches| - 1] == stream
      ensures ending == Matched <==> status.Some?
      ensures ending == Expired ==> ctx.checks == 0
      ensures ending == ReadFailed ==> !Sound(old(port.steps))
      ensures ending == MirrorFailed ==> true in old(mirror)
      ensures ending != MirrorFailed ==> stream + Carried(port.steps) == old(stream) + Carried(old(port.steps))
      // Every error of the port ends the wait, and is reported.
      ensures ending != MirrorFailed ==>
                Breaks(old(port.steps)) == Breaks(port.steps) + if ending == ReadFailed then 1 else 0
      ensures ending == Matched || ending == Expired ==> status == Status(recent, marker + "EXIT:")
      ensures ending == Matched && |stream| <= MAX_BUFFER ==> status == Status(stream, marker + "EXIT:")
    {
      status, ending, searches := WaitStatus(ctx, marker + "EXIT:");
    }

    method WaitStatus(ctx: Context, prefix: string)
      returns (status: Option<int>, ending: Ending, ghost searches: seq<string>)
      requires Valid()
      modifies this, port, ctx
      ensures Valid() && old(stream) <= stream
      ensures Searched(searches, prefix) && searches[0] == old(stream)
      ensures searches[|searches| - 1] <= stream && |stream| <= |searches[|searches| - 1]| + SCRATCH
      ensures status == Status(Last(searches[|searches| - 1], MAX_BUFFER), prefix)
      ensures ending == Matched || ending == Expired ==> searches[|searches| - 1] == stream
      ensures ending == Matched <==> status.Some?
      ensures ending == Expired ==> ctx.checks == 0
      ensures ending == ReadFailed ==> !Sound(old(port.steps))
      ensures ending == MirrorFailed ==> true in old(mirror)
      ensures ending != MirrorFailed ==> stream + Carried(port.steps) == old(stream) + Carried(old(port.steps))
      // Every error of the port ends the wait, and is reported.
      ensures ending != MirrorFailed ==>
                Breaks(old(port.steps)) == Breaks(port.steps) + if ending == ReadFailed then 1 else 0
    {
      searches := [stream];
      while true
        invariant Valid() && old(stream) <= stream
        invariant Searched(searches, prefix) && searches[0] == old(stream) && searches[|searches| - 1] == stream
        invariant stream + Carried(port.steps) == old(stream) + Carried(old(port.steps))
        invariant Breaks(port.steps) == Breaks(old(port.steps))
        invariant Sound(old(port.steps)) ==> Sound(port.steps)
        invariant true !in old(mirror) ==> true !in mirror
        decreases ctx.checks
      {
        status := ScanStatus(prefix);
        if status.Some? {
          return status, Matched, searches;
        }
        var done := ctx.Done();
        if done {
          return None, Expired, searches;
        }
        var failure := ReadOn();
        if failure.Some? {
          return None, failure.value, searches;
        }
        SearchedMore(searches, stream, prefix);
        searches := searches + [stream];
      }
    }
  }
}
