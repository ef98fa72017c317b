/** The writer that cuts base64 text into terminal lines. */
module LineWriter {
  import opened Seqs

  const WIDTH := 76

  // The complete lines of a text, each ended by a carriage return.
  function FullLines(text: string): string {
    if |text| < WIDTH then "" else text[..WIDTH] + "\r" + FullLines(text[WIDTH..])
  }

  // What does not fill a line yet.
  function Remainder(text: string): (r: string)
    ensures |r| < WIDTH
  {
    if |text| < WIDTH then text else Remainder(text[WIDTH..])
  }

  // The text as lines, the last one as long as it comes out.
  function Lines(text: string): string {
    FullLines(text) + if Remainder(text) == "" then "" else Remainder(text) + "\r"
  }

  lemma {:induction false} LinesAppend(a: string, b: string)
    ensures FullLines(a + b) == FullLines(a) + FullLines(Remainder(a) + b)
    ensures Remainder(a + b) == Remainder(Remainder(a) + b)
  {
    if |a| < WIDTH {
      assert "" + FullLines(a + b) == FullLines(a + b);
    } else {
      LinesAppend(a[WIDTH..], b);
      DropAppend(a, b, WIDTH);
      TakeAppend(a, b, WIDTH);
      Assoc(a[..WIDTH] + "\r", FullLines(a[WIDTH..]), FullLines(Remainder(a) + b));
    }
  }

  // Lines are 76 characters long, and the last one as long as what is left, if anything is.
  lemma {:induction false} LinesAre(line: string, more: string)
    requires |line| == 76
    ensures Lines(line + more) == line + ("\r" + Lines(more))
    ensures |more| < 76 ==> Lines(more) == if more == "" then "" else more + "\r"
  {
    assert (line + more)[..76] == line && (line + more)[76..] == more;
    var last := if Remainder(more) == "" then "" else Remainder(more) + "\r";
    Assoc(line, "\r", FullLines(more));
    Assoc(line, "\r" + FullLines(more), last);
    Assoc("\r", FullLines(more), last);
  }

  // Adding a piece that fits the line being filled.
  lemma {:induction false} AddPiece(text: string, piece: string)
    requires |Remainder(text)| + |piece| <= WIDTH
    ensures var line := Remainder(text) + piece;
            if |line| == WIDTH then
              FullLines(text + piece) == FullLines(text) + (line + "\r") && Remainder(text + piece) == ""
            else
              FullLines(text + piece) == FullLines(text) && Remainder(text + piece) == line
  {
    LinesAppend(text, piece);
    var line := Remainder(text) + piece;
    if |line| == WIDTH {
      assert line[..WIDTH] == line && line[WIDTH..] == "";
      assert (line + "\r") + "" == line + "\r";
    } else {
      assert FullLines(text) + "" == FullLines(text);
    }
  }

  // What a destination answers to one write: how much it takes, and whether it fails.
  datatype WriteStep = WriteStep(accepted: nat, failed: bool)

  // An io.Writer, with the answers it will give; it takes everything when they run out.
  class Sink {
    var written: string
    var steps: seq<WriteStep>
    // How many writes have failed, or taken nothing of something.
    ghost var faults: nat

    constructor (steps: seq<WriteStep>)
      ensures written == "" && this.steps == steps && faults == 0
    {
      written, this.steps, faults := "", steps, 0;
    }

    // It never fails, and always takes something.
    ghost predicate Healthy()
      reads this
    {
      forall step :: step in steps ==> step.accepted > 0 && !step.failed
    }

    method Write(data: string) returns (n: nat, failed: bool)
      modifies this
      ensures n <= |data| && written == old(written) + data[..n]
      ensures faults == old(faults) + if failed || (n == 0 && data != "") then 1 else 0
      ensures old(Healthy()) ==> Healthy() && !failed && (n > 0 || data == "")
    {
      n, failed := |data|, false;
      if steps != [] {
        n := if steps[0].accepted < |data| then steps[0].accepted else |data|;
        failed := steps[0].failed;
        steps := steps[1..];
      }
      written := written + data[..n];
      if failed || (n == 0 && data != "") {
        faults := faults + 1;
      }
    }
  }

  // Writes until everything is taken, the destination fails, or it takes nothing.
  method WriteAll(destination: Sink, data: string) returns (ok: bool)
    modifies destination
    ensures old(destination.Healthy()) ==> ok && destination.Healthy()
    ensures ok ==> destination.written == old(destination.written) + data
    ensures destination.faults == old(destination.faults) + if ok then 0 else 1
    ensures exists n :: 0 <= n <= |data| && destination.written == old(destination.written) + data[..n]
  {
    var done := 0;
    while done < |data|
      invariant done <= |data|
      invariant old(destination.Healthy()) ==> destination.Healthy()
      invariant destination.written == old(destination.written) + data[..done]
      invariant destination.faults == old(destination.faults)
    {
      ghost var was := destination.written;
      var n, failed := destination.Write(data[done..]);
      assert data[..done] + data[done..][..n] == data[..done + n];
      Assoc(old(destination.written), data[..done], data[done..][..n]);
      done := done + n;
      if failed || n == 0 {
        return false;
      }
    }
    assert data[..done] == data;
    return true;
  }

  class Base64LineWriter {
    const destination: Sink
    const line: array<char>
    var length: nat

    // What the destination held before the text, the text so far, and whether a write has
    // failed since.
    ghost var before: string
    ghost var text: string
    ghost var broken: bool

    ghost predicate Valid()
      reads this, destination, line
    {
      && line.Length == WIDTH && length <= WIDTH
      && (!broken ==>
            && length < WIDTH && line[..length] == Remainder(text)
            && destination.written == before + FullLines(text))
    }

    constructor (destination: Sink)
      ensures Valid() && this.destination == destination && fresh(line)
      ensures !broken && text == "" && before == destination.written
    {
      this.destination := destination;
      line := new char[WIDTH](_ => '\0');
      length, text, broken, before := 0, "", false, destination.written;
      new;
      assert destination.written == before + "";
    }

    // Copies as much of data as fits the line.
    method Fill(data: string) returns (n: nat)
      requires Valid()
      modifies `length, line
      ensures line.Length == WIDTH && n <= |data| && length == old(length) + n <= WIDTH
      ensures n == |data| || length == WIDTH
      ensures line[..length] == old(line[..length]) + data[..n]
    {
      n := if |data| <= WIDTH - length then |data| else WIDTH - length;
      ghost var was := line[..];
      forall i | 0 <= i < n {
        line[length + i] := data[i];
      }
      assert line[..length] == was[..length];
      assert line[..length + n] == line[..length] + data[..n];
      length := length + n;
    }

    // Sends the first `length` characters and a carriage return, and starts a new line.
    method Flush() returns (ok: bool)
      requires line.Length == WIDTH && length <= WIDTH
      modifies `length, destination
      ensures old(destination.Healthy()) ==> ok && destination.Healthy()
      ensures ok ==> length == 0 && destination.written == old(destination.written) + (old(line[..length]) + "\r")
      ensures !ok ==> length == old(length)
      ensures destination.faults == old(destination.faults) + if ok then 0 else 1
    {
      Assoc(destination.written, line[..length], "\r");
      ok := WriteAll(destination, line[..length]);
      if ok {
        ok := WriteAll(destination, "\r");
        if ok {
          length := 0;
        }
      }
    }

    // Every piece of text written, however small or large, ends up in the lines.
    method Write(data: string) returns (consumed: nat, ok: bool)
      requires Valid()
      modifies this, line, destination
      ensures Valid() && before == old(before)
      ensures old(destination.Healthy()) ==> ok && destination.Healthy()
      ensures broken == (old(broken) || !ok)
      ensures destination.faults == old(destination.faults) + if ok then 0 else 1
      ensures !broken ==> consumed == |data| && text == old(text) + data
    {
      consumed, ok := 0, true;
      while consumed < |data|
        invariant consumed <= |data| && Valid() && before == old(before) && broken == old(broken) && ok
        invariant old(destination.Healthy()) ==> destination.Healthy()
        invariant !broken ==> text == old(text) + data[..consumed]
        invariant destination.faults == old(destination.faults)
        decreases |data| - consumed, length
      {
        var n := Fill(data[consumed..]);
        ghost var piece := data[consumed..][..n];
        assert data[..consumed] + piece == data[..consumed + n];
        Assoc(old(text), data[..consumed], piece);
        consumed := consumed + n;
        if !broken {
          AddPiece(text, piece);
          text := text + piece;
        }
        if length != WIDTH {
          continue;
        }
        ok := Flush();
        if !ok {
          broken := true;
          return;
        }
      }
      assert data[..consumed] == data;
    }

    // Sends what is left as a last, shorter line.
    method Close() returns (ok: bool)
      requires Valid()
      modifies this, destination
      ensures Valid()
      ensures old(destination.Healthy()) ==> ok && destination.Healthy()
      ensures broken == (old(broken) || !ok)
      ensures destination.faults == old(destination.faults) + if ok then 0 else 1
      ensures !broken ==> destination.written == old(before) + Lines(old(text))
                          && text == "" && before == destination.written
    {
      ok := true;
      if length > 0 {
        if !broken {
          Assoc(before, FullLines(text), Remainder(text) + "\r");
        }
        ok := Flush();
      } else if !broken {
        assert FullLines(text) + "" == FullLines(text);
      }
      broken := broken || !ok;
      if !broken {
        before, text := destination.written, "";
        assert before + "" == before;
      }
    }
  }
}
