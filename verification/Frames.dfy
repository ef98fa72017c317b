/** What the LoRa receiver means by a frame, as functions of the bytes alone.

    `NextFrame` is one search for a frame.  `Scan` is the reference: it splits a whole
    stream into the frames it holds and the bytes that do not yet decide anything. */
module Frames {
  import opened Bytes
  import opened Seqs

  const MAX_PAYLOAD := 65536
  const MAX_FRAME := 4 + MAX_PAYLOAD

  // The length announced by the first four bytes.
  function Announced(s: seq<byte>): nat
    requires |s| >= 4
  {
    Uint32(s[0], s[1], s[2], s[3])
  }

  // The first four bytes can head a frame.
  predicate Plausible(s: seq<byte>)
    requires |s| >= 4
  {
    0 < Announced(s) <= MAX_PAYLOAD
  }

  // s is one whole frame and nothing else.
  predicate IsFrame(s: seq<byte>) {
    |s| >= 4 && Plausible(s) && |s| == 4 + Announced(s)
  }

  datatype Search = Found(frame: seq<byte>, rest: seq<byte>) | NeedMore(rest: seq<byte>)

  function NextFrame(s: seq<byte>): (r: Search)
    ensures r.Found? ==> 4 < |r.frame| && |r.frame| + |r.rest| <= |s|
    ensures r.NeedMore? ==> |r.rest| <= |s|
    decreases |s|
  {
    if |s| < 4 then NeedMore(s)
    else if !Plausible(s) then NextFrame(s[1..])
    else
      var n := 4 + Announced(s);
      if |s| < n then NeedMore(s) else Found(s[..n], s[n..])
  }

  datatype Scanned = Scanned(frames: seq<seq<byte>>, rest: seq<byte>)

  function Scan(s: seq<byte>): (r: Scanned)
    decreases |s|
  {
    match NextFrame(s)
    case NeedMore(rest) => Scanned([], rest)
    case Found(frame, rest) =>
      var later := Scan(rest);
      Scanned([frame] + later.frames, later.rest)
  }

  lemma {:induction false} FoundIsFrame(s: seq<byte>)
    requires NextFrame(s).Found?
    ensures IsFrame(NextFrame(s).frame) && 5 <= |NextFrame(s).frame| <= 65540
    decreases |s|
  {
    if !Plausible(s) {
      FoundIsFrame(s[1..]);
    }
  }

  // A search that finds nothing leaves too little for a verdict: less than a
  // header, or a plausible header whose payload is not all there.
  lemma {:induction false} NeedMoreMeans(s: seq<byte>)
    requires NextFrame(s).NeedMore?
    ensures var rest := NextFrame(s).rest;
            |rest| < 4 || (Plausible(rest) && |rest| < 4 + Announced(rest))
    ensures NextFrame(NextFrame(s).rest) == NextFrame(s)
    decreases |s|
  {
    if |s| >= 4 && !Plausible(s) {
      NeedMoreMeans(s[1..]);
    }
  }

  // The room argument: the receive buffer is never full when more bytes are needed.
  lemma {:induction false} NoStall(s: seq<byte>)
    requires NextFrame(s).NeedMore?
    ensures |NextFrame(s).rest| < 65540
  {
    NeedMoreMeans(s);
  }

  // What was found stays found, and the search goes on from what was left.
  lemma {:induction false} NextFrameAppend(a: seq<byte>, b: seq<byte>)
    ensures match NextFrame(a)
            case Found(frame, rest) => NextFrame(a + b) == Found(frame, rest + b)
            case NeedMore(rest) => NextFrame(a + b) == NextFrame(rest + b)
    decreases |a|
  {
    if |a| >= 4 {
      if !Plausible(a) {
        assert (a + b)[1..] == a[1..] + b;
        NextFrameAppend(a[1..], b);
      } else {
        var n := 4 + Announced(a);
        if |a| >= n {
          assert (a + b)[..n] == a[..n];
          assert (a + b)[n..] == a[n..] + b;
        }
      }
    }
  }

  lemma {:induction false} Undecided(s: seq<byte>, more: seq<byte>)
    requires NextFrame(s).NeedMore?
    ensures var rest := NextFrame(s).rest;
            Scan(rest) == Scan(s) == Scanned([], rest) && Scan(s + more) == Scan(rest + more)
  {
    NeedMoreMeans(s);
    NextFrameAppend(s, more);
  }

  // Scanning can be interrupted anywhere and resumed from the undecided bytes.
  lemma {:induction false} ScanAppend(a: seq<byte>, b: seq<byte>)
    ensures var first := Scan(a);
            var second := Scan(first.rest + b);
            Scan(a + b) == Scanned(first.frames + second.frames, second.rest)
    decreases |a|
  {
    NextFrameAppend(a, b);
    match NextFrame(a)
    case NeedMore(rest) =>
    case Found(frame, rest) =>
      ScanAppend(rest, b);
      var second := Scan(Scan(rest).rest + b);
      Assoc([frame], Scan(rest).frames, second.frames);
  }

  // Delivering `frames` and keeping the bytes `kept` is a correct way to deal with s:
  // scanning s gives those frames, then what scanning `kept` gives.
  ghost predicate Yields(s: seq<byte>, frames: seq<seq<byte>>, kept: seq<byte>) {
    Scan(s) == Scanned(frames + Scan(kept).frames, Scan(kept).rest)
  }

  lemma YieldsThen(s: seq<byte>, first: seq<seq<byte>>, kept: seq<byte>, second: seq<seq<byte>>, last: seq<byte>)
    requires Yields(s, first, kept) && Yields(kept, second, last)
    ensures Yields(s, first + second, last)
  {
    Assoc(first, second, Scan(last).frames);
  }

  lemma YieldsMore(s: seq<byte>, frames: seq<seq<byte>>, kept: seq<byte>, more: seq<byte>)
    requires Yields(s, frames, kept)
    ensures Yields(s + more, frames, kept + more)
  {
    ScanAppend(s, more);
    ScanAppend(kept, more);
    Assoc(frames, Scan(kept).frames, Scan(Scan(kept).rest + more).frames);
  }

  // ----- A declarative reading of Scan: an account of every byte -----

  datatype Item = Skip(skipped: byte) | Whole(frame: seq<byte>)

  // items and rest account for s from left to right: a byte is skipped only where
  // four bytes stand that cannot head a frame, a frame is taken whole, and
  // rest is left only where nothing can be decided.
  ghost predicate Accounts(items: seq<Item>, rest: seq<byte>, s: seq<byte>) {
    if items == [] then
      s == rest && (|s| < 4 || (Plausible(s) && |s| < 4 + Announced(s)))
    else match items[0]
      case Skip(b) => |s| >= 4 && !Plausible(s) && s[0] == b && Accounts(items[1..], rest, s[1..])
      case Whole(f) => IsFrame(f) && f <= s && Accounts(items[1..], rest, s[|f|..])
  }

  function FramesOf(items: seq<Item>): seq<seq<byte>> {
    if items == [] then []
    else (if items[0].Whole? then [items[0].frame] else []) + FramesOf(items[1..])
  }

  function BytesOf(items: seq<Item>): seq<byte> {
    if items == [] then []
    else (match items[0] case Skip(b) => [b] case Whole(f) => f) + BytesOf(items[1..])
  }

  // An account loses no byte and invents none.
  lemma {:induction false} AccountsConserve(items: seq<Item>, rest: seq<byte>, s: seq<byte>)
    requires Accounts(items, rest, s)
    ensures BytesOf(items) + rest == s
  {
    if items != [] {
      match items[0]
      case Skip(b) => AccountsConserve(items[1..], rest, s[1..]);
      case Whole(f) => AccountsConserve(items[1..], rest, s[|f|..]);
    }
  }

  // The frames of any account of s are the scanned ones: accounts are unique.
  lemma {:induction false} AccountsMeanScan(items: seq<Item>, rest: seq<byte>, s: seq<byte>)
    requires Accounts(items, rest, s)
    ensures Scan(s) == Scanned(FramesOf(items), rest)
  {
    if items != [] {
      match items[0]
      case Skip(b) =>
        AccountsMeanScan(items[1..], rest, s[1..]);
        assert NextFrame(s) == NextFrame(s[1..]);
      case Whole(f) =>
        AccountsMeanScan(items[1..], rest, s[|f|..]);
        assert s[..|f|] == f;
        assert NextFrame(s) == Found(f, s[|f|..]);
    }
  }

  // Every stream has an account.
  lemma {:induction false} AccountExists(s: seq<byte>) returns (items: seq<Item>)
    ensures Accounts(items, Scan(s).rest, s)
    decreases |s|
  {
    if |s| < 4 {
      items := [];
    } else if !Plausible(s) {
      var later := AccountExists(s[1..]);
      items := [Skip(s[0])] + later;
      assert items[1..] == later;
      assert NextFrame(s) == NextFrame(s[1..]);
    } else if |s| < 4 + Announced(s) {
      items := [];
    } else {
      var n := 4 + Announced(s);
      var later := AccountExists(s[n..]);
      items := [Whole(s[..n])] + later;
      assert items[1..] == later;
    }
  }
}
