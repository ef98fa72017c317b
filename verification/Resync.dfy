/** How a receiver that starts in the middle of a transmission finds its footing. */
module Resync {
  import opened Bytes
  import opened Codec
  import opened Frames
  import opened Seqs

  // No byte of s is zero.  JSON text is like that: control characters are escaped.
  ghost predicate ZeroFree(s: seq<byte>) {
    forall i :: 0 <= i < |s| ==> s[i] != 0
  }

  // Four bytes that start with a non-zero one announce at least 2^24 bytes.
  lemma NonZeroIsImplausible(s: seq<byte>)
    requires |s| >= 4 && s[0] != 0
    ensures !Plausible(s)
  {
  }

  // Noise in front of a stream is skipped whole.
  lemma {:induction false} NoiseSkipped(noise: seq<byte>, s: seq<byte>)
    requires ZeroFree(noise) && |s| >= 3
    ensures NextFrame(noise + s) == NextFrame(s)
  {
    if noise == [] {
      assert noise + s == s;
    } else {
      NonZeroIsImplausible(noise + s);
      assert (noise + s)[1..] == noise[1..] + s;
      NoiseSkipped(noise[1..], s);
    }
  }

  // Noise alone delivers nothing.
  lemma {:induction false} NoiseSilent(noise: seq<byte>)
    requires ZeroFree(noise)
    ensures NextFrame(noise).NeedMore?
  {
    if |noise| >= 4 {
      NonZeroIsImplausible(noise);
      NoiseSilent(noise[1..]);
    }
  }

  // A receiver that joins anywhere inside a zero-free payload delivers exactly the frames
  // that follow.
  lemma {:induction false} JoinInPayload(payload: seq<byte>, k: nat, payloads: seq<seq<byte>>)
    requires ZeroFree(payload) && k <= |payload| && Payloads(payloads)
    ensures Scan(payload[k..] + Join(FramedAll(payloads))).frames == FramedAll(payloads)
  {
    var noise := payload[k..];
    if payloads == [] {
      NoiseSilent(noise);
      assert noise + [] == noise;
    } else {
      var s := Join(FramedAll(payloads));
      assert |s| >= 4;
      NoiseSkipped(noise, s);
      ScanInvertsFraming(payloads);
    }
  }

  // ----- Joining inside a header -----

  // How many bytes go by before four bytes stand that can head a frame.
  function Skipped(s: seq<byte>): (n: nat)
    ensures n <= |s|
    ensures |s| - n >= 4 ==> Plausible(s[n..])
    ensures NextFrame(s) == NextFrame(s[n..])
    decreases |s|
  {
    if |s| < 4 || Plausible(s) then assert s[0..] == s; 0
    else
      var n := 1 + Skipped(s[1..]);
      assert s[n..] == s[1..][n - 1..];
      n
  }

  // Whether the last 4 - k bytes of the header of an n-byte payload cannot be taken, with
  // what follows, for a header.
  predicate HeaderTailHarmless(n: nat, k: nat) {
    k == 3 || (k == 2 && n != MAX_PAYLOAD) || (k == 1 && 0x100 <= n < MAX_PAYLOAD)
  }

  // The first four bytes seen when joining k bytes into a header.
  lemma HeaderTail(payload: seq<byte>, k: nat, more: seq<byte>)
    requires 0 < |payload| <= MAX_PAYLOAD && ZeroFree(payload) && 1 <= k <= 3 && |more| >= 4
    requires more[0] == 0
    ensures var s := Framed(payload)[k..] + more;
            && |s| >= 4
            && (Plausible(s) ==> !HeaderTailHarmless(|payload|, k))
            && (k == 1 && |payload| < 0x100 ==> Plausible(s))
            && (k == 2 && |payload| == MAX_PAYLOAD ==> Plausible(s))
  {
    var n := |payload|;
    var h := PutUint32(n);
    var s := Framed(payload)[k..] + more;
    assert forall i :: 0 <= i < 4 - k ==> s[i] == h[i + k];
    assert s[4 - k] == payload[0];
    if n >= 2 && k >= 2 {
      assert s[5 - k] == payload[1];
    }
  }

  lemma {:induction false} NoiseCounted(noise: seq<byte>, s: seq<byte>)
    requires ZeroFree(noise) && |s| >= 4 && Plausible(s)
    ensures Skipped(noise + s) == |noise|
  {
    if noise == [] {
      assert noise + s == s;
    } else {
      NonZeroIsImplausible(noise + s);
      assert (noise + s)[1..] == noise[1..] + s;
      NoiseCounted(noise[1..], s);
    }
  }

  // Joining k bytes into the header of a zero-free payload, the receiver skips exactly
  // what is left of that frame if and only if the header's tail is harmless.  Otherwise
  // it takes bytes of the broken frame for a header of its own.
  lemma {:induction false} JoinInHeader(payload: seq<byte>, k: nat, more: seq<byte>)
    requires 0 < |payload| <= MAX_PAYLOAD && ZeroFree(payload) && 1 <= k <= 3
    requires |more| >= 4 && Plausible(more)
    ensures var s := Framed(payload)[k..] + more;
            Skipped(s) == 4 - k + |payload| <==> HeaderTailHarmless(|payload|, k)
    decreases 4 - k
  {
    var s := Framed(payload)[k..] + more;
    HeaderTail(payload, k, more);
    if !Plausible(s) {
      if k == 3 {
        assert s[1..] == payload + more;
        NoiseCounted(payload, more);
      } else {
        assert s[1..] == Framed(payload)[k + 1..] + more;
        JoinInHeader(payload, k + 1, more);
      }
    }
  }

  // In the harmless case nothing is lost but the frame that was joined.
  lemma {:induction false} HarmlessJoinDelivers(payload: seq<byte>, k: nat, payloads: seq<seq<byte>>)
    requires 0 < |payload| <= MAX_PAYLOAD && ZeroFree(payload) && 1 <= k <= 3
    requires HeaderTailHarmless(|payload|, k)
    requires Payloads(payloads) && payloads != []
    ensures Scan(Framed(payload)[k..] + Join(FramedAll(payloads))).frames == FramedAll(payloads)
  {
    var more := Join(FramedAll(payloads));
    var s := Framed(payload)[k..] + more;
    ScanFramed(payloads[0], Join(FramedAll(payloads[1..])));
    FramedHeader(payloads[0], Join(FramedAll(payloads[1..])));
    JoinInHeader(payload, k, more);
    assert s[4 - k + |payload|..] == more;
    ScanInvertsFraming(payloads);
  }

  // ----- In the other case something else is delivered -----

  lemma {:induction false} ScanHead(s: seq<byte>)
    requires |s| >= 4 && Plausible(s)
    ensures if |s| < 4 + Announced(s) then Scan(s).frames == []
            else Scan(s).frames != [] && Scan(s).frames[0] == s[..4 + Announced(s)]
  {
  }

  lemma NotTheFrame(frame: seq<byte>, at: nat, payload: seq<byte>)
    requires 4 <= at < |frame| && frame[at] == 0 && ZeroFree(payload) && |payload| <= MAX_PAYLOAD
    ensures frame != Framed(payload)
  {
    var framed := Framed(payload);
    if |frame| == |framed| {
      assert framed[at] == payload[at - 4];
    }
  }

  // Four bytes are taken for a header whose payload would hold a zero: what comes out, if
  // anything, does not start with the frame of a zero-free payload.
  lemma {:induction false} ZeroInside(s: seq<byte>, at: nat, payload: seq<byte>, payloads: seq<seq<byte>>)
    requires |s| >= 4 && Plausible(s) && 4 <= at < 4 + Announced(s) && at < |s| && s[at] == 0
    requires Payloads([payload] + payloads) && ZeroFree(payload)
    ensures Scan(s).frames != FramedAll([payload] + payloads)
  {
    var all := [payload] + payloads;
    assert all[0] in all;
    ScanHead(s);
    if |s| >= 4 + Announced(s) {
      NotTheFrame(s[..4 + Announced(s)], at, payload);
    }
  }

  // The bytes taken for a frame end inside the broken payload: one frame too many.
  lemma {:induction false} EndsInside(s: seq<byte>, payload: seq<byte>, j: nat, payloads: seq<seq<byte>>)
    requires |s| >= 4 && Plausible(s) && 4 + Announced(s) <= |s| && j <= |payload| && ZeroFree(payload)
        && Payloads(payloads)
    requires s[4 + Announced(s)..] == payload[j..] + Join(FramedAll(payloads))
    ensures Scan(s).frames != FramedAll(payloads)
  {
    JoinInPayload(payload, j, payloads);
    assert |Scan(s).frames| == 1 + |FramedAll(payloads)|;
  }

  // What is seen one byte late, of a payload of under 256 bytes.
  lemma SeenByOne(payload: seq<byte>, more: seq<byte>)
    requires 0 < |payload| < 0x100 && |more| > 0
    ensures var s := Framed(payload)[1..] + more;
            |s| >= 4 && Announced(s) == 0x100 * |payload| + payload[0] && 3 + |payload| < |s|
            && s[3 + |payload|] == more[0]
  {
    var h := PutUint32(|payload|);
    var s := Framed(payload)[1..] + more;
    assert s[0] == h[1] && s[1] == h[2] && s[2] == h[3] && s[3] == payload[0];
  }

  // And two bytes late, of one of 65536.
  lemma SeenByTwo(payload: seq<byte>, more: seq<byte>)
    requires |payload| == MAX_PAYLOAD && |more| > 0
    ensures var s := Framed(payload)[2..] + more;
            && |s| >= 4 && Announced(s) == Uint32(0, 0, payload[0], payload[1])
            && 2 + |payload| < |s| && s[2 + |payload|] == more[0]
            && forall end :: 2 <= end <= 2 + |payload| ==> s[end..] == payload[end - 2..] + more
  {
    var h := PutUint32(|payload|);
    var s := Framed(payload)[2..] + more;
    assert s[0] == h[2] && s[1] == h[3] && s[2] == payload[0] && s[3] == payload[1];
    assert s == h[2..] + (payload + more);
    forall end | 2 <= end <= 2 + |payload| ensures s[end..] == payload[end - 2..] + more {
      assert s[end..] == (payload + more)[end - 2..];
      DropAppend(payload, more, end - 2);
    }
  }

  lemma {:induction false} LateByOne(payload: seq<byte>, first: seq<byte>, payloads: seq<seq<byte>>)
    requires 0 < |payload| < 0x100 && ZeroFree(payload) && Payloads([first] + payloads) && ZeroFree(first)
    ensures Scan(Framed(payload)[1..] + Join(FramedAll([first] + payloads))).frames != FramedAll([first] + payloads)
  {
    var more := Join(FramedAll([first] + payloads));
    StartsWithZero(first, payloads);
    SeenByOne(payload, more);
    ZeroInside(Framed(payload)[1..] + more, 3 + |payload|, first, payloads);
  }

  lemma {:induction false} StartsWithZero(first: seq<byte>, payloads: seq<seq<byte>>)
    requires Payloads([first] + payloads)
    ensures var more := Join(FramedAll([first] + payloads)); |more| >= 4 && more[0] == 0
  {
    var all := [first] + payloads;
    assert all[0] in all;
    assert Join(FramedAll(all)) == Framed(first) + Join(FramedAll(all)[1..]);
  }

  lemma {:induction false} LateByTwo(payload: seq<byte>, first: seq<byte>, payloads: seq<seq<byte>>)
    requires |payload| == MAX_PAYLOAD && ZeroFree(payload) && Payloads([first] + payloads) && ZeroFree(first)
    ensures Scan(Framed(payload)[2..] + Join(FramedAll([first] + payloads))).frames != FramedAll([first] + payloads)
  {
    var more := Join(FramedAll([first] + payloads));
    var s := Framed(payload)[2..] + more;
    StartsWithZero(first, payloads);
    SeenByTwo(payload, more);
    var end := 4 + Announced(s);
    if end <= 2 + |payload| {
      EndsInside(s, payload, end - 2, [first] + payloads);
    } else {
      ZeroInside(s, 2 + |payload|, first, payloads);
    }
  }

  // The longest payload's header seen one byte late: its first byte is passed over.
  lemma {:induction false} PassedOver(payload: seq<byte>, more: seq<byte>)
    requires |payload| == MAX_PAYLOAD
    ensures Scan(Framed(payload)[1..] + more) == Scan(Framed(payload)[2..] + more)
  {
    var h := PutUint32(|payload|);
    var s := Framed(payload)[1..] + more;
    assert s[0] == h[1] && h[1] == 1;
    NonZeroIsImplausible(s);
    assert s[1..] == Framed(payload)[2..] + more;
  }

  lemma {:induction false} HarmfulJoin(payload: seq<byte>, k: nat, first: seq<byte>, payloads: seq<seq<byte>>)
    requires 0 < |payload| <= MAX_PAYLOAD && ZeroFree(payload) && 1 <= k <= 3
    requires Payloads([first] + payloads) && ZeroFree(first) && !HeaderTailHarmless(|payload|, k)
    ensures Scan(Framed(payload)[k..] + Join(FramedAll([first] + payloads))).frames != FramedAll([first] + payloads)
  {
    if k == 2 {
      LateByTwo(payload, first, payloads);
    } else if |payload| < 0x100 {
      LateByOne(payload, first, payloads);
    } else {
      PassedOver(payload, Join(FramedAll([first] + payloads)));
      LateByTwo(payload, first, payloads);
    }
  }

  // Joining k bytes into the header of a zero-free payload, in front of other zero-free
  // payloads, the receiver delivers exactly the frames that follow if and only if the
  // header's tail is harmless.
  lemma {:induction false} JoinExactlyWhen(payload: seq<byte>, k: nat, payloads: seq<seq<byte>>)
    requires 0 < |payload| <= MAX_PAYLOAD && ZeroFree(payload) && 1 <= k <= 3
    requires Payloads(payloads) && payloads != [] && ZeroFree(payloads[0])
    ensures Scan(Framed(payload)[k..] + Join(FramedAll(payloads))).frames == FramedAll(payloads)
            <==> HeaderTailHarmless(|payload|, k)
  {
    if HeaderTailHarmless(|payload|, k) {
      HarmlessJoinDelivers(payload, k, payloads);
    } else {
      assert [payloads[0]] + payloads[1..] == payloads;
      HarmfulJoin(payload, k, payloads[0], payloads[1..]);
    }
  }

  // How bad the other case is.  One byte late for a payload of under 256 bytes, and the
  // receiver waits for 256 times its length: until then every frame that arrives is
  // swallowed.
  lemma {:induction false} LateByOneIsDeaf(payload: seq<byte>, more: seq<byte>)
    requires 0 < |payload| < 0x100
    requires |payload| + |more| <= 0x100 * |payload| + payload[0]
    ensures Scan(Framed(payload)[1..] + more).frames == []
  {
    var h := PutUint32(|payload|);
    var s := Framed(payload)[1..] + more;
    assert s[0] == h[1] && s[1] == h[2] && s[2] == h[3] && s[3] == payload[0];
  }
}
