/** The base64 alphabet and transfer text of section 4 of RFC 4648. */
module Base64 {
  import opened Bytes
  import opened Options
  import opened Seqs

  type digit = n: int | 0 <= n < 64

  function Digit(n: digit): char {
    if n < 26 then ('A' as int + n) as char
    else if n < 52 then ('a' as int + n - 26) as char
    else if n < 62 then ('0' as int + n - 52) as char
    else if n == 62 then '+'
    else '/'
  }

  // The digit that a character stands for; 64 if it stands for none.
  function Value(c: char): (n: nat)
    ensures n <= 64
  {
    if 'A' <= c <= 'Z' then c as int - 'A' as int
    else if 'a' <= c <= 'z' then c as int - 'a' as int + 26
    else if '0' <= c <= '9' then c as int - '0' as int + 52
    else if c == '+' then 62
    else if c == '/' then 63
    else 64
  }

  lemma ValueOfDigit(n: digit)
    ensures Value(Digit(n)) == n && Digit(n) != '='
  {
  }

  lemma DigitOfValue(c: char)
    requires Value(c) < 64
    ensures Digit(Value(c)) == c
  {
  }

  // The alphabet of Table 1.
  lemma DigitIs(n: digit)
    ensures n < 26 ==> Digit(n) == "ABCDEFGHIJKLMNOPQRSTUVWXYZ"[n]
    ensures 26 <= n < 52 ==> Digit(n) == "abcdefghijklmnopqrstuvwxyz"[n - 26]
    ensures 52 <= n < 62 ==> Digit(n) == "0123456789"[n - 52]
    ensures n == 62 ==> Digit(n) == '+'
    ensures n == 63 ==> Digit(n) == '/'
  {
    if n < 26 {
      LetterIs(n);
    } else if n < 52 {
      LetterIs(n - 26);
    }
  }

  lemma LetterIs(n: nat)
    requires n < 26
    ensures ('A' as int + n) as char == "ABCDEFGHIJKLMNOPQRSTUVWXYZ"[n]
    ensures ('a' as int + n) as char == "abcdefghijklmnopqrstuvwxyz"[n]
  {
  }

  // Three bytes as four digits.
  function Quad(a: byte, b: byte, c: byte): string {
    [Digit(a / 4), Digit(a % 4 * 16 + b / 16), Digit(b % 16 * 4 + c / 64), Digit(c % 64)]
  }

  function Encode(s: seq<byte>): string {
    if |s| == 0 then ""
    else if |s| == 1 then Quad(s[0], 0, 0)[..2] + "=="
    else if |s| == 2 then Quad(s[0], s[1], 0)[..3] + "="
    else Quad(s[0], s[1], s[2]) + Encode(s[3..])
  }

  // The byte made of the last bits of one digit and the first bits of the next.
  function First(v: digit, w: digit): byte { v * 4 + w / 16 }
  function Second(w: digit, x: digit): byte { w % 16 * 16 + x / 4 }
  function Third(x: digit, y: digit): byte { x % 4 * 64 + y }

  // A strict decoder: it refuses text whose unused bits are not zero, as section 3.5 allows.
  function Decode(t: string): Option<seq<byte>> {
    if t == "" then Some([])
    else if |t| < 4 || Value(t[0]) == 64 || Value(t[1]) == 64 then None
    else if |t| == 4 && t[2] == '=' && t[3] == '=' then
      if Value(t[1]) % 16 == 0 then Some([First(Value(t[0]), Value(t[1]))]) else None
    else if Value(t[2]) == 64 then None
    else if |t| == 4 && t[3] == '=' then
      if Value(t[2]) % 4 == 0 then Some([First(Value(t[0]), Value(t[1])), Second(Value(t[1]), Value(t[2]))]) else None
    else if Value(t[3]) == 64 then None
    else match Decode(t[4..])
      case None => None
      case Some(more) =>
        Some([First(Value(t[0]), Value(t[1])), Second(Value(t[1]), Value(t[2])),
            Third(Value(t[2]), Value(t[3]))] + more)
  }

  lemma QuadInverted(a: byte, b: byte, c: byte)
    ensures var q := Quad(a, b, c);
            && |q| == 4 && (forall i :: 0 <= i < 4 ==> Value(q[i]) < 64 && q[i] != '=')
            && First(Value(q[0]), Value(q[1])) == a
            && Second(Value(q[1]), Value(q[2])) == b
            && Third(Value(q[2]), Value(q[3])) == c
  {
    var d0, d1, d2, d3 := a / 4, a % 4 * 16 + b / 16, b % 16 * 4 + c / 64, c % 64;
    ValueOfDigit(d0);
    ValueOfDigit(d1);
    ValueOfDigit(d2);
    ValueOfDigit(d3);
    assert d1 / 16 == a % 4 && d1 % 16 == b / 16;
    assert d2 / 4 == b % 16 && d2 % 4 == c / 64;
  }

  // A group of 24 bits, most significant first, as three bytes and as four digits.
  lemma GroupIs(a: byte, b: byte, c: byte)
    ensures var q := Quad(a, b, c);
            Value(q[0]) * 262144 + Value(q[1]) * 4096 + Value(q[2]) * 64 + Value(q[3]) == a * 65536 + b * 256 + c
  {
    var d0, d1, d2, d3 := a / 4, a % 4 * 16 + b / 16, b % 16 * 4 + c / 64, c % 64;
    ValueOfDigit(d0);
    ValueOfDigit(d1);
    ValueOfDigit(d2);
    ValueOfDigit(d3);
    assert a == a / 4 * 4 + a % 4 && b == b / 16 * 16 + b % 16 && c == c / 64 * 64 + c % 64;
  }

  // Decoding gives back what was encoded.
  lemma {:induction false} DecodeEncode(s: seq<byte>)
    ensures Decode(Encode(s)) == Some(s)
  {
    if |s| <= 2 {
      DecodeLast(s);
    } else {
      DecodeEncode(s[3..]);
      DecodeLong(s);
    }
  }

  lemma {:induction false} DecodeLong(s: seq<byte>)
    requires |s| > 2 && Decode(Encode(s[3..])) == Some(s[3..])
    ensures Decode(Encode(s)) == Some(s)
  {
    DecodeQuad(s[0], s[1], s[2], Encode(s[3..]));
    EncodeThree(s[0], s[1], s[2], s[3..]);
    assert s == [s[0], s[1], s[2]] + s[3..];
  }

  // The bits of the last digit that no byte needs are zero.
  lemma PadBits(a: byte, b: byte)
    ensures Value(Quad(a, 0, 0)[1]) % 16 == 0 && Value(Quad(a, b, 0)[2]) % 4 == 0
  {
    var d, e := a % 4 * 16, b % 16 * 4;
    assert d % 16 == 0 && e % 4 == 0;
    ValueOfDigit(d);
    ValueOfDigit(e);
  }

  lemma DecodeOne(a: byte)
    ensures Decode(Quad(a, 0, 0)[..2] + "==") == Some([a])
  {
    QuadInverted(a, 0, 0);
    PadBits(a, 0);
    DecodePadded(Quad(a, 0, 0));
  }

  lemma DecodeTwo(a: byte, b: byte)
    ensures Decode(Quad(a, b, 0)[..3] + "=") == Some([a, b])
  {
    QuadInverted(a, b, 0);
    PadBits(a, b);
    DecodePadded(Quad(a, b, 0));
  }

  lemma DecodePadded(q: string)
    requires |q| == 4 && forall i :: 0 <= i < 4 ==> Value(q[i]) < 64
    ensures Value(q[1]) % 16 == 0 ==> Decode(q[..2] + "==") == Some([First(Value(q[0]), Value(q[1]))])
    ensures Value(q[2]) % 4 == 0 ==>
              Decode(q[..3] + "=") == Some([First(Value(q[0]), Value(q[1])), Second(Value(q[1]), Value(q[2]))])
  {
    assert q[..2] + "==" == [q[0], q[1], '=', '='];
    assert q[..3] + "=" == [q[0], q[1], q[2], '='];
  }

  lemma {:induction false} DecodeLast(s: seq<byte>)
    requires |s| <= 2
    ensures Decode(Encode(s)) == Some(s)
  {
    if |s| == 1 {
      var zero: byte := 0;
      DecodeOne(s[0]);
      assert Encode(s) == Quad(s[0], zero, zero)[..2] + "==";
      assert s == [s[0]];
    } else if |s| == 2 {
      var zero: byte := 0;
      DecodeTwo(s[0], s[1]);
      assert Encode(s) == Quad(s[0], s[1], zero)[..3] + "=";
      assert s == [s[0], s[1]];
    }
  }

  lemma {:induction false} DecodeQuad(a: byte, b: byte, c: byte, more: string)
    requires Decode(more).Some?
    ensures Decode(Quad(a, b, c) + more) == Some([a, b, c] + Decode(more).value)
  {
    var t := Quad(a, b, c) + more;
    QuadInverted(a, b, c);
    assert t[4..] == more;
  }

  // Splitting the bytes made of four digits gives the digits.
  lemma FirstSplit(v: digit, w: digit)
    ensures First(v, w) / 4 == v && First(v, w) % 4 == w / 16
  {
  }

  lemma SecondSplit(w: digit, x: digit)
    ensures Second(w, x) / 16 == w % 16 && Second(w, x) % 16 == x / 4
  {
  }

  lemma ThirdSplit(x: digit, y: digit)
    ensures Third(x, y) / 64 == x % 4 && Third(x, y) % 64 == y
  {
  }

  lemma QuadOfDigits(v: digit, w: digit, x: digit, y: digit)
    ensures Quad(First(v, w), Second(w, x), Third(x, y)) == [Digit(v), Digit(w), Digit(x), Digit(y)]
  {
    FirstSplit(v, w);
    SecondSplit(w, x);
    ThirdSplit(x, y);
    assert w / 16 * 16 + w % 16 == w && x / 4 * 4 + x % 4 == x;
  }

  lemma PadBytes(w: digit, x: digit)
    ensures w % 16 == 0 ==> Second(w, 0) == 0
    ensures x % 4 == 0 ==> Third(x, 0) == 0
  {
  }

  lemma EncodeOne(a: byte, b: byte, c: byte, d: char, e: char, f: char, g: char)
    requires b == 0 && c == 0 && Quad(a, b, c) == [d, e, f, g]
    ensures Encode([a]) == [d, e, '=', '=']
  {
  }

  lemma EncodeTwo(a: byte, b: byte, c: byte, d: char, e: char, f: char, g: char)
    requires c == 0 && Quad(a, b, c) == [d, e, f, g]
    ensures Encode([a, b]) == [d, e, f, '=']
  {
  }

  lemma EncodeThree(a: byte, b: byte, c: byte, more: seq<byte>)
    ensures Encode([a, b, c] + more) == Quad(a, b, c) + Encode(more)
  {
    assert ([a, b, c] + more)[3..] == more;
  }

  lemma EncodedOne(v: digit, w: digit)
    requires w % 16 == 0
    ensures Encode([First(v, w)]) == [Digit(v), Digit(w), '=', '=']
  {
    PadBytes(w, 0);
    QuadOfDigits(v, w, 0, 0);
    EncodeOne(First(v, w), Second(w, 0), Third(0, 0), Digit(v), Digit(w), Digit(0), Digit(0));
  }

  lemma EncodedTwo(v: digit, w: digit, x: digit)
    requires x % 4 == 0
    ensures Encode([First(v, w), Second(w, x)]) == [Digit(v), Digit(w), Digit(x), '=']
  {
    PadBytes(0, x);
    QuadOfDigits(v, w, x, 0);
    EncodeTwo(First(v, w), Second(w, x), Third(x, 0), Digit(v), Digit(w), Digit(x), Digit(0));
  }

  lemma EncodedThree(v: digit, w: digit, x: digit, y: digit, more: seq<byte>)
    ensures Encode([First(v, w), Second(w, x), Third(x, y)] + more)
         == [Digit(v), Digit(w), Digit(x), Digit(y)] + Encode(more)
  {
    QuadOfDigits(v, w, x, y);
    EncodeThree(First(v, w), Second(w, x), Third(x, y), more);
  }

  // Only the encoding of s decodes to s: what is sent is the one text that a strict decoder
  // accepts.
  lemma {:induction false} EncodeDecode(t: string)
    requires Decode(t).Some?
    ensures Encode(Decode(t).value) == t
  {
    if t != "" {
      DigitOfValue(t[0]);
      DigitOfValue(t[1]);
      if |t| == 4 && t[3] == '=' {
        LastDecoded(t);
      } else {
        DigitOfValue(t[2]);
        DigitOfValue(t[3]);
        EncodeDecode(t[4..]);
        EncodedThree(Value(t[0]), Value(t[1]), Value(t[2]), Value(t[3]), Decode(t[4..]).value);
        assert t == [t[0], t[1], t[2], t[3]] + t[4..];
      }
    }
  }

  lemma {:induction false} LastDecoded(t: string)
    requires |t| == 4 && t[3] == '=' && Decode(t).Some?
    ensures Encode(Decode(t).value) == t
  {
    DigitOfValue(t[0]);
    DigitOfValue(t[1]);
    if t[2] == '=' {
      EncodedOne(Value(t[0]), Value(t[1]));
      assert t == [t[0], t[1], '=', '='];
    } else {
      DigitOfValue(t[2]);
      EncodedTwo(Value(t[0]), Value(t[1]), Value(t[2]));
      assert t == [t[0], t[1], t[2], '='];
    }
  }

  // An encoder that holds back incomplete groups of three writes the same text.
  lemma {:induction false} EncodeAppend(a: seq<byte>, b: seq<byte>)
    requires |a| % 3 == 0
    ensures Encode(a + b) == Encode(a) + Encode(b)
  {
    if a == [] {
      assert a + b == b;
    } else {
      assert (a + b)[3..] == a[3..] + b;
      EncodeAppend(a[3..], b);
    }
  }

  // What may stand in encoded text.
  predicate InAlphabet(c: char) {
    Value(c) < 64 || c == '='
  }

  lemma {:induction false} EncodeAlphabet(s: seq<byte>)
    ensures forall c :: c in Encode(s) ==> InAlphabet(c)
  {
    if |s| == 1 {
      QuadInverted(s[0], 0, 0);
    } else if |s| == 2 {
      QuadInverted(s[0], s[1], 0);
    } else if |s| > 2 {
      QuadInverted(s[0], s[1], s[2]);
      EncodeAlphabet(s[3..]);
    }
  }
}
