/** Searching text, and reading the status line that ends a remote command. */
module Text {
  import opened Options
  import opened Seqs

  // needle stands in text at position i.
  predicate At(text: string, i: nat, needle: string) {
    i + |needle| <= |text| && text[i..i + |needle|] == needle
  }

  ghost predicate Contains(text: string, needle: string) {
    exists i: nat :: At(text, i, needle)
  }

  function IndexFrom(text: string, needle: string, i: nat): (r: Option<nat>)
    ensures r.Some? ==>
              i <= r.value && At(text, r.value, needle) && forall j :: i <= j < r.value ==> !At(text, j, needle)
    ensures r.None? ==> forall j :: i <= j ==> !At(text, j, needle)
    decreases |text| - i
  {
    if i + |needle| > |text| then None
    else if At(text, i, needle) then Some(i)
    else IndexFrom(text, needle, i + 1)
  }

  // Where needle first stands in text.
  function Index(text: string, needle: string): (r: Option<nat>)
    ensures r.Some? <==> Contains(text, needle)
    ensures r.Some? ==> At(text, r.value, needle) && forall j: nat :: j < r.value ==> !At(text, j, needle)
  {
    IndexFrom(text, needle, 0)
  }

  predicate IsLineEnd(c: char) {
    c == '\r' || c == '\n'
  }

  function LineEndFrom(text: string, i: nat): (r: Option<nat>)
    ensures r.Some? ==> i <= r.value < |text| && IsLineEnd(text[r.value])
                        && forall j :: i <= j < r.value ==> !IsLineEnd(text[j])
    ensures r.None? ==> forall j :: i <= j < |text| ==> !IsLineEnd(text[j])
    decreases |text| - i
  {
    if i >= |text| then None else if IsLineEnd(text[i]) then Some(i) else LineEndFrom(text, i + 1)
  }

  // ----- Numbers -----

  predicate IsSpace(c: char) {
    c == ' ' || '\t' <= c <= '\r'
  }

  function TrimLeft(s: string): string {
    if s != [] && IsSpace(s[0]) then TrimLeft(s[1..]) else s
  }

  function TrimRight(s: string): string {
    if s != [] && IsSpace(s[|s| - 1]) then TrimRight(s[..|s| - 1]) else s
  }

  function TrimSpace(s: string): string {
    TrimRight(TrimLeft(s))
  }

  predicate Blank(s: string) {
    forall c :: c in s ==> c in {' ', '\t', '\n', 11 as char, 12 as char, '\r'}
  }

  predicate Bounded(s: string) {
    s == "" || (!IsSpace(s[0]) && !IsSpace(s[|s| - 1]))
  }

  lemma {:induction false} LeftTrimmed(s: string) returns (left: string)
    ensures s == left + TrimLeft(s) && Blank(left) && (TrimLeft(s) != "" ==> !IsSpace(TrimLeft(s)[0]))
  {
    if s != "" && IsSpace(s[0]) {
      var more := LeftTrimmed(s[1..]);
      left := [s[0]] + more;
    } else {
      left := "";
    }
  }

  lemma {:induction false} RightTrimmed(s: string) returns (right: string)
    requires s != "" ==> !IsSpace(s[0])
    ensures s == TrimRight(s) + right && Blank(right) && Bounded(TrimRight(s))
  {
    if s != "" && IsSpace(s[|s| - 1]) {
      var n := |s| - 1;
      assert n > 0 ==> s[..n][0] == s[0];
      var more := RightTrimmed(s[..n]);
      right := more + [s[n]];
      assert s == s[..n] + [s[n]];
    } else {
      right := "";
    }
  }

  // Trimming takes white space off both ends, and all of it.
  lemma {:induction false} Trimmed(s: string) returns (left: string, right: string)
    ensures s == left + TrimSpace(s) + right && Blank(left) && Blank(right) && Bounded(TrimSpace(s))
  {
    left := LeftTrimmed(s);
    right := RightTrimmed(TrimLeft(s));
    Assoc(left, TrimSpace(s), right);
  }

  predicate IsDigit(c: char) {
    '0' <= c <= '9'
  }

  function Digits(s: string): (r: Option<nat>) {
    if s == [] then Some(0)
    else if !IsDigit(s[|s| - 1]) then None
    else match Digits(s[..|s| - 1])
      case None => None
      case Some(n) => Some(10 * n + (s[|s| - 1] as int - '0' as int))
  }

  const INT_LIMIT := 0x8000_0000_0000_0000

  // A decimal number with an optional sign that fits a 64-bit int.
  function Atoi(s: string): Option<int> {
    var signed := s != [] && (s[0] == '+' || s[0] == '-');
    var digits := if signed then s[1..] else s;
    if digits == [] then None
    else match Digits(digits)
      case None => None
      case Some(n) =>
        if s[0] == '-' then (if n <= INT_LIMIT then Some(0 - n) else None)
        else if n < INT_LIMIT then Some(n) else None
  }

  // A number as it is printed.
  function Decimal(n: nat): (s: string)
    ensures s != [] && forall c :: c in s ==> IsDigit(c)
  {
    if n < 10 then [DigitOf(n)] else Decimal(n / 10) + [DigitOf(n % 10)]
  }

  function DigitOf(n: nat): (c: char)
    requires n < 10
    ensures IsDigit(c) && c as int - '0' as int == n
  {
    '0' + n as char
  }

  lemma {:induction false} DigitsOfDecimal(n: nat)
    ensures Digits(Decimal(n)) == Some(n)
  {
    if n < 10 {
      assert [DigitOf(n)][..0] == [];
    } else {
      DigitsOfDecimal(n / 10);
      assert (Decimal(n / 10) + [DigitOf(n % 10)])[..|Decimal(n / 10)|] == Decimal(n / 10);
    }
  }

  // What is printed is read back.
  lemma {:induction false} AtoiOfDecimal(n: nat)
    requires n < INT_LIMIT
    ensures Atoi(TrimSpace(Decimal(n))) == Some(n)
  {
    var s := Decimal(n);
    assert s[0] in s && s[|s| - 1] in s;
    DigitsOfDecimal(n);
  }

  // ----- What is read as a number -----

  function Zeros(k: nat): string {
    if k == 0 then "" else "0" + Zeros(k - 1)
  }

  lemma {:induction false} DigitsMore(s: string, c: char)
    requires Digits(s).Some? && IsDigit(c)
    ensures Digits(s + [c]) == Some(10 * Digits(s).value + (c as int - '0' as int))
  {
    assert (s + [c])[..|s|] == s;
  }

  lemma {:induction false} DigitsPadded(k: nat, s: string)
    requires Digits(s).Some?
    ensures Digits(Zeros(k) + s) == Digits(s)
    decreases k, |s|
  {
    if s == "" {
      assert Zeros(k) + s == Zeros(k);
      ZerosMean(k);
    } else {
      var n := |s| - 1;
      DigitsPadded(k, s[..n]);
      DigitsMore(Zeros(k) + s[..n], s[n]);
      assert Zeros(k) + s[..n] + [s[n]] == Zeros(k) + s;
    }
  }

  lemma {:induction false} ZerosMean(k: nat)
    ensures Digits(Zeros(k)) == Some(0)
  {
    if k > 0 {
      ZerosMean(k - 1);
      ZerosCommute(k - 1);
      DigitsMore(Zeros(k - 1), '0');
    }
  }

  lemma {:induction false} ZerosCommute(k: nat)
    ensures "0" + Zeros(k) == Zeros(k) + "0"
  {
    if k > 0 {
      ZerosCommute(k - 1);
      Assoc("0", Zeros(k - 1), "0");
    }
  }

  // Digits are zeros and then a number as it is printed.
  lemma {:induction false} DigitsForm(s: string) returns (k: nat)
    requires s != "" && Digits(s).Some?
    ensures s == Zeros(k) + Decimal(Digits(s).value)
  {
    var n, d := |s| - 1, s[|s| - 1] as int - '0' as int;
    assert s == s[..n] + [s[n]] && s[n] == DigitOf(d);
    if n == 0 {
      k := 0;
    } else {
      k := DigitsForm(s[..n]);
      var m := Digits(s[..n]).value;
      if m == 0 {
        assert Zeros(k) + "0" + [s[n]] == Zeros(k) + "0" + Decimal(d);
        ZerosCommute(k);
        k := k + 1;
      } else {
        assert (10 * m + d) / 10 == m && (10 * m + d) % 10 == d;
        Assoc(Zeros(k), Decimal(m), [s[n]]);
      }
    }
  }

  // s is an optional sign, any zeros, and the number n as it is printed.
  predicate Spells(s: string, v: int, sign: string, k: nat, n: nat) {
    && (sign == "" || sign == "+" || sign == "-")
    && v == (if sign == "-" then 0 - n else n)
    && s == sign + (Zeros(k) + Decimal(n))
  }

  // Exactly what is read as a number, and as which.
  lemma AtoiExactlyWhen(s: string, v: int)
    ensures Atoi(s) == Some(v)
            <==> -0x8000_0000_0000_0000 <= v < 0x8000_0000_0000_0000
                 && exists sign, k: nat, n: nat :: Spells(s, v, sign, k, n)
  {
    if Atoi(s) == Some(v) {
      var sign := if s[0] == '+' || s[0] == '-' then [s[0]] else "";
      var digits := if sign == "" then s else s[1..];
      assert s == sign + digits;
      var k := DigitsForm(digits);
      assert Spells(s, v, sign, k, Digits(digits).value);
    }
    if sign, k: nat, n: nat :| Spells(s, v, sign, k, n) && -0x8000_0000_0000_0000 <= v < 0x8000_0000_0000_0000 {
      AtoiOfSpelt(s, v, sign, k, n);
    }
  }

  // The first of the digits is one.
  lemma {:induction false} PaddedStarts(k: nat, n: nat)
    ensures var d := Zeros(k) + Decimal(n); d != "" && IsDigit(d[0])
  {
    assert Decimal(n)[0] in Decimal(n);
  }

  lemma SignedIs(digits: string, n: nat)
    requires digits != "" && IsDigit(digits[0]) && Digits(digits) == Some(n)
    ensures Atoi(digits) == if n < INT_LIMIT then Some(n) else None
    ensures Atoi("+" + digits) == if n < INT_LIMIT then Some(n) else None
    ensures Atoi("-" + digits) == if n <= INT_LIMIT then Some(0 - n) else None
  {
    assert ("+" + digits)[1..] == digits && ("-" + digits)[1..] == digits;
  }

  lemma {:induction false} AtoiOfSpelt(s: string, v: int, sign: string, k: nat, n: nat)
    requires Spells(s, v, sign, k, n) && -0x8000_0000_0000_0000 <= v < 0x8000_0000_0000_0000
    ensures Atoi(s) == Some(v)
  {
    DigitsOfDecimal(n);
    DigitsPadded(k, Decimal(n));
    PaddedStarts(k, n);
    AtoiOfSigned(sign, Zeros(k) + Decimal(n), n);
  }

  lemma AtoiOfSigned(sign: string, digits: string, n: nat)
    requires digits != "" && IsDigit(digits[0]) && Digits(digits) == Some(n)
    requires sign == "" || sign == "+" || sign == "-"
    ensures Atoi(sign + digits)
         == if sign == "-" then (if n <= INT_LIMIT then Some(0 - n) else None)
            else if n < INT_LIMIT then Some(n) else None
  {
    SignedIs(digits, n);
    assert "" + digits == digits;
  }

  // A text with a character that no number holds is none.
  lemma {:induction false} DigitsOnly(s: string, i: nat)
    requires i < |s| && !IsDigit(s[i])
    ensures Digits(s) == None
  {
    if i < |s| - 1 {
      DigitsOnly(s[..|s| - 1], i);
    }
  }

  predicate Foreign(c: char) {
    !IsDigit(c) && !IsSpace(c) && c != '+' && c != '-'
  }

  lemma EdgeIsBlank(left: string, s: string, right: string, i: nat)
    requires Blank(left) && Blank(right) && i < |left + s + right| && (i < |left| || i >= |left| + |s|)
    ensures !Foreign((left + s + right)[i])
  {
    var c := (left + s + right)[i];
    if i < |left| {
      assert c == left[i] && c in left;
    } else {
      assert c == right[i - |left| - |s|] && c in right;
    }
  }

  lemma NoNumber(line: string, i: nat)
    requires i < |line| && Foreign(line[i])
    ensures Atoi(TrimSpace(line)) == None
  {
    var left, right := Trimmed(line);
    var s := TrimSpace(line);
    if i < |left| || i >= |left| + |s| {
      EdgeIsBlank(left, s, right, i);
      assert false;
    }
    var j := i - |left|;
    assert s[j] == line[i];
    if s[0] == '+' || s[0] == '-' {
      DigitsOnly(s[1..], j - 1);
    } else {
      DigitsOnly(s, j);
    }
  }

  // ----- The status line -----

  datatype Line = NoLine | Line(content: string, rest: string)

  // The first complete line of text, and the text after it.
  function FirstLine(text: string): (r: Line)
    ensures r.Line? ==> |r.rest| < |text|
  {
    match LineEndFrom(text, 0)
    case None => NoLine
    case Some(end) => Line(text[..end], text[end + 1..])
  }

  // The same behind the first occurrence of prefix.
  function NextLine(text: string, prefix: string): (r: Line)
    ensures r.Line? ==> |r.rest| < |text|
  {
    match Index(text, prefix)
    case None => NoLine
    case Some(k) => FirstLine(text[k + |prefix|..])
  }

  // The number on the first of these lines that holds one.
  function Status(text: string, prefix: string): Option<int>
    decreases |text|
  {
    match NextLine(text, prefix)
    case NoLine => None
    case Line(content, rest) =>
      match Atoi(TrimSpace(content))
      case Some(status) => Some(status)
      case None => Status(rest, prefix)
  }

  // One differing character rules a position out.
  lemma NotAt(text: string, i: nat, needle: string, j: nat)
    requires j < |needle| && i + |needle| <= |text| && text[i + j] != needle[j]
    ensures !At(text, i, needle)
  {
    assert text[i..i + |needle|][j] == text[i + j];
  }

  lemma AtStable(text: string, more: string, i: nat, needle: string)
    requires i + |needle| <= |text|
    ensures At(text + more, i, needle) <==> At(text, i, needle)
  {
    assert (text + more)[i..i + |needle|] == text[i..i + |needle|];
  }

  lemma IndexStable(text: string, more: string, needle: string)
    requires Index(text, needle).Some?
    ensures Index(text + more, needle) == Index(text, needle)
  {
    var k := Index(text, needle).value;
    AtStable(text, more, k, needle);
    forall j: nat | j < k ensures !At(text + more, j, needle) {
      AtStable(text, more, j, needle);
    }
  }

  lemma {:induction false} LineEndStable(text: string, more: string)
    requires LineEndFrom(text, 0).Some?
    ensures LineEndFrom(text + more, 0) == LineEndFrom(text, 0)
  {
    var e, all := LineEndFrom(text, 0).value, text + more;
    assert all[e] == text[e];
  }

  lemma FirstLineStable(text: string, more: string)
    requires FirstLine(text).Line?
    ensures FirstLine(text + more) == Line(FirstLine(text).content, FirstLine(text).rest + more)
  {
    LineEndStable(text, more);
    var end := LineEndFrom(text, 0).value;
    TakeAppend(text, more, end);
    DropAppend(text, more, end + 1);
  }

  lemma NextLineIs(text: string, prefix: string, k: nat, line: string)
    requires Index(text, prefix) == Some(k) && line == text[k + |prefix|..]
    ensures NextLine(text, prefix) == FirstLine(line)
  {
  }

  lemma NextLineStable(text: string, more: string, prefix: string)
    requires NextLine(text, prefix).Line?
    ensures var r := NextLine(text, prefix); NextLine(text + more, prefix) == Line(r.content, r.rest + more)
  {
    IndexStable(text, more, prefix);
    var k := Index(text, prefix).value;
    var line := text[k + |prefix|..];
    DropAppend(text, more, k + |prefix|);
    NextLineIs(text, prefix, k, line);
    NextLineIs(text + more, prefix, k, line + more);
    FirstLineStable(line, more);
  }

  // A status once read stays the same whatever arrives later.
  lemma {:induction false} StatusStable(text: string, more: string, prefix: string)
    requires Status(text, prefix).Some?
    ensures Status(text + more, prefix) == Status(text, prefix)
    decreases |text|
  {
    NextLineStable(text, more, prefix);
    var r := NextLine(text, prefix);
    if Atoi(TrimSpace(r.content)).None? {
      StatusStable(r.rest, more, prefix);
    }
  }

  // However a stream is cut into reads, everybody who reads a status from a part of it
  // reads the same one.
  lemma {:induction false} StatusUnique(one: string, two: string, stream: string, prefix: string)
    requires one <= stream && two <= stream
    requires Status(one, prefix).Some? && Status(two, prefix).Some?
    ensures Status(one, prefix) == Status(two, prefix) == Status(stream, prefix)
  {
    assert stream == one + stream[|one|..] == two + stream[|two|..];
    StatusStable(one, stream[|one|..], prefix);
    StatusStable(two, stream[|two|..], prefix);
  }

  lemma FirstLineIs(line: string, end: char, rest: string)
    requires IsLineEnd(end) && forall c :: c in line ==> !IsLineEnd(c)
    ensures FirstLine(line + ([end] + rest)) == Line(line, rest)
  {
    var text := line + ([end] + rest);
    assert text[|line|] == end && forall j :: 0 <= j < |line| ==> text[j] == line[j];
    assert text[..|line|] == line && text[|line| + 1..] == rest;
  }

  lemma IndexAtFront(prefix: string, after: string)
    ensures Index(prefix + after, prefix) == Some(0) && (prefix + after)[|prefix|..] == after
  {
    assert At(prefix + after, 0, prefix);
  }

  // One status line at the front of the text: a number is the answer, anything else, such
  // as the %s of an echoed command, is passed over.
  lemma {:induction false} StatusOfFirstLine(prefix: string, line: string, end: char, rest: string)
    requires IsLineEnd(end) && forall c :: c in line ==> !IsLineEnd(c)
    ensures Status(prefix + line + [end] + rest, prefix)
            == match Atoi(TrimSpace(line)) case Some(status) => Some(status) case None => Status(rest, prefix)
  {
    Assoc(prefix, line, [end] + rest);
    Assoc(prefix + line, [end], rest);
    IndexAtFront(prefix, line + ([end] + rest));
    FirstLineIs(line, end, rest);
  }

  // A line behind the prefix that holds anything but digits, signs and white space is passed
  // over, such as the template of an echoed command.
  lemma {:induction false} OddLinePassed(prefix: string, line: string, i: nat, end: char, rest: string)
    requires IsLineEnd(end) && NoLineEnd(line) && i < |line| && Foreign(line[i])
    ensures Status(prefix + line + [end] + rest, prefix) == Status(rest, prefix)
  {
    NoNumber(line, i);
    StatusOfFirstLine(prefix, line, end, rest);
  }

  // An echoed template, and behind it the line that the command prints.
  lemma {:induction false} TemplateSkipped(prefix: string, n: nat)
    requires prefix != "" && NoLineEnd(prefix) && n < 0x8000_0000_0000_0000
    ensures Status(prefix + "%s" + "\r" + ("\n" + (prefix + (Decimal(n) + "\r\n"))), prefix) == Some(n)
  {
    var tail := Decimal(n) + "\r\n";
    assert "%s"[0] == '%' && "%s"[1] == 's';
    OddLinePassed(prefix, "%s", 0, '\r', "\n" + (prefix + tail));
    AtoiOfDecimal(n);
    FirstLineIs(Decimal(n), '\r', "\n");
    assert Decimal(n) + (['\r'] + "\n") == tail;
    LineEndHasNo("\n", prefix);
    StatusBehind("\n", prefix, tail);
  }

  lemma LineEndHasNo(text: string, prefix: string)
    requires prefix != "" && NoLineEnd(prefix) && forall c :: c in text ==> IsLineEnd(c)
    ensures NoStatus(text, prefix)
  {
    forall i: nat ensures !At(text, i, prefix) {
      if i + |prefix| <= |text| {
        assert text[i] in text && prefix[0] in prefix;
        NotAt(text, i, prefix, 0);
      }
    }
    NoneMeansNoStatus(text, prefix);
  }

  // ----- A status line in the middle of a long stream -----

  predicate EndsLine(text: string) {
    text == "" || IsLineEnd(text[|text| - 1])
  }

  predicate NoLineEnd(text: string) {
    forall c :: c in text ==> !IsLineEnd(c)
  }

  // No part of text that reaches to its end holds a status.
  ghost predicate NoStatus(text: string, prefix: string) {
    forall k :: 0 <= k <= |text| ==> Status(text[k..], prefix) == None
  }

  lemma NoStatusAfter(text: string, prefix: string, n: nat)
    requires NoStatus(text, prefix) && n <= |text|
    ensures NoStatus(text[n..], prefix)
  {
    forall k | 0 <= k <= |text| - n ensures Status(text[n..][k..], prefix) == None {
      assert text[n..][k..] == text[n + k..];
    }
  }

  // A prefix without line ends does not reach across the end of a line.
  lemma NotAcross(text: string, more: string, i: nat, prefix: string)
    requires EndsLine(text) && NoLineEnd(prefix) && i < |text| <= i + |prefix|
    ensures !At(text + more, i, prefix)
  {
    var n := |text| - 1;
    if i + |prefix| <= |text + more| {
      assert (text + more)[i..i + |prefix|][n - i] == text[n];
      assert prefix[n - i] in prefix;
    }
  }

  // Where the prefix first stands: in text, or right behind it.
  lemma IndexBefore(text: string, prefix: string, after: string)
    requires EndsLine(text) && NoLineEnd(prefix) && prefix != ""
    ensures Index(text, prefix).Some? ==> Index(text + (prefix + after), prefix) == Index(text, prefix)
    ensures Index(text, prefix).None? ==> Index(text + (prefix + after), prefix) == Some(|text|)
  {
    var all := text + (prefix + after);
    if Index(text, prefix).Some? {
      IndexStable(text, prefix + after, prefix);
    } else {
      assert all[|text|..|text| + |prefix|] == prefix;
      assert At(all, |text|, prefix);
      forall j: nat | j < |text| ensures !At(all, j, prefix) {
        if j + |prefix| < |text| {
          AtStable(text, prefix + after, j, prefix);
        } else {
          NotAcross(text, prefix + after, j, prefix);
        }
      }
    }
  }

  // A line that begins in a text that ends with a line ends in it.
  lemma LineWithin(text: string, i: nat)
    requires EndsLine(text) && i < |text|
    ensures FirstLine(text[i..]).Line?
    ensures var n := |text| - |FirstLine(text[i..]).rest|; i < n <= |text| && FirstLine(text[i..]).rest == text[n..]
  {
    assert text[i..][|text| - 1 - i] == text[|text| - 1];
    var end := LineEndFrom(text[i..], 0).value;
    assert text[i..][end + 1..] == text[i + end + 1..];
  }

  // The number on the first line of text.
  function Number(text: string): Option<int> {
    match FirstLine(text)
    case NoLine => None
    case Line(content, _) => Atoi(TrimSpace(content))
  }

  // Whatever of the text in front of it is still there, a numeric status line at the
  // beginning of a line is the one that counts, if none comes before it.
  lemma {:induction false} StatusBehind(text: string, prefix: string, tail: string)
    requires EndsLine(text) && NoLineEnd(prefix) && prefix != "" && NoStatus(text, prefix) && Number(tail).Some?
    ensures Status(text + (prefix + tail), prefix) == Number(tail)
    decreases |text|
  {
    if Index(text, prefix).None? {
      StatusComesNext(text, prefix, tail);
    } else {
      assert text[0..] == text;
      PassedOver(text, prefix, prefix + tail);
      var rest := NextLine(text, prefix).rest;
      NoStatusAfter(text, prefix, |text| - |rest|);
      StatusBehind(rest, prefix, tail);
    }
  }

  lemma {:induction false} StatusComesNext(text: string, prefix: string, tail: string)
    requires EndsLine(text) && NoLineEnd(prefix) && prefix != "" && Index(text, prefix).None? && Number(tail).Some?
    ensures Status(text + (prefix + tail), prefix) == Number(tail)
  {
    IndexBefore(text, prefix, tail);
    Assoc(text, prefix, tail);
    assert (text + (prefix + tail))[|text| + |prefix|..] == tail;
  }

  // A line in front that is no status is passed over.
  lemma {:induction false} PassedOver(text: string, prefix: string, more: string)
    requires EndsLine(text) && NoLineEnd(prefix) && prefix != "" && Index(text, prefix).Some?
    requires Status(text, prefix) == None
    ensures var next := NextLine(text, prefix);
            && next.Line? && |next.rest| < |text| && next.rest == text[|text| - |next.rest|..] && EndsLine(next.rest)
            && Status(text + more, prefix) == Status(next.rest + more, prefix)
  {
    var i := Index(text, prefix).value;
    assert text + "" == text;
    if i + |prefix| == |text| {
      NotAcross(text, "", i, prefix);
    }
    LineWithin(text, i + |prefix|);
    NextLineStable(text, more, prefix);
  }

  predicate OddAt(text: string, i: nat, prefix: string) {
    At(text, i, prefix) ==> Number(text[i + |prefix|..]) == None
  }

  // No line behind the prefix, wherever the prefix stands, is a number.
  ghost predicate AllOdd(text: string, prefix: string) {
    forall i: nat :: OddAt(text, i, prefix)
  }

  lemma AtWithin(text: string, k: nat, i: nat, needle: string)
    requires k <= |text|
    ensures At(text[k..], i, needle) <==> At(text, k + i, needle)
  {
    if k + i + |needle| <= |text| {
      assert text[k..][i..i + |needle|] == text[k + i..k + i + |needle|];
    }
  }

  lemma OddPart(text: string, prefix: string, k: nat)
    requires AllOdd(text, prefix) && k <= |text|
    ensures AllOdd(text[k..], prefix)
  {
    forall i: nat ensures OddAt(text[k..], i, prefix) {
      AtWithin(text, k, i, prefix);
      assert OddAt(text, k + i, prefix);
      if At(text, k + i, prefix) {
        assert text[k..][i + |prefix|..] == text[k + i + |prefix|..];
      }
    }
  }

  predicate IsTail(rest: string, text: string) {
    |rest| <= |text| && rest == text[|text| - |rest|..]
  }

  lemma RestIsTail(text: string, k: nat, rest: string)
    requires k <= |text| && FirstLine(text[k..]).Line? && rest == FirstLine(text[k..]).rest
    ensures |rest| < |text| && IsTail(rest, text)
  {
  }

  lemma OddTail(text: string, prefix: string, rest: string)
    requires AllOdd(text, prefix) && IsTail(rest, text)
    ensures AllOdd(rest, prefix)
  {
    OddPart(text, prefix, |text| - |rest|);
  }

  lemma NextLineAt(text: string, prefix: string, content: string, rest: string) returns (i: nat)
    requires NextLine(text, prefix) == Line(content, rest)
    ensures At(text, i, prefix) && FirstLine(text[i + |prefix|..]) == Line(content, rest)
  {
    i := Index(text, prefix).value;
  }

  lemma NotANumber(text: string, prefix: string, i: nat, content: string, rest: string)
    requires AllOdd(text, prefix) && At(text, i, prefix) && FirstLine(text[i + |prefix|..]) == Line(content, rest)
    ensures Atoi(TrimSpace(content)) == None
  {
    assert OddAt(text, i, prefix);
  }

  // A line that is no number is passed over.
  lemma {:induction false} StatusGoesOn(text: string, prefix: string, content: string, rest: string)
    requires NextLine(text, prefix) == Line(content, rest) && Atoi(TrimSpace(content)) == None
    ensures Status(text, prefix) == Status(rest, prefix)
  {
  }

  lemma OddNext(text: string, prefix: string, content: string, rest: string)
    requires AllOdd(text, prefix) && NextLine(text, prefix) == Line(content, rest)
    ensures |rest| < |text| && AllOdd(rest, prefix) && Atoi(TrimSpace(content)) == None
  {
    var i := NextLineAt(text, prefix, content, rest);
    NotANumber(text, prefix, i, content, rest);
    RestIsTail(text, i + |prefix|, rest);
    OddTail(text, prefix, rest);
  }

  lemma {:induction false} OddStatus(text: string, prefix: string)
    requires AllOdd(text, prefix)
    ensures Status(text, prefix) == None
    decreases |text|
  {
    match NextLine(text, prefix)
    case NoLine =>
    case Line(content, rest) =>
      OddNext(text, prefix, content, rest);
      StatusGoesOn(text, prefix, content, rest);
      OddStatus(rest, prefix);
  }

  lemma OddMeansNoStatus(text: string, prefix: string)
    requires AllOdd(text, prefix)
    ensures NoStatus(text, prefix)
  {
    forall k | 0 <= k <= |text| ensures Status(text[k..], prefix) == None {
      OddPart(text, prefix, k);
      OddStatus(text[k..], prefix);
    }
  }

  // A line, such as an echoed command, that ends with a character that neither a number nor
  // the prefix holds, and some line ends behind it.
  lemma EchoIsNoStatus(before: string, line: string, ends: string, prefix: string)
    requires prefix != "" && NoLineEnd(prefix) && !Contains(before, prefix)
    requires line != "" && NoLineEnd(line) && Foreign(line[|line| - 1]) && line[|line| - 1] !in prefix
    requires ends != "" && forall c :: c in ends ==> IsLineEnd(c)
    ensures NoStatus(before + (line + ends), prefix)
  {
    var text := before + (line + ends);
    forall i: nat | At(text, i, prefix) ensures OddAt(text, i, prefix) {
      if i + |prefix| <= |before| || i + |prefix| >= |before| + |line| {
        BeforeTheEnd(before, line, ends, prefix, i);
        assert false;
      }
      EndOfLine(before, line, ends, i + |prefix|);
      var part := line[i + |prefix| - |before|..];
      NoNumber(part, |part| - 1);
    }
    OddMeansNoStatus(text, prefix);
  }

  // The prefix stands nowhere but in front of the last character of the line.
  lemma BeforeTheEnd(before: string, line: string, ends: string, prefix: string, i: nat)
    requires prefix != "" && NoLineEnd(prefix) && !Contains(before, prefix)
    requires line != "" && line[|line| - 1] !in prefix && forall c :: c in ends ==> IsLineEnd(c)
    requires i + |prefix| <= |before| || i + |prefix| >= |before| + |line|
    ensures !At(before + (line + ends), i, prefix)
  {
    var text, last := before + (line + ends), |before| + |line| - 1;
    if i + |prefix| <= |before| {
      AtStable(before, line + ends, i, prefix);
    } else if i + |prefix| <= |text| {
      if i <= last {
        assert text[last] == line[|line| - 1] && prefix[last - i] in prefix;
        NotAt(text, i, prefix, last - i);
      } else {
        assert text[i] == ends[i - last - 1] && ends[i - last - 1] in ends && prefix[0] in prefix;
        NotAt(text, i, prefix, 0);
      }
    }
  }

  // What is left of the line from there.
  lemma EndOfLine(before: string, line: string, ends: string, k: nat)
    requires |before| <= k < |before| + |line| && NoLineEnd(line) && ends != "" && IsLineEnd(ends[0])
    ensures FirstLine((before + (line + ends))[k..]).Line?
    ensures FirstLine((before + (line + ends))[k..]).content == line[k - |before|..]
  {
    var part := line[k - |before|..];
    assert (before + (line + ends))[k..] == part + ([ends[0]] + ends[1..]);
    assert forall c :: c in part ==> c in line;
    FirstLineIs(part, ends[0], ends[1..]);
  }

  lemma PartLacks(text: string, prefix: string, k: nat)
    requires !Contains(text, prefix) && k <= |text|
    ensures !Contains(text[k..], prefix)
  {
    forall i: nat ensures !At(text[k..], i, prefix) {
      assert !At(text, k + i, prefix);
      if i + |prefix| <= |text| - k {
        assert text[k..][i..i + |prefix|] == text[k + i..k + i + |prefix|];
      }
    }
  }

  // A text without the prefix holds no status, and no part of it does.
  lemma NoneMeansNoStatus(text: string, prefix: string)
    requires !Contains(text, prefix)
    ensures NoStatus(text, prefix)
  {
    forall k | 0 <= k <= |text| ensures Status(text[k..], prefix) == None {
      PartLacks(text, prefix, k);
    }
  }
}
