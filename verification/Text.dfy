// Text helpers shared by the model. A Go string is a sequence of bytes; it is
// written here as a Dafny string whose characters stand for those bytes.
module Text {

  datatype Option<+T> = None | Some(value: T)

  // ------------------------------------------------------------------
  // Byte-wise lexicographic order, the order of Go's < on strings.
  // ------------------------------------------------------------------

  predicate Less(a: string, b: string) {
    b != [] && (a == [] || a[0] < b[0] || (a[0] == b[0] && Less(a[1..], b[1..])))
  }

  lemma {:induction false} LessIrreflexive(a: string)
    ensures !Less(a, a)
  {
    if a != [] {
      LessIrreflexive(a[1..]);
    }
  }

  lemma {:induction false} LessTransitive(a: string, b: string, c: string)
    requires Less(a, b) && Less(b, c)
    ensures Less(a, c)
  {
    if a != [] && a[0] == b[0] && b[0] == c[0] {
      LessTransitive(a[1..], b[1..], c[1..]);
    }
  }

  lemma {:induction false} LessTotal(a: string, b: string)
    ensures a == b || Less(a, b) || Less(b, a)
  {
    if a != [] && b != [] && a[0] == b[0] {
      LessTotal(a[1..], b[1..]);
      if a[1..] == b[1..] {
        assert a == [a[0]] + a[1..] && b == [b[0]] + b[1..];
      }
    }
  }

  // What the order says: the shorter of two strings that agree as far as it
  // reaches, or the one with the smaller character where they first differ.
  predicate FirstDiffersAt(a: string, b: string, k: nat) {
    && k <= |a| && k < |b| && a[..k] == b[..k]
    && (k == |a| || a[k] < b[k])
  }

  lemma {:induction false} LessIff(a: string, b: string)
    ensures Less(a, b) <==> exists k: nat :: FirstDiffersAt(a, b, k)
  {
    if Less(a, b) {
      if a == [] || a[0] < b[0] {
        assert FirstDiffersAt(a, b, 0);
      } else {
        LessIff(a[1..], b[1..]);
        var k: nat :| FirstDiffersAt(a[1..], b[1..], k);
        assert a[..k + 1] == [a[0]] + a[1..][..k] && b[..k + 1] == [b[0]] + b[1..][..k];
        assert FirstDiffersAt(a, b, k + 1);
      }
    }
    if k: nat :| FirstDiffersAt(a, b, k) {
      if k > 0 {
        LessIff(a[1..], b[1..]);
        assert a[0] == a[..k][0] && b[0] == b[..k][0];
        assert a[1..][..k - 1] == a[..k][1..] && b[1..][..k - 1] == b[..k][1..];
        assert FirstDiffersAt(a[1..], b[1..], k - 1);
      }
    }
  }

  // ------------------------------------------------------------------
  // ASCII case folding, standing for strings.ToLower.
  // ------------------------------------------------------------------

  function LowerChar(c: char): char {
    if 'A' <= c <= 'Z' then (c as int + 32) as char else c
  }

  function ToLower(s: string): string {
    seq(|s|, i requires 0 <= i < |s| => LowerChar(s[i]))
  }

  const UPPER := "ABCDEFGHIJKLMNOPQRSTUVWXYZ"
  const LOWER := "abcdefghijklmnopqrstuvwxyz"

  // Folding replaces each letter of the upper alphabet by the one in its place in
  // the lower, and nothing else.
  lemma ToLowerFolds(s: string, i: nat)
    requires i < |s|
    ensures |ToLower(s)| == |s|
    ensures s[i] !in UPPER ==> ToLower(s)[i] == s[i]
    ensures forall k | 0 <= k < 26 && s[i] == UPPER[k] :: ToLower(s)[i] == LOWER[k]
  {
    Alphabets();
    if 'A' <= s[i] <= 'Z' {
      assert UPPER[s[i] as int - 65] == s[i];
    }
  }

  lemma Alphabets()
    ensures |UPPER| == |LOWER| == 26
    ensures forall k | 0 <= k < 26 :: UPPER[k] as int == 65 + k && LOWER[k] as int == 97 + k
  {}

  // ------------------------------------------------------------------
  // strconv.Itoa and strconv.Atoi.
  // ------------------------------------------------------------------

  const MAX_INT64: int := 0x7FFF_FFFF_FFFF_FFFF
  const MIN_INT64: int := -0x8000_0000_0000_0000

  predicate IsDigit(c: char) { '0' <= c <= '9' }

  predicate AllDigits(s: string) { forall i | 0 <= i < |s| :: IsDigit(s[i]) }

  function DigitChar(d: nat): char
    requires d < 10
  {
    (d + '0' as int) as char
  }

  function Digits(n: nat): string {
    if n < 10 then [DigitChar(n)] else Digits(n / 10) + [DigitChar(n % 10)]
  }

  function Itoa(n: int): string {
    if n < 0 then "-" + Digits(-n) else Digits(n)
  }

  function DigitsValue(s: string): (value: int)
    requires AllDigits(s)
    ensures value >= 0
  {
    if s == [] then 0
    else DigitsValue(s[..|s| - 1]) * 10 + (s[|s| - 1] as int - '0' as int)
  }

  // An optional sign, at least one decimal digit, nothing else, in range.
  function Atoi(s: string): Option<int> {
    var signed := s != [] && (s[0] == '+' || s[0] == '-');
    var body := if signed then s[1..] else s;
    if body == [] || !AllDigits(body) then None
    else
      var value := if signed && s[0] == '-' then -DigitsValue(body) else DigitsValue(body);
      if MIN_INT64 <= value <= MAX_INT64 then Some(value) else None
  }

  lemma {:induction false} DigitsRoundTrip(n: nat)
    ensures Digits(n) != [] && AllDigits(Digits(n))
    ensures DigitsValue(Digits(n)) == n
  {
    if n >= 10 {
      DigitsRoundTrip(n / 10);
      assert Digits(n)[..|Digits(n)| - 1] == Digits(n / 10);
    }
  }

  lemma AtoiItoa(n: int)
    requires MIN_INT64 <= n <= MAX_INT64
    ensures Atoi(Itoa(n)) == Some(n)
  {
    var m: nat := if n < 0 then -n else n;
    var digits := Digits(m);
    DigitsRoundTrip(m);
    assert IsDigit(digits[0]);
    if n < 0 {
      var s := "-" + digits;
      assert s[1..] == digits;
      assert Atoi(s) == Some(-DigitsValue(digits));
    } else {
      assert Atoi(digits) == Some(DigitsValue(digits));
    }
  }

  // Numbers outside 64 bits do not read back, and neither does anything else.
  lemma AtoiOutOfRange(n: int)
    requires n < MIN_INT64 || n > MAX_INT64
    ensures Atoi(Itoa(n)) == None
  {
    var digits := Digits(if n < 0 then -n else n);
    DigitsRoundTrip(if n < 0 then -n else n);
    assert IsDigit(digits[0]);
    assert ("-" + digits)[1..] == digits;
  }

  lemma AtoiPlus(n: nat)
    requires n <= MAX_INT64
    ensures Atoi("+" + Digits(n)) == Some(n)
  {
    DigitsRoundTrip(n);
    assert ("+" + Digits(n))[1..] == Digits(n);
  }

  lemma AtoiRejects(s: string, k: nat)
    requires k < |s| && s[k] !in "0123456789" && (k == 0 ==> s[0] !in "+-" || |s| == 1)
    ensures Atoi(s) == None
  {
    assert forall d | 0 <= d < 10 :: "0123456789"[d] as int == 48 + d;
    if k > 0 {
      assert s[1..][k - 1] == s[k];
    }
  }

  lemma DecimalText()
    ensures Digits(0) == "0" && Digits(63) == "63" && Itoa(-120) == "-120"
  {
    assert Digits(6) == "6" && Digits(12) == Digits(1) + "2";
  }
}
