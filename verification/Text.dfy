/** Cutting strings at a separator, and decimal numerals as Rust's `to_string` prints them. */
module Text {
  import opened Common

  predicate Lacks<T(==)>(s: seq<T>, c: T) {
    forall i | 0 <= i < |s| :: s[i] != c
  }

  /** Index of the first occurrence at or after `from`, or the length. */
  function FirstIndex<T(==)>(s: seq<T>, c: T, from: nat): (r: nat)
    requires from <= |s|
    ensures from <= r <= |s|
    ensures r < |s| ==> s[r] == c
    ensures forall i | from <= i < r :: s[i] != c
    decreases |s| - from
  {
    if from == |s| || s[from] == c then from else FirstIndex(s, c, from + 1)
  }

  /** One past the last occurrence before `end`, or zero. */
  function LastIndex<T(==)>(s: seq<T>, c: T, end: nat): (r: nat)
    requires end <= |s|
    ensures r <= end
    ensures r > 0 ==> s[r - 1] == c
    ensures forall i | r <= i < end :: s[i] != c
    decreases end
  {
    if end == 0 || s[end - 1] == c then end else LastIndex(s, c, end - 1)
  }

  /** Splits at the first occurrence of the separator. */
  function CutFirst<T(==)>(s: seq<T>, c: T): (r: Option<(seq<T>, seq<T>)>)
  {
    var i := FirstIndex(s, c, 0);
    if i == |s| then None else Some((s[..i], s[i + 1..]))
  }

  /** Splits at the last occurrence of the separator. */
  function CutLast<T(==)>(s: seq<T>, c: T): (r: Option<(seq<T>, seq<T>)>)
  {
    var i := LastIndex(s, c, |s|);
    if i == 0 then None else Some((s[..i - 1], s[i..]))
  }

  lemma {:induction false} CutFirstSplits<T>(s: seq<T>, c: T)
    ensures CutFirst(s, c).None? <==> Lacks(s, c)
    ensures CutFirst(s, c).Some? ==>
      var (a, b) := CutFirst(s, c).value; s == a + [c] + b && Lacks(a, c) && |a| < |s|
  {
  }

  lemma {:induction false} CutLastSplits<T>(s: seq<T>, c: T)
    ensures CutLast(s, c).None? <==> Lacks(s, c)
    ensures CutLast(s, c).Some? ==>
      var (a, b) := CutLast(s, c).value; s == a + [c] + b && Lacks(b, c) && |b| < |s|
  {
  }

  /** A separator-free head makes the first cut unambiguous. */
  lemma {:induction false} CutFirstAt<T>(a: seq<T>, c: T, b: seq<T>)
    requires Lacks(a, c)
    ensures CutFirst(a + [c] + b, c) == Some((a, b))
  {
    var s := a + [c] + b;
    var i := FirstIndex(s, c, 0);
    assert s[|a|] == c;
    assert forall j | 0 <= j < |a| :: s[j] == a[j];
    assert i == |a|;
    assert s[..i] == a && s[i + 1..] == b;
  }

  /** A separator-free end makes the last cut unambiguous. */
  lemma {:induction false} CutLastAt<T>(a: seq<T>, c: T, b: seq<T>)
    requires Lacks(b, c)
    ensures CutLast(a + [c] + b, c) == Some((a, b))
  {
    var s := a + [c] + b;
    var i := LastIndex(s, c, |s|);
    assert s[|a|] == c;
    assert forall j | |a| < j < |s| :: s[j] == b[j - |a| - 1];
    assert i == |a| + 1;
    assert s[..i - 1] == a && s[i..] == b;
  }

  // ---------------------------------------------------------------- decimals

  predicate IsDigit(c: char) {
    '0' <= c <= '9'
  }

  function Digit(d: nat): (c: char)
    requires d < 10
    ensures IsDigit(c) && c as int == '0' as int + d
  {
    '0' + d as char
  }

  function Decimal(n: nat): (s: string)
    ensures s != [] && forall i | 0 <= i < |s| :: IsDigit(s[i])
  {
    if n < 10 then [Digit(n)] else Decimal(n / 10) + [Digit(n % 10)]
  }

  function DigitValue(c: char): nat {
    if IsDigit(c) then c as int - '0' as int else 0
  }

  function ParseDecimal(s: string): nat
  {
    if s == [] then 0 else ParseDecimal(s[..|s| - 1]) * 10 + DigitValue(s[|s| - 1])
  }

  lemma {:induction false} DecimalRoundTrip(n: nat)
    ensures ParseDecimal(Decimal(n)) == n
  {
    var s := Decimal(n);
    if n < 10 {
      assert s[..|s| - 1] == [];
    } else {
      DecimalRoundTrip(n / 10);
      assert s[..|s| - 1] == Decimal(n / 10);
    }
  }

  function SignedDecimal(n: int): (s: string)
    ensures s != [] && Lacks(s, ':')
  {
    if n < 0 then "-" + Decimal(-n) else Decimal(n)
  }

  function ParseSigned(s: string): int
  {
    if s != [] && s[0] == '-' then 0 - ParseDecimal(s[1..]) else ParseDecimal(s)
  }

  lemma {:induction false} SignStripped(s: string)
    ensures ParseSigned("-" + s) == 0 - ParseDecimal(s)
  {
    assert ("-" + s)[1..] == s;
  }

  lemma {:induction false} SignedDecimalRoundTrip(n: int)
    ensures ParseSigned(SignedDecimal(n)) == n
  {
    DecimalRoundTrip(if n < 0 then -n else n);
    if n < 0 {
      SignStripped(Decimal(-n));
    } else {
      assert Decimal(n)[0] != '-';
    }
  }

  /** No leading zeros, and a minus sign for negative numbers only. */
  lemma {:induction false} DecimalInFull(n: int)
    ensures n >= 0 ==>
      SignedDecimal(n) == Decimal(n) && (Decimal(n)[0] == '0' <==> n == 0) && (n < 10 <==> |Decimal(n)| == 1)
    ensures n < 0 ==> SignedDecimal(n) == ['-'] + Decimal(-n)
  {
    if n >= 10 {
      DecimalInFull(n / 10);
    }
  }
}
