/** UTF-8 as Rust's `str` holds it: section 4 of RFC 3629. */
module Utf8 {
  import opened Common

  predicate Continuation(b: byte) {
    0x80 <= b <= 0xbf
  }

  /** Length of the well-formed character at the front of the bytes, 0 when there is none. */
  function CharLen(bs: seq<byte>): (n: nat)
    ensures n <= 4 && n <= |bs|
    ensures forall i | 1 <= i < n :: Continuation(bs[i])
    ensures n > 1 ==> bs[0] >= 0xc2
  {
    if |bs| >= 1 && bs[0] <= 0x7f then 1
    else if |bs| >= 2 && 0xc2 <= bs[0] <= 0xdf && Continuation(bs[1]) then 2
    else if |bs| >= 3 && 0xe0 <= bs[0] <= 0xef && Continuation(bs[1]) && Continuation(bs[2])
            && (bs[0] == 0xe0 ==> bs[1] >= 0xa0) && (bs[0] == 0xed ==> bs[1] <= 0x9f) then 3
    else if |bs| >= 4 && 0xf0 <= bs[0] <= 0xf4 && Continuation(bs[1]) && Continuation(bs[2]) && Continuation(bs[3])
            && (bs[0] == 0xf0 ==> bs[1] >= 0x90) && (bs[0] == 0xf4 ==> bs[1] <= 0x8f) then 4
    else 0
  }

  /** The bytes are a `str`. */
  predicate Valid(bs: seq<byte>) {
    bs == [] || (CharLen(bs) > 0 && Valid(bs[CharLen(bs)..]))
  }

  predicate Ascii(bs: seq<byte>) {
    forall i | 0 <= i < |bs| :: bs[i] <= 0x7f
  }

  lemma {:induction false} CharLenExtend(a: seq<byte>, b: seq<byte>)
    requires CharLen(a) > 0
    ensures CharLen(a + b) == CharLen(a)
  {
  }

  /** Concatenating after a valid string preserves and reflects validity of the rest. */
  lemma {:induction false} ValidConcat(a: seq<byte>, b: seq<byte>)
    requires Valid(a)
    ensures Valid(a + b) == Valid(b)
  {
    if a == [] {
      assert a + b == b;
    } else {
      var n := CharLen(a);
      CharLenExtend(a, b);
      assert (a + b)[n..] == a[n..] + b;
      ValidConcat(a[n..], b);
    }
  }

  lemma {:induction false} AsciiValid(bs: seq<byte>)
    requires Ascii(bs)
    ensures Valid(bs)
  {
    if bs != [] {
      AsciiValid(bs[1..]);
    }
  }

  /** An ASCII byte never sits inside a character, so cutting there leaves two strings. */
  lemma {:induction false} ValidCutAtAscii(a: seq<byte>, c: byte, b: seq<byte>)
    requires c <= 0x7f
    requires Valid(a + [c] + b)
    ensures Valid(a) && Valid(b)
  {
    var whole := a + [c] + b;
    if a == [] {
      assert whole[1..] == b;
    } else {
      var n := CharLen(whole);
      assert whole[|a|] == c;
      assert n <= |a|;
      assert whole[n..] == a[n..] + [c] + b;
      ValidCutAtAscii(a[n..], c, b);
      assert CharLen(a) == n by {
        assert forall i | 0 <= i < n :: whole[i] == a[i];
      }
    }
  }

  // ---------------------------------------------------------------- Unicode scalar values

  /** A code point that is no surrogate. */
  type Scalar = c: int | 0 <= c < 0xd800 || 0xe000 <= c < 0x11_0000

  /** The octets of a character, by the table in section 3 of RFC 3629. */
  function EncodeChar(c: Scalar): seq<byte> {
    var v: int := c;
    if v < 0x80 then [v]
    else if v < 0x800 then [0xc0 + v / 0x40, 0x80 + v % 0x40]
    else if v < 0x1_0000 then [0xe0 + v / 0x1000, 0x80 + v / 0x40 % 0x40, 0x80 + v % 0x40]
    else [0xf0 + v / 0x4_0000, 0x80 + v / 0x1000 % 0x40, 0x80 + v / 0x40 % 0x40, 0x80 + v % 0x40]
  }

  function EncodeText(cs: seq<Scalar>): seq<byte> {
    if cs == [] then [] else EncodeChar(cs[0]) + EncodeText(cs[1..])
  }

  lemma {:induction false} CharIsValid(c: Scalar)
    ensures CharLen(EncodeChar(c)) == |EncodeChar(c)|
  {
    var v: int := c;
    if 0x800 <= v < 0x1_0000 {
      assert v / 0x1000 == 0 ==> v / 0x40 >= 0x20;
      assert v / 0x1000 == 0xd ==> v / 0x40 % 0x40 <= 0x1f;
    }
  }

  lemma {:induction false} Shift(high: int, low: int)
    requires high >= 0 && 0 <= low < 0x40
    ensures (high * 0x40 + low) / 0x40 == high && (high * 0x40 + low) % 0x40 == low
  {
  }

  lemma {:induction false} ThreeOctets(a: int, b: int, c: int)
    requires a >= 0 && 0 <= b < 0x40 && 0 <= c < 0x40
    ensures var v := a * 0x1000 + b * 0x40 + c; v / 0x1000 == a && v / 0x40 % 0x40 == b && v % 0x40 == c
  {
    Shift(a * 0x40 + b, c);
    Shift(a, b);
  }

  lemma {:induction false} FourOctets(a: int, b: int, c: int, d: int)
    requires a >= 0 && 0 <= b < 0x40 && 0 <= c < 0x40 && 0 <= d < 0x40
    ensures var v := a * 0x4_0000 + b * 0x1000 + c * 0x40 + d;
      v / 0x4_0000 == a && v / 0x1000 % 0x40 == b && v / 0x40 % 0x40 == c && v % 0x40 == d
  {
    ThreeOctets(a * 0x40 + b, c, d);
    Shift(a, b);
  }

  /** The character a well-formed front stands for. */
  lemma {:induction false} CharOfBytes(bs: seq<byte>) returns (c: Scalar)
    requires CharLen(bs) > 0
    ensures EncodeChar(c) == bs[..CharLen(bs)]
  {
    var n := CharLen(bs);
    var b0: int := bs[0];
    if n == 1 {
      c := b0;
    } else if n == 2 {
      var b1: int := bs[1];
      Shift(b0 - 0xc0, b1 - 0x80);
      c := (b0 - 0xc0) * 0x40 + (b1 - 0x80);
    } else if n == 3 {
      var b1: int, b2: int := bs[1], bs[2];
      ThreeOctets(b0 - 0xe0, b1 - 0x80, b2 - 0x80);
      c := (b0 - 0xe0) * 0x1000 + (b1 - 0x80) * 0x40 + (b2 - 0x80);
    } else {
      var b1: int, b2: int, b3: int := bs[1], bs[2], bs[3];
      FourOctets(b0 - 0xf0, b1 - 0x80, b2 - 0x80, b3 - 0x80);
      c := (b0 - 0xf0) * 0x4_0000 + (b1 - 0x80) * 0x1000 + (b2 - 0x80) * 0x40 + (b3 - 0x80);
    }
  }

  lemma {:induction false} TextIsValid(cs: seq<Scalar>)
    ensures Valid(EncodeText(cs))
  {
    if cs != [] {
      var front := EncodeChar(cs[0]);
      CharIsValid(cs[0]);
      assert front[|front|..] == [];
      TextIsValid(cs[1..]);
      ValidConcat(front, EncodeText(cs[1..]));
    }
  }

  lemma {:induction false} ValidIsText(bs: seq<byte>) returns (cs: seq<Scalar>)
    requires Valid(bs)
    ensures EncodeText(cs) == bs
  {
    if bs == [] {
      cs := [];
    } else {
      var n := CharLen(bs);
      var c := CharOfBytes(bs);
      var rest := ValidIsText(bs[n..]);
      cs := [c] + rest;
      assert cs[1..] == rest && bs[..n] + bs[n..] == bs;
    }
  }

  /** A byte string is valid exactly when it is the octets of some sequence of Unicode scalar values. */
  lemma {:induction false} ValidExactly(bs: seq<byte>)
    ensures Valid(bs) <==> exists cs :: EncodeText(cs) == bs
  {
    if Valid(bs) {
      var cs := ValidIsText(bs);
    }
    if cs :| EncodeText(cs) == bs {
      TextIsValid(cs);
    }
  }
}
