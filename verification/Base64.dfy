/** Standard padded Base64, section 4 of RFC 4648, with the strict decoder of the `base64` crate. */
module Base64 {
  import opened Common

  const PAD: byte := 0x3d

  function ToChar(v: int): (c: byte)
    requires 0 <= v < 64
    ensures c != PAD && c <= 0x7f
  {
    if v < 26 then 0x41 + v
    else if v < 52 then 0x61 + (v - 26)
    else if v < 62 then 0x30 + (v - 52)
    else if v == 62 then 0x2b
    else 0x2f
  }

  function FromChar(c: byte): (v: Option<int>)
    ensures v.Some? ==> 0 <= v.value < 64
  {
    if 0x41 <= c <= 0x5a then Some(c - 0x41)
    else if 0x61 <= c <= 0x7a then Some(c - 0x61 + 26)
    else if 0x30 <= c <= 0x39 then Some(c - 0x30 + 52)
    else if c == 0x2b then Some(62)
    else if c == 0x2f then Some(63)
    else None
  }

  lemma {:induction false} CharRoundTrip(v: int)
    requires 0 <= v < 64
    ensures FromChar(ToChar(v)) == Some(v)
  {
  }

  lemma {:induction false} CharCanonical(c: byte)
    requires FromChar(c).Some?
    ensures ToChar(FromChar(c).value) == c
  {
  }

  // ---------------------------------------------------------------- groups

  function Encode3(a: byte, b: byte, c: byte): (r: seq<byte>)
    ensures |r| == 4
  {
    [ToChar(a / 4), ToChar(a % 4 * 16 + b / 16), ToChar(b % 16 * 4 + c / 64), ToChar(c % 64)]
  }

  function Encode2(a: byte, b: byte): (r: seq<byte>)
    ensures |r| == 4
  {
    [ToChar(a / 4), ToChar(a % 4 * 16 + b / 16), ToChar(b % 16 * 4), PAD]
  }

  function Encode1(a: byte): (r: seq<byte>)
    ensures |r| == 4
  {
    [ToChar(a / 4), ToChar(a % 4 * 16), PAD, PAD]
  }

  /** Encode in groups of three bytes, padding the last. */
  function Encode(bs: seq<byte>): (r: seq<byte>)
    ensures |r| == (|bs| + 2) / 3 * 4
  {
    if bs == [] then []
    else if |bs| == 1 then Encode1(bs[0])
    else if |bs| == 2 then Encode2(bs[0], bs[1])
    else Encode3(bs[0], bs[1], bs[2]) + Encode(bs[3..])
  }

  // The bytes of four sextets.

  function First(w: int, x: int): int {
    w * 4 + x / 16
  }

  function Second(x: int, y: int): int {
    x % 16 * 16 + y / 4
  }

  function Third(y: int, z: int): int {
    y % 4 * 64 + z
  }

  lemma {:induction false} BytesInRange(w: int, x: int, y: int, z: int)
    requires 0 <= w < 64 && 0 <= x < 64 && 0 <= y < 64 && 0 <= z < 64
    ensures 0 <= First(w, x) < 256 && 0 <= Second(x, y) < 256 && 0 <= Third(y, z) < 256
  {
  }

  /** Four characters of which none is padding. */
  function Decode4(s: seq<byte>): Option<seq<byte>>
    requires |s| == 4
  {
    match (FromChar(s[0]), FromChar(s[1]), FromChar(s[2]), FromChar(s[3]))
    case (Some(w), Some(x), Some(y), Some(z)) =>
      BytesInRange(w, x, y, z);
      Some([First(w, x), Second(x, y), Third(y, z)])
    case _ => None
  }

  /** The last four characters, where padding may stand and unused bits must be zero. */
  function DecodeLast(s: seq<byte>): Option<seq<byte>>
    requires |s| == 4
  {
    if s[3] != 0x3d then Decode4(s)
    else if s[2] != 0x3d then
      match (FromChar(s[0]), FromChar(s[1]), FromChar(s[2]))
      case (Some(w), Some(x), Some(y)) =>
        BytesInRange(w, x, y, 0);
        if y % 4 == 0 then Some([First(w, x), Second(x, y)]) else None
      case _ => None
    else
      match (FromChar(s[0]), FromChar(s[1]))
      case (Some(w), Some(x)) =>
        BytesInRange(w, x, 0, 0);
        if x % 16 == 0 then Some([First(w, x)]) else None
      case _ => None
  }

  function Decode(s: seq<byte>): (r: Option<seq<byte>>)
  {
    if s == [] then Some([])
    else if |s| < 4 then None
    else if |s| == 4 then DecodeLast(s)
    else
      match (Decode4(s[..4]), Decode(s[4..]))
      case (Some(a), Some(b)) => Some(a + b)
      case _ => None
  }

  // ---------------------------------------------------------------- laws

  lemma {:induction false} SextetsToBytes(a: byte, b: byte, c: byte)
    ensures First(a / 4, a % 4 * 16 + b / 16) == a
    ensures Second(a % 4 * 16 + b / 16, b % 16 * 4 + c / 64) == b
    ensures Third(b % 16 * 4 + c / 64, c % 64) == c
  {
    assert (a % 4 * 16 + b / 16) / 16 == a % 4;
    assert (a % 4 * 16 + b / 16) % 16 == b / 16;
    assert (b % 16 * 4 + c / 64) / 4 == b % 16;
    assert (b % 16 * 4 + c / 64) % 4 == c / 64;
  }

  lemma {:induction false} BytesToSextets(w: int, x: int, y: int, z: int)
    requires 0 <= w < 64 && 0 <= x < 64 && 0 <= y < 64 && 0 <= z < 64
    ensures var a, b, c := First(w, x), Second(x, y), Third(y, z);
            && a / 4 == w
            && a % 4 * 16 + b / 16 == x
            && b % 16 * 4 + c / 64 == y
            && c % 64 == z
  {
    var a, b, c := First(w, x), Second(x, y), Third(y, z);
    assert a / 4 == w && a % 4 == x / 16;
    assert b / 16 == x % 16 && b % 16 == y / 4;
    assert c / 64 == y % 4 && c % 64 == z;
  }

  lemma {:induction false} Group3(a: byte, b: byte, c: byte)
    ensures Decode4(Encode3(a, b, c)) == Some([a, b, c])
  {
    CharRoundTrip(a / 4);
    CharRoundTrip(a % 4 * 16 + b / 16);
    CharRoundTrip(b % 16 * 4 + c / 64);
    CharRoundTrip(c % 64);
    SextetsToBytes(a, b, c);
  }

  lemma {:induction false} Group2(a: byte, b: byte)
    ensures DecodeLast(Encode2(a, b)) == Some([a, b])
  {
    CharRoundTrip(a / 4);
    CharRoundTrip(a % 4 * 16 + b / 16);
    CharRoundTrip(b % 16 * 4);
    SextetsToBytes(a, b, 0);
  }

  lemma {:induction false} Group1(a: byte)
    ensures DecodeLast(Encode1(a)) == Some([a])
  {
    CharRoundTrip(a / 4);
    CharRoundTrip(a % 4 * 16);
    SextetsToBytes(a, 0, 0);
  }

  lemma {:induction false} DecodeStep(group: seq<byte>, rest: seq<byte>, a: seq<byte>, b: seq<byte>)
    requires |group| == 4 && rest != [] && Decode4(group) == Some(a) && Decode(rest) == Some(b)
    ensures Decode(group + rest) == Some(a + b)
  {
  }

  lemma {:induction false} DecodeFinal(s: seq<byte>, b: seq<byte>)
    requires |s| == 4 && (DecodeLast(s) == Some(b) || Decode4(s) == Some(b))
    ensures Decode(s) == Some(b)
  {
  }

  lemma {:induction false} EncodeShort(bs: seq<byte>)
    ensures |bs| == 1 ==> Encode(bs) == Encode1(bs[0])
    ensures |bs| == 2 ==> Encode(bs) == Encode2(bs[0], bs[1])
    ensures |bs| == 3 ==> Encode(bs) == Encode3(bs[0], bs[1], bs[2])
  {
  }

  lemma {:induction false} ShortRoundTrip(bs: seq<byte>, s: seq<byte>)
    requires 1 <= |bs| <= 3 && s == Encode(bs)
    ensures Decode(s) == Some(bs)
  {
    EncodeShort(bs);
    if |bs| == 1 {
      Group1(bs[0]);
      assert [bs[0]] == bs;
    } else if |bs| == 2 {
      Group2(bs[0], bs[1]);
      assert [bs[0], bs[1]] == bs;
    } else {
      Group3(bs[0], bs[1], bs[2]);
      assert [bs[0], bs[1], bs[2]] == bs;
    }
    DecodeFinal(s, bs);
  }

  lemma {:induction false} LongRoundTrip(a: byte, b: byte, c: byte, rest: seq<byte>, s: seq<byte>)
    requires s != [] && Decode(s) == Some(rest)
    ensures Decode(Encode3(a, b, c) + s) == Some([a, b, c] + rest)
  {
    Group3(a, b, c);
    DecodeStep(Encode3(a, b, c), s, [a, b, c], rest);
  }

  /** Decoding inverts encoding, on every byte string. */
  lemma {:induction false} RoundTrip(bs: seq<byte>)
    ensures Decode(Encode(bs)) == Some(bs)
  {
    if 1 <= |bs| <= 3 {
      ShortRoundTrip(bs, Encode(bs));
    } else if |bs| > 3 {
      RoundTrip(bs[3..]);
      LongRoundTrip(bs[0], bs[1], bs[2], bs[3..], Encode(bs[3..]));
      assert [bs[0], bs[1], bs[2]] + bs[3..] == bs;
    }
  }

  lemma {:induction false} Encode3Chars(w: int, x: int, y: int, z: int)
    requires 0 <= w < 64 && 0 <= x < 64 && 0 <= y < 64 && 0 <= z < 64
    requires 0 <= First(w, x) < 256 && 0 <= Second(x, y) < 256 && 0 <= Third(y, z) < 256
    ensures Encode3(First(w, x), Second(x, y), Third(y, z)) == [ToChar(w), ToChar(x), ToChar(y), ToChar(z)]
  {
    BytesToSextets(w, x, y, z);
  }

  lemma {:induction false} Canonical4(s: seq<byte>)
    requires |s| == 4 && Decode4(s).Some?
    ensures |Decode4(s).value| == 3
    ensures var b := Decode4(s).value; Encode3(b[0], b[1], b[2]) == s
  {
    var w, x := FromChar(s[0]).value, FromChar(s[1]).value;
    var y, z := FromChar(s[2]).value, FromChar(s[3]).value;
    BytesInRange(w, x, y, z);
    Encode3Chars(w, x, y, z);
    CharCanonical(s[0]);
    CharCanonical(s[1]);
    CharCanonical(s[2]);
    CharCanonical(s[3]);
    assert s == [s[0], s[1], s[2], s[3]];
  }

  lemma {:induction false} Canonical2(s: seq<byte>)
    requires |s| == 4 && s[3] == PAD && s[2] != PAD && DecodeLast(s).Some?
    ensures |DecodeLast(s).value| == 2
    ensures var b := DecodeLast(s).value; Encode2(b[0], b[1]) == s
  {
    CharCanonical(s[0]);
    CharCanonical(s[1]);
    CharCanonical(s[2]);
    BytesToSextets(FromChar(s[0]).value, FromChar(s[1]).value, FromChar(s[2]).value, 0);
  }

  lemma {:induction false} Canonical1(s: seq<byte>)
    requires |s| == 4 && s[3] == PAD && s[2] == PAD && DecodeLast(s).Some?
    ensures |DecodeLast(s).value| == 1
    ensures Encode1(DecodeLast(s).value[0]) == s
  {
    CharCanonical(s[0]);
    CharCanonical(s[1]);
    BytesToSextets(FromChar(s[0]).value, FromChar(s[1]).value, 0, 0);
  }

  lemma {:induction false} CanonicalLast(s: seq<byte>)
    requires |s| == 4 && DecodeLast(s).Some?
    ensures 1 <= |DecodeLast(s).value| <= 3
    ensures Encode(DecodeLast(s).value) == s
  {
    if s[3] != PAD {
      Canonical4(s);
    } else if s[2] != PAD {
      Canonical2(s);
    } else {
      Canonical1(s);
    }
    EncodeShort(DecodeLast(s).value);
  }

  /** Each byte string has exactly one accepted spelling. */
  lemma {:induction false} Canonical(s: seq<byte>)
    requires Decode(s).Some?
    ensures Encode(Decode(s).value) == s
  {
    if s == [] {
    } else if |s| == 4 {
      CanonicalLast(s);
    } else {
      Canonical4(s[..4]);
      Canonical(s[4..]);
      var a, b := Decode4(s[..4]).value, Decode(s[4..]).value;
      assert (a + b)[3..] == b;
      assert s == s[..4] + s[4..];
    }
  }
}
