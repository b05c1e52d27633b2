/** Base16 as `const-hex` does it, section 8 of RFC 4648: lower case out, either case and `0x` in. */
module Hex {
  import opened Common

  function Digit(v: int): (c: byte)
    requires 0 <= v < 16
    ensures (0x30 <= c <= 0x39 || 0x61 <= c <= 0x66) && c <= 0x7f
  {
    if v < 10 then 0x30 + v else 0x61 + v - 10
  }

  function Value(c: byte): (r: Option<nat>)
    ensures r.Some? ==> r.value < 16
  {
    if 0x30 <= c <= 0x39 then Some(c - 0x30)
    else if 0x61 <= c <= 0x66 then Some(c - 0x61 + 10)
    else if 0x41 <= c <= 0x46 then Some(c - 0x41 + 10)
    else None
  }

  function Encode(bs: seq<byte>): (r: seq<byte>)
    ensures |r| == 2 * |bs|
    ensures forall i | 0 <= i < |r| :: 0x30 <= r[i] <= 0x39 || 0x61 <= r[i] <= 0x66
  {
    if bs == [] then [] else [Digit(bs[0] / 16), Digit(bs[0] % 16)] + Encode(bs[1..])
  }

  function DecodeDigits(s: seq<byte>): Option<seq<byte>> {
    if s == [] then Some([])
    else if |s| == 1 then None
    else match (Value(s[0]), Value(s[1]), DecodeDigits(s[2..]))
      case (Some(h), Some(l), Some(rest)) => Some([h * 16 + l] + rest)
      case _ => None
  }

  function Decode(s: seq<byte>): Option<seq<byte>> {
    if |s| >= 2 && s[0] == 0x30 && s[1] == 0x78 then DecodeDigits(s[2..]) else DecodeDigits(s)
  }

  lemma {:induction false} DigitsRoundTrip(bs: seq<byte>)
    ensures DecodeDigits(Encode(bs)) == Some(bs)
  {
    if bs != [] {
      DigitsRoundTrip(bs[1..]);
      assert Encode(bs)[2..] == Encode(bs[1..]);
      assert [bs[0]] + bs[1..] == bs;
    }
  }

  lemma {:induction false} RoundTrip(bs: seq<byte>)
    ensures Decode(Encode(bs)) == Some(bs)
  {
    DigitsRoundTrip(bs);
  }

  /** A character that is no hex digit spoils the digits wherever it stands. */
  lemma {:induction false} DigitsReject(s: seq<byte>, i: nat)
    requires i < |s| && Value(s[i]).None?
    ensures DecodeDigits(s).None?
  {
    if |s| > 1 && i >= 2 {
      DigitsReject(s[2..], i - 2);
    }
  }

  /** A dot is never hex, not even behind an `0x` prefix. */
  lemma {:induction false} RejectDot(s: seq<byte>, i: nat)
    requires i < |s| && s[i] == 0x2e
    ensures Decode(s).None?
  {
    if |s| >= 2 && s[0] == 0x30 && s[1] == 0x78 {
      DigitsReject(s[2..], i - 2);
    } else {
      DigitsReject(s, i);
    }
  }

  /** A digit of either case. */
  predicate IsDigit(c: byte, v: int) {
    || (0 <= v < 10 && c == 0x30 + v)
    || (10 <= v < 16 && (c == 0x61 + v - 10 || c == 0x41 + v - 10))
  }

  /** Two digits for each byte, the high one first. */
  predicate Spells(s: seq<byte>, bs: seq<byte>) {
    && |s| == 2 * |bs|
    && forall i | 0 <= i < |bs| :: IsDigit(s[2 * i], bs[i] / 16) && IsDigit(s[2 * i + 1], bs[i] % 16)
  }

  lemma {:induction false} SpellsMore(s: seq<byte>, bs: seq<byte>)
    requires |s| >= 2 && bs != []
    ensures Spells(s, bs) <==> IsDigit(s[0], bs[0] / 16) && IsDigit(s[1], bs[0] % 16) && Spells(s[2..], bs[1..])
  {
    if Spells(s, bs) {
      forall j | 0 <= j < |bs| - 1
        ensures IsDigit(s[2..][2 * j], bs[1..][j] / 16) && IsDigit(s[2..][2 * j + 1], bs[1..][j] % 16)
      {
        assert IsDigit(s[2 * (j + 1)], bs[j + 1] / 16) && IsDigit(s[2 * (j + 1) + 1], bs[j + 1] % 16);
      }
      assert IsDigit(s[2 * 0], bs[0] / 16) && IsDigit(s[2 * 0 + 1], bs[0] % 16);
    }
    if IsDigit(s[0], bs[0] / 16) && IsDigit(s[1], bs[0] % 16) && Spells(s[2..], bs[1..]) {
      forall i | 0 < i < |bs| ensures IsDigit(s[2 * i], bs[i] / 16) && IsDigit(s[2 * i + 1], bs[i] % 16) {
        var j := i - 1;
        assert IsDigit(s[2..][2 * j], bs[1..][j] / 16) && IsDigit(s[2..][2 * j + 1], bs[1..][j] % 16);
      }
    }
  }

  lemma {:induction false} DigitsExactly(s: seq<byte>, bs: seq<byte>)
    ensures DecodeDigits(s) == Some(bs) <==> Spells(s, bs)
  {
    if |s| >= 2 && bs != [] {
      SpellsMore(s, bs);
      DigitsExactly(s[2..], bs[1..]);
      assert [bs[0]] + bs[1..] == bs;
      if DecodeDigits(s).Some? {
        assert DecodeDigits(s).value[1..] == DecodeDigits(s[2..]).value;
      }
    }
  }

  lemma {:induction false} DigitsAreNoPrefix(s: seq<byte>, bs: seq<byte>)
    requires Spells(s, bs) && |s| >= 2
    ensures s[1] != 0x78
  {
    assert IsDigit(s[2 * 0 + 1], bs[0] % 16);
  }

  /** What decodes to given bytes: their digits, in either case, with or without `0x` in front. */
  lemma {:induction false} DecodesExactly(s: seq<byte>, bs: seq<byte>)
    ensures Decode(s) == Some(bs) <==> Spells(s, bs) || (|s| >= 2 && s[..2] == [0x30, 0x78] && Spells(s[2..], bs))
  {
    DigitsExactly(s, bs);
    if |s| >= 2 {
      DigitsExactly(s[2..], bs);
      if Spells(s, bs) {
        DigitsAreNoPrefix(s, bs);
      }
    }
  }
}
