/**
 The Cardano CBOR writer (core/crates/gem_cardano/src/cbor.rs) and a reader for the same
 fragment of RFC 8949.

 The reader follows section 3 of RFC 8949 and accepts every definite-length head, the
 non-minimal ones too, so it is an independent yardstick: the writer round-trips through
 it, and no byte string it accepts for an item is shorter than what the writer produces.
 */
module Cbor {
  import opened Common

  /** A finite tree of data items, as built by a sequence of writer calls. */
  datatype Item =
    | Unsigned(value: u64)
    | Bytes(bytes: seq<byte>)
    | Text(utf8: seq<byte>)
    | Array(items: seq<Item>)
    | Map(entries: seq<Entry>)
    | Tag(tag: u64, inner: Item)
    | Null
    | True

  datatype Entry = Entry(key: Item, value: Item)

  // Major types, section 3.1 of RFC 8949.
  const UNSIGNED := 0
  const BYTES := 2
  const TEXT := 3
  const ARRAY := 4
  const MAP := 5
  const TAG := 6

  type Major = x: int | 0 <= x < 8

  // ---------------------------------------------------------------- encoding

  /** Big-endian bytes of a value that fits in the given width. */
  function BigEndian(v: nat, width: nat): (r: seq<byte>)
    ensures |r| == width
  {
    if width == 0 then [] else BigEndian(v / 256, width - 1) + [v % 256]
  }

  function FromBigEndian(bs: seq<byte>): (r: nat)
  {
    if bs == [] then 0 else FromBigEndian(bs[..|bs| - 1]) * 256 + bs[|bs| - 1]
  }

  /** The initial byte and argument of section 3 of RFC 8949, in the shortest form. */
  function Head(major: Major, v: u64): (r: seq<byte>)
  {
    if v <= 23 then [major * 32 + v]
    else if v <= 0xff then [major * 32 + 24] + BigEndian(v, 1)
    else if v <= 0xffff then [major * 32 + 25] + BigEndian(v, 2)
    else if v <= 0xffff_ffff then [major * 32 + 26] + BigEndian(v, 4)
    else [major * 32 + 27] + BigEndian(v, 8)
  }

  /** Every length in the tree is a machine word, as a Rust slice length is. */
  predicate Fits(item: Item)
    decreases item
  {
    match item
    case Bytes(b) => |b| < TWO_64
    case Text(b) => |b| < TWO_64
    case Array(items) => |items| < TWO_64 && forall i | 0 <= i < |items| :: Fits(items[i])
    case Map(entries) =>
      |entries| < TWO_64 && forall i | 0 <= i < |entries| :: FitEntry(entries[i])
    case Tag(_, inner) => Fits(inner)
    case _ => true
  }

  predicate FitEntry(e: Entry)
    decreases e
  {
    Fits(e.key) && Fits(e.value)
  }

  predicate FitAll(items: seq<Item>) {
    forall i | 0 <= i < |items| :: Fits(items[i])
  }

  predicate FitEntries(entries: seq<Entry>) {
    forall i | 0 <= i < |entries| :: FitEntry(entries[i])
  }

  function Encode(item: Item): (r: seq<byte>)
    requires Fits(item)
    decreases item
  {
    match item
    case Unsigned(v) => Head(UNSIGNED, v)
    case Bytes(b) => Head(BYTES, |b|) + b
    case Text(b) => Head(TEXT, |b|) + b
    case Array(items) => Head(ARRAY, |items|) + EncodeAll(items)
    case Map(entries) => Head(MAP, |entries|) + EncodeEntries(entries)
    case Tag(t, inner) => Head(TAG, t) + Encode(inner)
    case Null => [0xf6]
    case True => [0xf5]
  }

  function EncodeAll(items: seq<Item>): (r: seq<byte>)
    requires FitAll(items)
    decreases items
  {
    if items == [] then [] else Encode(items[0]) + EncodeAll(items[1..])
  }

  function EncodeEntries(entries: seq<Entry>): (r: seq<byte>)
    requires FitEntries(entries)
    decreases entries
  {
    if entries == [] then []
    else EncodeEntry(entries[0]) + EncodeEntries(entries[1..])
  }

  function EncodeEntry(e: Entry): (r: seq<byte>)
    requires FitEntry(e)
    decreases e
  {
    Encode(e.key) + Encode(e.value)
  }

  // ---------------------------------------------------------------- decoding

  datatype Cut<+T> = Stuck | Cut(value: T, rest: seq<byte>)

  /** How many argument bytes follow an initial byte with this additional information. */
  function ArgumentWidth(info: nat): Option<nat> {
    if info <= 23 then Some(0)
    else if info == 24 then Some(1)
    else if info == 25 then Some(2)
    else if info == 26 then Some(4)
    else if info == 27 then Some(8)
    else None
  }

  /** Reads any head, minimal or not. */
  function ReadHead(bs: seq<byte>): (r: Cut<(Major, u64)>)
    ensures r.Cut? ==> |r.rest| < |bs|
  {
    if bs == [] then Stuck else
    var major, info := bs[0] / 32, bs[0] % 32;
    match ArgumentWidth(info)
    case None => Stuck
    case Some(width) =>
      if |bs| < 1 + width then Stuck else
      var argument := bs[1..1 + width];
      FromBigEndianBound(argument);
      Cut((major, if width == 0 then info else FromBigEndian(argument)), bs[1 + width..])
  }

  // The reader spells out the numbers of section 3.1 of RFC 8949.

  function Decode(bs: seq<byte>): (r: Cut<Item>)
    ensures r.Cut? ==> |r.rest| < |bs| && Fits(r.value)
    decreases |bs|, 0
  {
    match ReadHead(bs)
    case Stuck => Stuck
    case Cut((major, v), rest) =>
      if major == 0 then Cut(Unsigned(v), rest)
      else if major == 2 then
        if |rest| < v then Stuck else Cut(Bytes(rest[..v]), rest[v..])
      else if major == 3 then
        if |rest| < v then Stuck else Cut(Text(rest[..v]), rest[v..])
      else if major == 4 then
        (match DecodeAll(v, rest) case Stuck => Stuck case Cut(items, tail) => Cut(Array(items), tail))
      else if major == 5 then
        (match DecodeEntries(v, rest) case Stuck => Stuck case Cut(es, tail) => Cut(Map(es), tail))
      else if major == 6 then
        (match Decode(rest) case Stuck => Stuck case Cut(inner, tail) => Cut(Tag(v, inner), tail))
      else if bs[0] == 0xf6 then Cut(Null, rest)
      else if bs[0] == 0xf5 then Cut(True, rest)
      else Stuck
  }

  function DecodeAll(n: nat, bs: seq<byte>): (r: Cut<seq<Item>>)
    ensures r.Cut? ==> |r.rest| <= |bs| && |r.value| == n && FitAll(r.value)
    decreases |bs|, 1
  {
    if n == 0 then Cut([], bs) else
    match Decode(bs)
    case Stuck => Stuck
    case Cut(item, rest) =>
      match DecodeAll(n - 1, rest)
      case Stuck => Stuck
      case Cut(items, tail) => Cut([item] + items, tail)
  }

  function DecodeEntries(n: nat, bs: seq<byte>): (r: Cut<seq<Entry>>)
    ensures r.Cut? ==> |r.rest| <= |bs| && |r.value| == n && FitEntries(r.value)
    decreases |bs|, 2
  {
    if n == 0 then Cut([], bs) else
    match DecodeEntry(bs)
    case Stuck => Stuck
    case Cut(entry, rest) =>
      match DecodeEntries(n - 1, rest)
      case Stuck => Stuck
      case Cut(entries, tail) => Cut([entry] + entries, tail)
  }

  function DecodeEntry(bs: seq<byte>): (r: Cut<Entry>)
    ensures r.Cut? ==> |r.rest| < |bs| && FitEntry(r.value)
    decreases |bs|, 1
  {
    match Decode(bs)
    case Stuck => Stuck
    case Cut(key, rest) =>
      match Decode(rest)
      case Stuck => Stuck
      case Cut(value, tail) => Cut(Entry(key, value), tail)
  }

  // ---------------------------------------------------------------- big-endian words

  function Pow256(width: nat): (r: nat)
    ensures r > 0
  {
    if width == 0 then 1 else 256 * Pow256(width - 1)
  }

  lemma {:induction false} PowersOf256()
    ensures Pow256(1) == 0x100
    ensures Pow256(2) == 0x1_0000
    ensures Pow256(4) == 0x1_0000_0000
    ensures Pow256(8) == TWO_64
  {
  }

  lemma {:induction false} FromBigEndianBound(bs: seq<byte>)
    ensures FromBigEndian(bs) < Pow256(|bs|)
    ensures |bs| <= 8 ==> FromBigEndian(bs) < TWO_64
  {
    if bs != [] {
      FromBigEndianBound(bs[..|bs| - 1]);
    }
    PowersOf256();
    if |bs| <= 8 { PowMonotone(|bs|, 8); }
  }

  lemma {:induction false} PowMonotone(a: nat, b: nat)
    requires a <= b
    ensures Pow256(a) <= Pow256(b)
    decreases b
  {
    if a < b { PowMonotone(a, b - 1); }
  }

  lemma {:induction false} BigEndianRoundTrip(v: nat, width: nat)
    requires v < Pow256(width)
    ensures FromBigEndian(BigEndian(v, width)) == v
  {
    if width > 0 {
      BigEndianRoundTrip(v / 256, width - 1);
      var r := BigEndian(v, width);
      assert r[..|r| - 1] == BigEndian(v / 256, width - 1);
    }
  }

  // ---------------------------------------------------------------- round trip

  lemma {:induction false} WideHead(major: Major, info: nat, v: u64, width: nat, suffix: seq<byte>)
    requires 24 <= info < 28 && ArgumentWidth(info) == Some(width) && v < Pow256(width)
    ensures ReadHead([major * 32 + info] + BigEndian(v, width) + suffix) == Cut((major, v), suffix)
  {
    var bs := [major * 32 + info] + BigEndian(v, width) + suffix;
    BigEndianRoundTrip(v, width);
    assert bs[0] / 32 == major && bs[0] % 32 == info;
    assert bs[1..1 + width] == BigEndian(v, width);
    assert bs[1 + width..] == suffix;
  }

  lemma {:induction false} HeadRoundTrip(major: Major, v: u64, suffix: seq<byte>)
    ensures ReadHead(Head(major, v) + suffix) == Cut((major, v), suffix)
  {
    PowersOf256();
    if v <= 23 {
      var bs := Head(major, v) + suffix;
      assert bs[1..] == suffix;
    } else if v <= 0xff {
      WideHead(major, 24, v, 1, suffix);
    } else if v <= 0xffff {
      WideHead(major, 25, v, 2, suffix);
    } else if v <= 0xffff_ffff {
      WideHead(major, 26, v, 4, suffix);
    } else {
      WideHead(major, 27, v, 8, suffix);
    }
  }

  lemma {:induction false} StringRoundTrip(text: bool, b: seq<byte>, suffix: seq<byte>)
    requires |b| < TWO_64
    ensures var item := if text then Text(b) else Bytes(b);
            Decode(Encode(item) + suffix) == Cut(item, suffix)
  {
    var major := if text then TEXT else BYTES;
    HeadRoundTrip(major, |b|, b + suffix);
    Assoc(Head(major, |b|), b, suffix);
    assert (b + suffix)[..|b|] == b;
    assert (b + suffix)[|b|..] == suffix;
  }

  lemma {:induction false} SimpleRoundTrip(item: Item, suffix: seq<byte>)
    requires item.Null? || item.True?
    ensures Decode(Encode(item) + suffix) == Cut(item, suffix)
  {
  }

  // One unfolding of the reader for each kind of container, on plain bytes.

  lemma {:induction false} DecodeArray(bs: seq<byte>, n: u64, rest: seq<byte>, items: seq<Item>, tail: seq<byte>)
    requires ReadHead(bs) == Cut((ARRAY, n), rest) && DecodeAll(n, rest) == Cut(items, tail)
    ensures Decode(bs) == Cut(Array(items), tail)
  {
  }

  lemma {:induction false} DecodeMap(bs: seq<byte>, n: u64, rest: seq<byte>, entries: seq<Entry>, tail: seq<byte>)
    requires ReadHead(bs) == Cut((MAP, n), rest) && DecodeEntries(n, rest) == Cut(entries, tail)
    ensures Decode(bs) == Cut(Map(entries), tail)
  {
  }

  lemma {:induction false} DecodeTag(bs: seq<byte>, t: u64, rest: seq<byte>, inner: Item, tail: seq<byte>)
    requires ReadHead(bs) == Cut((TAG, t), rest) && Decode(rest) == Cut(inner, tail)
    ensures Decode(bs) == Cut(Tag(t, inner), tail)
  {
  }

  lemma {:induction false} Assoc(a: seq<byte>, b: seq<byte>, c: seq<byte>)
    ensures a + b + c == a + (b + c)
  {
  }

  lemma {:induction false} ArrayRoundTrip(items: seq<Item>, suffix: seq<byte>)
    requires |items| < TWO_64 && FitAll(items)
    requires DecodeAll(|items|, EncodeAll(items) + suffix) == Cut(items, suffix)
    ensures Decode(Head(ARRAY, |items|) + EncodeAll(items) + suffix) == Cut(Array(items), suffix)
  {
    var rest := EncodeAll(items) + suffix;
    HeadRoundTrip(ARRAY, |items|, rest);
    DecodeArray(Head(ARRAY, |items|) + rest, |items|, rest, items, suffix);
    Assoc(Head(ARRAY, |items|), EncodeAll(items), suffix);
  }

  lemma {:induction false} MapRoundTrip(entries: seq<Entry>, suffix: seq<byte>)
    requires |entries| < TWO_64 && FitEntries(entries)
    requires DecodeEntries(|entries|, EncodeEntries(entries) + suffix) == Cut(entries, suffix)
    ensures Decode(Head(MAP, |entries|) + EncodeEntries(entries) + suffix) == Cut(Map(entries), suffix)
  {
    var rest := EncodeEntries(entries) + suffix;
    HeadRoundTrip(MAP, |entries|, rest);
    DecodeMap(Head(MAP, |entries|) + rest, |entries|, rest, entries, suffix);
    Assoc(Head(MAP, |entries|), EncodeEntries(entries), suffix);
  }

  lemma {:induction false} TagRoundTrip(t: u64, inner: Item, suffix: seq<byte>)
    requires Fits(inner)
    requires Decode(Encode(inner) + suffix) == Cut(inner, suffix)
    ensures Decode(Head(TAG, t) + Encode(inner) + suffix) == Cut(Tag(t, inner), suffix)
  {
    var rest := Encode(inner) + suffix;
    HeadRoundTrip(TAG, t, rest);
    DecodeTag(Head(TAG, t) + rest, t, rest, inner, suffix);
    Assoc(Head(TAG, t), Encode(inner), suffix);
  }

  lemma {:induction false} UnsignedRoundTrip(v: u64, suffix: seq<byte>)
    ensures Decode(Head(UNSIGNED, v) + suffix) == Cut(Unsigned(v), suffix)
  {
    HeadRoundTrip(UNSIGNED, v, suffix);
  }

  /** Decoding what was written, followed by anything, gives back the tree and the rest. */
  lemma {:induction false} RoundTrip(item: Item, suffix: seq<byte>)
    requires Fits(item)
    ensures Decode(Encode(item) + suffix) == Cut(item, suffix)
    decreases item
  {
    match item
    case Unsigned(v) => UnsignedRoundTrip(v, suffix);
    case Bytes(b) => StringRoundTrip(false, b, suffix);
    case Text(b) => StringRoundTrip(true, b, suffix);
    case Array(items) =>
      RoundTripAll(items, suffix);
      ArrayRoundTrip(items, suffix);
    case Map(entries) =>
      RoundTripEntries(entries, suffix);
      MapRoundTrip(entries, suffix);
    case Tag(t, inner) =>
      RoundTrip(inner, suffix);
      TagRoundTrip(t, inner, suffix);
    case _ => SimpleRoundTrip(item, suffix);
  }

  lemma {:induction false} RoundTripAll(items: seq<Item>, suffix: seq<byte>)
    requires FitAll(items)
    ensures DecodeAll(|items|, EncodeAll(items) + suffix) == Cut(items, suffix)
    decreases items
  {
    if items == [] {
      assert EncodeAll(items) + suffix == suffix;
    } else {
      var tail := EncodeAll(items[1..]) + suffix;
      Assoc(Encode(items[0]), EncodeAll(items[1..]), suffix);
      RoundTrip(items[0], tail);
      RoundTripAll(items[1..], suffix);
      assert [items[0]] + items[1..] == items;
    }
  }

  lemma {:induction false} RoundTripEntry(e: Entry, suffix: seq<byte>)
    requires FitEntry(e)
    ensures DecodeEntry(EncodeEntry(e) + suffix) == Cut(e, suffix)
    decreases e
  {
    Assoc(Encode(e.key), Encode(e.value), suffix);
    RoundTrip(e.key, Encode(e.value) + suffix);
    RoundTrip(e.value, suffix);
  }

  lemma {:induction false} RoundTripEntries(entries: seq<Entry>, suffix: seq<byte>)
    requires FitEntries(entries)
    ensures DecodeEntries(|entries|, EncodeEntries(entries) + suffix) == Cut(entries, suffix)
    decreases entries
  {
    if entries == [] {
      assert EncodeEntries(entries) + suffix == suffix;
    } else {
      var tail := EncodeEntries(entries[1..]) + suffix;
      Assoc(EncodeEntry(entries[0]), EncodeEntries(entries[1..]), suffix);
      RoundTripEntry(entries[0], tail);
      RoundTripEntries(entries[1..], suffix);
      assert [entries[0]] + entries[1..] == entries;
    }
  }

  /** No encoding is a proper prefix of another, and equal bytes mean equal trees. */
  lemma {:induction false} PrefixFree(a: Item, b: Item, extra: seq<byte>)
    requires Fits(a) && Fits(b)
    requires Encode(a) + extra == Encode(b)
    ensures a == b && extra == []
  {
    RoundTrip(a, extra);
    RoundTrip(b, []);
    assert Encode(b) + [] == Encode(b);
  }

  // ---------------------------------------------------------------- the bytes in numbers

  /** Two, four or eight bytes as a number, most significant first. */
  function Number2(b: seq<byte>): int
    requires |b| == 2
  {
    var hi: int, lo: int := b[0], b[1];
    hi * 0x100 + lo
  }

  function Number4(b: seq<byte>): int
    requires |b| == 4
  {
    Number2(b[..2]) * 0x1_0000 + Number2(b[2..])
  }

  function Number8(b: seq<byte>): int
    requires |b| == 8
  {
    Number4(b[..4]) * 0x1_0000_0000 + Number4(b[4..])
  }

  /** The first byte and the argument bytes after it. */
  predicate HeadIs(bs: seq<byte>, major: nat, v: nat) {
    && |bs| >= 1 && bs[0] / 32 == major
    && (v <= 23 ==> bs[0] % 32 == v)
    && (23 < v <= 0xff ==> bs[0] % 32 == 24 && |bs| >= 2 && bs[1] == v)
    && (0xff < v <= 0xffff ==> bs[0] % 32 == 25 && |bs| >= 3 && Number2(bs[1..3]) == v)
    && (0xffff < v <= 0xffff_ffff ==> bs[0] % 32 == 26 && |bs| >= 5 && Number4(bs[1..5]) == v)
    && (0xffff_ffff < v ==> bs[0] % 32 == 27 && |bs| >= 9 && Number8(bs[1..9]) == v)
  }

  lemma {:induction false} FromSplit(bs: seq<byte>, k: nat)
    requires k <= |bs|
    ensures FromBigEndian(bs) == FromBigEndian(bs[..k]) * Pow256(|bs| - k) + FromBigEndian(bs[k..])
  {
    if k == |bs| {
      assert bs[..k] == bs;
    } else {
      var n := |bs| - 1;
      FromSplit(bs[..n], k);
      assert bs[..n][..k] == bs[..k] && bs[..n][k..] == bs[k..][..n - k];
      ShiftByte(FromBigEndian(bs[..k]), Pow256(n - k), FromBigEndian(bs[..n][k..]), bs[n]);
    }
  }

  lemma {:induction false} ShiftByte(a: int, pow: int, b: int, last: int)
    ensures (a * pow + b) * 256 + last == a * (256 * pow) + (b * 256 + last)
  {
  }

  lemma {:induction false} FromTwo(b: seq<byte>)
    requires |b| == 2
    ensures FromBigEndian(b) == Number2(b)
  {
    assert b[..1][..0] == [];
    assert FromBigEndian(b[..1]) == b[0];
  }

  lemma {:induction false} FromFour(b: seq<byte>)
    requires |b| == 4
    ensures FromBigEndian(b) == Number4(b)
  {
    PowersOf256();
    FromSplit(b, 2);
    FromTwo(b[..2]);
    FromTwo(b[2..]);
  }

  lemma {:induction false} FromEight(b: seq<byte>)
    requires |b| == 8
    ensures FromBigEndian(b) == Number8(b)
  {
    PowersOf256();
    FromSplit(b, 4);
    FromFour(b[..4]);
    FromFour(b[4..]);
  }

  /** A head, whatever follows, in numbers. */
  lemma {:induction false} HeadInNumbers(major: Major, v: u64, rest: seq<byte>)
    ensures HeadIs(Head(major, v) + rest, major, v)
  {
    PowersOf256();
    var bs := Head(major, v) + rest;
    if 23 < v <= 0xff {
      WideInNumbers(bs, v, 1);
    } else if 0xff < v <= 0xffff {
      WideInNumbers(bs, v, 2);
      FromTwo(bs[1..3]);
    } else if 0xffff < v <= 0xffff_ffff {
      WideInNumbers(bs, v, 4);
      FromFour(bs[1..5]);
    } else if 0xffff_ffff < v {
      WideInNumbers(bs, v, 8);
      FromEight(bs[1..9]);
    }
  }

  lemma {:induction false} WideInNumbers(bs: seq<byte>, v: nat, width: nat)
    requires width >= 1 && v < Pow256(width) && |bs| >= 1 + width && BigEndian(v, width) <= bs[1..]
    ensures FromBigEndian(bs[1..1 + width]) == v
    ensures width == 1 ==> bs[1] == v
  {
    BigEndianRoundTrip(v, width);
    assert bs[1..1 + width] == BigEndian(v, width);
    if width == 1 {
      assert BigEndian(v, 1) == BigEndian(v / 256, 0) + [v % 256];
    }
  }

  /** What every encoding starts with, in the numbers of sections 3 and 3.1 of RFC 8949. */
  lemma {:induction false} WireForm(item: Item)
    requires Fits(item)
    ensures match item
            case Unsigned(v) => HeadIs(Encode(item), 0, v) && |Encode(item)| <= 9
            case Bytes(b) => HeadIs(Encode(item), 2, |b|) && b <= Encode(item)[|Encode(item)| - |b|..]
            case Text(b) => HeadIs(Encode(item), 3, |b|) && b <= Encode(item)[|Encode(item)| - |b|..]
            case Array(items) => HeadIs(Encode(item), 4, |items|)
            case Map(entries) => HeadIs(Encode(item), 5, |entries|)
            case Tag(t, _) => HeadIs(Encode(item), 6, t)
            case Null => Encode(item) == [0xf6]
            case True => Encode(item) == [0xf5]
  {
    match item
    case Unsigned(v) =>
      HeadInNumbers(0, v, []);
      assert Head(0, v) + [] == Head(0, v);
    case Bytes(b) => HeadInNumbers(2, |b|, b);
    case Text(b) => HeadInNumbers(3, |b|, b);
    case Array(items) => HeadInNumbers(4, |items|, EncodeAll(items));
    case Map(entries) => HeadInNumbers(5, |entries|, EncodeEntries(entries));
    case Tag(t, inner) => HeadInNumbers(6, t, Encode(inner));
    case _ =>
  }

  // ---------------------------------------------------------------- splicing raw bytes

  lemma {:induction false} HeadExtends(bs: seq<byte>, more: seq<byte>)
    requires ReadHead(bs).Cut?
    ensures ReadHead(bs + more) == Cut(ReadHead(bs).value, ReadHead(bs).rest + more)
  {
    var width := ArgumentWidth(bs[0] % 32).value;
    assert (bs + more)[1..1 + width] == bs[1..1 + width];
    assert (bs + more)[1 + width..] == bs[1 + width..] + more;
  }

  lemma {:induction false} StringExtends(bs: seq<byte>, more: seq<byte>)
    requires Decode(bs).Cut? && ReadHead(bs).value.0 in {BYTES, TEXT}
    ensures Decode(bs + more) == Cut(Decode(bs).value, Decode(bs).rest + more)
  {
    HeadExtends(bs, more);
    var Cut((major, v), rest) := ReadHead(bs);
    assert (rest + more)[..v] == rest[..v];
    assert (rest + more)[v..] == rest[v..] + more;
  }

  /** Reading an item does not depend on the bytes after it, whatever form its heads take. */
  lemma {:induction false} Extends(bs: seq<byte>, more: seq<byte>)
    requires Decode(bs).Cut?
    ensures Decode(bs + more) == Cut(Decode(bs).value, Decode(bs).rest + more)
    decreases |bs|, 0
  {
    HeadExtends(bs, more);
    var Cut((major, v), rest) := ReadHead(bs);
    if major == BYTES || major == TEXT {
      StringExtends(bs, more);
    } else if major == ARRAY {
      ExtendsAll(v, rest, more);
      DecodeArray(bs + more, v, rest + more, DecodeAll(v, rest).value, DecodeAll(v, rest).rest + more);
    } else if major == MAP {
      ExtendsEntries(v, rest, more);
      DecodeMap(bs + more, v, rest + more, DecodeEntries(v, rest).value, DecodeEntries(v, rest).rest + more);
    } else if major == TAG {
      Extends(rest, more);
      DecodeTag(bs + more, v, rest + more, Decode(rest).value, Decode(rest).rest + more);
    }
  }

  lemma {:induction false} DecodeAllStep(
    n: nat, bs: seq<byte>, item: Item, rest: seq<byte>, items: seq<Item>, tail: seq<byte>)
    requires n > 0 && Decode(bs) == Cut(item, rest) && DecodeAll(n - 1, rest) == Cut(items, tail)
    ensures DecodeAll(n, bs) == Cut([item] + items, tail)
  {
  }

  lemma {:induction false} AllHead(n: nat, bs: seq<byte>)
    requires n > 0 && DecodeAll(n, bs).Cut?
    ensures Decode(bs).Cut? && DecodeAll(n - 1, Decode(bs).rest).Cut?
  {
  }

  lemma {:induction false} ExtendsAllStep(n: nat, bs: seq<byte>, more: seq<byte>, item: Item, rest: seq<byte>)
    requires n > 0 && Decode(bs) == Cut(item, rest) && Decode(bs + more) == Cut(item, rest + more)
    requires DecodeAll(n - 1, rest).Cut?
    requires DecodeAll(n - 1, rest + more) == Cut(DecodeAll(n - 1, rest).value, DecodeAll(n - 1, rest).rest + more)
    ensures DecodeAll(n, bs).Cut?
    ensures DecodeAll(n, bs + more) == Cut(DecodeAll(n, bs).value, DecodeAll(n, bs).rest + more)
  {
    var Cut(items, tail) := DecodeAll(n - 1, rest);
    DecodeAllStep(n, bs, item, rest, items, tail);
    DecodeAllStep(n, bs + more, item, rest + more, items, tail + more);
  }

  lemma {:induction false} ExtendsAll(n: nat, bs: seq<byte>, more: seq<byte>)
    requires DecodeAll(n, bs).Cut?
    ensures DecodeAll(n, bs + more) == Cut(DecodeAll(n, bs).value, DecodeAll(n, bs).rest + more)
    decreases |bs|, 1
  {
    if n > 0 {
      AllHead(n, bs);
      var rest := Decode(bs).rest;
      Extends(bs, more);
      ExtendsAll(n - 1, rest, more);
      ExtendsAllStep(n, bs, more, Decode(bs).value, rest);
    }
  }

  lemma {:induction false} DecodeEntriesStep(
    n: nat, bs: seq<byte>, e: Entry, rest: seq<byte>, entries: seq<Entry>, tail: seq<byte>)
    requires n > 0 && DecodeEntry(bs) == Cut(e, rest) && DecodeEntries(n - 1, rest) == Cut(entries, tail)
    ensures DecodeEntries(n, bs) == Cut([e] + entries, tail)
  {
  }

  lemma {:induction false} EntriesHead(n: nat, bs: seq<byte>)
    requires n > 0 && DecodeEntries(n, bs).Cut?
    ensures DecodeEntry(bs).Cut? && DecodeEntries(n - 1, DecodeEntry(bs).rest).Cut?
  {
  }

  lemma {:induction false} ExtendsEntriesStep(n: nat, bs: seq<byte>, more: seq<byte>, e: Entry, rest: seq<byte>)
    requires n > 0 && DecodeEntry(bs) == Cut(e, rest) && DecodeEntry(bs + more) == Cut(e, rest + more)
    requires DecodeEntries(n - 1, rest).Cut?
    requires DecodeEntries(n - 1, rest + more)
          == Cut(DecodeEntries(n - 1, rest).value, DecodeEntries(n - 1, rest).rest + more)
    ensures DecodeEntries(n, bs).Cut?
    ensures DecodeEntries(n, bs + more) == Cut(DecodeEntries(n, bs).value, DecodeEntries(n, bs).rest + more)
  {
    var Cut(entries, tail) := DecodeEntries(n - 1, rest);
    DecodeEntriesStep(n, bs, e, rest, entries, tail);
    DecodeEntriesStep(n, bs + more, e, rest + more, entries, tail + more);
  }

  lemma {:induction false} ExtendsEntries(n: nat, bs: seq<byte>, more: seq<byte>)
    requires DecodeEntries(n, bs).Cut?
    ensures DecodeEntries(n, bs + more) == Cut(DecodeEntries(n, bs).value, DecodeEntries(n, bs).rest + more)
    decreases |bs|, 2
  {
    if n > 0 {
      EntriesHead(n, bs);
      var rest := DecodeEntry(bs).rest;
      ExtendsEntry(bs, more);
      ExtendsEntries(n - 1, rest, more);
      ExtendsEntriesStep(n, bs, more, DecodeEntry(bs).value, rest);
    }
  }

  lemma {:induction false} ExtendsEntry(bs: seq<byte>, more: seq<byte>)
    requires DecodeEntry(bs).Cut?
    ensures DecodeEntry(bs + more) == Cut(DecodeEntry(bs).value, DecodeEntry(bs).rest + more)
    decreases |bs|, 1
  {
    Extends(bs, more);
    Extends(Decode(bs).rest, more);
  }

  function Concat(pieces: seq<seq<byte>>): seq<byte> {
    if pieces == [] then [] else pieces[0] + Concat(pieces[1..])
  }

  lemma {:induction false} PiecesDecode(pieces: seq<seq<byte>>, items: seq<Item>, suffix: seq<byte>)
    requires |pieces| == |items|
    requires forall i | 0 <= i < |items| :: Decode(pieces[i]) == Cut(items[i], [])
    ensures DecodeAll(|items|, Concat(pieces) + suffix) == Cut(items, suffix)
  {
    if items == [] {
      assert Concat(pieces) + suffix == suffix;
    } else {
      var tail := Concat(pieces[1..]) + suffix;
      Assoc(pieces[0], Concat(pieces[1..]), suffix);
      Extends(pieces[0], tail);
      assert [] + tail == tail;
      PiecesDecode(pieces[1..], items[1..], suffix);
      assert [items[0]] + items[1..] == items;
    }
  }

  /** Well-formed items written raw after an array head are the array of those items. */
  lemma {:induction false} RawSplices(pieces: seq<seq<byte>>, items: seq<Item>, suffix: seq<byte>)
    requires |pieces| == |items| < TWO_64
    requires forall i | 0 <= i < |items| :: Decode(pieces[i]) == Cut(items[i], [])
    ensures Decode(Head(ARRAY, |items|) + Concat(pieces) + suffix) == Cut(Array(items), suffix)
  {
    var rest := Concat(pieces) + suffix;
    PiecesDecode(pieces, items, suffix);
    HeadRoundTrip(ARRAY, |items|, rest);
    DecodeArray(Head(ARRAY, |items|) + rest, |items|, rest, items, suffix);
    Assoc(Head(ARRAY, |items|), Concat(pieces), suffix);
  }

  // ---------------------------------------------------------------- shortest form

  lemma {:induction false} HeadShortest(bs: seq<byte>)
    requires ReadHead(bs).Cut?
    ensures var Cut((major, v), rest) := ReadHead(bs);
            |Head(major, v)| + |rest| <= |bs|
  {
    var width := ArgumentWidth(bs[0] % 32).value;
    FromBigEndianBound(bs[1..1 + width]);
    PowersOf256();
  }

  /** The writer is at least as short as anything the reader maps to the same tree. */
  lemma {:induction false} Shortest(bs: seq<byte>)
    requires Decode(bs).Cut?
    ensures |Encode(Decode(bs).value)| + |Decode(bs).rest| <= |bs|
    decreases |bs|, 0
  {
    HeadShortest(bs);
    var Cut((major, v), rest) := ReadHead(bs);
    if major == ARRAY {
      ShortestAll(v, rest);
    } else if major == MAP {
      ShortestEntries(v, rest);
    } else if major == TAG {
      Shortest(rest);
    }
  }

  lemma {:induction false} ShortestAll(n: nat, bs: seq<byte>)
    requires DecodeAll(n, bs).Cut?
    ensures |EncodeAll(DecodeAll(n, bs).value)| + |DecodeAll(n, bs).rest| <= |bs|
    decreases |bs|, 1
  {
    if n > 0 {
      Shortest(bs);
      var Cut(item, rest) := Decode(bs);
      ShortestAll(n - 1, rest);
      var items := DecodeAll(n - 1, rest).value;
      assert ([item] + items)[1..] == items;
    }
  }

  lemma {:induction false} ShortestEntries(n: nat, bs: seq<byte>)
    requires DecodeEntries(n, bs).Cut?
    ensures |EncodeEntries(DecodeEntries(n, bs).value)| + |DecodeEntries(n, bs).rest| <= |bs|
    decreases |bs|, 2
  {
    if n > 0 {
      ShortestEntry(bs);
      var Cut(entry, rest) := DecodeEntry(bs);
      ShortestEntries(n - 1, rest);
      var entries := DecodeEntries(n - 1, rest).value;
      assert ([entry] + entries)[1..] == entries;
    }
  }

  lemma {:induction false} ShortestEntry(bs: seq<byte>)
    requires DecodeEntry(bs).Cut?
    ensures |EncodeEntry(DecodeEntry(bs).value)| + |DecodeEntry(bs).rest| <= |bs|
    decreases |bs|, 1
  {
    Shortest(bs);
    Shortest(Decode(bs).rest);
  }

  // ---------------------------------------------------------------- appending items

  lemma {:induction false} EncodeAllAppend(a: seq<Item>, b: seq<Item>)
    requires FitAll(a) && FitAll(b)
    ensures EncodeAll(a + b) == EncodeAll(a) + EncodeAll(b)
  {
    if a == [] {
      assert a + b == b;
    } else {
      assert (a + b)[1..] == a[1..] + b;
      EncodeAllAppend(a[1..], b);
    }
  }

  lemma {:induction false} EncodeAllSnoc(items: seq<Item>, item: Item)
    requires FitAll(items) && Fits(item)
    ensures EncodeAll(items + [item]) == EncodeAll(items) + Encode(item)
  {
    EncodeAllAppend(items, [item]);
    assert [item][1..] == [];
  }

  lemma {:induction false} EncodeEntriesSnoc(entries: seq<Entry>, e: Entry)
    requires FitEntries(entries) && FitEntry(e)
    ensures EncodeEntries(entries + [e]) == EncodeEntries(entries) + Encode(e.key) + Encode(e.value)
  {
    if entries == [] {
      assert entries + [e] == [e];
      assert [e][1..] == [];
    } else {
      assert (entries + [e])[1..] == entries[1..] + [e];
      EncodeEntriesSnoc(entries[1..], e);
    }
  }

  lemma {:induction false} ItemAppended(before: seq<byte>, items: seq<Item>, i: nat)
    requires FitAll(items) && i < |items|
    ensures before + EncodeAll(items[..i]) + Encode(items[i]) == before + EncodeAll(items[..i + 1])
  {
    EncodeAllSnoc(items[..i], items[i]);
    assert items[..i] + [items[i]] == items[..i + 1];
    Assoc(before, EncodeAll(items[..i]), Encode(items[i]));
  }

  lemma {:induction false} EntryAppended(before: seq<byte>, entries: seq<Entry>, e: Entry)
    requires FitEntries(entries) && FitEntry(e)
    ensures before + EncodeEntries(entries) + EncodeEntry(e)
         == before + (EncodeEntries(entries) + Encode(e.key) + Encode(e.value))
  {
    Assoc(before, EncodeEntries(entries), EncodeEntry(e));
    Assoc(EncodeEntries(entries), Encode(e.key), Encode(e.value));
  }

  // ---------------------------------------------------------------- the writer

  /** The append-only byte buffer of the source. */
  class CborEncoder {
    var bytes: seq<byte>

    constructor ()
      ensures bytes == []
    {
      bytes := [];
    }

    method MajorType(major: Major, value: u64)
      modifies this
      ensures bytes == old(bytes) + Head(major, value)
    {
      var prefix := major * 32;
      if value <= 23 {
        bytes := bytes + [prefix + value];
      } else if value <= 0xff {
        bytes := bytes + [prefix + 24];
        bytes := bytes + BigEndian(value, 1);
      } else if value <= 0xffff {
        bytes := bytes + [prefix + 25];
        bytes := bytes + BigEndian(value, 2);
      } else if value <= 0xffff_ffff {
        bytes := bytes + [prefix + 26];
        bytes := bytes + BigEndian(value, 4);
      } else {
        bytes := bytes + [prefix + 27];
        bytes := bytes + BigEndian(value, 8);
      }
    }

    method Raw(raw: seq<byte>)
      modifies this
      ensures bytes == old(bytes) + raw
    {
      bytes := bytes + raw;
    }

    method WriteUnsigned(value: u64)
      modifies this
      ensures bytes == old(bytes) + Encode(Unsigned(value))
    {
      MajorType(UNSIGNED, value);
    }

    method WriteBytes(value: seq<byte>)
      requires |value| < TWO_64
      modifies this
      ensures bytes == old(bytes) + Encode(Bytes(value))
    {
      MajorType(BYTES, |value|);
      bytes := bytes + value;
    }

    method WriteText(value: seq<byte>)
      requires |value| < TWO_64
      modifies this
      ensures bytes == old(bytes) + Encode(Text(value))
    {
      MajorType(TEXT, |value|);
      bytes := bytes + value;
    }

    method ArrayHead(len: u64)
      modifies this
      ensures bytes == old(bytes) + Head(ARRAY, len)
    {
      MajorType(ARRAY, len);
    }

    method MapHead(len: u64)
      modifies this
      ensures bytes == old(bytes) + Head(MAP, len)
    {
      MajorType(MAP, len);
    }

    method TagHead(value: u64)
      modifies this
      ensures bytes == old(bytes) + Head(TAG, value)
    {
      MajorType(TAG, value);
    }

    method WriteNull()
      modifies this
      ensures bytes == old(bytes) + Encode(Null)
    {
      bytes := bytes + [0xf6];
    }

    method WriteTrue()
      modifies this
      ensures bytes == old(bytes) + Encode(True)
    {
      bytes := bytes + [0xf5];
    }

    /** Any finite tree, written by the calls above. */
    method WriteItem(item: Item)
      requires Fits(item)
      modifies this
      ensures bytes == old(bytes) + Encode(item)
      decreases item
    {
      ghost var before := bytes;
      match item {
        case Unsigned(v) => WriteUnsigned(v);
        case Bytes(b) => WriteBytes(b);
        case Text(b) => WriteText(b);
        case Array(items) =>
          ArrayHead(|items|);
          WriteItems(items);
          Assoc(before, Head(ARRAY, |items|), EncodeAll(items));
        case Map(entries) =>
          MapHead(|entries|);
          WriteEntries(entries);
          Assoc(before, Head(MAP, |entries|), EncodeEntries(entries));
        case Tag(t, inner) =>
          TagHead(t);
          WriteItem(inner);
          Assoc(before, Head(TAG, t), Encode(inner));
        case Null => WriteNull();
        case True => WriteTrue();
      }
    }

    method WriteItems(items: seq<Item>)
      requires FitAll(items)
      modifies this
      ensures bytes == old(bytes) + EncodeAll(items)
      decreases items
    {
      ghost var before := bytes;
      for i := 0 to |items|
        invariant bytes == before + EncodeAll(items[..i])
      {
        ItemAppended(before, items, i);
        WriteItem(items[i]);
      }
      assert items[..|items|] == items;
    }

    method WriteEntries(entries: seq<Entry>)
      requires FitEntries(entries)
      modifies this
      ensures bytes == old(bytes) + EncodeEntries(entries)
      decreases entries
    {
      ghost var before := bytes;
      for i := 0 to |entries|
        invariant bytes == before + EncodeEntries(entries[..i])
      {
        assert FitEntry(entries[i]);
        EncodeEntriesSnoc(entries[..i], entries[i]);
        assert entries[..i] + [entries[i]] == entries[..i + 1];
        WriteEntry(entries[i]);
        EntryAppended(before, entries[..i], entries[i]);
      }
      assert entries[..|entries|] == entries;
    }

    method WriteEntry(e: Entry)
      requires FitEntry(e)
      modifies this
      ensures bytes == old(bytes) + EncodeEntry(e)
      decreases e
    {
      ghost var before := bytes;
      WriteItem(e.key);
      WriteItem(e.value);
      Assoc(before, Encode(e.key), Encode(e.value));
    }
  }
}
