/**
 Cardano transaction serialization (core/crates/gem_cardano/src/transaction.rs) on top of the
 streaming CBOR writer, with a reader that recovers the transaction from the signed bytes.
 Blake2b-256 is a parameter.
 */
module CardanoTx {
  import opened Common
  import opened Cbor
  import Utf8

  const AUXILIARY_DATA_TAG := 259
  const MAYA_PROTOCOL_AUXILIARY_KEY := 6676
  const MEMO_SEGMENT_SIZE := 64
  const MEMO_LABEL: seq<byte> := [0x6d, 0x65, 0x6d, 0x6f]

  type Bytes32 = b: seq<byte> | |b| == 32 witness seq(32, _ => 0)
  type Bytes64 = b: seq<byte> | |b| == 64 witness seq(64, _ => 0)
  /** One UTF-8 character; a `str` is a sequence of them. */
  type Char = c: seq<byte> | c != [] && Utf8.CharLen(c) == |c| witness [0x20]
  type Str = seq<Char>

  type Digest = seq<byte> -> Bytes32

  datatype Input = Input(transactionHash: Bytes32, outputIndex: u64)
  datatype Output = Output(address: seq<byte>, amount: u64)
  datatype Transaction = Transaction(
    inputs: seq<Input>,
    outputs: seq<Output>,
    fee: u64,
    expirationBlock: u64,
    memo: Option<Str>)

  /** What the Rust types guarantee: slice and string lengths are machine words. */
  predicate Representable(tx: Transaction) {
    && |tx.inputs| < TWO_64
    && |tx.outputs| < TWO_64
    && (forall i | 0 <= i < |tx.outputs| :: |tx.outputs[i].address| < TWO_64)
    && (tx.memo.Some? ==> |Concat(tx.memo.value)| < TWO_64)
  }

  // ---------------------------------------------------------------- memo segments

  lemma {:induction false} FlattenAppend(a: seq<seq<byte>>, b: seq<seq<byte>>)
    ensures Concat(a + b) == Concat(a) + Concat(b)
  {
    if a == [] {
      assert a + b == b;
    } else {
      assert (a + b)[1..] == a[1..] + b;
      FlattenAppend(a[1..], b);
    }
  }

  lemma {:induction false} FlattenValid(memo: Str)
    ensures Utf8.Valid(Concat(memo))
    ensures |memo| <= |Concat(memo)|
  {
    if memo != [] {
      FlattenValid(memo[1..]);
      assert memo[0][|memo[0]|..] == [];
      Utf8.ValidConcat(memo[0], Concat(memo[1..]));
    }
  }

  /** Extends a segment of `used` bytes by whole characters while it fits. */
  function SegmentEnd(memo: Str, index: nat, used: nat): (end: nat)
    requires index <= |memo|
    ensures index <= end <= |memo|
    ensures used == 0 && index < |memo| ==> index < end
    decreases |memo| - index
  {
    if index == |memo| || (used > 0 && used + |memo[index]| > MEMO_SEGMENT_SIZE) then index
    else SegmentEnd(memo, index + 1, used + |memo[index]|)
  }

  function SegmentsFrom(memo: Str, start: nat): (parts: seq<Str>)
    requires start <= |memo|
    decreases |memo| - start
  {
    if start == |memo| then [] else
    var end := SegmentEnd(memo, start, 0);
    [memo[start..end]] + SegmentsFrom(memo, end)
  }

  function Joined(parts: seq<Str>): Str {
    if parts == [] then [] else parts[0] + Joined(parts[1..])
  }

  lemma {:induction false} SegmentEndFits(memo: Str, start: nat, index: nat)
    requires start <= index <= |memo| && |Concat(memo[start..index])| <= MEMO_SEGMENT_SIZE
    ensures var end := SegmentEnd(memo, index, |Concat(memo[start..index])|);
            && |Concat(memo[start..end])| <= MEMO_SEGMENT_SIZE
            && (end < |memo| ==> |Concat(memo[start..end])| + |memo[end]| > MEMO_SEGMENT_SIZE)
    decreases |memo| - index
  {
    var used := |Concat(memo[start..index])|;
    if index == |memo| || (used > 0 && used + |memo[index]| > MEMO_SEGMENT_SIZE) {
    } else {
      assert memo[start..index + 1] == memo[start..index] + [memo[index]];
      FlattenAppend(memo[start..index], [memo[index]]);
      assert Concat([memo[index]]) == memo[index];
      SegmentEndFits(memo, start, index + 1);
    }
  }

  /**
   Segments are a greedy split on character boundaries: joined they are the memo, each is
   non-empty and at most 64 bytes, and the next character would not have fitted.
   */
  lemma {:induction false} SegmentsSplitMemo(memo: Str, start: nat)
    requires start <= |memo|
    ensures var parts := SegmentsFrom(memo, start);
            && Joined(parts) == memo[start..]
            && |parts| <= |memo| - start
            && (forall i | 0 <= i < |parts| :: parts[i] != [] && |Concat(parts[i])| <= 64)
            && (forall i | 0 <= i < |parts| - 1 ::
                  |Concat(parts[i])| + |parts[i + 1][0]| > 64)
    decreases |memo| - start
  {
    if start < |memo| {
      assert memo[start..start] == [];
      SegmentEndFits(memo, start, start);
      var end := SegmentEnd(memo, start, 0);
      SegmentsSplitMemo(memo, end);
      var rest := SegmentsFrom(memo, end);
      assert ([memo[start..end]] + rest)[1..] == rest;
      assert memo[start..end] + memo[end..] == memo[start..];
      assert rest != [] ==> rest[0] == memo[end..SegmentEnd(memo, end, 0)] && rest[0][0] == memo[end];
    }
  }

  lemma {:induction false} FirstSegment(memo: Str, start: nat, end: nat, segments: seq<Str>)
    requires start < |memo| && end <= |memo| && SegmentEnd(memo, start, 0) == end
    ensures segments + SegmentsFrom(memo, start) == segments + [memo[start..end]] + SegmentsFrom(memo, end)
  {
  }

  /** The source's single pass; `size` is the byte distance from the segment's start. */
  method ChunkMemoSegments(memo: Str) returns (segments: seq<Str>)
    ensures segments == SegmentsFrom(memo, 0)
  {
    segments := [];
    var start, index, size := 0, 0, 0;
    while index < |memo|
      invariant 0 <= start <= index <= |memo|
      invariant start < index || index == 0
      invariant size >= 0 && (size > 0 <==> start < index)
      invariant SegmentEnd(memo, index, size) == SegmentEnd(memo, start, 0)
      invariant segments + SegmentsFrom(memo, start) == SegmentsFrom(memo, 0)
    {
      var width := |memo[index]|;
      if start < index && size + width > MEMO_SEGMENT_SIZE {
        FirstSegment(memo, start, index, segments);
        segments := segments + [memo[start..index]];
        start, size := index, 0;
      }
      index, size := index + 1, size + width;
    }
    if start < |memo| {
      assert memo[start..] == memo[start..|memo|];
      segments := segments + [memo[start..]];
    }
  }

  // ---------------------------------------------------------------- item trees

  function TextItems(parts: seq<Str>): seq<Item> {
    seq(|parts|, i requires 0 <= i < |parts| => Text(Concat(parts[i])))
  }

  /** A map with one entry. */
  function Single(key: Item, value: Item): Item {
    Map([Entry(key, value)])
  }

  function MemoItem(memo: Str): Item {
    Single(Text(MEMO_LABEL), Array(TextItems(SegmentsFrom(memo, 0))))
  }

  function AuxiliaryItem(memo: Str): Item {
    Tag(AUXILIARY_DATA_TAG,
        Single(Unsigned(0), Single(Unsigned(0),
        Single(Unsigned(MAYA_PROTOCOL_AUXILIARY_KEY), MemoItem(memo)))))
  }

  function InputItem(input: Input): Item {
    Array([Bytes(input.transactionHash), Unsigned(input.outputIndex)])
  }

  function OutputItem(output: Output): Item {
    Array([Bytes(output.address), Unsigned(output.amount)])
  }

  function InputItems(inputs: seq<Input>): seq<Item> {
    seq(|inputs|, i requires 0 <= i < |inputs| => InputItem(inputs[i]))
  }

  function OutputItems(outputs: seq<Output>): seq<Item> {
    seq(|outputs|, i requires 0 <= i < |outputs| => OutputItem(outputs[i]))
  }

  function BaseEntries(tx: Transaction): seq<Entry> {
    [ Entry(Unsigned(0), Array(InputItems(tx.inputs))),
      Entry(Unsigned(1), Array(OutputItems(tx.outputs))),
      Entry(Unsigned(2), Unsigned(tx.fee)),
      Entry(Unsigned(3), Unsigned(tx.expirationBlock)) ]
  }

  predicate HasMemo(tx: Transaction) {
    tx.memo.Some? && tx.memo.value != []
  }

  function BodyItem(blake: Digest, tx: Transaction): Item
    requires Representable(tx)
  {
    if HasMemo(tx) then
      AuxiliaryFits(tx.memo.value);
      Map(BaseEntries(tx) + [Entry(Unsigned(7), Bytes(blake(Encode(AuxiliaryItem(tx.memo.value)))))])
    else
      Map(BaseEntries(tx))
  }

  function WitnessItem(publicKey: Bytes32, signature: Bytes64): Item {
    Single(Unsigned(0), Array([Array([Bytes(publicKey), Bytes(signature)])]))
  }

  /** The fourth element of a signed transaction. */
  function LastItem(tx: Transaction): Item {
    if HasMemo(tx) then AuxiliaryItem(tx.memo.value) else Null
  }

  function SignedItem(blake: Digest, tx: Transaction, publicKey: Bytes32, signature: Bytes64): Item
    requires Representable(tx)
  {
    Array([BodyItem(blake, tx), WitnessItem(publicKey, signature), True, LastItem(tx)])
  }

  lemma {:induction false} SingleFits(key: Item, value: Item)
    requires Fits(key) && Fits(value)
    ensures Fits(Single(key, value))
  {
  }

  lemma {:induction false} MemoFits(memo: Str)
    requires |Concat(memo)| < TWO_64
    ensures |SegmentsFrom(memo, 0)| < TWO_64
    ensures FitAll(TextItems(SegmentsFrom(memo, 0)))
    ensures Fits(MemoItem(memo))
  {
    SegmentsSplitMemo(memo, 0);
    FlattenValid(memo);
    SingleFits(Text(MEMO_LABEL), Array(TextItems(SegmentsFrom(memo, 0))));
  }

  lemma {:induction false} AuxiliaryFits(memo: Str)
    requires |Concat(memo)| < TWO_64
    ensures Fits(AuxiliaryItem(memo))
  {
    MemoFits(memo);
    var inner := Single(Unsigned(MAYA_PROTOCOL_AUXILIARY_KEY), MemoItem(memo));
    SingleFits(Unsigned(MAYA_PROTOCOL_AUXILIARY_KEY), MemoItem(memo));
    SingleFits(Unsigned(0), inner);
    SingleFits(Unsigned(0), Single(Unsigned(0), inner));
  }

  lemma {:induction false} BaseFits(tx: Transaction)
    requires Representable(tx)
    ensures FitAll(InputItems(tx.inputs)) && FitAll(OutputItems(tx.outputs))
    ensures FitEntries(BaseEntries(tx))
  {
  }

  lemma {:induction false} BodyFits(blake: Digest, tx: Transaction)
    requires Representable(tx)
    ensures Fits(BodyItem(blake, tx))
  {
    BaseFits(tx);
    if HasMemo(tx) {
      AuxiliaryFits(tx.memo.value);
      var last := Entry(Unsigned(7), Bytes(blake(Encode(AuxiliaryItem(tx.memo.value)))));
      assert Fits(last.key) && Fits(last.value);
      assert FitEntry(last);
      assert FitEntries(BaseEntries(tx) + [last]);
    }
  }

  lemma {:induction false} WitnessFits(publicKey: Bytes32, signature: Bytes64)
    ensures Fits(WitnessItem(publicKey, signature))
  {
    var pair := Array([Bytes(publicKey), Bytes(signature)]);
    assert Fits(pair);
    SingleFits(Unsigned(0), Array([pair]));
  }

  lemma {:induction false} SignedFits(blake: Digest, tx: Transaction, publicKey: Bytes32, signature: Bytes64)
    requires Representable(tx)
    ensures Fits(SignedItem(blake, tx, publicKey, signature))
    ensures Fits(BodyItem(blake, tx)) && Fits(WitnessItem(publicKey, signature))
    ensures HasMemo(tx) ==> Fits(AuxiliaryItem(tx.memo.value))
  {
    BodyFits(blake, tx);
    WitnessFits(publicKey, signature);
    if HasMemo(tx) { AuxiliaryFits(tx.memo.value); }
    FourFit(BodyItem(blake, tx), WitnessItem(publicKey, signature), True, LastItem(tx));
  }

  lemma {:induction false} FourFit(a: Item, b: Item, c: Item, d: Item)
    requires Fits(a) && Fits(b) && Fits(c) && Fits(d)
    ensures Fits(Array([a, b, c, d]))
  {
  }

  // ---------------------------------------------------------------- encodings of short lists

  lemma {:induction false} SingleBytes(key: Item, value: Item)
    requires Fits(key) && Fits(value)
    ensures Fits(Single(key, value))
    ensures Encode(Single(key, value)) == Head(MAP, 1) + Encode(key) + Encode(value)
  {
    var e := Entry(key, value);
    SingleFits(key, value);
    assert [] + [e] == [e];
    EncodeEntriesSnoc([], e);
    Assoc(Head(MAP, 1), Encode(key), Encode(value));
  }

  lemma {:induction false} EncodePair(a: Item, b: Item)
    requires Fits(a) && Fits(b)
    ensures Fits(Array([a, b]))
    ensures Encode(Array([a, b])) == Head(ARRAY, 2) + Encode(a) + Encode(b)
  {
    assert [a, b] == [a] + [b];
    assert [] + [a] == [a];
    EncodeAllSnoc([], a);
    EncodeAllSnoc([a], b);
  }

  // ---------------------------------------------------------------- writing

  /** Appends the elements of an array whose head is already written. */
  method WriteTexts(encoder: CborEncoder, parts: seq<Str>)
    requires FitAll(TextItems(parts))
    modifies encoder
    ensures encoder.bytes == old(encoder.bytes) + EncodeAll(TextItems(parts))
  {
    ghost var before, items := encoder.bytes, TextItems(parts);
    for i := 0 to |parts|
      invariant encoder.bytes == before + EncodeAll(items[..i])
    {
      assert Fits(items[i]);
      EncodeAllSnoc(items[..i], items[i]);
      assert items[..i] + [items[i]] == items[..i + 1];
      Assoc(before, EncodeAll(items[..i]), Encode(items[i]));
      encoder.WriteText(Concat(parts[i]));
    }
    assert items[..|parts|] == items;
  }

  method WriteMemo(encoder: CborEncoder, memo: Str)
    requires |Concat(memo)| < TWO_64
    modifies encoder
    ensures Fits(MemoItem(memo))
    ensures encoder.bytes == old(encoder.bytes) + Encode(MemoItem(memo))
  {
    MemoFits(memo);
    var segments := ChunkMemoSegments(memo);
    ghost var texts := TextItems(segments);
    encoder.MapHead(1);
    encoder.WriteText(MEMO_LABEL);
    encoder.ArrayHead(|segments|);
    WriteTexts(encoder, segments);
    SingleBytes(Text(MEMO_LABEL), Array(texts));
    Memo5(old(encoder.bytes), Head(MAP, 1), Encode(Text(MEMO_LABEL)), Head(ARRAY, |segments|), EncodeAll(texts));
  }

  lemma {:induction false} Memo5(p: seq<byte>, m: seq<byte>, l: seq<byte>, a: seq<byte>, t: seq<byte>)
    ensures p + (m + l + (a + t)) == p + m + l + a + t
  {
  }

  /** `auxiliary_data_bytes`: nothing for an absent or empty memo. */
  method AuxiliaryDataBytes(tx: Transaction) returns (r: Option<seq<byte>>)
    requires Representable(tx)
    ensures r.Some? == HasMemo(tx)
    ensures r.Some? ==> Fits(AuxiliaryItem(tx.memo.value)) && r.value == Encode(AuxiliaryItem(tx.memo.value))
  {
    if !HasMemo(tx) {
      return None;
    }
    var encoder := new CborEncoder();
    encoder.TagHead(AUXILIARY_DATA_TAG);
    encoder.MapHead(1);
    encoder.WriteUnsigned(0);
    encoder.MapHead(1);
    encoder.WriteUnsigned(0);
    encoder.MapHead(1);
    encoder.WriteUnsigned(MAYA_PROTOCOL_AUXILIARY_KEY);
    WriteMemo(encoder, tx.memo.value);
    AuxiliaryBytes(tx.memo.value);
    return Some(encoder.bytes);
  }

  lemma {:induction false} AuxiliaryBytes(memo: Str)
    requires |Concat(memo)| < TWO_64
    ensures Fits(MemoItem(memo)) && Fits(AuxiliaryItem(memo))
    ensures Encode(AuxiliaryItem(memo))
         == [] + Head(TAG, AUXILIARY_DATA_TAG)
              + Head(MAP, 1) + Encode(Unsigned(0)) + Head(MAP, 1) + Encode(Unsigned(0))
              + Head(MAP, 1) + Encode(Unsigned(MAYA_PROTOCOL_AUXILIARY_KEY)) + Encode(MemoItem(memo))
  {
    AuxiliaryFits(memo);
    MemoFits(memo);
    var zero, key := Unsigned(0), Unsigned(MAYA_PROTOCOL_AUXILIARY_KEY);
    SingleBytes(key, MemoItem(memo));
    var inner := Single(key, MemoItem(memo));
    SingleBytes(zero, inner);
    SingleBytes(zero, Single(zero, inner));
    Concat8(Head(TAG, AUXILIARY_DATA_TAG), Head(MAP, 1), Encode(zero), Encode(key), Encode(MemoItem(memo)));
  }

  lemma {:induction false} Concat8(t: seq<byte>, m: seq<byte>, z: seq<byte>, k: seq<byte>, v: seq<byte>)
    ensures t + (m + z + (m + z + (m + k + v))) == [] + t + m + z + m + z + m + k + v
  {
  }

  lemma {:induction false} Concat3(p: seq<byte>, a: seq<byte>, b: seq<byte>, c: seq<byte>)
    ensures p + (a + b + c) == p + a + b + c
  {
  }

  method WriteInput(encoder: CborEncoder, x: Input)
    modifies encoder
    ensures Fits(InputItem(x))
    ensures encoder.bytes == old(encoder.bytes) + Encode(InputItem(x))
  {
    EncodePair(Bytes(x.transactionHash), Unsigned(x.outputIndex));
    encoder.ArrayHead(2);
    encoder.WriteBytes(x.transactionHash);
    encoder.WriteUnsigned(x.outputIndex);
    Concat3(old(encoder.bytes), Head(ARRAY, 2), Encode(Bytes(x.transactionHash)), Encode(Unsigned(x.outputIndex)));
  }

  method WriteInputs(encoder: CborEncoder, xs: seq<Input>)
    requires |xs| < TWO_64 && FitAll(InputItems(xs))
    modifies encoder
    ensures encoder.bytes == old(encoder.bytes) + Encode(Array(InputItems(xs)))
  {
    ghost var items := InputItems(xs);
    encoder.ArrayHead(|xs|);
    ghost var before := encoder.bytes;
    for i := 0 to |xs|
      invariant encoder.bytes == before + EncodeAll(items[..i])
    {
      assert Fits(items[i]);
      EncodeAllSnoc(items[..i], items[i]);
      assert items[..i] + [items[i]] == items[..i + 1];
      Assoc(before, EncodeAll(items[..i]), Encode(items[i]));
      WriteInput(encoder, xs[i]);
    }
    assert items[..|xs|] == items;
    Assoc(old(encoder.bytes), Head(ARRAY, |xs|), EncodeAll(items));
  }

  method WriteOutput(encoder: CborEncoder, x: Output)
    requires |x.address| < TWO_64
    modifies encoder
    ensures Fits(OutputItem(x))
    ensures encoder.bytes == old(encoder.bytes) + Encode(OutputItem(x))
  {
    EncodePair(Bytes(x.address), Unsigned(x.amount));
    encoder.ArrayHead(2);
    encoder.WriteBytes(x.address);
    encoder.WriteUnsigned(x.amount);
    Concat3(old(encoder.bytes), Head(ARRAY, 2), Encode(Bytes(x.address)), Encode(Unsigned(x.amount)));
  }

  method WriteOutputs(encoder: CborEncoder, xs: seq<Output>)
    requires |xs| < TWO_64 && FitAll(OutputItems(xs))
    requires forall i | 0 <= i < |xs| :: |xs[i].address| < TWO_64
    modifies encoder
    ensures encoder.bytes == old(encoder.bytes) + Encode(Array(OutputItems(xs)))
  {
    ghost var items := OutputItems(xs);
    encoder.ArrayHead(|xs|);
    ghost var before := encoder.bytes;
    for i := 0 to |xs|
      invariant encoder.bytes == before + EncodeAll(items[..i])
    {
      assert Fits(items[i]);
      EncodeAllSnoc(items[..i], items[i]);
      assert items[..i] + [items[i]] == items[..i + 1];
      Assoc(before, EncodeAll(items[..i]), Encode(items[i]));
      WriteOutput(encoder, xs[i]);
    }
    assert items[..|xs|] == items;
    Assoc(old(encoder.bytes), Head(ARRAY, |xs|), EncodeAll(items));
  }

  lemma {:induction false} BaseBytes(tx: Transaction)
    requires Representable(tx)
    ensures FitAll(InputItems(tx.inputs)) && FitAll(OutputItems(tx.outputs))
    ensures FitEntries(BaseEntries(tx))
    ensures EncodeEntries(BaseEntries(tx))
         == Encode(Unsigned(0)) + Encode(Array(InputItems(tx.inputs)))
            + Encode(Unsigned(1)) + Encode(Array(OutputItems(tx.outputs)))
            + Encode(Unsigned(2)) + Encode(Unsigned(tx.fee))
            + Encode(Unsigned(3)) + Encode(Unsigned(tx.expirationBlock))
  {
    BaseFits(tx);
    var es := BaseEntries(tx);
    FourEntries(es[0], es[1], es[2], es[3]);
  }

  lemma {:induction false} FourEntries(a: Entry, b: Entry, c: Entry, d: Entry)
    requires FitEntry(a) && FitEntry(b) && FitEntry(c) && FitEntry(d)
    ensures EncodeEntries([a, b, c, d])
         == Encode(a.key) + Encode(a.value) + Encode(b.key) + Encode(b.value)
            + Encode(c.key) + Encode(c.value) + Encode(d.key) + Encode(d.value)
  {
    assert [] + [a] == [a];
    EncodeEntriesSnoc([], a);
    assert [] + Encode(a.key) == Encode(a.key);
    assert [a] + [b] == [a, b];
    EncodeEntriesSnoc([a], b);
    assert [a, b] + [c] == [a, b, c];
    EncodeEntriesSnoc([a, b], c);
    assert [a, b, c] + [d] == [a, b, c, d];
    EncodeEntriesSnoc([a, b, c], d);
  }

  method WriteBase(encoder: CborEncoder, tx: Transaction)
    requires Representable(tx)
    modifies encoder
    ensures FitEntries(BaseEntries(tx))
    ensures encoder.bytes == old(encoder.bytes) + EncodeEntries(BaseEntries(tx))
  {
    BaseBytes(tx);
    encoder.WriteUnsigned(0);
    WriteInputs(encoder, tx.inputs);
    encoder.WriteUnsigned(1);
    WriteOutputs(encoder, tx.outputs);
    encoder.WriteUnsigned(2);
    encoder.WriteUnsigned(tx.fee);
    encoder.WriteUnsigned(3);
    encoder.WriteUnsigned(tx.expirationBlock);
    Concat9(old(encoder.bytes), Encode(Unsigned(0)), Encode(Array(InputItems(tx.inputs))),
            Encode(Unsigned(1)), Encode(Array(OutputItems(tx.outputs))),
            Encode(Unsigned(2)), Encode(Unsigned(tx.fee)),
            Encode(Unsigned(3)), Encode(Unsigned(tx.expirationBlock)));
  }

  lemma {:induction false} Concat9(p: seq<byte>, a: seq<byte>, b: seq<byte>, c: seq<byte>, d: seq<byte>,
                e: seq<byte>, f: seq<byte>, g: seq<byte>, h: seq<byte>)
    ensures p + (a + b + c + d + e + f + g + h) == p + a + b + c + d + e + f + g + h
  {
  }

  method BodyBytes(blake: Digest, tx: Transaction) returns (r: seq<byte>)
    requires Representable(tx)
    ensures Fits(BodyItem(blake, tx)) && r == Encode(BodyItem(blake, tx))
  {
    BodyFits(blake, tx);
    var auxiliary := AuxiliaryDataBytes(tx);
    var encoder := new CborEncoder();
    encoder.MapHead(if auxiliary.Some? then 5 else 4);
    WriteBase(encoder, tx);
    if auxiliary.Some? {
      ghost var last := Entry(Unsigned(7), Bytes(blake(auxiliary.value)));
      encoder.WriteUnsigned(7);
      encoder.WriteBytes(blake(auxiliary.value));
      EncodeEntriesSnoc(BaseEntries(tx), last);
      assert |BaseEntries(tx) + [last]| == 5;
      Concat4(Head(MAP, 5), EncodeEntries(BaseEntries(tx)), Encode(last.key), Encode(last.value));
    }
    r := encoder.bytes;
  }

  lemma {:induction false} Concat4(a: seq<byte>, b: seq<byte>, c: seq<byte>, d: seq<byte>)
    ensures [] + a + b + c + d == a + (b + c + d)
  {
  }

  lemma {:induction false} FourItems(a: Item, b: Item, c: Item, d: Item)
    requires Fits(a) && Fits(b) && Fits(c) && Fits(d)
    ensures Fits(Array([a, b, c, d]))
    ensures Encode(Array([a, b, c, d])) == Head(ARRAY, 4) + Encode(a) + Encode(b) + Encode(c) + Encode(d)
  {
    FourFit(a, b, c, d);
    assert [] + [a] == [a];
    EncodeAllSnoc([], a);
    assert [] + Encode(a) == Encode(a);
    assert [a] + [b] == [a, b];
    EncodeAllSnoc([a], b);
    assert [a, b] + [c] == [a, b, c];
    EncodeAllSnoc([a, b], c);
    assert [a, b, c] + [d] == [a, b, c, d];
    EncodeAllSnoc([a, b, c], d);
    Array4(Head(ARRAY, 4), Encode(a), Encode(b), Encode(c), Encode(d));
  }

  lemma {:induction false} Array4(h: seq<byte>, a: seq<byte>, b: seq<byte>, c: seq<byte>, d: seq<byte>)
    ensures h + (a + b + c + d) == h + a + b + c + d
  {
  }

  lemma {:induction false} WitnessBytes(publicKey: Bytes32, signature: Bytes64)
    ensures Fits(WitnessItem(publicKey, signature))
    ensures Encode(WitnessItem(publicKey, signature))
         == Head(MAP, 1) + Encode(Unsigned(0)) + Head(ARRAY, 1) + Head(ARRAY, 2)
            + Encode(Bytes(publicKey)) + Encode(Bytes(signature))
  {
    EncodePair(Bytes(publicKey), Bytes(signature));
    var pair := Array([Bytes(publicKey), Bytes(signature)]);
    assert [] + [pair] == [pair];
    EncodeAllSnoc([], pair);
    SingleBytes(Unsigned(0), Array([pair]));
    Witness5(Head(MAP, 1), Encode(Unsigned(0)), Head(ARRAY, 1), Head(ARRAY, 2),
             Encode(Bytes(publicKey)), Encode(Bytes(signature)));
  }

  lemma {:induction false} Witness5(m: seq<byte>, z: seq<byte>, a: seq<byte>, b: seq<byte>, k: seq<byte>, g: seq<byte>)
    ensures m + z + (a + (b + k + g)) == m + z + a + b + k + g
  {
  }

  method WriteWitness(encoder: CborEncoder, publicKey: Bytes32, signature: Bytes64)
    modifies encoder
    ensures Fits(WitnessItem(publicKey, signature))
    ensures encoder.bytes == old(encoder.bytes) + Encode(WitnessItem(publicKey, signature))
  {
    encoder.MapHead(1);
    encoder.WriteUnsigned(0);
    encoder.ArrayHead(1);
    encoder.ArrayHead(2);
    encoder.WriteBytes(publicKey);
    encoder.WriteBytes(signature);
    WitnessBytes(publicKey, signature);
    Concat6(old(encoder.bytes), Head(MAP, 1), Encode(Unsigned(0)), Head(ARRAY, 1), Head(ARRAY, 2),
            Encode(Bytes(publicKey)), Encode(Bytes(signature)));
  }

  lemma {:induction false} Concat6(
    p: seq<byte>, a: seq<byte>, b: seq<byte>, c: seq<byte>, d: seq<byte>, e: seq<byte>, f: seq<byte>)
    ensures p + (a + b + c + d + e + f) == p + a + b + c + d + e + f
  {
  }

  method WriteLast(encoder: CborEncoder, tx: Transaction)
    requires Representable(tx)
    modifies encoder
    ensures Fits(LastItem(tx))
    ensures encoder.bytes == old(encoder.bytes) + Encode(LastItem(tx))
  {
    var auxiliary := AuxiliaryDataBytes(tx);
    if auxiliary.Some? {
      encoder.Raw(auxiliary.value);
    } else {
      encoder.WriteNull();
    }
  }

  lemma {:induction false} SignedSplit(blake: Digest, tx: Transaction, publicKey: Bytes32, signature: Bytes64)
    requires Representable(tx)
    ensures Fits(SignedItem(blake, tx, publicKey, signature))
    ensures Fits(BodyItem(blake, tx)) && Fits(WitnessItem(publicKey, signature)) && Fits(LastItem(tx))
    ensures Encode(SignedItem(blake, tx, publicKey, signature))
         == Head(ARRAY, 4) + Encode(BodyItem(blake, tx)) + Encode(WitnessItem(publicKey, signature))
            + Encode(True) + Encode(LastItem(tx))
  {
    SignedFits(blake, tx, publicKey, signature);
    FourItems(BodyItem(blake, tx), WitnessItem(publicKey, signature), True, LastItem(tx));
  }

  /** `signed_bytes`: the body and the auxiliary data are spliced in as raw bytes. */
  method SignedBytes(blake: Digest, tx: Transaction, publicKey: Bytes32, signature: Bytes64)
    returns (r: seq<byte>)
    requires Representable(tx)
    ensures Fits(SignedItem(blake, tx, publicKey, signature))
    ensures r == Encode(SignedItem(blake, tx, publicKey, signature))
  {
    var body := BodyBytes(blake, tx);
    var encoder := new CborEncoder();
    encoder.ArrayHead(4);
    assert encoder.bytes == Head(ARRAY, 4);
    encoder.Raw(body);
    WriteWitness(encoder, publicKey, signature);
    encoder.WriteTrue();
    WriteLast(encoder, tx);
    SignedSplit(blake, tx, publicKey, signature);
    r := encoder.bytes;
  }

  /** The size estimated with an all-zero witness is the size of the real signed transaction. */
  lemma {:induction false} SignedSizeIndependentOfWitness(
    blake: Digest, tx: Transaction,
    key: Bytes32, signature: Bytes64, key': Bytes32, signature': Bytes64)
    requires Representable(tx)
    ensures Fits(SignedItem(blake, tx, key, signature)) && Fits(SignedItem(blake, tx, key', signature'))
    ensures |Encode(SignedItem(blake, tx, key, signature))| == |Encode(SignedItem(blake, tx, key', signature'))|
  {
    SignedSplit(blake, tx, key, signature);
    SignedSplit(blake, tx, key', signature');
    WitnessBytes(key, signature);
    WitnessBytes(key', signature');
  }

  // ---------------------------------------------------------------- reading

  function ReadInput(item: Item): Option<Input> {
    match item
    case Array(xs) =>
      if |xs| == 2 && xs[0].Bytes? && |xs[0].bytes| == 32 && xs[1].Unsigned?
      then Some(Input(xs[0].bytes, xs[1].value)) else None
    case _ => None
  }

  function ReadOutput(item: Item): Option<Output> {
    match item
    case Array(xs) =>
      if |xs| == 2 && xs[0].Bytes? && xs[1].Unsigned?
      then Some(Output(xs[0].bytes, xs[1].value)) else None
    case _ => None
  }

  function ReadAll<T>(read: Item -> Option<T>, items: seq<Item>): Option<seq<T>> {
    if items == [] then Some([]) else
    match (read(items[0]), ReadAll(read, items[1..]))
    case (Some(x), Some(xs)) => Some([x] + xs)
    case _ => None
  }

  function ReadText(item: Item): Option<seq<byte>> {
    if item.Text? then Some(item.utf8) else None
  }

  /** The value under the only key of a one-entry map. */
  function Only(item: Item, key: Item): Option<Item> {
    if item.Map? && |item.entries| == 1 && item.entries[0].key == key
    then Some(item.entries[0].value) else None
  }

  function Under(item: Option<Item>, key: Item): Option<Item> {
    if item.Some? then Only(item.value, key) else None
  }

  function ReadMemo(item: Item): Option<seq<byte>> {
    if !(item.Tag? && item.tag == 259) then None else
    var texts := Under(Under(Under(Only(item.inner, Unsigned(0)), Unsigned(0)), Unsigned(6676)),
                       Text([0x6d, 0x65, 0x6d, 0x6f]));
    match texts
    case Some(Array(xs)) =>
      (match ReadAll(ReadText, xs) case Some(parts) => Some(Concat(parts)) case None => None)
    case _ => None
  }

  /** What a signed transaction carries on the wire. */
  datatype Signed = Signed(
    inputs: seq<Input>,
    outputs: seq<Output>,
    fee: u64,
    expirationBlock: u64,
    digest: Option<seq<byte>>,
    memo: Option<seq<byte>>,
    publicKey: seq<byte>,
    signature: seq<byte>)

  /** What is sent; an absent memo and an empty one are written alike, others with their digest. */
  function Content(blake: Digest, tx: Transaction, publicKey: Bytes32, signature: Bytes64): Signed
    requires Representable(tx)
  {
    if tx.memo.None? || tx.memo.value == [] then
      Signed(tx.inputs, tx.outputs, tx.fee, tx.expirationBlock, None, None, publicKey, signature)
    else
      AuxiliaryFits(tx.memo.value);
      var digest := blake(Encode(AuxiliaryItem(tx.memo.value)));
      Signed(tx.inputs, tx.outputs, tx.fee, tx.expirationBlock, Some(digest), Some(Concat(tx.memo.value)),
             publicKey, signature)
  }

  /** The fifth entry of a body, the digest of the auxiliary data under key 7. */
  function ReadDigest(entries: seq<Entry>): Option<Option<seq<byte>>> {
    if |entries| == 4 then Some(None)
    else if |entries| == 5 && entries[4].key == Unsigned(7) && entries[4].value.Bytes? then
      Some(Some(entries[4].value.bytes))
    else None
  }

  function ReadBody(item: Item, memo: Option<seq<byte>>, publicKey: seq<byte>, signature: seq<byte>): Option<Signed> {
    if !(item.Map? && |item.entries| >= 4) || ReadDigest(item.entries).None? then None else
    var es := item.entries;
    if es[0].key == Unsigned(0) && es[0].value.Array? && es[1].key == Unsigned(1) && es[1].value.Array?
       && es[2].key == Unsigned(2) && es[2].value.Unsigned?
       && es[3].key == Unsigned(3) && es[3].value.Unsigned? then
      match (ReadAll(ReadInput, es[0].value.items), ReadAll(ReadOutput, es[1].value.items))
      case (Some(inputs), Some(outputs)) =>
        Some(Signed(inputs, outputs, es[2].value.value, es[3].value.value, ReadDigest(es).value, memo,
                    publicKey, signature))
      case _ => None
    else None
  }

  function ReadWitness(item: Item): Option<(seq<byte>, seq<byte>)> {
    match Only(item, Unsigned(0))
    case Some(Array(ws)) =>
      if |ws| == 1 && ws[0].Array? && |ws[0].items| == 2 && ws[0].items[0].Bytes? && ws[0].items[1].Bytes?
      then Some((ws[0].items[0].bytes, ws[0].items[1].bytes)) else None
    case _ => None
  }

  /** Reads a signed transaction; the whole input must be consumed. */
  function ReadSigned(bs: seq<byte>): Option<Signed> {
    match Decode(bs)
    case Stuck => None
    case Cut(item, rest) =>
      if rest != [] || !item.Array? || |item.items| != 4 || item.items[2] != True then None else
      var memo := ReadMemo(item.items[3]);
      if memo.None? && item.items[3] != Null then None else
      match ReadWitness(item.items[1])
      case Some((key, signature)) => ReadBody(item.items[0], memo, key, signature)
      case None => None
  }

  lemma {:induction false} ReadAllInputs(inputs: seq<Input>)
    ensures ReadAll(ReadInput, InputItems(inputs)) == Some(inputs)
  {
    if inputs != [] {
      ReadAllInputs(inputs[1..]);
      assert InputItems(inputs)[1..] == InputItems(inputs[1..]);
      assert [inputs[0]] + inputs[1..] == inputs;
    }
  }

  lemma {:induction false} ReadAllOutputs(outputs: seq<Output>)
    ensures ReadAll(ReadOutput, OutputItems(outputs)) == Some(outputs)
  {
    if outputs != [] {
      ReadAllOutputs(outputs[1..]);
      assert OutputItems(outputs)[1..] == OutputItems(outputs[1..]);
      assert [outputs[0]] + outputs[1..] == outputs;
    }
  }

  function Flattened(parts: seq<Str>): seq<seq<byte>> {
    seq(|parts|, i requires 0 <= i < |parts| => Concat(parts[i]))
  }

  lemma {:induction false} ReadAllTexts(parts: seq<Str>)
    ensures ReadAll(ReadText, TextItems(parts)) == Some(Flattened(parts))
  {
    if parts == [] {
      assert Flattened(parts) == [];
    } else {
      ReadAllTexts(parts[1..]);
      assert TextItems(parts)[1..] == TextItems(parts[1..]);
      assert Flattened(parts) == [Concat(parts[0])] + Flattened(parts[1..]);
    }
  }

  lemma {:induction false} FlattenJoined(parts: seq<Str>)
    ensures Concat(Flattened(parts)) == Concat(Joined(parts))
  {
    if parts != [] {
      FlattenJoined(parts[1..]);
      assert Flattened(parts)[1..] == Flattened(parts[1..]);
      FlattenAppend(parts[0], Joined(parts[1..]));
    }
  }

  lemma {:induction false} ReadSegments(memo: Str)
    ensures ReadAll(ReadText, TextItems(SegmentsFrom(memo, 0))) == Some(Flattened(SegmentsFrom(memo, 0)))
    ensures Concat(Flattened(SegmentsFrom(memo, 0))) == Concat(memo)
  {
    var parts := SegmentsFrom(memo, 0);
    ReadAllTexts(parts);
    FlattenJoined(parts);
    SegmentsSplitMemo(memo, 0);
    assert memo[0..] == memo;
  }

  lemma {:induction false} ReadMemoBack(memo: Str)
    ensures ReadMemo(AuxiliaryItem(memo)) == Some(Concat(memo))
  {
    ReadSegments(memo);
    assert Only(MemoItem(memo), Text(MEMO_LABEL)) == Some(Array(TextItems(SegmentsFrom(memo, 0))));
  }

  /**
   Signed bytes carry the whole transaction: inputs, outputs, fee, expiry and memo come back in
   order, with the witness, whatever the transaction, key and signature are.
   */
  lemma {:induction false} SignedRoundTrip(blake: Digest, tx: Transaction, publicKey: Bytes32, signature: Bytes64)
    requires Representable(tx)
    ensures Fits(SignedItem(blake, tx, publicKey, signature))
    ensures ReadSigned(Encode(SignedItem(blake, tx, publicKey, signature)))
         == Some(Content(blake, tx, publicKey, signature))
  {
    SignedFits(blake, tx, publicKey, signature);
    var item := SignedItem(blake, tx, publicKey, signature);
    RoundTrip(item, []);
    assert Encode(item) + [] == Encode(item);
    ReadBodyBack(blake, tx, publicKey, signature);
    ReadWitnessBack(publicKey, signature);
    if HasMemo(tx) { ReadMemoBack(tx.memo.value); }
  }

  lemma {:induction false} ReadBodyBack(blake: Digest, tx: Transaction, publicKey: Bytes32, signature: Bytes64)
    requires Representable(tx)
    ensures forall memo: Option<seq<byte>> ::
      ReadBody(BodyItem(blake, tx), memo, publicKey, signature)
        == Some(Content(blake, tx, publicKey, signature).(memo := memo))
  {
    ReadAllInputs(tx.inputs);
    ReadAllOutputs(tx.outputs);
  }

  lemma {:induction false} ReadWitnessBack(publicKey: Bytes32, signature: Bytes64)
    ensures ReadWitness(WitnessItem(publicKey, signature)) == Some((publicKey, signature))
  {
  }

  /** Two transactions with equal body bytes agree on everything but the memo, which the digest pins. */
  lemma {:induction false} BodyBytesDetermineTransaction(blake: Digest, a: Transaction, b: Transaction)
    requires Representable(a) && Representable(b)
    requires Fits(BodyItem(blake, a)) && Fits(BodyItem(blake, b))
    requires Encode(BodyItem(blake, a)) == Encode(BodyItem(blake, b))
    ensures a.(memo := None) == b.(memo := None)
    ensures HasMemo(a) == HasMemo(b)
    ensures HasMemo(a) ==>
      && Fits(AuxiliaryItem(a.memo.value)) && Fits(AuxiliaryItem(b.memo.value))
      && blake(Encode(AuxiliaryItem(a.memo.value))) == blake(Encode(AuxiliaryItem(b.memo.value)))
  {
    var x, y := BodyItem(blake, a), BodyItem(blake, b);
    assert Encode(x) + [] == Encode(y);
    PrefixFree(x, y, []);
    assert |x.entries| == |y.entries|;
    assert BaseEntries(a)[0] == x.entries[0] && BaseEntries(b)[0] == y.entries[0];
    assert BaseEntries(a)[1] == x.entries[1] && BaseEntries(b)[1] == y.entries[1];
    assert x.entries[2].value == Unsigned(a.fee) && y.entries[2].value == Unsigned(b.fee);
    assert x.entries[3].value == Unsigned(a.expirationBlock) && y.entries[3].value == Unsigned(b.expirationBlock);
    ReadAllInputs(a.inputs);
    ReadAllInputs(b.inputs);
    ReadAllOutputs(a.outputs);
    ReadAllOutputs(b.outputs);
    if HasMemo(a) {
      AuxiliaryFits(a.memo.value);
      AuxiliaryFits(b.memo.value);
      assert x.entries[4].value == Bytes(blake(Encode(AuxiliaryItem(a.memo.value))));
      assert y.entries[4].value == Bytes(blake(Encode(AuxiliaryItem(b.memo.value))));
    }
  }
}
