/**
 The table of pending fiat transactions, as far as its two unique indexes go
 (core/crates/storage/src/database/fiat.rs,
 core/crates/storage/src/migrations/2023-07-23-215138_fiat/up.sql): an insert whose index slot is
 taken does nothing and still succeeds.

 The table keeps its history: every insert made for a quote, the slots that other writers filled,
 and the slots that a webhook freed by giving a placeholder row its order id.
 */
module PendingRows {
  import opened Common

  /** The part of a quote that its row carries; the rest of the quote is opaque. */
  datatype Terms = Terms(provider: string, quote: string, rest: string)

  /** A provider's answer to a quote-url request. */
  datatype Offer = Offer(url: string, transactionId: Option<string>)

  /** A place in a unique index: one row per quote without an order, one row per order. */
  datatype Slot = Placeholder(provider: string, quote: string) | Order(provider: string, transaction: string)

  function SlotOf(terms: Terms, transactionId: Option<string>): Slot {
    match transactionId
    case None => Placeholder(terms.provider, terms.quote)
    case Some(t) => Order(terms.provider, t)
  }

  /** What the two indexes look at, and when two inserts are after the same slot. */
  lemma {:induction false} SlotsInFull(a: Terms, x: Option<string>, b: Terms, y: Option<string>)
    ensures x.None? ==> SlotOf(a, x).Placeholder? && SlotOf(a, x).quote == a.quote
    ensures x.Some? ==> SlotOf(a, x).Order? && SlotOf(a, x).transaction == x.value
    ensures SlotOf(a, x).provider == a.provider
    ensures SlotOf(a, x) == SlotOf(b, y) <==> a.provider == b.provider && x == y && (x.None? ==> a.quote == b.quote)
  {
  }

  /** An insert made by a quote-url call on the quote cached at `key`, and whether it added a row. */
  datatype Insert = Insert(key: string, offer: Offer, slot: Slot, added: bool)

  datatype Table = Table(taken: set<Slot>, inserts: seq<Insert>, claimed: set<Slot>, freed: set<Slot>)

  /** `add_fiat_transaction`: INSERT .. ON CONFLICT DO NOTHING. */
  function Inserted(t: Table, key: string, terms: Terms, offer: Offer): Table {
    var slot := SlotOf(terms, offer.transactionId);
    t.(taken := t.taken + {slot}, inserts := t.inserts + [Insert(key, offer, slot, slot !in t.taken)])
  }

  /** Another writer adds a row. */
  function Claimed(t: Table, slot: Slot): Table {
    t.(taken := t.taken + {slot}, claimed := t.claimed + {slot})
  }

  /** A webhook names the order of a placeholder row, which then sits in the order's slot. */
  function Settled(t: Table, provider: string, quote: string, transaction: string): Table {
    var vacated, named := Placeholder(provider, quote), Order(provider, transaction);
    t.(taken := t.taken - {vacated} + {named}, claimed := t.claimed + {named}, freed := t.freed + {vacated})
  }

  // ---------------------------------------------------------------- counting

  function CallsOf(inserts: seq<Insert>, key: string): set<int> {
    set i | 0 <= i < |inserts| && inserts[i].key == key
  }

  function AddedBy(inserts: seq<Insert>, key: string): set<int> {
    set i | 0 <= i < |inserts| && inserts[i].key == key && inserts[i].added
  }

  /** How many inserts were made for a quote. */
  function Calls(inserts: seq<Insert>, key: string): nat {
    |CallsOf(inserts, key)|
  }

  /** How many rows they added. */
  function Rows(inserts: seq<Insert>, key: string): nat {
    |AddedBy(inserts, key)|
  }

  predicate Extends(inserts: seq<Insert>, all: seq<Insert>) {
    |all| == |inserts| + 1 && forall k | 0 <= k < |inserts| :: all[k] == inserts[k]
  }

  lemma {:induction false} OneMoreCall(inserts: seq<Insert>, all: seq<Insert>, key: string)
    requires Extends(inserts, all)
    ensures CallsOf(all, key) == CallsOf(inserts, key) + if all[|inserts|].key == key then {|inserts|} else {}
  {
    forall k ensures k in CallsOf(all, key) <==> k in CallsOf(inserts, key) || (k == |inserts| && all[k].key == key) {
      assert 0 <= k < |inserts| ==> all[k] == inserts[k];
    }
  }

  lemma {:induction false} OneMoreRow(inserts: seq<Insert>, all: seq<Insert>, key: string)
    requires Extends(inserts, all)
    ensures var i := all[|inserts|];
      AddedBy(all, key) == AddedBy(inserts, key) + if i.key == key && i.added then {|inserts|} else {}
  {
    forall k
      ensures k in AddedBy(all, key)
         <==> k in AddedBy(inserts, key) || (k == |inserts| && all[k].key == key && all[k].added)
    {
      assert 0 <= k < |inserts| ==> all[k] == inserts[k];
    }
  }

  lemma {:induction false} OneMore(inserts: seq<Insert>, all: seq<Insert>, key: string)
    requires Extends(inserts, all)
    ensures var i := all[|inserts|];
      && Calls(all, key) == Calls(inserts, key) + (if i.key == key then 1 else 0)
      && Rows(all, key) == Rows(inserts, key) + (if i.key == key && i.added then 1 else 0)
  {
    OneMoreCall(inserts, all, key);
    OneMoreRow(inserts, all, key);
  }

  lemma {:induction false} CallsAppend(inserts: seq<Insert>, i: Insert, key: string)
    ensures Calls(inserts + [i], key) == Calls(inserts, key) + if i.key == key then 1 else 0
    ensures Rows(inserts + [i], key) == Rows(inserts, key) + if i.key == key && i.added then 1 else 0
  {
    OneMore(inserts, inserts + [i], key);
  }

  lemma {:induction false} RowsWithinCalls(inserts: seq<Insert>, key: string)
    ensures Rows(inserts, key) <= Calls(inserts, key)
  {
    if inserts != [] {
      RowsWithinCalls(inserts[..|inserts| - 1], key);
      OneMore(inserts[..|inserts| - 1], inserts, key);
    }
  }

  // ---------------------------------------------------------------- what the indexes guarantee

  predicate Filled(t: Table, slot: Slot) {
    exists i :: 0 <= i < |t.inserts| && t.inserts[i].added && t.inserts[i].slot == slot
  }

  /** Every slot in use has one known origin, unless a webhook freed it in between. */
  ghost predicate Sound(t: Table) {
    && (forall i | 0 <= i < |t.inserts| :: t.inserts[i].slot in t.taken + t.freed)
    && t.claimed <= t.taken + t.freed
    && (forall slot | slot in t.taken :: slot in t.claimed || Filled(t, slot))
    && (forall i | 0 <= i < |t.inserts| && t.inserts[i].added && t.inserts[i].slot in t.claimed ::
          t.inserts[i].slot in t.freed)
    && (forall i, j | 0 <= i < j < |t.inserts| && t.inserts[i].added && t.inserts[j].added
          && t.inserts[i].slot == t.inserts[j].slot :: t.inserts[i].slot in t.freed)
  }

  lemma {:induction false} FilledGrows(t: Table, t': Table, slot: Slot)
    requires Filled(t, slot) && t.inserts <= t'.inserts
    ensures Filled(t', slot)
  {
    var i :| 0 <= i < |t.inserts| && t.inserts[i].added && t.inserts[i].slot == slot;
    assert t'.inserts[i] == t.inserts[i];
  }

  lemma {:induction false} InsertedSound(t: Table, key: string, terms: Terms, offer: Offer)
    requires Sound(t)
    ensures Sound(Inserted(t, key, terms, offer))
  {
    var t' := Inserted(t, key, terms, offer);
    var n := |t.inserts|;
    assert t'.inserts[n].slot == SlotOf(terms, offer.transactionId);
    forall slot | slot in t'.taken ensures slot in t'.claimed || Filled(t', slot) {
      if slot in t.taken {
        if slot !in t.claimed { FilledGrows(t, t', slot); }
      } else {
        assert t'.inserts[n].added && t'.inserts[n].slot == slot;
      }
    }
  }

  lemma {:induction false} ClaimedSound(t: Table, slot: Slot)
    requires Sound(t) && slot !in t.taken
    ensures Sound(Claimed(t, slot))
  {
    forall x | x in t.taken && x !in t.claimed ensures Filled(Claimed(t, slot), x) {
      FilledGrows(t, Claimed(t, slot), x);
    }
  }

  lemma {:induction false} SettledSound(t: Table, provider: string, quote: string, transaction: string)
    requires Sound(t) && Placeholder(provider, quote) in t.taken && Order(provider, transaction) !in t.taken
    ensures Sound(Settled(t, provider, quote, transaction))
  {
    var t' := Settled(t, provider, quote, transaction);
    forall x | x in t.taken && x !in t.claimed ensures Filled(t', x) {
      FilledGrows(t, t', x);
    }
  }

  // ---------------------------------------------------------------- rows are slots

  /** The slots that a quote's inserts asked for. */
  function CallSlots(t: Table, key: string): set<Slot> {
    set i | 0 <= i < |t.inserts| && t.inserts[i].key == key :: t.inserts[i].slot
  }

  function RowSlots(inserts: seq<Insert>, key: string): set<Slot> {
    set i | 0 <= i < |inserts| && inserts[i].key == key && inserts[i].added :: inserts[i].slot
  }

  /** The slots filled by anyone but this quote's calls. */
  function OtherSlots(t: Table, key: string): set<Slot> {
    t.claimed + set i | 0 <= i < |t.inserts| && t.inserts[i].key != key && t.inserts[i].added :: t.inserts[i].slot
  }

  lemma {:induction false} RowSlotsSnoc(inserts: seq<Insert>, key: string)
    requires inserts != []
    ensures var n := |inserts| - 1;
      RowSlots(inserts, key)
      == RowSlots(inserts[..n], key) + if inserts[n].key == key && inserts[n].added then {inserts[n].slot} else {}
  {
    var n := |inserts| - 1;
    forall i | 0 <= i < n && inserts[i].key == key && inserts[i].added
      ensures inserts[i].slot in RowSlots(inserts[..n], key)
    {
      assert inserts[..n][i] == inserts[i];
    }
  }

  lemma {:induction false} RowsSize(inserts: seq<Insert>, key: string)
    requires forall i, j | 0 <= i < j < |inserts| && inserts[i].key == key && inserts[j].key == key
               && inserts[i].added && inserts[j].added :: inserts[i].slot != inserts[j].slot
    ensures Rows(inserts, key) == |RowSlots(inserts, key)|
  {
    if inserts != [] {
      var n := |inserts| - 1;
      var last := inserts[n];
      RowsSize(inserts[..n], key);
      RowSlotsSnoc(inserts, key);
      OneMore(inserts[..n], inserts, key);
      if last.key == key && last.added {
        assert last.slot !in RowSlots(inserts[..n], key);
      }
    }
  }

  /** A quote's rows are, one each, the slots its calls asked for and nobody else had filled. */
  lemma {:induction false} RowsAreSlots(t: Table, key: string)
    requires Sound(t) && CallSlots(t, key) !! t.freed
    ensures RowSlots(t.inserts, key) == CallSlots(t, key) - OtherSlots(t, key)
    ensures Rows(t.inserts, key) == |CallSlots(t, key) - OtherSlots(t, key)|
  {
    forall slot | slot in RowSlots(t.inserts, key) ensures slot in CallSlots(t, key) && slot !in OtherSlots(t, key) {
      RowIsOwn(t, key, slot);
    }
    forall slot | slot in CallSlots(t, key) && slot !in OtherSlots(t, key) ensures slot in RowSlots(t.inserts, key) {
      OwnIsRow(t, key, slot);
    }
    DistinctRows(t, key);
    RowsSize(t.inserts, key);
  }

  lemma {:induction false} DistinctRows(t: Table, key: string)
    requires Sound(t) && CallSlots(t, key) !! t.freed
    ensures forall i, j | 0 <= i < j < |t.inserts| && t.inserts[i].key == key && t.inserts[j].key == key
              && t.inserts[i].added && t.inserts[j].added :: t.inserts[i].slot != t.inserts[j].slot
  {
    assert forall i | 0 <= i < |t.inserts| && t.inserts[i].key == key :: t.inserts[i].slot in CallSlots(t, key);
  }

  lemma {:induction false} RowIsOwn(t: Table, key: string, slot: Slot)
    requires Sound(t) && CallSlots(t, key) !! t.freed && slot in RowSlots(t.inserts, key)
    ensures slot in CallSlots(t, key) && slot !in OtherSlots(t, key)
  {
    var i :| 0 <= i < |t.inserts| && t.inserts[i].key == key && t.inserts[i].added && t.inserts[i].slot == slot;
    assert slot in CallSlots(t, key);
    forall j | 0 <= j < |t.inserts| && t.inserts[j].key != key && t.inserts[j].added
      ensures t.inserts[j].slot != slot
    {
      assert i < j || j < i;
    }
  }

  lemma {:induction false} OwnIsRow(t: Table, key: string, slot: Slot)
    requires Sound(t) && CallSlots(t, key) !! t.freed
    requires slot in CallSlots(t, key) && slot !in OtherSlots(t, key)
    ensures slot in RowSlots(t.inserts, key)
  {
    var i :| 0 <= i < |t.inserts| && t.inserts[i].key == key && t.inserts[i].slot == slot;
    assert slot in t.taken && slot !in t.claimed;
    var j :| 0 <= j < |t.inserts| && t.inserts[j].added && t.inserts[j].slot == slot;
    assert t.inserts[j].key == key;
  }

  lemma {:induction false} MoreThanOne<T>(s: set<T>)
    ensures |s| > 1 <==> exists a, b :: a in s && b in s && a != b
  {
    if |s| > 1 {
      var a :| a in s;
      assert |s - {a}| == |s| - 1;
      var b :| b in s - {a};
      assert a in s && b in s && a != b;
    }
    if a, b :| a in s && b in s && a != b {
      assert |s - {a}| == |s| - 1 && b in s - {a};
    }
  }
}
