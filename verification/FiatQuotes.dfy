/**
 The fiat quote lifecycle: quotes are cached under fresh ids, and a quote-url call inserts a pending
 transaction for a cached quote and writes its url back to the cache
 (core/crates/fiat/src/client.rs, core/crates/fiat/src/fiat_cacher_client.rs).

 Calls on one quote do not overlap; clients of other cache keys and other writers of the
 transaction table, webhooks among them, run freely in between. Time passes
 between a call's first read, its second read and its write-back, so the quote may expire inside.
 */
module FiatQuotes {
  import opened Common
  import opened Text
  import opened Store
  import opened CacheKeys
  import opened PendingRows

  /** A cached quote. Of the provider's answer only the redirect url is serialized into it. */
  datatype Quote = Quote(terms: Terms, url: Option<string>)

  datatype Context = Context(deviceRow: i32, walletRow: i32, ip: string, viewOnly: bool)

  /** A url handed to a caller, for one quote key. */
  datatype Record = Record(key: string, url: string)

  datatype State = State(
    now: Time,
    entries: Entries<Quote>,
    published: set<string>,
    table: Table,
    answers: seq<Record>,
    storeFailures: seq<string>,
    lapses: seq<string>)

  const QUOTE_TTL := 5 * MINUTE

  function QuoteKey(ctx: Context, id: string): string {
    Key(FiatQuote(ctx.deviceRow, ctx.walletRow, ctx.ip, id))
  }

  /** What the world answers during one quote-url call. */
  datatype Call = Call(
    context: Context,
    quoteId: string,
    readAt: Time,
    rereadAt: Time,
    writeAt: Time,
    withinLimits: bool,
    readOk: bool,
    offer: Option<Offer>,
    countryOk: bool,
    databaseOk: bool,
    rereadOk: bool,
    writeOk: bool)

  function Cached(s: Entries<Quote>, at: Time, key: string): Option<Quote> {
    match Lookup(s, at, key)
    case Some(Entry(Data(quote), _)) => Some(quote)
    case _ => None
  }

  /**
   `set_quote_url`: read the quote again, then write it back with its url and a new TTL. A failed
   command is logged as a store failure, a quote that expired in the meantime as a lapse.
   */
  function WriteBack(s: State, key: string, url: string, c: Call): State {
    if !c.rereadOk then s.(storeFailures := s.storeFailures + [key]) else
    match Cached(s.entries, c.rereadAt, key)
    case None => s.(lapses := s.lapses + [key])
    case Some(quote) =>
      if !c.writeOk then s.(storeFailures := s.storeFailures + [key])
      else s.(entries := Exec(s.entries, c.writeAt, SetEx(key, quote.(url := Some(url)), QUOTE_TTL)).0,
              answers := s.answers + [Record(key, url)])
  }

  /** `create_quote_url`: nothing is inserted until every lookup succeeded. */
  function CreateUrl(s: State, key: string, terms: Terms, c: Call): State {
    if c.offer.None? || !c.countryOk || !c.databaseOk then s
    else WriteBack(s.(table := Inserted(s.table, key, terms, c.offer.value)), key, c.offer.value.url, c)
  }

  /** `get_quote_url` once the request is admitted. */
  function Serve(s: State, key: string, c: Call): State {
    if !c.readOk then s else
    match Cached(s.entries, c.readAt, key)
    case None => s
    case Some(Quote(_, Some(url))) => s.(answers := s.answers + [Record(key, url)])
    case Some(Quote(terms, None)) => CreateUrl(s, key, terms, c)
  }

  /** `get_quote_url`: view-only wallets and requests over a limit get nothing. */
  function GetUrl(s: State, c: Call): State {
    if c.context.viewOnly || !c.withinLimits then s
    else Serve(s, QuoteKey(c.context, c.quoteId), c)
  }

  // ---------------------------------------------------------------- steps

  datatype Step =
    | Publish(at: Time, context: Context, quoteId: string, terms: Terms)
    | Ask(call: Call)
    | Claim(slot: Slot)
    | Settle(provider: string, quote: string, transaction: string)
    | Elsewhere(at: Time, owner: Owner, cmd: Command<Quote>)

  predicate NoQuote(owner: Owner) {
    OwnerOk(owner) && !(owner.Enumerated? && owner.key.FiatQuote?)
  }

  predicate Enabled(s: State, step: Step) {
    match step
    case Publish(at, ctx, id, _) => s.now <= at && Lacks(id, ':') && QuoteKey(ctx, id) !in s.published
    case Ask(c) => s.now <= c.readAt <= c.rereadAt <= c.writeAt
    case Claim(slot) => slot !in s.table.taken
    case Settle(provider, quote, transaction) =>
      Placeholder(provider, quote) in s.table.taken && Order(provider, transaction) !in s.table.taken
    case Elsewhere(at, owner, cmd) =>
      s.now <= at && NoQuote(owner) && cmd.key == OwnedKey(owner)
  }

  /** `set_quotes` writes quotes one SET EX each, under fresh ids and without a url. */
  function Published(s: State, at: Time, key: string, terms: Terms): State {
    s.(entries := Exec(s.entries, at, SetEx(key, Quote(terms, None), QUOTE_TTL)).0,
       published := s.published + {key})
  }

  function Next(s: State, step: Step): State
    requires Enabled(s, step)
  {
    match step
    case Publish(at, ctx, id, terms) => Published(s, at, QuoteKey(ctx, id), terms).(now := at)
    case Ask(c) => GetUrl(s, c).(now := c.writeAt)
    case Claim(slot) => s.(table := Claimed(s.table, slot))
    case Settle(provider, quote, transaction) => s.(table := Settled(s.table, provider, quote, transaction))
    case Elsewhere(at, _, cmd) => s.(entries := Exec(s.entries, at, cmd).0, now := at)
  }

  /** The table may hold rows from before. */
  predicate Initial(s: State) {
    && s.entries == map[] && s.published == {} && s.answers == []
    && s.table.inserts == [] && s.table.claimed == s.table.taken && s.table.freed == {}
    && s.storeFailures == [] && s.lapses == []
  }

  // ---------------------------------------------------------------- invariant, one key at a time

  function CountKeys(ks: seq<string>, key: string): nat {
    multiset(ks)[key]
  }

  predicate AllAnswers(rs: seq<Record>, key: string, url: string) {
    forall i | 0 <= i < |rs| && rs[i].key == key :: rs[i].url == url
  }

  /** An insert for this quote followed a provider's answer with this url. */
  predicate Offered(inserts: seq<Insert>, key: string, url: string) {
    exists i :: 0 <= i < |inserts| && inserts[i].key == key && inserts[i].offer.url == url
  }

  /** All inserts for this quote are for these terms. */
  predicate InsertsOf(inserts: seq<Insert>, key: string, terms: Terms) {
    forall i | 0 <= i < |inserts| && inserts[i].key == key ::
      inserts[i].slot == SlotOf(terms, inserts[i].offer.transactionId)
  }

  predicate NoAnswers(rs: seq<Record>, key: string) {
    forall i | 0 <= i < |rs| :: rs[i].key != key
  }

  /** The calls that inserted and then failed to write back, or found the quote lapsed. */
  function Abandoned(s: State, key: string): nat {
    CountKeys(s.storeFailures, key) + CountKeys(s.lapses, key)
  }

  /**
   A quote without a url has exactly the inserts of its abandoned calls, of which at most one
   lapsed, and then it is past its expiry; a quote with a url has one more insert, never lapsed, and
   its url is every answer, of which there is one, and came from one of its inserting calls.
   */
  ghost predicate KeyInv(s: State, key: string) {
    var calls := Calls(s.table.inserts, key);
    if key !in s.published then
      key !in s.entries && calls == 0 && Abandoned(s, key) == 0 && NoAnswers(s.answers, key)
      && (forall i | 0 <= i < |s.table.inserts| :: s.table.inserts[i].key != key)
    else
      && key in s.entries && s.entries[key].value.Data? && s.entries[key].expiry.Some?
      && InsertsOf(s.table.inserts, key, s.entries[key].value.data.terms)
      && match s.entries[key].value.data.url
         case None =>
           && NoAnswers(s.answers, key)
           && calls == Abandoned(s, key)
           && CountKeys(s.lapses, key) <= 1
           && (CountKeys(s.lapses, key) == 1 ==> s.entries[key].expiry.value <= s.now)
         case Some(url) =>
           && calls == Abandoned(s, key) + 1
           && CountKeys(s.lapses, key) == 0
           && AllAnswers(s.answers, key, url)
           && !NoAnswers(s.answers, key)
           && Offered(s.table.inserts, key, url)
  }

  lemma {:induction false} CountKeysAppend(ks: seq<string>, k: string, key: string)
    ensures CountKeys(ks + [k], key) == CountKeys(ks, key) + if k == key then 1 else 0
  {
  }

  /** A step's effect is confined to the key it works on. */
  predicate SameAt(s: State, s': State, key: string) {
    && (key in s'.entries <==> key in s.entries)
    && (key in s.entries ==> s'.entries[key] == s.entries[key])
    && (key in s'.published <==> key in s.published)
    && Calls(s'.table.inserts, key) == Calls(s.table.inserts, key)
    && CountKeys(s'.storeFailures, key) == CountKeys(s.storeFailures, key)
    && CountKeys(s'.lapses, key) == CountKeys(s.lapses, key)
    && s.table.inserts <= s'.table.inserts
    && (forall i | |s.table.inserts| <= i < |s'.table.inserts| :: s'.table.inserts[i].key != key)
    && s.answers <= s'.answers
    && (forall i | |s.answers| <= i < |s'.answers| :: s'.answers[i].key != key)
    && s.now <= s'.now
  }

  lemma {:induction false} SameAtKeeps(s: State, s': State, key: string)
    requires KeyInv(s, key) && SameAt(s, s', key)
    ensures KeyInv(s', key)
  {
  }

  lemma {:induction false} FailureElsewhere(s: State, own: string, key: string)
    requires key != own
    ensures SameAt(s, s.(storeFailures := s.storeFailures + [own]), key)
    ensures SameAt(s, s.(lapses := s.lapses + [own]), key)
  {
    CountKeysAppend(s.storeFailures, own, key);
    CountKeysAppend(s.lapses, own, key);
  }

  lemma {:induction false} AnswerElsewhere(s: State, own: string, url: string, e: Entry<Quote>, key: string)
    requires key != own
    ensures SameAt(s, s.(entries := s.entries[own := e], answers := s.answers + [Record(own, url)]), key)
  {
  }

  lemma {:induction false} WriteBackElsewhere(s: State, own: string, url: string, c: Call, key: string)
    requires key != own
    ensures SameAt(s, WriteBack(s, own, url, c), key)
  {
    var quote := Cached(s.entries, c.rereadAt, own);
    if !c.rereadOk || quote.None? || !c.writeOk {
      FailureElsewhere(s, own, key);
    } else {
      var saved := Entry(Data(quote.value.(url := Some(url))), Some(c.writeAt + QUOTE_TTL * SECOND));
      AnswerElsewhere(s, own, url, saved, key);
    }
  }

  lemma {:induction false} CreateUrlElsewhere(s: State, own: string, terms: Terms, c: Call, key: string)
    requires key != own
    ensures SameAt(s, CreateUrl(s, own, terms, c), key)
  {
    if c.offer.Some? {
      var table := Inserted(s.table, own, terms, c.offer.value);
      CallsAppend(s.table.inserts, table.inserts[|s.table.inserts|], key);
      WriteBackElsewhere(s.(table := table), own, c.offer.value.url, c, key);
    }
  }

  /** A call on one key leaves every other key alone. */
  lemma {:induction false} GetUrlElsewhere(s: State, c: Call, own: string, key: string)
    requires own == QuoteKey(c.context, c.quoteId) && key != own && s.now <= c.writeAt
    ensures SameAt(s, GetUrl(s, c).(now := c.writeAt), key)
  {
    ServeElsewhere(s, own, c, key);
  }

  lemma {:induction false} ServeElsewhere(s: State, own: string, c: Call, key: string)
    requires key != own && s.now <= c.writeAt
    ensures SameAt(s, Serve(s, own, c).(now := c.writeAt), key)
  {
    var quote := Cached(s.entries, c.readAt, own);
    if c.readOk && quote.Some? && quote.value.url.None? {
      CreateUrlElsewhere(s, own, quote.value.terms, c, key);
    }
  }

  /** The quote is cached without a url and its expiry lies ahead. */
  predicate Open(s: State, key: string) {
    && key in s.entries && s.entries[key].value.Data? && s.entries[key].value.data.url.None?
    && s.entries[key].expiry.Some? && s.now < s.entries[key].expiry.value
  }

  /** The effect of an insert on what is known of its own key. */
  lemma {:induction false} InsertedOwn(t: Table, key: string, terms: Terms, offer: Offer)
    requires InsertsOf(t.inserts, key, terms)
    ensures var t' := Inserted(t, key, terms, offer);
      && Calls(t'.inserts, key) == Calls(t.inserts, key) + 1
      && InsertsOf(t'.inserts, key, terms)
      && Offered(t'.inserts, key, offer.url)
  {
    var t' := Inserted(t, key, terms, offer);
    CallsAppend(t.inserts, t'.inserts[|t.inserts|], key);
    assert t'.inserts[|t.inserts|].key == key && t'.inserts[|t.inserts|].offer.url == offer.url;
  }

  function TermsAt(s: State, key: string): Terms
    requires Open(s, key)
  {
    s.entries[key].value.data.terms
  }

  lemma {:induction false} FirstAnswer(answers: seq<Record>, key: string, url: string)
    requires NoAnswers(answers, key)
    ensures AllAnswers(answers + [Record(key, url)], key, url) && !NoAnswers(answers + [Record(key, url)], key)
  {
    assert (answers + [Record(key, url)])[|answers|].key == key;
  }

  lemma {:induction false} FailureKeeps(s: State, key: string, offer: Offer, now: Time)
    requires KeyInv(s, key) && Open(s, key) && s.now <= now
    ensures KeyInv(s.(table := Inserted(s.table, key, TermsAt(s, key), offer),
                      storeFailures := s.storeFailures + [key], now := now), key)
  {
    InsertedOwn(s.table, key, TermsAt(s, key), offer);
    CountKeysAppend(s.storeFailures, key, key);
  }

  lemma {:induction false} LapseKeeps(s: State, key: string, offer: Offer, now: Time)
    requires KeyInv(s, key) && Open(s, key) && s.entries[key].expiry.value <= now
    ensures KeyInv(s.(table := Inserted(s.table, key, TermsAt(s, key), offer),
                      lapses := s.lapses + [key], now := now), key)
  {
    InsertedOwn(s.table, key, TermsAt(s, key), offer);
    CountKeysAppend(s.lapses, key, key);
  }

  lemma {:induction false} AnswerKeeps(s: State, key: string, offer: Offer, e: Entry<Quote>, now: Time)
    requires KeyInv(s, key) && Open(s, key)
    requires e.value.Data? && e.value.data == Quote(TermsAt(s, key), Some(offer.url)) && e.expiry.Some?
    ensures KeyInv(s.(table := Inserted(s.table, key, TermsAt(s, key), offer),
                      answers := s.answers + [Record(key, offer.url)], entries := s.entries[key := e], now := now), key)
  {
    assert key in s.published && s.entries[key := e][key] == e;
    InsertedOwn(s.table, key, TermsAt(s, key), offer);
    FirstAnswer(s.answers, key, offer.url);
  }

  lemma {:induction false} CreateUrlKeeps(s: State, key: string, c: Call)
    requires KeyInv(s, key) && Open(s, key) && s.now <= c.readAt <= c.rereadAt <= c.writeAt
    ensures KeyInv(CreateUrl(s, key, TermsAt(s, key), c).(now := c.writeAt), key)
  {
    if c.offer.None? || !c.countryOk || !c.databaseOk {
      return;
    }
    var offer := c.offer.value;
    var quote := Cached(s.entries, c.rereadAt, key);
    if !c.rereadOk || (quote.Some? && !c.writeOk) {
      FailureKeeps(s, key, offer, c.writeAt);
    } else if quote.None? {
      LapseKeeps(s, key, offer, c.writeAt);
    } else {
      var saved := Entry(Data(quote.value.(url := Some(offer.url))), Some(c.writeAt + QUOTE_TTL * SECOND));
      AnswerKeeps(s, key, offer, saved, c.writeAt);
      assert CreateUrl(s, key, TermsAt(s, key), c).(now := c.writeAt)
          == s.(table := Inserted(s.table, key, TermsAt(s, key), offer), entries := s.entries[key := saved],
                answers := s.answers + [Record(key, offer.url)], now := c.writeAt);
    }
  }

  /** Answering again from the cache. */
  lemma {:induction false} RepeatKeeps(s: State, key: string, url: string, now: Time)
    requires KeyInv(s, key) && key in s.entries && s.entries[key].value.Data? && s.now <= now
    requires s.entries[key].value.data.url == Some(url)
    ensures KeyInv(s.(answers := s.answers + [Record(key, url)], now := now), key)
  {
    var i :| 0 <= i < |s.answers| && s.answers[i].key == key;
    assert (s.answers + [Record(key, url)])[i].key == key;
  }

  lemma {:induction false} GetUrlOwn(s: State, c: Call, key: string)
    requires key == QuoteKey(c.context, c.quoteId)
    requires KeyInv(s, key) && s.now <= c.readAt <= c.rereadAt <= c.writeAt
    ensures KeyInv(GetUrl(s, c).(now := c.writeAt), key)
  {
    ServeKeeps(s, c, key);
    LaterKeeps(s, key, c.writeAt);
  }

  lemma {:induction false} LaterKeeps(s: State, key: string, now: Time)
    requires KeyInv(s, key) && s.now <= now
    ensures KeyInv(s.(now := now), key)
  {
  }

  lemma {:induction false} ServeKeeps(s: State, c: Call, key: string)
    requires KeyInv(s, key) && s.now <= c.readAt <= c.rereadAt <= c.writeAt
    ensures KeyInv(Serve(s, key, c).(now := c.writeAt), key)
  {
    var quote := Cached(s.entries, c.readAt, key);
    if !c.readOk || quote.None? {
      LaterKeeps(s, key, c.writeAt);
    } else if quote.value.url.Some? {
      RepeatKeeps(s, key, quote.value.url.value, c.writeAt);
    } else {
      CreateUrlKeeps(s, key, c);
    }
  }

  lemma {:induction false} PublishKeeps(s: State, at: Time, own: string, terms: Terms, key: string)
    requires KeyInv(s, key) && s.now <= at && own !in s.published
    ensures KeyInv(Published(s, at, own, terms).(now := at), key)
  {
  }

  /** Clients of other keys, token clients among them, never touch a quote. */
  lemma {:induction false} ElsewhereApart(owner: Owner, ctx: Context, id: string)
    requires NoQuote(owner) && Lacks(id, ':')
    ensures OwnedKey(owner) != QuoteKey(ctx, id)
  {
    var own := Enumerated(FiatQuote(ctx.deviceRow, ctx.walletRow, ctx.ip, id));
    if OwnedKey(owner) == OwnedKey(own) {
      OwnersApart(owner, own);
    }
  }

  lemma {:induction false} NextKeyInv(s: State, step: Step, ctx: Context, id: string)
    requires Lacks(id, ':') && KeyInv(s, QuoteKey(ctx, id)) && Enabled(s, step)
    ensures KeyInv(Next(s, step), QuoteKey(ctx, id))
  {
    var key := QuoteKey(ctx, id);
    match step
    case Publish(at, ctx', id', terms) => PublishKeeps(s, at, QuoteKey(ctx', id'), terms, key);
    case Ask(c) =>
      var own := QuoteKey(c.context, c.quoteId);
      if own == key {
        GetUrlOwn(s, c, key);
      } else {
        GetUrlElsewhere(s, c, own, key);
        SameAtKeeps(s, Next(s, step), key);
      }
    case Claim(_) => SameAtKeeps(s, Next(s, step), key);
    case Settle(_, _, _) => SameAtKeeps(s, Next(s, step), key);
    case Elsewhere(at, owner, cmd) =>
      ElsewhereApart(owner, ctx, id);
      SameAtKeeps(s, Next(s, step), key);
  }

  // ---------------------------------------------------------------- runs

  predicate Run(states: seq<State>, steps: seq<Step>) {
    && |states| == |steps| + 1
    && Initial(states[0])
    && forall i | 0 <= i < |steps| :: Enabled(states[i], steps[i]) && states[i + 1] == Next(states[i], steps[i])
  }

  lemma {:induction false} RunKeyInv(states: seq<State>, steps: seq<Step>, n: nat, ctx: Context, id: string)
    requires Run(states, steps) && n < |states| && Lacks(id, ':')
    ensures KeyInv(states[n], QuoteKey(ctx, id))
    decreases n
  {
    if n > 0 {
      RunKeyInv(states, steps, n - 1, ctx, id);
      NextKeyInv(states[n - 1], steps[n - 1], ctx, id);
    }
  }

  lemma {:induction false} NextSound(s: State, step: Step)
    requires Sound(s.table) && Enabled(s, step)
    ensures Sound(Next(s, step).table)
  {
    match step
    case Ask(c) =>
      var quote := Cached(s.entries, c.readAt, QuoteKey(c.context, c.quoteId));
      if quote.Some? && c.offer.Some? {
        InsertedSound(s.table, QuoteKey(c.context, c.quoteId), quote.value.terms, c.offer.value);
      }
    case Claim(slot) => ClaimedSound(s.table, slot);
    case Settle(provider, quote, transaction) => SettledSound(s.table, provider, quote, transaction);
    case _ =>
  }

  lemma {:induction false} RunSound(states: seq<State>, steps: seq<Step>, n: nat)
    requires Run(states, steps) && n < |states|
    ensures Sound(states[n].table)
    decreases n
  {
    if n > 0 {
      RunSound(states, steps, n - 1);
      NextSound(states[n - 1], steps[n - 1]);
    }
  }

  predicate Answered(s: State, key: string) {
    !NoAnswers(s.answers, key)
  }

  /**
   In every run a quote has exactly one insert for each call whose write-back the store failed, one
   if a call found the quote expired at its re-read, and one if it was ever answered; the last two
   exclude each other.
   */
  lemma {:induction false} InsertsExactly(states: seq<State>, steps: seq<Step>, n: nat, ctx: Context, id: string)
    requires Run(states, steps) && n < |states| && Lacks(id, ':')
    ensures var s, key := states[n], QuoteKey(ctx, id);
      && Calls(s.table.inserts, key)
         == CountKeys(s.storeFailures, key) + CountKeys(s.lapses, key) + (if Answered(s, key) then 1 else 0)
      && CountKeys(s.lapses, key) + (if Answered(s, key) then 1 else 0) <= 1
  {
    RunKeyInv(states, steps, n, ctx, id);
  }

  /** There is at most one row beyond the failed write-backs, whatever other writers do to the table. */
  lemma {:induction false} AtMostOneRow(states: seq<State>, steps: seq<Step>, n: nat, ctx: Context, id: string)
    requires Run(states, steps) && n < |states| && Lacks(id, ':')
    ensures Rows(states[n].table.inserts, QuoteKey(ctx, id))
         <= 1 + CountKeys(states[n].storeFailures, QuoteKey(ctx, id))
  {
    InsertsExactly(states, steps, n, ctx, id);
    RowsWithinCalls(states[n].table.inserts, QuoteKey(ctx, id));
  }

  /**
   As long as no webhook has freed a slot of the quote, its rows are, one each, the slots its
   inserts asked for and nobody else had filled.
   */
  lemma {:induction false} RowsExactly(states: seq<State>, steps: seq<Step>, n: nat, key: string)
    requires Run(states, steps) && n < |states| && CallSlots(states[n].table, key) !! states[n].table.freed
    ensures var t := states[n].table;
      && RowSlots(t.inserts, key) == CallSlots(t, key) - OtherSlots(t, key)
      && Rows(t.inserts, key) == |CallSlots(t, key) - OtherSlots(t, key)|
  {
    RunSound(states, steps, n);
    RowsAreSlots(states[n].table, key);
  }

  /** An insert for the quote into a slot that nobody else filled. */
  predicate OwnInsert(t: Table, key: string, i: nat) {
    i < |t.inserts| && t.inserts[i].key == key && t.inserts[i].slot !in OtherSlots(t, key)
  }

  /** Two inserts for the quote with different order ids, one absent included, in slots of its own. */
  ghost predicate TwoOrders(t: Table, key: string) {
    exists i: nat, j: nat ::
      && OwnInsert(t, key, i) && OwnInsert(t, key, j)
      && t.inserts[i].offer.transactionId != t.inserts[j].offer.transactionId
  }

  lemma {:induction false} TwoSlotsOfOrders(t: Table, key: string, terms: Terms)
    requires InsertsOf(t.inserts, key, terms) && TwoOrders(t, key)
    ensures |CallSlots(t, key) - OtherSlots(t, key)| > 1
  {
    var own := CallSlots(t, key) - OtherSlots(t, key);
    var i: nat, j: nat :| OwnInsert(t, key, i) && OwnInsert(t, key, j)
      && t.inserts[i].offer.transactionId != t.inserts[j].offer.transactionId;
    var a, b := t.inserts[i].slot, t.inserts[j].slot;
    assert a in own && b in own && a != b;
    MoreThanOne(own);
  }

  lemma {:induction false} TwoOrdersOfSlots(t: Table, key: string, terms: Terms)
    requires InsertsOf(t.inserts, key, terms) && |CallSlots(t, key) - OtherSlots(t, key)| > 1
    ensures TwoOrders(t, key)
  {
    var own := CallSlots(t, key) - OtherSlots(t, key);
    MoreThanOne(own);
    var a, b :| a in own && b in own && a != b;
    var i :| 0 <= i < |t.inserts| && t.inserts[i].key == key && t.inserts[i].slot == a;
    var j :| 0 <= j < |t.inserts| && t.inserts[j].key == key && t.inserts[j].slot == b;
    assert OwnInsert(t, key, i) && OwnInsert(t, key, j);
  }

  /**
   A quote gets more than one row exactly when two of its calls inserted with different order ids, in
   slots that were its own; and that takes an earlier failed write-back.
   */
  lemma {:induction false} SecondRowExactly(states: seq<State>, steps: seq<Step>, n: nat, ctx: Context, id: string)
    requires Run(states, steps) && n < |states| && Lacks(id, ':')
    requires CallSlots(states[n].table, QuoteKey(ctx, id)) !! states[n].table.freed
    ensures var s, key := states[n], QuoteKey(ctx, id);
      && (Rows(s.table.inserts, key) > 1 <==> TwoOrders(s.table, key))
      && (Rows(s.table.inserts, key) > 1 ==> CountKeys(s.storeFailures, key) >= 1)
  {
    var s, key := states[n], QuoteKey(ctx, id);
    RunKeyInv(states, steps, n, ctx, id);
    RowsExactly(states, steps, n, key);
    AtMostOneRow(states, steps, n, ctx, id);
    var terms := if key in s.published then s.entries[key].value.data.terms else Terms("", "", "");
    if TwoOrders(s.table, key) {
      TwoSlotsOfOrders(s.table, key, terms);
    }
    if Rows(s.table.inserts, key) > 1 {
      TwoOrdersOfSlots(s.table, key, terms);
    }
  }

  /**
   All successful calls on a quote return one url. It came from the provider's answer to one of its
   inserting calls, whose slot holds a row unless a webhook has moved it since.
   */
  lemma {:induction false} OneUrlPerQuote(
    states: seq<State>, steps: seq<Step>, n: nat, ctx: Context, id: string, i: nat, j: nat)
    requires Run(states, steps) && n < |states| && Lacks(id, ':')
    requires i < |states[n].answers| && j < |states[n].answers|
    requires states[n].answers[i].key == QuoteKey(ctx, id) && states[n].answers[j].key == QuoteKey(ctx, id)
    ensures states[n].answers[i].url == states[n].answers[j].url
    ensures var t := states[n].table;
      exists k | 0 <= k < |t.inserts| ::
        && t.inserts[k].key == QuoteKey(ctx, id) && t.inserts[k].offer.url == states[n].answers[i].url
        && t.inserts[k].slot in t.taken + t.freed
  {
    RunKeyInv(states, steps, n, ctx, id);
    RunSound(states, steps, n);
  }

  // ---------------------------------------------------------------- who is answered

  /** The first url handed out for a quote, if any. */
  function EarlierAnswer(answers: seq<Record>, key: string): Option<string> {
    FirstOf(answers, |answers|, key)
  }

  function FirstOf(answers: seq<Record>, n: nat, key: string): Option<string>
    requires n <= |answers|
  {
    if n == 0 then None
    else
      var before := FirstOf(answers, n - 1, key);
      if before.Some? then before else if answers[n - 1].key == key then Some(answers[n - 1].url) else None
  }

  lemma {:induction false} FirstOfFound(answers: seq<Record>, n: nat, key: string)
    requires n <= |answers|
    ensures FirstOf(answers, n, key).None? <==> forall i | 0 <= i < n :: answers[i].key != key
    ensures FirstOf(answers, n, key).Some? ==>
      exists i :: 0 <= i < n && answers[i] == Record(key, FirstOf(answers, n, key).value)
  {
    if n > 0 {
      FirstOfFound(answers, n - 1, key);
      if FirstOf(answers, n - 1, key).None? && answers[n - 1].key == key {
        assert answers[n - 1] == Record(key, answers[n - 1].url);
      }
    }
  }

  lemma {:induction false} EarlierIsAnAnswer(answers: seq<Record>, key: string)
    ensures EarlierAnswer(answers, key).None? <==> NoAnswers(answers, key)
    ensures EarlierAnswer(answers, key).Some? ==>
      exists i :: 0 <= i < |answers| && answers[i] == Record(key, EarlierAnswer(answers, key).value)
  {
    FirstOfFound(answers, |answers|, key);
  }

  /** The quote can be read at this time. */
  predicate LiveAt(s: State, key: string, at: Time) {
    Lookup(s.entries, at, key).Some?
  }

  /**
   The url a call is owed: nothing when it is not admitted or its read does not find the quote; the
   url handed out before, if there is one; otherwise the provider's, if every step up to the
   write-back works and the quote is still there at the re-read.
   */
  function Owed(s: State, key: string, c: Call): Option<string> {
    if c.context.viewOnly || !c.withinLimits || !c.readOk || !LiveAt(s, key, c.readAt) then None
    else if EarlierAnswer(s.answers, key).Some? then EarlierAnswer(s.answers, key)
    else if c.offer.Some? && c.countryOk && c.databaseOk && c.rereadOk && LiveAt(s, key, c.rereadAt) && c.writeOk then
      Some(c.offer.value.url)
    else None
  }

  lemma {:induction false} ServeAnswers(s: State, key: string, c: Call)
    requires KeyInv(s, key) && !c.context.viewOnly && c.withinLimits
    ensures Serve(s, key, c).answers
         == s.answers + match Owed(s, key, c) case Some(url) => [Record(key, url)] case None => []
  {
    EarlierIsAnAnswer(s.answers, key);
  }

  /** Every quote key, also one of an id with a colon, is the key of an id without. */
  lemma {:induction false} SomePlainId(ctx: Context, id: string) returns (ctx': Context, id': string)
    ensures Lacks(id', ':') && QuoteKey(ctx', id') == QuoteKey(ctx, id)
  {
    var k := FiatQuote(ctx.deviceRow, ctx.walletRow, ctx.ip, id);
    if WellFormed(k) {
      ctx', id' := ctx, id;
    } else {
      IllFormedCollides(k);
      ctx', id' := ctx.(ip := Borrowed(k).ip), Borrowed(k).quote;
    }
  }

  /** In every run a call is answered exactly with what it is owed, and nothing else is handed out. */
  lemma {:induction false} AnswersExactly(states: seq<State>, steps: seq<Step>, n: nat)
    requires Run(states, steps) && n < |steps|
    ensures steps[n].Ask? ==>
      var c := steps[n].call;
      var key := QuoteKey(c.context, c.quoteId);
      states[n + 1].answers
      == states[n].answers + match Owed(states[n], key, c) case Some(url) => [Record(key, url)] case None => []
    ensures !steps[n].Ask? ==> states[n + 1].answers == states[n].answers
  {
    if steps[n].Ask? {
      var c := steps[n].call;
      var key := QuoteKey(c.context, c.quoteId);
      if !c.context.viewOnly && c.withinLimits {
        var ctx, id := SomePlainId(c.context, c.quoteId);
        RunKeyInv(states, steps, n, ctx, id);
        ServeAnswers(states[n], key, c);
      }
    }
  }

  // ---------------------------------------------------------------- how long a quote lives

  /** A quote gets five minutes when it is published, and again when its first url is handed out. */
  function Renewed(s: State, step: Step, s': State, key: string, before: Option<Time>): Option<Time> {
    match step
    case Publish(at, ctx, id, _) => if QuoteKey(ctx, id) == key then Some(at + 300_000) else before
    case Ask(c) => if FirstAnswered(s, s', key) then Some(c.writeAt + 300_000) else before
    case _ => before
  }

  predicate FirstAnswered(s: State, s': State, key: string) {
    EarlierAnswer(s.answers, key).None? && EarlierAnswer(s'.answers, key).Some?
  }

  function Deadline(states: seq<State>, steps: seq<Step>, n: nat, key: string): Option<Time>
    requires n <= |steps| < |states|
  {
    if n == 0 then None
    else Renewed(states[n - 1], steps[n - 1], states[n], key, Deadline(states, steps, n - 1, key))
  }

  predicate Lasts(s: State, key: string, deadline: Option<Time>) {
    if key in s.entries then deadline.Some? && s.entries[key].expiry == deadline else deadline.None?
  }

  /** A cached quote has its url exactly when a url was handed out. */
  predicate UrlKnown(s: State, key: string) {
    key in s.entries ==>
      && s.entries[key].value.Data?
      && (s.entries[key].value.data.url.None? <==> EarlierAnswer(s.answers, key).None?)
  }

  lemma {:induction false} KeyInvUrl(s: State, key: string)
    requires KeyInv(s, key)
    ensures UrlKnown(s, key)
  {
    EarlierIsAnAnswer(s.answers, key);
  }

  lemma {:induction false} AnswerMore(answers: seq<Record>, all: seq<Record>, key: string, url: string)
    requires all == answers + [Record(key, url)]
    ensures EarlierAnswer(all, key).Some?
  {
    EarlierIsAnAnswer(all, key);
    assert all[|answers|].key == key;
  }

  lemma {:induction false} ServeLasts(s: State, key: string, c: Call, d: Option<Time>)
    requires UrlKnown(s, key) && Lasts(s, key, d)
    ensures var s' := Serve(s, key, c);
      Lasts(s', key, if FirstAnswered(s, s', key) then Some(c.writeAt + 300_000) else d)
  {
    var s' := Serve(s, key, c);
    if |s'.answers| > |s.answers| {
      AnswerMore(s.answers, s'.answers, key, s'.answers[|s.answers|].url);
    }
  }

  lemma {:induction false} SameAnswers(s: State, s': State, key: string)
    requires SameAt(s, s', key)
    ensures !FirstAnswered(s, s', key)
  {
    EarlierIsAnAnswer(s.answers, key);
    EarlierIsAnAnswer(s'.answers, key);
    forall i | 0 <= i < |s'.answers| && NoAnswers(s.answers, key) ensures s'.answers[i].key != key {
      assert i < |s.answers| ==> s'.answers[i] == s.answers[i];
    }
  }

  lemma {:induction false} AskLasts(s: State, c: Call, own: string, key: string, d: Option<Time>)
    requires UrlKnown(s, key) && Lasts(s, key, d) && s.now <= c.writeAt && own == QuoteKey(c.context, c.quoteId)
    ensures var s' := GetUrl(s, c).(now := c.writeAt);
      Lasts(s', key, if FirstAnswered(s, s', key) then Some(c.writeAt + 300_000) else d)
  {
    if own == key {
      ServeLasts(s, key, c, d);
    } else {
      GetUrlElsewhere(s, c, own, key);
      SameAnswers(s, GetUrl(s, c).(now := c.writeAt), key);
    }
  }

  lemma {:induction false} PublishLasts(
    s: State, at: Time, own: string, terms: Terms, key: string, d: Option<Time>)
    requires Lasts(s, key, d)
    ensures Lasts(Published(s, at, own, terms), key, if own == key then Some(at + 300_000) else d)
  {
  }

  lemma {:induction false} OtherStepsLast(s: State, step: Step, key: string, d: Option<Time>)
    requires Lasts(s, key, d) && Enabled(s, step) && !step.Ask? && (step.Elsewhere? ==> step.cmd.key != key)
    ensures Lasts(Next(s, step), key, Renewed(s, step, Next(s, step), key, d))
  {
    if step.Publish? {
      PublishLasts(s, step.at, QuoteKey(step.context, step.quoteId), step.terms, key, d);
    }
  }

  lemma {:induction false} AskStepLasts(s: State, c: Call, key: string, d: Option<Time>)
    requires UrlKnown(s, key) && Lasts(s, key, d) && Enabled(s, Ask(c))
    ensures Lasts(Next(s, Ask(c)), key, Renewed(s, Ask(c), Next(s, Ask(c)), key, d))
  {
    AskLasts(s, c, QuoteKey(c.context, c.quoteId), key, d);
  }

  lemma {:induction false} RunLasts(states: seq<State>, steps: seq<Step>, n: nat, ctx: Context, id: string)
    requires Run(states, steps) && n < |states| && Lacks(id, ':')
    ensures Lasts(states[n], QuoteKey(ctx, id), Deadline(states, steps, n, QuoteKey(ctx, id)))
    decreases n
  {
    if n > 0 {
      var s, step, key := states[n - 1], steps[n - 1], QuoteKey(ctx, id);
      RunLasts(states, steps, n - 1, ctx, id);
      if step.Ask? {
        RunKeyInv(states, steps, n - 1, ctx, id);
        KeyInvUrl(s, key);
        AskStepLasts(s, step.call, key, Deadline(states, steps, n - 1, key));
      } else {
        if step.Elsewhere? {
          ElsewhereApart(step.owner, ctx, id);
        }
        OtherStepsLast(s, step, key, Deadline(states, steps, n - 1, key));
      }
    }
  }

  /** In every run a quote can be read at a time exactly when it got its latest five minutes later than that ago. */
  lemma {:induction false} LivesExactly(
    states: seq<State>, steps: seq<Step>, n: nat, ctx: Context, id: string, at: Time)
    requires Run(states, steps) && n < |states|
    ensures var deadline := Deadline(states, steps, n, QuoteKey(ctx, id));
      LiveAt(states[n], QuoteKey(ctx, id), at) <==> deadline.Some? && at < deadline.value
  {
    var ctx', id' := SomePlainId(ctx, id);
    RunLasts(states, steps, n, ctx', id');
  }

  /** A call that passes every check up to its write-back, on a quote cached at that time. */
  predicate Reaches(c: Call, ctx: Context, id: string, published: Time) {
    && c.context == ctx && c.quoteId == id && !ctx.viewOnly
    && c.withinLimits && c.readOk && c.offer.Some? && c.countryOk && c.databaseOk
    && published <= c.readAt <= c.rereadAt <= c.writeAt < published + QUOTE_TTL * SECOND
  }

  lemma {:induction false} InsertingCall(s: State, c: Call, key: string, terms: Terms, expiry: Time)
    requires key in s.entries && s.entries[key] == Entry(Data(Quote(terms, None)), Some(expiry)) && c.writeAt < expiry
    requires c.readAt <= c.rereadAt <= c.writeAt && c.readOk && c.offer.Some? && c.countryOk && c.databaseOk
    ensures Serve(s, key, c).table == Inserted(s.table, key, terms, c.offer.value)
    ensures c.rereadOk && !c.writeOk ==> Serve(s, key, c).entries == s.entries
  {
  }

  lemma {:induction false} TwoInserts(t: Table, key: string, terms: Terms, a: Offer, b: Offer)
    requires t.inserts == []
    requires SlotOf(terms, a.transactionId) !in t.taken && SlotOf(terms, b.transactionId) !in t.taken
    ensures var t' := Inserted(Inserted(t, key, terms, a), key, terms, b);
      Rows(t'.inserts, key) == if a.transactionId == b.transactionId then 1 else 2
  {
    var t1 := Inserted(t, key, terms, a);
    var t2 := Inserted(t1, key, terms, b);
    CallsAppend([], t1.inserts[0], key);
    assert t1.inserts == [] + [t1.inserts[0]];
    CallsAppend(t1.inserts, t2.inserts[1], key);
  }

  /**
   The exception is reachable: from any initial state with free slots, a published quote whose first
   call fails to write back has, after a second call within its five minutes, two rows if the
   provider named two different orders, or an order only once, and one row otherwise.
   */
  lemma {:induction false} FailedWriteBackRepeats(
    start: State, at: Time, terms: Terms, c: Call, d: Call)
    returns (states: seq<State>)
    requires Initial(start) && start.now <= at && Lacks(c.quoteId, ':')
    requires Reaches(c, c.context, c.quoteId, at) && Reaches(d, c.context, c.quoteId, at) && c.writeAt <= d.readAt
    requires c.rereadOk && !c.writeOk
    requires SlotOf(terms, c.offer.value.transactionId) !in start.table.taken
    requires SlotOf(terms, d.offer.value.transactionId) !in start.table.taken
    ensures Run(states, [Publish(at, c.context, c.quoteId, terms), Ask(c), Ask(d)]) && states[0] == start
    ensures Rows(states[3].table.inserts, QuoteKey(c.context, c.quoteId))
         == if c.offer.value.transactionId == d.offer.value.transactionId then 1 else 2
  {
    var key := QuoteKey(c.context, c.quoteId);
    var s1 := Next(start, Publish(at, c.context, c.quoteId, terms));
    InsertingCall(s1, c, key, terms, at + QUOTE_TTL * SECOND);
    var s2 := Next(s1, Ask(c));
    InsertingCall(s2, d, key, terms, at + QUOTE_TTL * SECOND);
    states := [start, s1, s2, Next(s2, Ask(d))];
    TwoInserts(start.table, key, terms, c.offer.value, d.offer.value);
  }

  lemma {:induction false} RefilledSlot(t: Table, key: string, terms: Terms, a: Offer, b: Offer, order: string)
    requires t.inserts == [] && a.transactionId.None? && b.transactionId.None?
    requires SlotOf(terms, None) !in t.taken
    ensures var t' := Settled(Inserted(t, key, terms, a), terms.provider, terms.quote, order);
      Rows(Inserted(t', key, terms, b).inserts, key) == 2
  {
    var t1 := Inserted(t, key, terms, a);
    var t2 := Inserted(Settled(t1, terms.provider, terms.quote, order), key, terms, b);
    CallsAppend([], t1.inserts[0], key);
    assert t1.inserts == [] + [t1.inserts[0]];
    CallsAppend(t1.inserts, t2.inserts[1], key);
  }

  /**
   A webhook between the two calls that names the order of the placeholder row makes room for a
   second one: the freed slot is why `RowsExactly` looks at freed slots.
   */
  lemma {:induction false} SettledSlotRefills(start: State, at: Time, terms: Terms, c: Call, d: Call, order: string)
    returns (states: seq<State>)
    requires Initial(start) && start.now <= at && Lacks(c.quoteId, ':')
    requires Reaches(c, c.context, c.quoteId, at) && Reaches(d, c.context, c.quoteId, at) && c.writeAt <= d.readAt
    requires c.rereadOk && !c.writeOk && c.offer.value.transactionId.None? && d.offer.value.transactionId.None?
    requires SlotOf(terms, None) !in start.table.taken && Order(terms.provider, order) !in start.table.taken
    ensures Run(states, [Publish(at, c.context, c.quoteId, terms), Ask(c),
                         Settle(terms.provider, terms.quote, order), Ask(d)]) && states[0] == start
    ensures Rows(states[4].table.inserts, QuoteKey(c.context, c.quoteId)) == 2
  {
    var key := QuoteKey(c.context, c.quoteId);
    var s1 := Next(start, Publish(at, c.context, c.quoteId, terms));
    InsertingCall(s1, c, key, terms, at + QUOTE_TTL * SECOND);
    var s2 := Next(s1, Ask(c));
    var s3 := Next(s2, Settle(terms.provider, terms.quote, order));
    InsertingCall(s3, d, key, terms, at + QUOTE_TTL * SECOND);
    states := [start, s1, s2, s3, Next(s3, Ask(d))];
    RefilledSlot(start.table, key, terms, c.offer.value, d.offer.value, order);
  }

  /**
   What can happen next: any call at any later time, whatever its quote and whichever of its commands
   fail; a fresh quote id is published once; rows come and go as the unique indexes allow.
   */
  lemma {:induction false} CanMove(
    s: State, c: Call, at: Time, ctx: Context, id: string, terms: Terms, slot: Slot, transaction: string,
    owner: Owner, cmd: Command<Quote>)
    ensures Enabled(s, Ask(c)) <==> s.now <= c.readAt && c.readAt <= c.rereadAt && c.rereadAt <= c.writeAt
    ensures Enabled(s, Publish(at, ctx, id, terms)) <==>
      s.now <= at && (forall i | 0 <= i < |id| :: id[i] != ':') && QuoteKey(ctx, id) !in s.published
    ensures Enabled(s, Claim(slot)) <==> slot !in s.table.taken
    ensures Enabled(s, Settle(terms.provider, terms.quote, transaction)) <==>
      SlotOf(terms, None) in s.table.taken && SlotOf(terms, Some(transaction)) !in s.table.taken
    ensures Enabled(s, Elsewhere(at, owner, cmd)) <==>
      && s.now <= at && OwnerOk(owner) && cmd.key == OwnedKey(owner)
      && (owner.Enumerated? ==> !owner.key.FiatQuote?)
  {
  }

  /** Other clients write to and delete from the same store. */
  lemma {:induction false} OthersShareStore(s: State, at: Time, owner: Owner, data: Quote, ttl: nat)
    requires s.now <= at && NoQuote(owner) && ttl > 0
    ensures var s' := Next(s, Elsewhere(at, owner, SetEx(OwnedKey(owner), data, ttl)));
      s' == s.(now := at, entries := s.entries[OwnedKey(owner) := Entry(Data(data), Some(at + ttl * 1000))])
    ensures var s' := Next(s, Elsewhere(at, owner, Del(OwnedKey(owner))));
      s' == s.(now := at, entries := s.entries - {OwnedKey(owner)})
  {
  }
}
