/**
 The fiat client as objects over one shared store (core/crates/fiat/src/client.rs and
 core/crates/fiat/src/fiat_cacher_client.rs): rate limits, cached quotes and pending rows. Each
 method is proved to be a step of the quote machine in `FiatQuotes`, so its invariant holds for
 every sequence of calls.
 */
module FiatClient {
  import opened Common
  import opened Text
  import opened Store
  import opened CacheKeys
  import opened PendingRows
  import opened FiatQuotes
  import opened CountedCalls
  import Limiter = RateLimiting

  // ---------------------------------------------------------------- quotes among other keys

  predicate SameEntry(s: Entries<Quote>, s': Entries<Quote>, key: string) {
    (key in s' <==> key in s) && (key in s ==> s'[key] == s[key])
  }

  /** Every quote is as it was. */
  ghost predicate QuotesSame(s: Entries<Quote>, s': Entries<Quote>) {
    forall ctx, id | Lacks(id, ':') :: SameEntry(s, s', QuoteKey(ctx, id))
  }

  ghost predicate NotQuote(key: string) {
    forall ctx, id | Lacks(id, ':') :: key != QuoteKey(ctx, id)
  }

  ghost predicate OffQuotes(tr: Trace<Quote>) {
    forall i | 0 <= i < |tr| :: NotQuote(tr[i].cmd.key)
  }

  lemma {:induction false} ExecOffQuotes(s: Entries<Quote>, at: Time, cmd: Command<Quote>)
    requires NotQuote(cmd.key)
    ensures QuotesSame(s, Exec(s, at, cmd).0)
  {
    forall ctx, id | Lacks(id, ':') ensures SameEntry(s, Exec(s, at, cmd).0, QuoteKey(ctx, id)) {
      assert cmd.key != QuoteKey(ctx, id);
    }
  }

  lemma {:induction false} SameTransitive(a: Entries<Quote>, b: Entries<Quote>, c: Entries<Quote>)
    requires QuotesSame(a, b) && QuotesSame(b, c)
    ensures QuotesSame(a, c)
  {
    forall ctx, id | Lacks(id, ':') ensures SameEntry(a, c, QuoteKey(ctx, id)) {
      assert SameEntry(a, b, QuoteKey(ctx, id)) && SameEntry(b, c, QuoteKey(ctx, id));
    }
  }

  lemma {:induction false} PlayedOffQuotes(s: Entries<Quote>, tr: Trace<Quote>)
    requires OffQuotes(tr)
    ensures QuotesSame(s, Played(s, tr))
  {
    if tr != [] {
      var n := |tr| - 1;
      var before := Played(s, tr[..n]);
      PlayedOffQuotes(s, tr[..n]);
      ExecOffQuotes(before, tr[n].at, tr[n].cmd);
      SameTransitive(s, before, Played(s, tr));
    }
  }

  ghost predicate TurnsOff(turns: Turns<Quote>) {
    forall n | 0 <= n < |turns| :: OffQuotes(turns[n].others) && NotQuote(turns[n].cmd.key)
  }

  lemma {:induction false} RanOffQuotes(s: Entries<Quote>, turns: Turns<Quote>, n: nat)
    requires TurnsOff(turns) && n <= |turns|
    ensures QuotesSame(s, Ran(s, turns, n))
    decreases n, 0
  {
    if n > 0 {
      FoundOffQuotes(s, turns, n - 1);
      ExecOffQuotes(Found(s, turns, n - 1), turns[n - 1].at, turns[n - 1].cmd);
      SameTransitive(s, Found(s, turns, n - 1), Ran(s, turns, n));
    }
  }

  lemma {:induction false} FoundOffQuotes(s: Entries<Quote>, turns: Turns<Quote>, n: nat)
    requires TurnsOff(turns) && n < |turns|
    ensures QuotesSame(s, Found(s, turns, n))
    decreases n, 1
  {
    RanOffQuotes(s, turns, n);
    PlayedOffQuotes(Ran(s, turns, n), turns[n].others);
    SameTransitive(s, Ran(s, turns, n), Found(s, turns, n));
  }

  /** However a limiter call ends, it leaves every quote alone. */
  lemma {:induction false} ConsumedOffQuotes(
    s: Entries<Quote>, s': Entries<Quote>, turns: Turns<Quote>, r: Option<bool>)
    requires TurnsOff(turns) && Consumed(s, s', turns, r)
    ensures QuotesSame(s, s')
  {
    if r.Some? {
      RanOffQuotes(s, turns, |turns|);
    } else {
      var n: nat :| StoppedAt(s, s', turns, n);
      FoundOffQuotes(s, turns, n);
      RanOffQuotes(s, turns, n + 1);
    }
  }

  /** Other clients' steps: limiter calls, and commands on keys that are no quotes. */
  predicate NoQuotes(steps: Limiter.Steps<Quote>) {
    forall i | 0 <= i < |steps| && steps[i].Elsewhere? ::
      NoQuote(steps[i].owner) && steps[i].cmd.key == OwnedKey(steps[i].owner)
  }

  lemma {:induction false} OwnerOffQuotes(owner: Owner)
    requires NoQuote(owner)
    ensures NotQuote(OwnedKey(owner))
  {
    forall ctx, id | Lacks(id, ':') ensures OwnedKey(owner) != QuoteKey(ctx, id) {
      ElsewhereApart(owner, ctx, id);
    }
  }

  lemma {:induction false} StepsOffQuotes(steps: Limiter.Steps<Quote>)
    requires NoQuotes(steps)
    ensures OffQuotes(Limiter.TraceOf(steps))
  {
    var tr := Limiter.TraceOf(steps);
    forall i | 0 <= i < |tr| ensures NotQuote(tr[i].cmd.key) {
      match steps[i]
      case Bump(_, _, call, w) => OwnerOffQuotes(Enumerated(RateLimit(call.key, call.scope, w)));
      case Elsewhere(_, owner, _) => OwnerOffQuotes(owner);
    }
  }

  lemma {:induction false} VisitsOffQuotes(call: Limiter.Call, visits: Limiter.Visits<Quote>)
    requires |visits| == 4 && forall n | 0 <= n < 4 :: NoQuotes(visits[n].others)
    ensures TurnsOff(Limiter.TurnsOf(call, visits))
  {
    var turns := Limiter.TurnsOf(call, visits);
    forall n | 0 <= n < 4 ensures OffQuotes(turns[n].others) && NotQuote(turns[n].cmd.key) {
      StepsOffQuotes(visits[n].others);
      OwnerOffQuotes(Enumerated(RateLimit(call.key, call.scope, Limiter.WINDOWS[n])));
    }
  }

  /** The invariant at every quote key, and of the table. */
  ghost predicate QuotesInv(s: State) {
    Sound(s.table) && forall ctx, id | Lacks(id, ':') :: KeyInv(s, QuoteKey(ctx, id))
  }

  /** A store whose quotes are as they were is as good. */
  lemma {:induction false} OthersKeepQuotes(s: State, entries: Entries<Quote>)
    requires QuotesInv(s) && QuotesSame(s.entries, entries)
    ensures QuotesInv(s.(entries := entries))
  {
    forall ctx, id | Lacks(id, ':') ensures KeyInv(s.(entries := entries), QuoteKey(ctx, id)) {
      assert SameEntry(s.entries, entries, QuoteKey(ctx, id));
      SameAtKeeps(s, s.(entries := entries), QuoteKey(ctx, id));
    }
  }

  lemma {:induction false} StepKeepsQuotes(s: State, step: Step)
    requires QuotesInv(s) && Enabled(s, step)
    ensures QuotesInv(Next(s, step))
  {
    NextSound(s, step);
    forall ctx, id | Lacks(id, ':') ensures KeyInv(Next(s, step), QuoteKey(ctx, id)) {
      NextKeyInv(s, step, ctx, id);
    }
  }

  /** A counted request is a call of the quote machine and keeps its invariant. */
  lemma {:induction false} CallKeepsQuotes(start: State, counted: State, key: string, c: Call, within: bool, end: State)
    requires key == QuoteKey(c.context, c.quoteId)
    requires start.now <= c.readAt <= c.rereadAt <= c.writeAt
    requires QuotesInv(start) && QuotesSame(start.entries, counted.entries)
    requires counted == start.(entries := counted.entries)
    requires within ==> !c.context.viewOnly
    requires end == (if within then Serve(counted, key, c) else counted).(now := c.writeAt)
    ensures end == GetUrl(counted, c.(withinLimits := within)).(now := c.writeAt)
    ensures QuotesInv(counted) && QuotesInv(end)
  {
    OthersKeepQuotes(start, counted.entries);
    StepKeepsQuotes(counted, Ask(c.(withinLimits := within)));
  }

  /** What the machine's call adds to the answers is what the call is owed. */
  lemma {:induction false} CallAnswers(counted: State, key: string, c: Call, within: bool)
    requires key == QuoteKey(c.context, c.quoteId) && QuotesInv(counted) && (within ==> !c.context.viewOnly)
    ensures var call := c.(withinLimits := within);
      (if within then Serve(counted, key, c) else counted).answers
      == counted.answers + match Owed(counted, key, call) case Some(url) => [Record(key, url)] case None => []
  {
    if within {
      var ctx, id := SomePlainId(c.context, c.quoteId);
      assert KeyInv(counted, QuoteKey(ctx, id));
      ServeAnswers(counted, key, c.(withinLimits := within));
    }
  }

  /** The store after a batch of quotes is written one SET at a time. */
  function PublishedAll(s: State, at: Time, ctx: Context, quotes: seq<(string, Terms)>): State {
    if quotes == [] then s else
    var n := |quotes| - 1;
    Published(PublishedAll(s, at, ctx, quotes[..n]), at, QuoteKey(ctx, quotes[n].0), quotes[n].1).(now := at)
  }

  /** Fresh ids, as random UUIDs are taken to be. */
  predicate FreshIds(published: set<string>, ctx: Context, quotes: seq<(string, Terms)>) {
    && (forall i | 0 <= i < |quotes| :: Lacks(quotes[i].0, ':') && QuoteKey(ctx, quotes[i].0) !in published)
    && (forall i, j | 0 <= i < j < |quotes| :: quotes[i].0 != quotes[j].0)
  }

  lemma {:induction false} NotYetPublished(s: State, at: Time, ctx: Context, quotes: seq<(string, Terms)>, id: string)
    requires QuoteKey(ctx, id) !in s.published && Lacks(id, ':')
    requires forall i | 0 <= i < |quotes| :: Lacks(quotes[i].0, ':') && quotes[i].0 != id
    ensures QuoteKey(ctx, id) !in PublishedAll(s, at, ctx, quotes).published
    decreases |quotes|
  {
    if quotes != [] {
      var n := |quotes| - 1;
      NotYetPublished(s, at, ctx, quotes[..n], id);
      QuoteKeysApart(ctx, quotes[n].0, id);
    }
  }

  lemma {:induction false} PublishedAllKeeps(s: State, at: Time, ctx: Context, quotes: seq<(string, Terms)>)
    requires QuotesInv(s) && s.now <= at && FreshIds(s.published, ctx, quotes)
    ensures var s' := PublishedAll(s, at, ctx, quotes);
      QuotesInv(s') && s'.now <= at
    decreases |quotes|
  {
    if quotes != [] {
      var n := |quotes| - 1;
      PublishedAllKeeps(s, at, ctx, quotes[..n]);
      var mid := PublishedAll(s, at, ctx, quotes[..n]);
      NotYetPublished(s, at, ctx, quotes[..n], quotes[n].0);
      StepKeepsQuotes(mid, Publish(at, ctx, quotes[n].0, quotes[n].1));
    }
  }

  lemma {:induction false} QuoteKeysApart(ctx: Context, a: string, b: string)
    requires a != b && Lacks(a, ':') && Lacks(b, ':')
    ensures QuoteKey(ctx, a) != QuoteKey(ctx, b)
  {
    var ka := FiatQuote(ctx.deviceRow, ctx.walletRow, ctx.ip, a);
    var kb := FiatQuote(ctx.deviceRow, ctx.walletRow, ctx.ip, b);
    if Key(ka) == Key(kb) {
      KeyInjective(ka, kb);
    }
  }

  // ---------------------------------------------------------------- admission

  /** The limits that guard a quote-url request. */
  const DEVICE_LIMIT := FiatQuoteUrlRequestPerDeviceLimit
  const IP_LIMIT := FiatQuoteUrlRequestPerIpLimit

  /** Where a request stands after `consume_limits`; a failure is a missing limit or a count that never came. */
  datatype Verdict = Within | Exceeded | Failed

  function VerdictOf(first: bool, second: Option<bool>): Verdict {
    if second.None? then Failed else if first && second.value then Within else Exceeded
  }

  type Config = RateLimitKey -> Option<Limiter.Limits>

  function DeviceCall(ctx: Context, key: RateLimitKey, limits: Limiter.Limits): Limiter.Call {
    Limiter.Call(key, SignedDecimal(ctx.deviceRow), limits)
  }

  function IpCall(ctx: Context, key: RateLimitKey, limits: Limiter.Limits): Limiter.Call {
    Limiter.Call(key, ctx.ip, limits)
  }

  /** What happens at the device's four counters, then at the address's. */
  datatype Visits = Visits(device: Limiter.Visits<Quote>, ip: Limiter.Visits<Quote>)

  predicate FourEach(visits: Visits) {
    && |visits.device| == 4 && |visits.ip| == 4
    && (forall n | 0 <= n < 4 :: NoQuotes(visits.device[n].others) && NoQuotes(visits.ip[n].others))
  }

  /** The commands of each limit, none for a limit that is not configured. */
  function DeviceTurns(ctx: Context, key: RateLimitKey, config: Config, visits: Visits): Option<Turns<Quote>>
    requires FourEach(visits)
  {
    if config(key).None? then None else Some(Limiter.TurnsOf(DeviceCall(ctx, key, config(key).value), visits.device))
  }

  function IpTurns(ctx: Context, key: RateLimitKey, config: Config, visits: Visits): Option<Turns<Quote>>
    requires FourEach(visits)
  {
    if config(key).None? then None else Some(Limiter.TurnsOf(IpCall(ctx, key, config(key).value), visits.ip))
  }

  /** Both limits are configured, and all counters answered within them, the address's after the device's. */
  ghost predicate Admissible(s: Entries<Quote>, device: Option<Turns<Quote>>, ip: Option<Turns<Quote>>) {
    && device.Some? && ip.Some?
    && AllHeard(s, device.value) && AllWithin(s, device.value)
    && var mid := Ran(s, device.value, |device.value|);
       AllHeard(mid, ip.value) && AllWithin(mid, ip.value)
  }

  /** What a verdict says about the two limits and the store around the call. */
  ghost predicate Judged(
    s: Entries<Quote>, s': Entries<Quote>, device: Option<Turns<Quote>>, ip: Option<Turns<Quote>>, r: Verdict)
  {
    if device.None? then r.Failed? && s' == s else
    if !AllHeard(s, device.value) then r.Failed? && Consumed(s, s', device.value, None) else
    var mid := Ran(s, device.value, |device.value|);
    if ip.None? then r.Failed? && s' == mid else
    if !AllHeard(mid, ip.value) then r.Failed? && Consumed(mid, s', ip.value, None) else
    && s' == Ran(mid, ip.value, |ip.value|)
    && r == if AllWithin(s, device.value) && AllWithin(mid, ip.value) then Within else Exceeded
  }

  lemma {:induction false} JudgeFirst(
    s: Entries<Quote>, s': Entries<Quote>, device: Option<Turns<Quote>>, ip: Option<Turns<Quote>>, first: Option<bool>)
    requires device.Some? && Consumed(s, s', device.value, first) && (first.None? || ip.None?)
    ensures Judged(s, s', device, ip, Failed) && !Admissible(s, device, ip)
  {
  }

  lemma {:induction false} JudgeBoth(
    s: Entries<Quote>, mid: Entries<Quote>, s': Entries<Quote>, device: Option<Turns<Quote>>, ip: Option<Turns<Quote>>,
    first: bool, second: Option<bool>)
    requires device.Some? && ip.Some?
    requires Consumed(s, mid, device.value, Some(first)) && Consumed(mid, s', ip.value, second)
    ensures Judged(s, s', device, ip, VerdictOf(first, second))
    ensures VerdictOf(first, second).Within? <==> Admissible(s, device, ip)
  {
  }

  /**
   How a quote-url request is let in: a view-only wallet never and uncounted, any other exactly when
   it is admissible, after counting it.
   */
  ghost predicate Admission(
    s: Entries<Quote>, s': Entries<Quote>, ctx: Context, config: Config, visits: Visits, admitted: bool)
    requires FourEach(visits)
  {
    var device, ip := DeviceTurns(ctx, DEVICE_LIMIT, config, visits), IpTurns(ctx, IP_LIMIT, config, visits);
    && QuotesSame(s, s')
    && (ctx.viewOnly ==> s' == s)
    && (!ctx.viewOnly ==> exists r :: Judged(s, s', device, ip, r))
    && (admitted <==> !ctx.viewOnly && Admissible(s, device, ip))
  }

  class Client {
    const cacher: CacherClient<Quote>
    const limiter: Limiter.RateLimiter<Quote>
    var table: Table
    ghost var now: Time
    ghost var published: set<string>
    ghost var answers: seq<Record>
    ghost var storeFailures: seq<string>
    ghost var lapses: seq<string>

    constructor (cacher: CacherClient<Quote>, taken: set<Slot>)
      requires cacher.entries == map[]
      ensures this.cacher == cacher && limiter.cacher == cacher && table.taken == taken
      ensures Initial(View()) && Valid()
    {
      this.cacher := cacher;
      limiter := new Limiter.RateLimiter(cacher);
      table := Table(taken, [], taken, {});
      now, published, answers, storeFailures, lapses := 0, {}, [], [], [];
    }

    ghost function View(): State
      reads this, cacher
    {
      State(now, cacher.entries, published, table, answers, storeFailures, lapses)
    }

    ghost predicate Valid()
      reads this, cacher
    {
      limiter.cacher == cacher && QuotesInv(View())
    }

    /** One SET of the pipeline. */
    method StoreQuote(at: Time, key: string, terms: Terms)
      modifies cacher, this`published, this`now
      ensures View() == Published(old(View()), at, key, terms).(now := at)
    {
      var _ := cacher.Send(at, SetEx(key, Quote(terms, None), QUOTE_TTL));
      published := published + {key};
      now := at;
    }

    /** `set_quotes`: the batch is one pipeline of SETs, each under a fresh id. */
    method SetQuotes(at: Time, ctx: Context, quotes: seq<(string, Terms)>)
      requires Valid() && now <= at && FreshIds(published, ctx, quotes)
      modifies this, cacher
      ensures Valid()
      ensures View() == PublishedAll(old(View()), at, ctx, quotes)
    {
      ghost var start := View();
      for i := 0 to |quotes|
        invariant limiter.cacher == cacher
        invariant View() == PublishedAll(start, at, ctx, quotes[..i])
      {
        var (id, terms) := quotes[i];
        StoreQuote(at, QuoteKey(ctx, id), terms);
        assert quotes[..i + 1][..i] == quotes[..i];
      }
      assert quotes[..|quotes|] == quotes;
      PublishedAllKeeps(start, at, ctx, quotes);
    }

    /** One limiter call. */
    method Count(call: Limiter.Call, visits: Limiter.Visits<Quote>) returns (r: Option<bool>)
      requires limiter.cacher == cacher && |visits| == 4 && forall n | 0 <= n < 4 :: NoQuotes(visits[n].others)
      modifies cacher
      ensures Consumed(old(cacher.entries), cacher.entries, Limiter.TurnsOf(call, visits), r)
      ensures QuotesSame(old(cacher.entries), cacher.entries)
    {
      r := limiter.Consume(call, visits);
      VisitsOffQuotes(call, visits);
      ConsumedOffQuotes(old(cacher.entries), cacher.entries, Limiter.TurnsOf(call, visits), r);
    }

    /**
     `consume_limits`: a denied device limit does not spare the address limit, so both advance;
     only a missing limit or a count that never came stops early.
     */
    method ConsumeLimits(ctx: Context, deviceKey: RateLimitKey, ipKey: RateLimitKey, config: Config, visits: Visits)
      returns (r: Verdict)
      requires limiter.cacher == cacher && FourEach(visits)
      modifies cacher
      ensures QuotesSame(old(cacher.entries), cacher.entries)
      ensures Judged(old(cacher.entries), cacher.entries,
                     DeviceTurns(ctx, deviceKey, config, visits), IpTurns(ctx, ipKey, config, visits), r)
      ensures r.Within? <==>
        Admissible(old(cacher.entries),
                   DeviceTurns(ctx, deviceKey, config, visits), IpTurns(ctx, ipKey, config, visits))
    {
      ghost var start := cacher.entries;
      ghost var device, ip := DeviceTurns(ctx, deviceKey, config, visits), IpTurns(ctx, ipKey, config, visits);
      if config(deviceKey).None? {
        return Failed;
      }
      var first := Count(DeviceCall(ctx, deviceKey, config(deviceKey).value), visits.device);
      if first.None? || config(ipKey).None? {
        JudgeFirst(start, cacher.entries, device, ip, first);
        return Failed;
      }
      ghost var mid := cacher.entries;
      var second := Count(IpCall(ctx, ipKey, config(ipKey).value), visits.ip);
      SameTransitive(start, mid, cacher.entries);
      JudgeBoth(start, mid, cacher.entries, device, ip, first.value, second);
      r := VerdictOf(first.value, second);
    }

    /** `set_quote_url`; true when the url was written back. */
    method SetQuoteUrl(key: string, url: string, c: Call) returns (ok: bool)
      modifies cacher, this`storeFailures, this`lapses, this`answers
      ensures View() == WriteBack(old(View()), key, url, c)
      ensures ok <==> |answers| > |old(answers)|
    {
      if !c.rereadOk {
        storeFailures := storeFailures + [key];
        return false;
      }
      var reply := cacher.Send(c.rereadAt, Get(key));
      if !reply.Bulk? || !reply.value.Data? {
        lapses := lapses + [key];
        return false;
      }
      if !c.writeOk {
        storeFailures := storeFailures + [key];
        return false;
      }
      var _ := cacher.Send(c.writeAt, SetEx(key, reply.value.data.(url := Some(url)), QUOTE_TTL));
      answers := answers + [Record(key, url)];
      return true;
    }

    /** `create_quote_url`: the insert, which may find its slot taken, comes before the write-back. */
    method CreateQuoteUrl(key: string, terms: Terms, c: Call) returns (r: Option<string>)
      modifies cacher, this`table, this`storeFailures, this`lapses, this`answers
      ensures View() == CreateUrl(old(View()), key, terms, c)
      ensures r.Some? <==> |answers| > |old(answers)|
      ensures r.Some? ==> answers[|answers| - 1] == Record(key, r.value)
    {
      if c.offer.None? || !c.countryOk || !c.databaseOk {
        return None;
      }
      table := Inserted(table, key, terms, c.offer.value);
      var ok := SetQuoteUrl(key, c.offer.value.url, c);
      r := if ok then Some(c.offer.value.url) else None;
    }

    /** The part of `get_quote_url` after the limits. */
    method ServeQuote(key: string, c: Call) returns (r: Option<string>)
      modifies cacher, this`table, this`storeFailures, this`lapses, this`answers
      ensures View() == Serve(old(View()), key, c)
      ensures r.Some? <==> |answers| > |old(answers)|
      ensures r.Some? ==> answers[|answers| - 1] == Record(key, r.value)
    {
      if !c.readOk {
        return None;
      }
      var reply := cacher.Send(c.readAt, Get(key));
      if !reply.Bulk? || !reply.value.Data? {
        return None;
      }
      var quote := reply.value.data;
      if quote.url.Some? {
        answers := answers + [Record(key, quote.url.value)];
        return quote.url;
      }
      r := CreateQuoteUrl(key, quote.terms, c);
    }

    method ServeIf(admitted: bool, key: string, c: Call) returns (r: Option<string>)
      modifies cacher, this`table, this`storeFailures, this`lapses, this`answers
      ensures View() == if admitted then Serve(old(View()), key, c) else old(View())
      ensures r.Some? <==> |answers| > |old(answers)|
      ensures r.Some? ==> answers[|answers| - 1] == Record(key, r.value)
    {
      r := None;
      if admitted {
        r := ServeQuote(key, c);
      }
    }

    /** The checks that open `get_quote_url`: view-only wallets are refused before anything is counted. */
    method Admit(ctx: Context, config: Config, visits: Visits) returns (admitted: bool)
      requires limiter.cacher == cacher && FourEach(visits)
      modifies cacher
      ensures Admission(old(cacher.entries), cacher.entries, ctx, config, visits, admitted)
    {
      if ctx.viewOnly {
        return false;
      }
      var r := ConsumeLimits(ctx, DEVICE_LIMIT, IP_LIMIT, config, visits);
      admitted := r.Within?;
    }

    /**
     `get_quote_url`: counts the request, is admitted exactly when admissible, and then does exactly
     what the quote machine's call does. `Valid` carries the count of inserts, the state of the table
     and the single url through every sequence of calls.
     */
    method GetQuoteUrl(c: Call, config: Config, visits: Visits)
      returns (r: Option<string>, ghost counted: State, ghost within: bool)
      requires Valid() && FourEach(visits) && now <= c.readAt <= c.rereadAt <= c.writeAt
      modifies this, cacher
      ensures Valid()
      ensures counted == old(View()).(entries := counted.entries)
      ensures Admission(old(cacher.entries), counted.entries, c.context, config, visits, within)
      ensures View() == GetUrl(counted, c.(withinLimits := within)).(now := c.writeAt)
      ensures r == Owed(counted, QuoteKey(c.context, c.quoteId), c.(withinLimits := within))
      ensures answers == old(answers) + if r.Some? then [Record(QuoteKey(c.context, c.quoteId), r.value)] else []
    {
      ghost var start := View();
      var key := QuoteKey(c.context, c.quoteId);
      var admitted := Admit(c.context, config, visits);
      counted, within := View(), admitted;
      r := ServeIf(admitted, key, c);
      now := c.writeAt;
      CallKeepsQuotes(start, counted, key, c, within, View());
      CallAnswers(counted, key, c, within);
    }
  }
}
