/**
 Upstream ordering and the retry loop of the dynode proxy (core/apps/dynode/src/node_service.rs).

 The upstreams are an oracle that answers each attempt; the request id enters through its hash.
 Response matching and JSON parsing are parameters.
 */
module NodeFailover {
  import opened Common
  import opened Text

  type Url = string
  type Json = string

  // ---------------------------------------------------------------- ordering

  function Swapped(urls: seq<Url>, i: nat): seq<Url>
    requires i < |urls|
  {
    urls[0 := urls[i]][i := urls[0]]
  }

  /** The first element stays, the rest turn left by `k`. */
  function TailRotated(urls: seq<Url>, k: nat): seq<Url>
    requires k == 0 || k < |urls|
  {
    if k == 0 then urls else urls[..1] + urls[1 + k..] + urls[1..1 + k]
  }

  function Offset(urls: seq<Url>, hash: nat): (k: nat)
    ensures k == 0 || k < |urls|
  {
    if |urls| <= 2 then 0 else hash % (|urls| - 1)
  }

  /** Where the current node's url first stands, or the length. */
  function Position(urls: seq<Url>, current: Url): nat {
    FirstIndex(urls, current, 0)
  }

  function ToFront(urls: seq<Url>, current: Url): seq<Url> {
    var i := Position(urls, current);
    if i < |urls| then Swapped(urls, i) else urls
  }

  /** The current node swapped to the front, then the others rotated. */
  function Ordered(urls: seq<Url>, current: Url, hash: nat): seq<Url> {
    TailRotated(ToFront(urls, current), Offset(urls, hash))
  }

  lemma {:induction false} SwapPermutes(urls: seq<Url>, i: nat)
    requires i < |urls|
    ensures multiset(Swapped(urls, i)) == multiset(urls)
  {
  }

  lemma {:induction false} RotationPermutes(urls: seq<Url>, k: nat)
    requires k == 0 || k < |urls|
    ensures multiset(TailRotated(urls, k)) == multiset(urls)
  {
    assert k > 0 ==> urls == urls[..1] + urls[1..1 + k] + urls[1 + k..];
  }

  /** Every configured url keeps its place in line exactly once. */
  lemma {:induction false} OrderedPermutes(urls: seq<Url>, current: Url, hash: nat)
    ensures multiset(Ordered(urls, current, hash)) == multiset(urls)
    ensures |Ordered(urls, current, hash)| == |urls|
  {
    if Position(urls, current) < |urls| {
      SwapPermutes(urls, Position(urls, current));
    }
    RotationPermutes(ToFront(urls, current), Offset(urls, hash));
  }

  /** The current node leads whenever it is configured. */
  lemma {:induction false} CurrentLeads(urls: seq<Url>, current: Url, hash: nat)
    requires current in urls
    ensures Ordered(urls, current, hash)[0] == current
  {
  }

  /** Every fallback is next in line for some request, so the rotation spreads load. */
  lemma {:induction false} EveryFallbackCanLead(urls: seq<Url>, current: Url, j: nat)
    requires |urls| > 2 && 1 <= j < |urls|
    ensures Ordered(urls, current, j - 1)[1] == ToFront(urls, current)[j]
  {
    assert Offset(urls, j - 1) == j - 1;
  }

  lemma {:induction false} TailRotatedAt(urls: seq<Url>, k: nat, i: nat)
    requires 0 < k < |urls| && 1 <= i < |urls|
    ensures |TailRotated(urls, k)| == |urls| && TailRotated(urls, k)[0] == urls[0]
    ensures TailRotated(urls, k)[i] == if i + k < |urls| then urls[i + k] else urls[i + k + 1 - |urls|]
  {
  }

  /** `rotate_left` on everything but the first slot, in place. */
  method RotateFallbackUrls(a: array<Url>, hash: nat)
    modifies a
    ensures a[..] == TailRotated(old(a[..]), Offset(old(a[..]), hash))
  {
    var before := a[..];
    if a.Length <= 2 {
      return;
    }
    var n := a.Length - 1;
    var k := hash % n;
    if k > 0 {
      ghost var target := TailRotated(before, k);
      for i := 1 to a.Length
        invariant |target| == a.Length && target[0] == before[0]
        invariant forall j | 0 <= j < i :: a[j] == target[j]
      {
        TailRotatedAt(before, k, i);
        a[i] := if i + k <= n then before[i + k] else before[i + k - n];
      }
      assert a[..] == target;
    }
  }

  method FindUrl(urls: seq<Url>, current: Url) returns (i: nat)
    ensures i == Position(urls, current)
  {
    i := 0;
    while i < |urls| && urls[i] != current
      invariant i <= |urls|
      invariant FirstIndex(urls, current, i) == Position(urls, current)
    {
      i := i + 1;
    }
  }

  method SwapWithFirst(a: array<Url>, i: nat)
    requires i < a.Length
    modifies a
    ensures a[..] == Swapped(old(a[..]), i)
  {
    a[0], a[i] := a[i], a[0];
  }

  method BringToFront(a: array<Url>, current: Url)
    modifies a
    ensures a[..] == ToFront(old(a[..]), current)
  {
    var i := FindUrl(a[..], current);
    if i < a.Length {
      SwapWithFirst(a, i);
    }
  }

  /** `get_ordered_urls`. */
  method GetOrderedUrls(urls: seq<Url>, current: Url, hash: nat) returns (ordered: seq<Url>)
    ensures ordered == Ordered(urls, current, hash)
  {
    var a := new Url[|urls|](i requires 0 <= i < |urls| => urls[i]);
    assert a[..] == urls;
    BringToFront(a, current);
    RotateFallbackUrls(a, hash);
    ordered := a[..];
  }

  // ---------------------------------------------------------------- one request

  datatype Response = Response(status: nat, body: seq<byte>, fromCache: bool)

  /** What one attempt brings back. */
  datatype Attempt = Answer(response: Response) | Broken(error: string)

  datatype ServiceError =
    | ChainNotConfigured
    | RequestNotAllowed
    | NodeNotFound
    | UpstreamStatus(status: nat)
    | UpstreamsFailed

  datatype Outcome =
    | Proxied(response: Response)
    | Refused(reason: ServiceError, data: Option<Json>)
    | Raised(error: string)

  type Upstream = (Url, nat) -> Attempt
  type Matcher = Response -> bool
  type Parser = seq<byte> -> Option<Json>

  datatype RetryConfig = RetryConfig(enabled: bool, maxAttempts: nat)

  /** `effective_max_attempts`, or one when retries are off. */
  function AttemptLimit(config: RetryConfig, urls: nat): (n: nat)
    ensures urls >= 1 ==> 1 <= n <= urls
  {
    if !config.enabled then 1
    else if config.maxAttempts == 0 then urls
    else Min(config.maxAttempts, urls)
  }

  /** The attempt is an error or a response that signals one. */
  predicate Rejected(a: Attempt, matches: Matcher) {
    a.Broken? || matches(a.response)
  }

  /** The parsed body of the latest response among the first `n` attempts. */
  function LatestData(urls: seq<Url>, upstream: Upstream, parse: Parser, n: nat): Option<Json>
    requires n <= |urls|
  {
    if n == 0 then None
    else match upstream(urls[n - 1], n - 1)
      case Answer(response) => parse(response.body)
      case Broken(_) => LatestData(urls, upstream, parse, n - 1)
  }

  /** Everything observable about one forwarded request. */
  datatype Trail = Trail(outcome: Outcome, tried: seq<Url>, retried: seq<Url>, reports: seq<(Url, bool)>)

  /**
   The attempts made are a prefix of the line and stop at the first that is not rejected, or at the
   limit. The answer is that attempt's response or an error carrying the latest rejected body; each
   attempt before the last counts one retry; the monitor hears about the first upstream only, and
   not when a cache answered for it.
   */
  predicate Explains(
    t: Trail, urls: seq<Url>, upstream: Upstream, matches: Matcher, parse: Parser, config: RetryConfig)
    requires |urls| >= 2
  {
    var n := |t.tried|;
    && 1 <= n <= AttemptLimit(config, |urls|)
    && t.tried == urls[..n]
    && (forall i | 0 <= i < n - 1 :: Rejected(upstream(urls[i], i), matches))
    && (t.outcome.Proxied? <==> !Rejected(upstream(urls[n - 1], n - 1), matches))
    && (t.outcome.Proxied? ==> upstream(urls[n - 1], n - 1) == Answer(t.outcome.response))
    && (!t.outcome.Proxied? && config.enabled ==>
          && n == AttemptLimit(config, |urls|)
          && t.outcome == Refused(UpstreamsFailed, LatestData(urls, upstream, parse, n)))
    && (!t.outcome.Proxied? && !config.enabled ==>
          t.outcome == match upstream(urls[0], 0)
                       case Answer(response) => Refused(UpstreamStatus(response.status), parse(response.body))
                       case Broken(error) => Raised(error))
    && t.retried == (if config.enabled then urls[..n - 1] else [])
    && t.reports == match upstream(urls[0], 0)
                    case Answer(response) => if response.fromCache then [] else [(urls[0], matches(response))]
                    case Broken(_) => [(urls[0], true)]
  }

  /** That description leaves no freedom: the upstreams' answers decide everything observable. */
  lemma {:induction false} ExplanationUnique(
    t: Trail, t': Trail, urls: seq<Url>, upstream: Upstream, matches: Matcher, parse: Parser, config: RetryConfig)
    requires |urls| >= 2
    requires Explains(t, urls, upstream, matches, parse, config)
    requires Explains(t', urls, upstream, matches, parse, config)
    ensures t == t'
  {
    NotLonger(t, t', urls, upstream, matches, parse, config);
    NotLonger(t', t, urls, upstream, matches, parse, config);
  }

  lemma {:induction false} NotLonger(
    t: Trail, t': Trail, urls: seq<Url>, upstream: Upstream, matches: Matcher, parse: Parser, config: RetryConfig)
    requires |urls| >= 2
    requires Explains(t, urls, upstream, matches, parse, config)
    requires Explains(t', urls, upstream, matches, parse, config)
    ensures |t.tried| <= |t'.tried|
  {
    var last := |t'.tried| - 1;
    if Rejected(upstream(urls[last], last), matches) {
      assert |t'.tried| == AttemptLimit(config, |urls|);
    } else {
      assert last >= |t.tried| - 1;
    }
  }

  /** The retry loop over at least two upstreams. */
  method ForwardWithRetry(urls: seq<Url>, upstream: Upstream, matches: Matcher, parse: Parser, config: RetryConfig)
    returns (r: Outcome, tried: seq<Url>, retried: seq<Url>, reports: seq<(Url, bool)>)
    requires |urls| >= 2
    ensures Explains(Trail(r, tried, retried, reports), urls, upstream, matches, parse, config)
  {
    var limit := AttemptLimit(config, |urls|);
    var lastData: Option<Json> := None;
    tried, retried, reports := [], [], [];
    for index := 0 to limit
      invariant tried == urls[..index]
      invariant index > 0 ==> config.enabled
      invariant forall i | 0 <= i < index :: Rejected(upstream(urls[i], i), matches)
      invariant lastData == LatestData(urls, upstream, parse, index)
      invariant retried == urls[..Min(index, limit - 1)]
      invariant reports ==
        if index == 0 then []
        else match upstream(urls[0], 0)
             case Answer(response) => if response.fromCache then [] else [(urls[0], matches(response))]
             case Broken(_) => [(urls[0], true)]
    {
      var url := urls[index];
      tried := tried + [url];
      var attempt := upstream(url, index);
      match attempt {
        case Answer(response) =>
          var retryError := matches(response);
          if !response.fromCache && index == 0 {
            reports := reports + [(url, retryError)];
          }
          if !retryError {
            r := Proxied(response);
            return;
          }
          var upstreamData := parse(response.body);
          if !config.enabled {
            r := Refused(UpstreamStatus(response.status), upstreamData);
            return;
          }
          if index + 1 < limit {
            retried := retried + [url];
          }
          lastData := upstreamData;
        case Broken(error) =>
          if index == 0 {
            reports := reports + [(url, true)];
          }
          if !config.enabled {
            r := Raised(error);
            return;
          }
          if index + 1 < limit {
            retried := retried + [url];
          }
      }
    }
    r := Refused(UpstreamsFailed, lastData);
  }

  lemma {:induction false} PrefixPermutes(urls: seq<Url>, n: nat)
    requires n <= |urls|
    ensures multiset(urls[..n]) <= multiset(urls)
  {
    assert urls == urls[..n] + urls[n..];
  }

  datatype ChainConfig = ChainConfig(urls: seq<Url>)

  function Single(attempt: Attempt): Outcome {
    match attempt
    case Answer(response) => Proxied(response)
    case Broken(error) => Raised(error)
  }

  /**
   `handle_request_inner`. Refusals come before any upstream is contacted; a lone upstream is
   proxied with no retry bookkeeping; otherwise the current node, when configured, is tried first
   and no configured upstream is tried more often than it is listed.
   */
  method HandleRequest(
    chain: Option<ChainConfig>, allowed: bool, current: Option<Url>, hash: nat,
    upstream: Upstream, matches: Matcher, parse: Parser, config: RetryConfig)
    returns (r: Outcome, tried: seq<Url>, retried: seq<Url>, reports: seq<(Url, bool)>)
    ensures tried == [] <==>
      chain.None? || !allowed || chain.value.urls == [] || (|chain.value.urls| > 1 && current.None?)
    ensures tried == [] ==>
      && retried == [] && reports == []
      && r == Refused(if chain.None? then ChainNotConfigured
                      else if !allowed then RequestNotAllowed
                      else NodeNotFound, None)
    ensures tried != [] ==> multiset(tried) <= multiset(chain.value.urls)
    ensures tried != [] && |chain.value.urls| == 1 ==>
      tried == chain.value.urls && r == Single(upstream(tried[0], 0)) && retried == [] && reports == []
    ensures tried != [] && |chain.value.urls| > 1 ==>
      Explains(Trail(r, tried, retried, reports), Ordered(chain.value.urls, current.value, hash),
               upstream, matches, parse, config)
    ensures tried != [] && |chain.value.urls| > 1 && current.value in chain.value.urls ==> tried[0] == current.value
  {
    tried, retried, reports := [], [], [];
    if chain.None? {
      r := Refused(ChainNotConfigured, None);
      return;
    }
    if !allowed {
      r := Refused(RequestNotAllowed, None);
      return;
    }
    var urls := chain.value.urls;
    if urls == [] || (|urls| > 1 && current.None?) {
      r := Refused(NodeNotFound, None);
      return;
    }
    if |urls| == 1 {
      tried := [urls[0]];
      assert tried == urls;
      r := Single(upstream(urls[0], 0));
      return;
    }
    var ordered := GetOrderedUrls(urls, current.value, hash);
    OrderedPermutes(urls, current.value, hash);
    if current.value in urls { CurrentLeads(urls, current.value, hash); }
    r, tried, retried, reports := ForwardWithRetry(ordered, upstream, matches, parse, config);
    PrefixPermutes(ordered, |tried|);
  }

  // ---------------------------------------------------------------- the order in full

  /** The current node and the first url change places; everything else stays. */
  lemma {:induction false} ToFrontAt(urls: seq<Url>, current: Url, i: nat)
    requires i < |urls|
    ensures |ToFront(urls, current)| == |urls|
    ensures current !in urls ==> ToFront(urls, current) == urls
    ensures current in urls ==>
      exists p | 0 <= p < |urls| ::
        && urls[p] == current && (forall j | 0 <= j < p :: urls[j] != current)
        && ToFront(urls, current)[i] == if i == 0 then current else if i == p then urls[0] else urls[i]
  {
    var p := Position(urls, current);
    if current in urls {
      assert urls[p] == current;
    }
  }

  /** Request by request: with three urls or more the fallbacks turn left by the hash, whatever its size. */
  lemma {:induction false} OrderedAt(urls: seq<Url>, current: Url, hash: nat, i: nat)
    requires i < |urls|
    ensures |Ordered(urls, current, hash)| == |urls|
    ensures i == 0 || |urls| <= 2 ==> Ordered(urls, current, hash)[i] == ToFront(urls, current)[i]
    ensures i > 0 && |urls| > 2 ==>
      Ordered(urls, current, hash)[i] == ToFront(urls, current)[1 + (i - 1 + hash) % (|urls| - 1)]
  {
    ToFrontAt(urls, current, i);
    TurnedAt(ToFront(urls, current), hash, i);
  }

  lemma {:induction false} TurnedAt(front: seq<Url>, hash: nat, i: nat)
    requires i < |front|
    ensures var turned := TailRotated(front, Offset(front, hash));
      && |turned| == |front|
      && (i == 0 || |front| <= 2 ==> turned[i] == front[i])
      && (i > 0 && |front| > 2 ==> turned[i] == front[1 + (i - 1 + hash) % (|front| - 1)])
  {
    var k := Offset(front, hash);
    if |front| > 2 && i > 0 {
      TurnIndex(i - 1, hash, |front| - 1);
    }
    if k > 0 {
      TailRotatedAt(front, k, if i > 0 then i else 1);
    }
  }

  lemma {:induction false} TurnIndex(j: nat, hash: nat, n: nat)
    requires j < n
    ensures (j + hash) % n == if j + hash % n < n then j + hash % n else j + hash % n - n
  {
    var q, r := hash / n, hash % n;
    var x := if j + r < n then j + r else j + r - n;
    var q' := if j + r < n then q else q + 1;
    assert q' * n == if j + r < n then q * n else q * n + n;
    RemainderIs(j + hash, n, q', x);
  }

  lemma {:induction false} RemainderIs(v: nat, n: nat, q: nat, r: nat)
    requires n > 0 && v == q * n + r && r < n
    ensures v % n == r
  {
    var d := v / n - q;
    assert d * n == r - v % n;
    assert d > 0 ==> d * n >= n;
    assert d < 0 ==> d * n + n <= 0;
  }
}
