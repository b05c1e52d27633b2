/** The paged history download (`get_transactions` in core/crates/gem_api/src/device_client.rs). */
module Pagination {
  import opened Common
  import opened Lists

  const MAX_QUERY_LIMIT := 100
  const MAX_QUERY_PAGES := 100

  datatype Page<T, N> = Page(transactions: seq<T>, names: seq<N>)

  /** What the server answers at an offset; none is a failed request. */
  type Server<T, N> = nat -> Option<Page<T, N>>

  function AllTransactions<T, N>(pages: seq<Page<T, N>>): seq<T> {
    if pages == [] then [] else AllTransactions(pages[..|pages| - 1]) + pages[|pages| - 1].transactions
  }

  function AllNames<T, N>(pages: seq<Page<T, N>>): seq<N> {
    if pages == [] then [] else AllNames(pages[..|pages| - 1]) + pages[|pages| - 1].names
  }

  predicate AllFull<T, N>(pages: seq<Page<T, N>>) {
    forall i | 0 <= i < |pages| :: |pages[i].transactions| >= MAX_QUERY_LIMIT
  }

  /** Each page is the server's answer at the number of transactions before it, and only the last may be short. */
  ghost predicate Fetched<T, N>(server: Server<T, N>, pages: seq<Page<T, N>>) {
    if pages == [] then true else
    var before := pages[..|pages| - 1];
    Fetched(server, before) && AllFull(before) && server(|AllTransactions(before)|) == Some(pages[|pages| - 1])
  }

  /** The download stops at a short page or at the page cap. */
  predicate Complete<T, N>(pages: seq<Page<T, N>>) {
    && 1 <= |pages| <= MAX_QUERY_PAGES
    && (|pages| < MAX_QUERY_PAGES ==> |pages[|pages| - 1].transactions| < MAX_QUERY_LIMIT)
  }

  lemma {:induction false} SnocPage<T, N>(server: Server<T, N>, pages: seq<Page<T, N>>, page: Page<T, N>)
    requires Fetched(server, pages) && AllFull(pages) && server(|AllTransactions(pages)|) == Some(page)
    ensures Fetched(server, pages + [page])
    ensures AllTransactions(pages + [page]) == AllTransactions(pages) + page.transactions
    ensures AllNames(pages + [page]) == AllNames(pages) + page.names
  {
    assert (pages + [page])[..|pages|] == pages;
  }

  /** Appends names not seen before, as the inner loop does. */
  method ExtendNames<N(==)>(known: seq<N>, names: seq<N>, ghost all: seq<N>) returns (r: seq<N>)
    requires known == Dedup(all)
    ensures r == Dedup(all + names)
  {
    r := known;
    assert all + names[..0] == all;
    for i := 0 to |names|
      invariant r == Dedup(all + names[..i])
    {
      DedupSnoc(all + names[..i], names[i]);
      assert all + names[..i] + [names[i]] == all + names[..i + 1];
      if names[i] !in r {
        r := r + [names[i]];
      }
    }
    assert names[..|names|] == names;
  }

  // ---------------------------------------------------------------- a stable server

  function Slice<T>(list: seq<T>, offset: nat): seq<T> {
    if offset >= |list| then [] else list[offset..Min(offset + MAX_QUERY_LIMIT, |list|)]
  }

  /** The server cuts full pages from one unchanging list. */
  ghost predicate Stable<T, N>(server: Server<T, N>, list: seq<T>) {
    forall offset: nat :: server(offset).Some? && server(offset).value.transactions == Slice(list, offset)
  }

  lemma {:induction false} NextSlice<T>(list: seq<T>, offset: nat)
    requires offset <= |list|
    ensures list[..offset] + Slice(list, offset) == list[..Min(offset + MAX_QUERY_LIMIT, |list|)]
    ensures |Slice(list, offset)| >= MAX_QUERY_LIMIT <==> offset + MAX_QUERY_LIMIT <= |list|
  {
  }

  lemma {:induction false} LastPage<T, N>(server: Server<T, N>, list: seq<T>, pages: seq<Page<T, N>>)
    requires pages != [] && Stable(server, list) && Fetched(server, pages)
    ensures var before := pages[..|pages| - 1];
      && Fetched(server, before) && AllFull(before)
      && AllTransactions(pages) == AllTransactions(before) + Slice(list, |AllTransactions(before)|)
      && pages[|pages| - 1].transactions == Slice(list, |AllTransactions(before)|)
  {
  }

  /** After full pages only, the next offset is a whole number of pages into the list. */
  lemma {:induction false} FullPrefix<T, N>(server: Server<T, N>, list: seq<T>, pages: seq<Page<T, N>>)
    requires Stable(server, list) && Fetched(server, pages) && AllFull(pages)
    ensures |pages| * MAX_QUERY_LIMIT <= |list| && AllTransactions(pages) == list[..|pages| * MAX_QUERY_LIMIT]
  {
    if pages != [] {
      var before := pages[..|pages| - 1];
      LastPage(server, list, pages);
      FullPrefix(server, list, before);
      NextSlice(list, |before| * MAX_QUERY_LIMIT);
    }
  }

  lemma {:induction false} StablePrefix<T, N>(server: Server<T, N>, list: seq<T>, pages: seq<Page<T, N>>)
    requires Stable(server, list) && Fetched(server, pages) && pages != []
    ensures AllTransactions(pages) == list[..Min(|pages| * MAX_QUERY_LIMIT, |list|)]
    ensures |pages[|pages| - 1].transactions| >= MAX_QUERY_LIMIT <==> |pages| * MAX_QUERY_LIMIT <= |list|
  {
    var before := pages[..|pages| - 1];
    LastPage(server, list, pages);
    FullPrefix(server, list, before);
    NextSlice(list, |before| * MAX_QUERY_LIMIT);
  }

  /** As much of a list as the page cap lets through. */
  function Head<T>(list: seq<T>): seq<T> {
    list[..Min(|list|, 10_000)]
  }

  /** Against an unchanging list the download is its first min(length, pages x limit) transactions. */
  lemma {:induction false} StableDownload<T, N>(server: Server<T, N>, list: seq<T>, pages: seq<Page<T, N>>)
    requires Stable(server, list) && Fetched(server, pages) && Complete(pages)
    ensures AllTransactions(pages) == Head(list)
  {
    StablePrefix(server, list, pages);
  }

  // ---------------------------------------------------------------- the download

  /** What a download amounts to: the pages fetched, joined, or the failure that ended it. */
  ghost predicate Downloaded<T, N>(server: Server<T, N>, pages: seq<Page<T, N>>, r: Option<Page<T, N>>) {
    && Fetched(server, pages)
    && match r
       case Some(page) => Complete(pages) && page == Page(AllTransactions(pages), Dedup(AllNames(pages)))
       case None =>
         AllFull(pages) && |pages| < MAX_QUERY_PAGES && server(|AllTransactions(pages)|).None?
  }

  lemma {:induction false} FetchedUpTo<T, N>(server: Server<T, N>, pages: seq<Page<T, N>>, n: nat)
    requires Fetched(server, pages) && n < |pages|
    ensures AllFull(pages[..n]) && server(|AllTransactions(pages[..n])|) == Some(pages[n])
  {
    var last := |pages| - 1;
    if n < last {
      FetchedUpTo(server, pages[..last], n);
      assert pages[..last][..n] == pages[..n];
    }
  }

  lemma {:induction false} SameNext<T, N>(server: Server<T, N>, p: seq<Page<T, N>>, q: seq<Page<T, N>>, n: nat)
    requires Fetched(server, p) && Fetched(server, q) && n < |p| && n < |q| && p[..n] == q[..n]
    ensures p[n] == q[n]
  {
    FetchedUpTo(server, p, n);
    FetchedUpTo(server, q, n);
  }

  lemma {:induction false} SamePages<T, N>(server: Server<T, N>, p: seq<Page<T, N>>, q: seq<Page<T, N>>, n: nat)
    requires Fetched(server, p) && Fetched(server, q) && n <= |p| && n <= |q|
    ensures p[..n] == q[..n]
  {
    if n > 0 {
      SamePages(server, p, q, n - 1);
      SameNext(server, p, q, n - 1);
      assert p[..n] == p[..n - 1] + [p[n - 1]] && q[..n] == q[..n - 1] + [q[n - 1]];
    }
  }

  lemma {:induction false} NotShorter<T, N>(
    server: Server<T, N>, p: seq<Page<T, N>>, q: seq<Page<T, N>>, r: Option<Page<T, N>>, t: Option<Page<T, N>>)
    requires Downloaded(server, p, r) && Downloaded(server, q, t)
    ensures |p| >= |q|
  {
    SamePages(server, p, q, Min(|p|, |q|));
    assert p[..|p|] == p;
    if |p| < |q| {
      FetchedUpTo(server, q, |p|);
    }
  }

  /** The server's answers decide the pages fetched and the result: no other download fits the description. */
  lemma {:induction false} DownloadUnique<T, N>(
    server: Server<T, N>, p: seq<Page<T, N>>, q: seq<Page<T, N>>, r: Option<Page<T, N>>, t: Option<Page<T, N>>)
    requires Downloaded(server, p, r) && Downloaded(server, q, t)
    ensures p == q && r == t
  {
    NotShorter(server, p, q, r, t);
    NotShorter(server, q, p, t, r);
    SamePages(server, p, q, |p|);
    assert p[..|p|] == p && q[..|q|] == q;
  }

  /** An unchanging list is downloaded without failure, up to the cap. */
  lemma {:induction false} StableResult<T, N>(server: Server<T, N>, pages: seq<Page<T, N>>, r: Option<Page<T, N>>)
    requires Downloaded(server, pages, r)
    ensures forall list | Stable(server, list) :: r.Some? && r.value.transactions == Head(list)
  {
    forall list | Stable(server, list) ensures r.Some? && r.value.transactions == Head(list) {
      if r.Some? {
        StableDownload(server, list, pages);
      }
    }
  }

  /** The loop's state: pages so far, their joined transactions and their names without repeats. */
  ghost predicate Collected<T, N>(server: Server<T, N>, pages: seq<Page<T, N>>, transactions: seq<T>, names: seq<N>) {
    Fetched(server, pages) && transactions == AllTransactions(pages) && names == Dedup(AllNames(pages))
  }

  lemma {:induction false} Collect<T, N>(
    server: Server<T, N>, pages: seq<Page<T, N>>, transactions: seq<T>, names: seq<N>, page: Page<T, N>, names': seq<N>)
    requires Collected(server, pages, transactions, names) && AllFull(pages)
    requires server(|transactions|) == Some(page) && names' == Dedup(AllNames(pages) + page.names)
    ensures Collected(server, pages + [page], transactions + page.transactions, names')
    ensures AllFull(pages + [page]) <==> |page.transactions| >= MAX_QUERY_LIMIT
  {
    SnocPage(server, pages, page);
    FullSnoc(pages, page);
  }

  lemma {:induction false} FullSnoc<T, N>(pages: seq<Page<T, N>>, page: Page<T, N>)
    requires AllFull(pages)
    ensures AllFull(pages + [page]) <==> |page.transactions| >= MAX_QUERY_LIMIT
  {
    assert (pages + [page])[|pages|] == page;
  }

  ghost predicate EndsShort<T, N>(pages: seq<Page<T, N>>) {
    pages != [] && |pages[|pages| - 1].transactions| < MAX_QUERY_LIMIT
  }

  /** The loop ends at a short page or after the last one allowed. */
  lemma {:induction false} Finish<T, N>(
    server: Server<T, N>, pages: seq<Page<T, N>>, transactions: seq<T>, names: seq<N>)
    requires Collected(server, pages, transactions, names) && 1 <= |pages| <= MAX_QUERY_PAGES
    requires |pages| == MAX_QUERY_PAGES || EndsShort(pages)
    ensures Downloaded(server, pages, Some(Page(transactions, names)))
  {
  }

  /** One turn of the loop: `ok` when the request succeeded, `last` when its page was short. */
  method FetchPage<T, N(==)>(
    server: Server<T, N>, ghost pages: seq<Page<T, N>>, transactions: seq<T>, names: seq<N>)
    returns (ok: bool, last: bool, transactions': seq<T>, names': seq<N>, ghost pages': seq<Page<T, N>>)
    requires Collected(server, pages, transactions, names) && AllFull(pages) && |pages| < MAX_QUERY_PAGES
    ensures !ok ==> Downloaded(server, pages, None)
    ensures ok ==> |pages'| == |pages| + 1 && Collected(server, pages', transactions', names')
    ensures ok ==> if last then EndsShort(pages') else AllFull(pages')
  {
    transactions', names', pages' := transactions, names, pages;
    var response := server(|transactions|);
    if response.None? {
      return false, false, transactions', names', pages';
    }
    var page := response.value;
    names' := ExtendNames(names, page.names, AllNames(pages));
    Collect(server, pages, transactions, names, page, names');
    return true, |page.transactions| < MAX_QUERY_LIMIT, transactions + page.transactions, names', pages + [page];
  }

  /** `get_transactions`. */
  method GetTransactions<T, N(==)>(server: Server<T, N>) returns (r: Option<Page<T, N>>)
    ensures exists pages :: Downloaded(server, pages, r)
  {
    var transactions: seq<T>, names: seq<N> := [], [];
    ghost var pages: seq<Page<T, N>> := [];
    for n := 0 to MAX_QUERY_PAGES
      invariant |pages| == n && AllFull(pages) && Collected(server, pages, transactions, names)
    {
      var ok, last;
      ghost var pages';
      ok, last, transactions, names, pages' := FetchPage(server, pages, transactions, names);
      if !ok {
        return None;
      }
      pages := pages';
      if last {
        break;
      }
    }
    Finish(server, pages, transactions, names);
    r := Some(Page(transactions, names));
    assert Downloaded(server, pages, r);
  }
}
