# Wallet core: verified models

Dafny models of the parts of the Gem wallet core that carry real invariants, and proofs about them:

- **The Redis coordination layer.** `Store` is a map from keys to values with an optional expiry, under
  a clock in milliseconds; every command or MULTI pipeline is one atomic step, and a trace is any
  interleaving of commands from any number of clients. On it stand single-use nonces and the
  once-per-TTL gate (`SingleUse`), the fixed-window limiter (`RateLimiting`, whose calls are sent over
  an unreliable connection in `CountedCalls`), the double-checked token refresh (`AccessToken`), the
  sorted-set drain queue (`DrainQueue`) and the fiat quote lifecycle (`FiatQuotes`, with the table of
  pending transactions in `PendingRows` and its objects in `FiatClient`). `CacheKeys` proves the key strings, which
  `KeyStrings` gives in full, collision-free,
  token keys included, which is what lets these protocols share one store.
- **The Cardano CBOR writer** (`Cbor`) against an independent RFC 8949 reader, and the transaction
  encoder built on it (`CardanoTx`).
- **The device authorization header** (`DeviceAuth`) over concrete Base64 (`Base64`), hex (`Hex`) and
  UTF-8 (`Utf8`), with SHA-256 and Ed25519 as parameters that satisfy the sign/verify law.
- **Dynode failover** (`NodeFailover`): the order of the upstreams and the retry loop.
- **Smaller cores**: staking shares and balances (`Staking`), generator identifier case
  (`IdentifierCase`), paged history (`Pagination`), swap detection (`BalanceDiff`), payment routing
  (`Payment`).

`dafny verify dfyconfig.toml` checks everything. Each module is one file of the same name.

Conventions. Errors are `Option`, `Verdict`, `Reply.Refused` or an outcome datatype. A run is a
sequence of states linked by enabled steps; results about runs hold for every run and every position
in it. Objects the source mutates are classes whose methods are tied to functions of their old state;
what the system promises is proved about those functions.

Findings where the code and a natural reading differ, each stated exactly:

- A device header whose wallet id contains a dot never parses; the round trip holds exactly for
  dot-free wallet ids (`DeviceAuth.HeaderRoundTrip`).
- `CacheKey::key` is injective exactly on keys whose chain-like first arguments, nonce device ids and
  quote ids are colon-free and whose fee-estimate chain does not begin with the fresh marker: every
  other key collides with a different well-formed one (`CacheKeys.IllFormedCollides`).
- The limiter admits up to twice its limit in an interval as long as the window. One counter reaches
  that bound (`RateLimiting.BoundsReached`), and so do whole calls whenever the other windows leave
  room for that many (`RateLimiting.CallsReachBounds`).
- A quote-url call repeated after a failed write-back inserts again, but the insert does nothing when
  its place in a unique index is taken. So a quote's rows are the index slots its calls were first to
  fill (`FiatQuotes.RowsExactly`), and it has two rows exactly when two of its calls carried different
  order ids, a missing one included (`FiatQuotes.SecondRowExactly`, reached by
  `FiatQuotes.FailedWriteBackRepeats`), or when a webhook named the order of the first row in between
  and so freed its slot (`FiatQuotes.SettledSlotRefills`).
- The two identifier converters agree on a name of letters exactly when no capital after the first
  lower-case letter lacks a lower-case neighbour (`IdentifierCase.AgreeExactly`), which is wider than
  "no two adjacent capitals".

## Model

| member | source | states |
|---|---|---|
| `Cbor.HeadRoundTrip` | core/crates/gem_cardano/src/cbor.rs:52-73 | the head written for any major type and 64-bit argument, followed by anything, reads back as that type, argument and suffix |
| `Cbor.RoundTrip` | core/crates/gem_cardano/src/cbor.rs:14-73 | decoding the bytes of any finite item tree followed by any suffix gives exactly that tree and that suffix |
| `Cbor.WireForm` | core/crates/gem_cardano/src/cbor.rs:14-73 | in the numbers of RFC 8949: every encoding starts with its major type (0, 2, 3, 4, 5 or 6) and its argument in the first byte or in 1, 2, 4 or 8 bytes after it, most significant first; null is f6 and true is f5 |
| `Cbor.HeadInNumbers` | core/crates/gem_cardano/src/cbor.rs:52-73 | each head is the byte type x 32 plus the argument up to 23, or plus 24 to 27 followed by the argument's bytes |
| `Cbor.PrefixFree` | core/crates/gem_cardano/src/cbor.rs:14-73 | no encoding is a proper prefix of another, and equal bytes mean equal trees |
| `Cbor.Shortest` | core/crates/gem_cardano/src/cbor.rs:52-73 | no byte string a reader of all definite-length heads maps to an item is shorter than what the writer produces for it |
| `Cbor.Extends` | core/crates/gem_cardano/src/cbor.rs:14-16 | reading an item is unaffected by whatever bytes follow it, also for non-minimal input |
| `Cbor.RawSplices` | core/crates/gem_cardano/src/cbor.rs:14-16 | well-formed items appended raw after an array head decode as the array of those items |
| `Cbor.CborEncoder.constructor` | core/crates/gem_cardano/src/cbor.rs:6-8 | a new writer is empty |
| `Cbor.CborEncoder.MajorType` | core/crates/gem_cardano/src/cbor.rs:52-73 | appends the head of the type and argument and changes nothing before it |
| `Cbor.CborEncoder.Raw` | core/crates/gem_cardano/src/cbor.rs:14-16 | appends the bytes unchanged |
| `Cbor.CborEncoder.WriteUnsigned` | core/crates/gem_cardano/src/cbor.rs:18-20 | appends the encoding of the unsigned item |
| `Cbor.CborEncoder.WriteBytes` | core/crates/gem_cardano/src/cbor.rs:22-25 | appends the encoding of the byte string item |
| `Cbor.CborEncoder.WriteText` | core/crates/gem_cardano/src/cbor.rs:27-30 | appends the encoding of the text item |
| `Cbor.CborEncoder.ArrayHead` | core/crates/gem_cardano/src/cbor.rs:32-34 | appends an array head with the given length |
| `Cbor.CborEncoder.MapHead` | core/crates/gem_cardano/src/cbor.rs:36-38 | appends a map head with the given length |
| `Cbor.CborEncoder.TagHead` | core/crates/gem_cardano/src/cbor.rs:48-50 | appends a tag head |
| `Cbor.CborEncoder.WriteNull` | core/crates/gem_cardano/src/cbor.rs:40-42 | appends the encoding of null |
| `Cbor.CborEncoder.WriteTrue` | core/crates/gem_cardano/src/cbor.rs:44-46 | appends the encoding of true |
| `Cbor.CborEncoder.WriteItem` | core/crates/gem_cardano/src/cbor.rs:14-50 | any finite item tree, written call by call, appends exactly its encoding |
| `CardanoTx.SegmentsSplitMemo` | core/crates/gem_cardano/src/transaction.rs:117-134 | memo segments joined are the memo, none is empty or over 64 bytes, all break on character boundaries, and each is as long as it can be |
| `CardanoTx.ChunkMemoSegments` | core/crates/gem_cardano/src/transaction.rs:117-134 | the single-pass loop computes that greedy split |
| `CardanoTx.AuxiliaryDataBytes` | core/crates/gem_cardano/src/transaction.rs:31-50 | bytes exactly for a non-empty memo, and they encode the tagged metadata tree |
| `CardanoTx.BodyBytes` | core/crates/gem_cardano/src/transaction.rs:52-84 | the streamed body is the encoding of one map item with inputs, outputs, fee, expiry and, with a memo, the digest of the auxiliary data |
| `CardanoTx.SignedBytes` | core/crates/gem_cardano/src/transaction.rs:91-110 | the streamed transaction, with body and auxiliary data spliced raw, is the encoding of one array item |
| `CardanoTx.SignedRoundTrip` | core/crates/gem_cardano/src/transaction.rs:91-110 | a reader that spells out every key and tag recovers every input, output, fee, expiry, the digest under key 7, memo, key and signature from the signed bytes |
| `CardanoTx.SignedSizeIndependentOfWitness` | core/crates/gem_cardano/src/transaction.rs:112-114 | the size computed with a zero key and signature is the size with any key and signature |
| `CardanoTx.BodyBytesDetermineTransaction` | core/crates/gem_cardano/src/transaction.rs:52-89 | equal signed-over bodies mean equal inputs, outputs, fee, expiry and memo presence and digest, so the id commits to them |
| `CacheKeys.ReadKey` | core/crates/cacher/src/keys.rs:73-110 | a reader recovers variant and arguments from the key string of every well-formed key |
| `KeyStrings.KeyInFull` | core/crates/cacher/src/keys.rs:73-110 | the string of every variant is the source's format string with its arguments filled in |
| `KeyStrings.TokenKeyInFull` | core/crates/cacher/src/access_token.rs:18-24 | the token key is access_token, a colon and the provider |
| `KeyStrings.LifetimesInSeconds` | core/crates/cacher/src/keys.rs:112-149 | nonces and quotes live 300 seconds, limiter counters their window's seconds, stream events the given time |
| `CacheKeys.KeyInjective` | core/crates/cacher/src/keys.rs:73-110 | two well-formed keys with the same string are the same key up to the stream TTL |
| `CacheKeys.IllFormedCollides` | core/crates/cacher/src/keys.rs:73-110 | every key that is not well-formed shares its string with a different, well-formed key |
| `CacheKeys.AccessTokenKeyApart` | core/crates/cacher/src/access_token.rs:18-24 | the token key is none of the cache keys |
| `CacheKeys.AccessTokenKeyInjective` | core/crates/cacher/src/access_token.rs:18-24 | different providers have different token keys |
| `CacheKeys.OwnersApart` | core/crates/cacher/src/keys.rs:73-110 | in the shared store two owners, cache keys or token providers, have one string only when they are the same |
| `Store.Exec` | core/crates/cacher/src/lib.rs:47-132 | a command changes no key but its own |
| `Store.Untouched` | core/crates/cacher/src/lib.rs:47-132 | over any stretch of a trace without commands on a key, its entry stays the same |
| `Store.CacherClient.GetAndDeleteValue` | core/crates/cacher/src/lib.rs:55-61 | returns the live value and leaves nothing to read at any later time |
| `Store.CacherClient.Delete` | core/crates/cacher/src/lib.rs:114-116 | true exactly when a live entry was there, and the key and no other is gone |
| `Store.CacherClient.CanProcessNow` | core/crates/cacher/src/lib.rs:102-112 | true exactly when no live entry was there, and then the key is held for exactly the TTL |
| `Store.CacherClient.IncrementWithTtl` | core/crates/cacher/src/lib.rs:125-132 | the first increment fixes the deadline and later ones keep it |
| `Store.CacherClient.GetOrSetValue` | core/crates/cacher/src/lib.rs:84-100 | a live value is returned and the store untouched; otherwise the fetched value is returned and stored over whatever other clients did during the fetch, or nothing of its own is written on failure |
| `SingleUse.AuthClient.GetNonce` | core/crates/gem_auth/src/client.rs:25-34 | the nonce is readable under its device for exactly five minutes unless consumed |
| `SingleUse.AuthClient.ConsumeAuthNonce` | core/crates/gem_auth/src/client.rs:36-38 | returns the live nonce and removes it for good |
| `SingleUse.ConsumeExactly` | core/crates/gem_auth/src/client.rs:25-38 | in every interleaving a consume yields a value exactly when the same device's issue of it is under five minutes old with no step on that nonce between |
| `SingleUse.ConsumedAtMostOnce` | core/crates/gem_auth/src/client.rs:25-38 | with fresh nonces, no nonce is consumed twice, under any device, in any interleaving |
| `SingleUse.NonceRedeemed` | core/crates/gem_auth/src/client.rs:25-38 | any nonce consumed within five minutes of its issue, with nothing in between, yields its value |
| `SingleUse.GateEntry` | core/crates/cacher/src/lib.rs:102-112 | the entry at a gate key always belongs to the latest pass |
| `SingleUse.GateExactly` | core/crates/cacher/src/lib.rs:102-112 | a gate opens exactly when every earlier opening is at least the TTL in the past |
| `RateLimiting.TwoIncrements` | core/crates/cacher/src/lib.rs:125-132 | of any two increments of a key, the later has a higher count on the same counter or sits on a counter expiring at least a window later |
| `RateLimiting.LifetimeBound` | core/crates/cacher/src/rate_limiter.rs:19-25 | one counter lifetime admits at most `limit` increments |
| `RateLimiting.IntervalBound` | core/crates/cacher/src/rate_limiter.rs:19-25 | any closed interval as long as the window admits at most 2 x limit |
| `RateLimiting.HalfOpenBound` | core/crates/cacher/src/rate_limiter.rs:19-25 | without its far end the interval admits at most 2 x limit - 1 |
| `RateLimiting.BoundsReached` | core/crates/cacher/src/rate_limiter.rs:19-25 | for every window and positive limit a trace attains both bounds |
| `RateLimiting.CallsUseCounters` | core/crates/cacher/src/rate_limiter.rs:19-25 | whatever else runs on other cache keys, a limiter key is only ever incremented with its own window |
| `RateLimiting.AllowedCallsBound` | core/crates/cacher/src/rate_limiter.rs:19-25 | for every window and any interleaving, fewer than 2 x limit whole calls on one key and scope, whatever their own limits up to `limit`, are allowed in a half-open interval of its length, and none for a non-positive limit |
| `RateLimiting.BoundsInFull` | core/crates/cacher/src/rate_limiter.rs:19-25 | the interval bounds by name: 2 x minute in 60 seconds, 2 x hour in 3600, 2 x day in 86400, 2 x week in 604800, one fewer without the far end |
| `RateLimiting.CallsPerLifetime` | core/crates/cacher/src/rate_limiter.rs:19-25 | one lifetime of a window's counter allows at most `limit` whole calls |
| `RateLimiting.CallsPerInterval` | core/crates/cacher/src/rate_limiter.rs:19-25 | the closed interval allows at most 2 x limit whole calls |
| `RateLimiting.CallsReachBounds` | core/crates/cacher/src/rate_limiter.rs:19-25 | when the other windows allow 2 x limit, that many whole calls are allowed in a closed window interval and one fewer in the half-open one |
| `RateLimiting.RateLimiter.Consume` | core/crates/cacher/src/rate_limiter.rs:19-25 | denied windows do not stop the loop: all four advance, whatever other clients do in between; when all counts arrive the answer is true exactly when the minute, hour, day and week counts are within the limits of those names; only a lost command, a lost reply or a store error stops early, and where it stops is stated |
| `RateLimiting.TurnsInFull` | core/crates/cacher/src/rate_limiter.rs:19-25 | the four commands of a call: its minute, hour, day and week keys with 60, 3600, 86400 and 604800 seconds, each against the limit of that name |
| `RateLimiting.RateLimiter.ConsumeInRun` | core/crates/cacher/src/rate_limiter.rs:19-25 | as part of a run of all clients, a call whose replies arrive answers true exactly when the extended run allows it, so the bounds on allowed calls bound its answers |
| `CountedCalls.SendAll` | core/crates/cacher/src/rate_limiter.rs:20-24 | counted commands are all sent, with other clients' commands in between, until one brings no count back; the answer is whether all counts were within limits |
| `CountedCalls.ReplyInTrace` | core/crates/cacher/src/lib.rs:125-132 | the reply a command gets is the reply at its place in the whole interleaved trace |
| `RateLimiting.AllowedIsWithin` | core/crates/cacher/src/rate_limiter.rs:19-25 | in a legal run every window of a call is counted, and the run allows the call exactly when the call finds all its counts within their limits |
| `AccessToken.NextInv` | core/crates/cacher/src/access_token.rs:26-68 | every await of every caller keeps permit, entry, freshness and serial-write invariants |
| `AccessToken.RunInv` | core/crates/cacher/src/access_token.rs:26-68 | the invariants hold at every position of every run, with failing reads, writes and refreshes, dropped callers, writes that land late, and clients of every other key of the store |
| `AccessToken.RunExplained` | core/crates/cacher/src/access_token.rs:51-68 | in every run each call stands where a step of its own put it: it is told what it read or refreshed, and fails only after a failed refresh or when dropped |
| `AccessToken.ReadExactly` | core/crates/cacher/src/access_token.rs:26-60 | a working read of a live token ends the call with it and starts no refresh; any other first read leads to the semaphore, any other second read to a refresh |
| `AccessToken.RefreshAnswers` | core/crates/cacher/src/access_token.rs:62-66 | a call whose refresh succeeded ends with that token, whether or not its write worked |
| `AccessToken.SavedTokenServes` | core/crates/cacher/src/access_token.rs:40-60 | a written token with 61 seconds or more of life is readable up to exactly the whole second that leaves it 60, unless written again, and every working read until then ends with it and starts no refresh |
| `AccessToken.ShortTokenNotStored` | core/crates/cacher/src/access_token.rs:40-47 | a token with less life, or whose write failed, changes nothing in the store |
| `AccessToken.LateWritesExactly` | core/crates/cacher/src/access_token.rs:62-66 | a write is on its way exactly from the failed save or the drop that left it there until it lands, and landing stores it as a save would have |
| `AccessToken.CanMove` | core/crates/cacher/src/access_token.rs:51-68 | which step each caller can take in any state: only the semaphore ever makes one wait |
| `AccessToken.TwoCalls` | core/crates/cacher/src/access_token.rs:51-68 | a run exists in which one call refreshes and ends with the new token, and a second call gets the same token from the cache |
| `AccessToken.RunIssued` | core/crates/cacher/src/access_token.rs:62-66 | every grant written, on its way or about to be written was issued by an earlier refresh step |
| `AccessToken.MutualExclusion` | core/crates/cacher/src/access_token.rs:57-66 | at most one caller is ever past the semaphore |
| `AccessToken.NoRefreshWhileCached` | core/crates/cacher/src/access_token.rs:53-66 | a refresh that starts while the latest entry has time left follows a failed read, late writes or not; with no failed read and no late write, no refresh starts before every earlier written entry has expired |
| `AccessToken.CachedTokenIsFresh` | core/crates/cacher/src/access_token.rs:40-66 | a token from the cache was issued by an earlier refresh step of the run, then written, and had more than 60 s of provider lifetime left less its issue-to-write delay |
| `DrainQueue.AddToSortedSet` | core/crates/cacher/src/lib.rs:188-204 | the looped pipeline adds every member, refreshes the expiry and returns the cardinality, or does nothing for an empty batch |
| `DrainQueue.AddedExactly` | core/crates/cacher/src/lib.rs:197-203 | a batch gives its members their latest scores, leaves the others, and restarts the set's expiry |
| `DrainQueue.ExpiresExactly` | core/crates/cacher/src/lib.rs:200 | time alone empties the set, all at once, exactly when its expiry comes |
| `DrainQueue.NextAccounted` | core/crates/cacher/src/lib.rs:188-212 | every step keeps each added instance in exactly one of queued, delivered, overwritten, expired and removed |
| `DrainQueue.RunAccounted` | core/crates/cacher/src/lib.rs:188-283 | that accounting holds at every position of every interleaving |
| `DrainQueue.Conservation` | core/crates/cacher/src/lib.rs:277-283 | in every run no instance is delivered twice, and the five counts add up to the number added, although count and pop are separate commands |
| `DrainQueue.UndisturbedTakeDrains` | core/crates/cacher/src/lib.rs:277-283 | a take with nothing between count and pop returns every member once, with its score, lowest first, and empties the set |
| `DrainQueue.PopHandsOver` | core/crates/cacher/src/lib.rs:282 | what a pop returns are the lowest members with their scores; each is delivered to that taker and gone from the set, and nothing else changes |
| `DrainQueue.TakesWhatItCounted` | core/crates/cacher/src/lib.rs:277-283 | however the set changes in between, a taker gets as many members as it counted, or all there are |
| `DrainQueue.CanMove` | core/crates/cacher/src/lib.rs:188-283 | anyone can add, remove and count, and a taker that counted can always pop, ties in score included |
| `DrainQueue.RemovedExactly` | core/crates/cacher/src/lib.rs:206-212 | a removal takes exactly the named members and leaves the scores of the others |
| `FiatQuotes.NextKeyInv` | core/crates/fiat/src/client.rs:249-295 | publishing, asking, unrelated cache traffic and other writers of the table keep each quote's inserts, answers, failures, terms and cached url consistent |
| `FiatQuotes.RunKeyInv` | core/crates/fiat/src/client.rs:249-295 | that consistency holds at every position of every run of non-overlapping calls |
| `FiatQuotes.RunSound` | core/crates/storage/src/migrations/2023-07-23-215138_fiat/up.sql:74-75 | in every run each taken index slot has one origin, unless a webhook freed it in between |
| `PendingRows.InsertedSound` | core/crates/storage/src/database/fiat.rs:239-246 | an insert that does nothing on conflict keeps the indexes sound |
| `PendingRows.SettledSound` | core/crates/storage/src/database/fiat.rs:276-295 | a webhook naming the order of a placeholder row keeps them sound |
| `PendingRows.RowsAreSlots` | core/crates/storage/src/migrations/2023-07-23-215138_fiat/up.sql:74-75 | in a sound table a quote's rows are its own slots, each once |
| `PendingRows.SlotsInFull` | core/crates/storage/src/migrations/2023-07-23-215138_fiat/up.sql:74-75 | two inserts are after one slot exactly when the provider and the order id agree and, without an order id, the quote |
| `FiatQuotes.InsertsExactly` | core/crates/fiat/src/client.rs:260-295 | in every run a quote's inserts are its failed write-backs, plus its lapses before the re-read, plus one if answered, and it never both lapses and is answered |
| `FiatQuotes.RowsExactly` | core/crates/storage/src/database/fiat.rs:239-246 | as long as no webhook freed a slot of the quote, its rows are, one each, the index slots its inserts asked for and nobody else had filled |
| `FiatQuotes.SecondRowExactly` | core/crates/fiat/src/client.rs:260-295 | a quote has more than one row exactly when two of its calls inserted with different order ids, one absent included, in slots of its own, and that takes a failed write-back |
| `FiatQuotes.AtMostOneRow` | core/crates/fiat/src/client.rs:260-295 | a quote has at most one pending row more than failed write-backs, across any expiry between read and write-back and whatever else happens to the table |
| `FiatQuotes.OneUrlPerQuote` | core/crates/fiat/src/client.rs:249-258 | all successful calls on a quote return one url, which the provider gave to one of its inserting calls, whose slot is filled unless a webhook moved that row |
| `FiatQuotes.AnswersExactly` | core/crates/fiat/src/client.rs:249-295 | in every run a call hands out a url exactly when it is admitted, reads the quote, and either the quote was answered before (that url) or everything up to the write-back works (the provider's url); no other step hands out anything |
| `FiatQuotes.LivesExactly` | core/crates/fiat/src/client.rs:249-295 | in every run a quote can be read exactly until five minutes after its publication, or after the call that first handed out its url |
| `FiatQuotes.FailedWriteBackRepeats` | core/crates/fiat/src/client.rs:291-292 | publishing and two calls within the five minutes, the first with a failed write-back, is a run that ends with two rows exactly when the provider's two order ids differ, and with one row otherwise |
| `FiatQuotes.SettledSlotRefills` | core/crates/storage/src/database/fiat.rs:276-295 | a webhook that names the order of a placeholder row between those calls leaves room for a second row without an order |
| `FiatQuotes.CanMove` | core/crates/fiat/src/client.rs:249-295 | calls come at any time with any of their commands failing, a quote id is published once, and rows come and go as the unique indexes allow |
| `FiatQuotes.OthersShareStore` | core/crates/fiat/src/client.rs:249-295 | other clients write to and delete from the store that the quotes are in |
| `FiatClient.ConsumedOffQuotes` | core/crates/fiat/src/client.rs:312-322 | however a limiter call ends, and whatever other clients of other keys do meanwhile, every quote is as it was |
| `FiatClient.Client.SetQuotes` | core/crates/fiat/src/fiat_cacher_client.rs:29-44 | the batch is stored quote by quote under fresh ids, without urls, and keeps the quote invariant |
| `FiatClient.Client.ConsumeLimits` | core/crates/fiat/src/client.rs:312-322 | both limiters advance even when the first denies; it fails exactly on a missing limit or a count that never came, where it stops, and lets a request in exactly when all eight counts came and are within limits |
| `FiatClient.Client.SetQuoteUrl` | core/crates/fiat/src/fiat_cacher_client.rs:57-66 | reads the quote again and writes it back with its url and a new TTL, or fails when it is gone or the store fails |
| `FiatClient.Client.CreateQuoteUrl` | core/crates/fiat/src/client.rs:260-295 | no insert without a provider's answer; the insert, a no-op when its slot is taken, precedes the write-back; a url is returned exactly when written back |
| `FiatClient.Client.ServeQuote` | core/crates/fiat/src/client.rs:253-257 | a cached url is returned as is; otherwise one is created |
| `FiatClient.Client.Admit` | core/crates/fiat/src/client.rs:250-252 | a view-only wallet is refused uncounted; any other is admitted exactly when the device and address limits of quote-url requests let it in |
| `FiatClient.Client.GetQuoteUrl` | core/crates/fiat/src/client.rs:249-258 | a request is served exactly when admitted; it returns exactly the url it is owed, the one answered before or the provider's, and keeps the invariants of quotes and table |
| `Base64.RoundTrip` | core/crates/gem_encoding/src/base64.rs:4-10 | decoding an encoding gives back the bytes, for all bytes |
| `Base64.Canonical` | core/crates/gem_encoding/src/base64.rs:8-10 | whatever decodes is the encoding of its result, so no two texts decode alike |
| `Hex.RoundTrip` | core/crates/gem_auth/src/device_signature.rs:26-30 | decoding an encoding gives back the bytes |
| `Hex.DecodesExactly` | core/crates/gem_auth/src/device_signature.rs:67-74 | text decodes to given bytes exactly when it is their digits, high first, in either case, with or without 0x in front |
| `Hex.RejectDot` | core/crates/gem_auth/src/device_signature.rs:67 | text with a dot anywhere is not hex |
| `Utf8.ValidExactly` | core/crates/gem_auth/src/device_signature.rs:57 | a byte string is a valid string exactly when it is the octets of some Unicode scalar values by RFC 3629 |
| `DeviceAuth.SplitFields` | core/crates/gem_auth/src/device_signature.rs:58-61 | the five-way split recovers five joined fields when the first four are dot-free |
| `DeviceAuth.HeaderRoundTrip` | core/crates/gem_auth/src/device_signature.rs:23-69 | parsing a built header gives key, timestamp, wallet id (empty as none), hash and signature when the wallet id is dot-free, and fails otherwise |
| `DeviceAuth.BuiltHeaderVerifies` | core/crates/gem_auth/src/device_signature.rs:23-44 | a built header verifies for its own method, path and body exactly when the wallet id is dot-free |
| `DeviceAuth.VerifyExactly` | core/crates/gem_auth/src/device_signature.rs:35-86 | a header is accepted for a request exactly when it is the scheme and the Base64 of dot-free key, time and wallet id, this body's hash and a signature, and the 32-byte key's 64-byte signature is good for time, method, path, wallet id and hash with dots between |
| `DeviceAuth.AcceptedBinds` | core/crates/gem_auth/src/device_signature.rs:35-44 | a header accepted for two requests means one body hash, and the signature was good for each request's own message |
| `DeviceAuth.BuiltInFull` | core/crates/gem_auth/src/device_signature.rs:23-33 | a header is built only from a 32-byte key, as key, time, wallet id, hash and signature over the request's message, spelled out |
| `DeviceAuth.MessageInjective` | core/crates/gem_auth/src/device_signature.rs:14-16 | the signed message determines all five parts for dot-free timestamp, method, wallet id and hash and any path |
| `DeviceAuth.DottedPartsShift` | core/crates/gem_auth/src/device_signature.rs:14-16 | a dotted method or wallet id can be read as part of the path, so the restriction is needed |
| `DeviceAuth.ParsedFieldsDotFree` | core/crates/gem_auth/src/device_signature.rs:54-69 | every parsed timestamp, wallet id and hash is a dot-free valid string |
| `DeviceAuth.SignedMessageBinds` | core/crates/gem_auth/src/device_signature.rs:35-44 | two parsed headers that rebuild the same message are for the same method, path, timestamp, wallet id and body hash |
| `NodeFailover.OrderedPermutes` | core/apps/dynode/src/node_service.rs:266-288 | the ordered list is a permutation of the configured one |
| `NodeFailover.CurrentLeads` | core/apps/dynode/src/node_service.rs:266-274 | the current node is first whenever it is configured |
| `NodeFailover.OrderedAt` | core/apps/dynode/src/node_service.rs:266-288 | for every hash and position: the first url stays first and with three or more the fallback at i is the one i - 1 + hash places on, around the tail |
| `NodeFailover.ToFrontAt` | core/apps/dynode/src/node_service.rs:267-270 | the current node and the first url change places, everything else stays |
| `NodeFailover.EveryFallbackCanLead` | core/apps/dynode/src/node_service.rs:276-288 | every fallback is second in line for some request hash |
| `NodeFailover.RotateFallbackUrls` | core/apps/dynode/src/node_service.rs:276-288 | in place, the first url stays and the others turn left by the hash offset |
| `NodeFailover.GetOrderedUrls` | core/apps/dynode/src/node_service.rs:266-274 | the in-place swap and rotation give the specified order, for every list |
| `NodeFailover.ForwardWithRetry` | core/apps/dynode/src/node_service.rs:109-189 | urls tried are a prefix, the answer is the first response that does not match, retries are the attempts before the last, the monitor hears only of the first url and not for a cached response, the final data is the latest matching body |
| `NodeFailover.ExplanationUnique` | core/apps/dynode/src/node_service.rs:109-189 | the upstreams' answers leave exactly one possible outcome, list of attempts, retries and reports |
| `NodeFailover.HandleRequest` | core/apps/dynode/src/node_service.rs:94-192 | refusals contact nobody, a lone upstream is proxied without bookkeeping, otherwise the current node goes first and no url is tried more often than listed |
| `Staking.FloorSplit` | core/crates/gem_bsc/src/encode.rs:89-91 | flooring two amounts separately loses at most one share |
| `Staking.SumSharesBounds` | core/crates/gem_bsc/src/encode.rs:89-91 | flooring any list loses fewer shares than its length |
| `Staking.PiecewiseUnstake` | core/crates/gem_bsc/src/encode.rs:67-91 | amounts within the balance take at most all shares, lose fewer than their count against one amount, and the full balance takes all shares |
| `Staking.SharesFitExactly` | core/crates/gem_bsc/src/encode.rs:89-91 | the conversion succeeds exactly when amount x shares is below 2^256 x balance, so never on a zero balance |
| `Staking.OwnSharesFit` | core/crates/gem_bsc/src/encode.rs:89-91 | an amount within the balance always converts, to at most the delegation's shares |
| `Staking.MappedBalancesAgree` | core/crates/gem_bsc/src/mapper.rs:11-24 | at any clock the active entries sum to the staked total and the others to the pending total |
| `Staking.MappedInFull` | core/crates/gem_bsc/src/mapper.rs:37-68 | every entry keeps delegator, validator, amount and shares of what it came from, delegations first, and its state follows its completion date |
| `Staking.CompletionInFull` | core/crates/gem_bsc/src/mapper.rs:51 | the completion date is the unlock time read as a signed 64-bit number, when a date can hold it |
| `Staking.StatesOnlyAdvance` | core/crates/gem_bsc/src/mapper.rs:50-68 | over time an entry keeps all but its state, which changes only from deactivating to awaiting withdrawal and exactly at its completion date |
| `IdentifierCase.SplitWords` | core/bin/generate/src/remote_mappers.rs:254-269 | the words partition the name, none is empty, and rendered they are the name lowered except at word starts |
| `IdentifierCase.UniffiSwiftCase` | core/bin/generate/src/remote_mappers.rs:254-277 | the converter lowers every character but a capital after the first with a lower-case neighbour |
| `IdentifierCase.SwiftCaseAt` | core/bin/generate/src/remote_mappers.rs:234-249 | lowers the capitals a name begins with, except, after the first, the one a lower-case letter follows, and nothing else |
| `IdentifierCase.UniffiCaseAt` | core/bin/generate/src/remote_mappers.rs:254-277 | keeps a capital after the first character with a lower-case neighbour and lowers everything else |
| `IdentifierCase.LettersInFull` | core/bin/generate/src/remote_mappers.rs:236-246 | the ASCII letters by number |
| `IdentifierCase.OnlyCaseChanges` | core/bin/generate/src/remote_mappers.rs:234-277 | both converters change nothing but letter case |
| `IdentifierCase.DistinctStayDistinct` | core/bin/generate/src/remote_mappers.rs:234-277 | names that differ in more than case stay different |
| `IdentifierCase.AgreeExactly` | core/bin/generate/src/remote_mappers.rs:251-277 | on letters the converters agree exactly when no inner acronym occurs |
| `IdentifierCase.AgreeWithoutAdjacentCapitals` | core/bin/generate/src/remote_mappers.rs:251-277 | they agree on every name of letters without two adjacent capitals |
| `Lists.DedupKeepsFirsts` | core/crates/gem_api/src/device_client.rs:125-129 | the deduplicated list has the same elements, each once, in order of first appearance |
| `Pagination.ExtendNames` | core/crates/gem_api/src/device_client.rs:125-129 | the inner loop keeps the names deduplicated over all pages so far |
| `Pagination.GetTransactions` | core/crates/gem_api/src/device_client.rs:107-137 | success is the concatenation of pages fetched at the running offset, all but the last full, ending at a short page or the cap; failure is a failed request after fewer than the cap of full pages |
| `Pagination.DownloadUnique` | core/crates/gem_api/src/device_client.rs:107-137 | the server's answers leave exactly one list of pages and one result |
| `Pagination.StableDownload` | core/crates/gem_api/src/device_client.rs:107-137 | pages cut from an unchanging list, fetched to a short page or the cap, concatenate to its first min(length, 100 x 100) transactions, in order |
| `Pagination.StableResult` | core/crates/gem_api/src/device_client.rs:107-137 | whatever the download returns, against an unchanging list it is a success with the first min(length, 100 x 100) transactions |
| `BalanceDiff.DetectedExactly` | core/crates/chain_primitives/src/balance_diff.rs:14-47 | a swap is reported exactly when the non-zero diffs are one loss and one gain and the loss is not a bare native fee |
| `BalanceDiff.OrderAndZerosIgnored` | core/crates/chain_primitives/src/balance_diff.rs:14-47 | diffs that agree as a collection once zeros are dropped give the same result |
| `BalanceDiff.SentValueConserved` | core/crates/chain_primitives/src/balance_diff.rs:49-57 | the loss is the sent value plus the fee when native and covering it, otherwise the value; likewise the gain, as coded |
| `Payment.PaymentDestination` | core/gemstone/src/payment.rs:167-189 | the filter, the match and the chain loop compute the specified route |
| `Payment.DirectConfirmExactly` | core/gemstone/src/payment.rs:191-280 | direct routing confirms exactly the transfer with the requested asset, a valid checksummed address, the exact value, and a non-empty memo on memo chains |
| `Payment.ReviewInFull` | core/gemstone/src/payment.rs:215-230 | what goes to review keeps memo, references and a decimal amount, at the checksummed address |
| `Payment.DirectKinds` | core/gemstone/src/payment.rs:191-196 | direct routing refuses exactly another asset than the requested one |
| `Payment.MemoChains` | core/gemstone/src/payment.rs:259-273 | memos are needed on Cosmos, Ton, Xrp, Stellar and Algorand and nowhere else |
| `Payment.SinglePayableIsDirect` | core/gemstone/src/payment.rs:167-196 | with one payable asset the wallet route is direct routing on it |
| `Payment.ConfirmSound` | core/gemstone/src/payment.rs:167-213 | a wallet-wide Confirm is the requested transfer on the only asset that can pay, at an address that is valid and its own checksum |
| `Payment.RouteKinds` | core/gemstone/src/payment.rs:167-189 | unsupported exactly when nothing can pay, a choice exactly when several entries can |
| `Payment.ChoiceInOrder` | core/gemstone/src/payment.rs:176-189 | offered chains are those of the payable assets, each once, in order of first appearance |
| `Payment.ChoiceInFull` | core/gemstone/src/payment.rs:182-186 | a choice of assets keeps memo, references and a decimal amount, with the address as written |
| `Payment.UnpayableIgnored` | core/gemstone/src/payment.rs:167-171 | an asset that cannot pay changes nothing, wherever it stands |
| `Payment.ValueExactly` | core/gemstone/src/payment.rs:275-280 | the value is the atomic amount, or the decimal amount times ten to the decimals without rounding, and nothing else |
| `Payment.PowersOfTen` | core/crates/number_formatter/src/big_number_formatter.rs:74 | the multiplier is ten to the decimals |
| `Payment.ChecksumIdempotent` | core/gemstone/src/address.rs:22-28 | checksumming a checksummed address changes nothing |
| `Payment.ChecksumInFull` | core/gemstone/src/address.rs:22-28 | only EVM chains change an address beyond trimming it |
| `Payment.TrimExactly` | core/gemstone/src/address.rs:23 | trimming drops the white space at both ends and nothing else |
| `Payment.SpacesInFull` | core/gemstone/src/address.rs:23 | the white space characters by number |
| `Payment.PaddingIgnored` | core/gemstone/src/payment.rs:191-230 | white space around the address never changes a direct route |

## Left out

- User interface, build configuration, HTTP servers, provider and RPC clients, metrics registries: plumbing with little state.
- SHA-256, Ed25519, BLAKE2b, EVM checksums, address validators, the decimal reader, the request hash and JSON: parameters, with only the laws a result needs; serialized values are taken to read back as written.
- Hex decoding accepts an optional 0x prefix, as the hex library does; Base64 is the standard alphabet with required padding and zero trailing bits.
- Store: sets, publish, MGET and range commands are not modelled; a counter is never serialized data; 64-bit overflow of counters and TTLs is not modelled; a command that fails is one that did not run, except the late writes of AccessToken.
- AccessToken, DrainQueue and FiatQuotes are state machines on values, because their steps interleave; update in place and object identity are captured only for the fiat client, the limiter, the nonce client and the store client.
- AccessToken: one cacher instance per key, starting without an entry at that key; several processes sharing a token key have no common lock and are not covered; a late write reaches the store once or never; durations are whole milliseconds.
- DrainQueue: scores are reals without NaN, and ties in ZPOPMIN may come in any order.
- FiatQuotes: calls on quotes do not overlap, since the code has no lock across calls; provider lookup, wallet address lookup and the provider's answer are one oracle; a failed write-back is one that did not run; when the cached quote has no country, the look-up of the caller's address may write its own cache entry (`fiat:ip_check:..`), which is not part of the call here; the provider's order id is not serialized into the cached url, so only the redirect url is compared.
- PendingRows: of a row only its two unique indexes matter; rows deleted with their device, wallet or asset are not modelled.
- SingleUse: nonce texts are parameters; freshness of random UUIDs is a premise of ConsumedAtMostOnce only; device ids are colon-free.
- Cbor: bitwise or of a shifted type and a small argument is written as addition; text is its bytes, and the reader does not check UTF-8; negative integers, floats and indefinite lengths are not written by the source.
- CardanoTx: coin selection, fee estimation and signing.
- NodeFailover: response matching, JSON parsing, log lines and the monitor's own logic; a monitor report is recorded as url and failure flag, a retry metric as url.
- Staking: ABI encoding of the stake calls, validators, rewards; the representable date range is that of the date library.
- IdentifierCase: names are ASCII; the other converters (snake and camel case) and the generated text.
- Pagination: the server is a function of the offset; a list that changes between requests is covered by GetTransactions only.
- Payment: payment links, url decoding and conversion to transfer data.
- BalanceDiff.SentValueConserved: on the received side the fee is subtracted too, as the code does, although the fee was paid and not received.
