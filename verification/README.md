# Verified models of BybitFlow's stateful core

BybitFlow watches exchanges, turns market data into trade setups and posts cards about them to
Discord. This project models the parts of it that keep state over long runs, and proves what those
parts promise. Each Dafny module follows one source file or one class of it.

| files | what they model |
|---|---|
| `Delivery`, `ExecutionEvents`, `Notifier` | the at-most-once delivery of Discord cards: economic claim, outbox row and dispatch flag, shared by any number of processes that may stop after any statement |
| `OrderBook`, `NativeStreams` | the local order book, its sequence rules, and the Binance depth session, against an exchange given as a function from update id to quantities |
| `ValueArea`, `Tape`, `EventFeatures` | the order-flow structures that stay bounded while a ghost history records everything they ever saw |
| `OrderedDict`, `DbRuntime`, `DnsMessage`, `DnsProxy` | the capped write-behind map for diagnostics and the DNS answer cache that rewrites bytes in place |
| `Leases`, `Packing` | reader and writer leases over receipt ranges, and lossless compaction with publish before delete |
| `Bars`, `Reconciliation`, `Lifecycle`, `PathResearch`, `Quality`, `Backtest` | one frozen plan followed by candles, by trades, under four stop policies, as a structural event, and as a hypothetical position |
| `Ranks`, `Holm`, `Spearman` | tie-averaged ranks, Holm's adjustment and Spearman's coefficient |

## How the source is rendered

- One SQLite transaction is one atomic step, and so is the code between two awaits. In `Delivery` a
  step is one statement of `deliver` or `deliver_initial`; the theorems quantify over every finite
  sequence of starts, steps and crashes of every process.
- Answers from outside the modelled state (guards, last-mile checks, HTTP, the write to a busy
  table, the clock, refreshed quantiles) arrive as arguments, so a theorem holds for all of them.
- `Decimal` and `float` are exact reals. Digests and fingerprints are opaque keys.
- What the source updates in place is a class whose methods are proved against functions on values;
  the lemmas are about those functions. Sequences that grow are folded from their end, as the loops do.
- Python's `max`, `min`, `sorted` and `in` are written out. Floor division agrees with Dafny's for
  the positive divisors used here.

## Where the code does less than one might expect

Each of these has a theorem that says exactly when the promise holds, and a concrete run or a
construction of runs for the failing side.

1. `identity.claim` refuses a setup whose execution event already has a live claim, but only when it
   inserts, only for setups of the current trade-quality policy, and only against members whose state
   is not final. The claims of two setups are never live together exactly when none is granted beside
   the other (`ExecutionEvents.EventExclusion`). A claim granted beside a live sibling was re-armed, or
   is of another policy, or has a sibling the scan did not list (`ExecutionEvents.WaysPast`). Setups
   that recognise each other are never live together exactly when neither is re-armed beside the other
   (`ExecutionEvents.RecognisedExclusion`), and `ExecutionEvents.RetryBypassesTheEventCheck` is a run
   in which re-arming posts both cards. The fingerprint itself stays exclusive in every run.
2. `compact` enters its exclusive leases one by one and then beats them in passes, and a beat does not
   check that its own row has not expired. A timing of these calls admits only disjoint ranges exactly
   when no two leases of the list take turns a whole lease lifetime apart from beginning to end
   (`Leases.PackedRangesDisjoint`, for a list of any length, any number of passes and any other
   processes). Every timing that does has a pack, with its last pass forced as in the code, that
   ends with two identical ranges (`Leases.SlowPassPacksOverlap`), and one pass in less than a
   lifetime is enough to exclude it (`Leases.QuickPassIsDisjoint`).
3. `path_research.advance` closes a job only when a candle ends exactly at its deadline
   (`PathResearch.ClosesAtTheDeadlineOnly`). A deadline that is not on a whole minute is therefore
   never met by one-minute candles (`PathResearch.OffMinuteDeadlineNeverCloses`).
4. `value_area` marks a missing neighbour with -1. The body of its loop stays inside the profile
   from every interval exactly when every level above the lowest is more than -1 and every level
   below the highest is at least -1 (`ValueArea.SentinelChosen`). Which of these intervals a run
   reaches depends on its point of control; the volumes it is given are nonnegative.
5. A hypothetical position closes when less than 1e-10 is left. Nothing can change it afterwards
   exactly when nothing at all is left; with a rest, funding still accrues
   (`Backtest.FinalExactlyWithoutDust`). Every rest below 1e-10 is reached by a run of two prints, for
   every setup that can be traded (`Backtest.DustIsReachable`). Fills, values and fees are settled
   either way.
6. `reconcile` asks for the candles from its cursor's minute on, attempt after attempt. That leaves
   exactly what one request over the whole stream leaves if and only if no candle starts inside the
   minute of an earlier well-formed whole-minute one (`Reconciliation.AttemptsInvisibleExactly`);
   where one does, the second attempt never sees it and says EXPIRED, while one request is stuck at it
   (`Reconciliation.CandleInsideIsPassed`). Pages that are cut and delivered again anywhere, from any
   cursor, leave the cursor, entry, coverage, verdict and ambiguity of one call exactly for streams on
   whole minutes (`Reconciliation.PagesInvisibleExactly`). Only the reason for a halt is that of the
   last page (`Reconciliation.ReasonMayDiffer`).
7. EXPIRED rules out a stop before the deadline, for every trade and every monitor, exactly when the
   deadline is on a whole minute (`Lifecycle.ExpiryIsFinalExactly`): no candle is asked about the
   minute that the deadline cuts, and a trade there may touch the stop (`Lifecycle.LateStop`).

## Model

| member | source | states |
|---|---|---|
| `Delivery.AtMostOncePerKey` | src/bybit_flow/notifications.py:811-928 | over every interleaving of calls, crashes and retries, an outbox key is posted at most once |
| `Delivery.AtMostOncePerFingerprint` | src/bybit_flow/identity.py:188-256 | across all setups, channels, processes, crashes and blocked retries, one economic fingerprint gets at most one initial card |
| `Delivery.PostedRowNeverRetried` | src/bybit_flow/notifications.py:811-842 | once a key was posted, in every continuation its row carries an attempted status, so neither the insert nor the compare-and-set can take it again |
| `Delivery.PostedClaimNeverGranted` | src/bybit_flow/identity.py:225-245 | once a fingerprint was posted, no later claim on it is granted to any setup |
| `Delivery.StoredStatusIsTrue` | src/bybit_flow/notifications.py:851-928 | a row that says sent, rejected or rate-limited was posted exactly once, and a row with a blocking reason never |
| `Delivery.RowTellsTheAnswer` | src/bybit_flow/notifications.py:903-928 | over every run, a recorded row says sent exactly when the one post of its key was answered with a code in 200..299, rate-limited exactly for 429, rejected exactly for any other code, and uncertain when a post got no code; a row that was not posted says none of the first three |
| `Delivery.ClaimTellsTheAnswer` | src/bybit_flow/notifications.py:745-773 | over every run, the claim of a posted fingerprint is still open or reports the answer to its one post in the same way |
| `Delivery.PossibleCardBlocksSiblings` | src/bybit_flow/identity.py:209-228 | a card that was accepted or got no answer goes on blocking the claim of every setup that sees its own |
| `Delivery.RowStep` | src/bybit_flow/notifications.py:827-942 | every statement of every process keeps: one owner per row, its row says sending, and after the POST the owner can only record |
| `Delivery.ClaimStep` | src/bybit_flow/notifications.py:709-771 | every statement keeps: one holder per claim, its claim says sending, and after the POST the claim carries an attempted status |
| `Delivery.DecisionRowLegal` | src/bybit_flow/notifications.py:811-928 | what any statement may do to an outbox row: take it when free or blocked, or write its own final status; only the sender posts |
| `Delivery.DecisionClaimLegal` | src/bybit_flow/identity.py:225-234 | what any statement may do to a claim: set it to sending when free or blocked, or report the delivery status at the end |
| `ExecutionEvents.EventExclusion` | src/bybit_flow/identity.py:188-234 | over every run, the claims of two setups are never live together if and only if neither is ever granted while the other is live |
| `ExecutionEvents.EventStep` | src/bybit_flow/identity.py:204-234 | one statement makes both claims live if and only if it grants one beside the other |
| `ExecutionEvents.WaysPast` | src/bybit_flow/identity.py:163-234 | a claim granted beside a live one is a re-armed one, a setup of another policy, or one whose scan did not list the other |
| `ExecutionEvents.RecognisedOnlyRearms` | src/bybit_flow/identity.py:209-234 | between two setups that recognise each other as one event, a claim is granted beside a live one if and only if it is a blocked one re-armed there |
| `ExecutionEvents.RecognisedExclusion` | src/bybit_flow/identity.py:188-234 | over every run in which two setups recognise each other, they are never live together if and only if neither is re-armed beside the other's live claim |
| `ExecutionEvents.RetryBypassesTheEventCheck` | src/bybit_flow/identity.py:229-234 | a concrete recognised run that posts the cards of two setups of one event |
| `Notifications.Notifier.DeliverInitial` | src/bybit_flow/notifications.py:709-773 | the method leaves exactly the records of a run of the step relation; it is granted exactly by the claim rule, posts exactly when granted, available and cleared, and the claim ends with the returned status, which reports the answer of a posted card |
| `Notifications.Notifier.Deliver` | src/bybit_flow/notifications.py:811-928 | the method is a run of the step relation; it posts one card exactly when the row is available and every guard passes, and a posted card returns and stores sent, rate-limited, rejected or uncertain as the answer's code, or its absence, says |
| `Notifications.Notifier.Dispatch` | src/bybit_flow/notifications.py:841-928 | from the taken row to the recorded status: posted or refused, and a posted row reports the answer's code or its absence |
| `Notifications.Notifier.Look` | src/bybit_flow/notifications.py:811-819 | a row is available exactly when free or safely retryable (blocked and flag false), and otherwise already attempted |
| `Notifications.Notifier.TakeRow` | src/bybit_flow/notifications.py:827-842 | the row is taken by insert or by compare-and-set of a blocked row, and the flag is disarmed |
| `Notifications.Notifier.ClearAgain` | src/bybit_flow/notifications.py:884-893 | a refusal after the flag withdraws the flag before the row gets its reason |
| `OrderBook.Book.Apply` | src/bybit_flow/orderflow.py:35-73 | a message is overlaid exactly or the book is reset; an accepted book is two-sided, uncrossed and positive |
| `OrderBook.Book.OverlaySide` | src/bybit_flow/orderflow.py:51-62 | one side is the overlay of its absolute rows in order, and is refused exactly when some row is invalid |
| `OrderBook.OverlayPositive` | src/bybit_flow/orderflow.py:53-62 | valid rows never leave a non-positive price or quantity |
| `OrderBook.AcceptedMeans` | src/bybit_flow/orderflow.py:35-73 | a message is accepted if and only if it is a snapshot or moves a valid book forward, its rows are valid, and the sides it leaves are populated and not crossed |
| `NativeStreams.BookEqualsExchange` | src/bybit_flow/native_streams.py:27-76 | refinement: after any accepted run of snapshots and deltas the book holds, on every named price, the exchange's quantity at the last accepted id, and no other price |
| `NativeStreams.ReceiveKeepsAgreement` | src/bybit_flow/native_streams.py:27-76 | one message of either venue keeps that agreement, validity and the rewritten counter |
| `NativeStreams.SideAgrees` | src/bybit_flow/native_streams.py:63-64 | overlaying an honest message moves one side from the exchange at the last id to the exchange at the new id, replayed quantities included |
| `NativeStreams.AdmittedDeltaContinues` | src/bybit_flow/native_streams.py:30-53 | an admitted delta of either venue leaves no update between the last accepted id and itself |
| `NativeStreams.AdmittedExactly` | src/bybit_flow/native_streams.py:30-53 | a delta that meets its venue's rule on U, u, pu or prevSeqId goes to the book, one the snapshot already contains is ignored, and every other one is a gap |
| `NativeStreams.LocalCounterNeverTrips` | src/bybit_flow/native_streams.py:55-68 | with the rewritten counter, Book.apply never takes a delta for a stale one or a snapshot: it refuses only for its rows or for the book they leave |
| `NativeStreams.OnlyAnEmptySideIsRefused` | src/bybit_flow/native_streams.py:30-76 | an honest delta of an uncrossed exchange that meets its venue's rule is accepted if and only if both sides still rest on named prices within 6000 levels, and is a gap otherwise |
| `NativeStreams.OpenExactly` | src/bybit_flow/native_streams.py:27-76 | a session over a snapshot and any number of honest deltas without a hole stays open if and only if, after every message, both sides of the exchange rest on named prices within 6000 levels |
| `NativeStreams.SnapshotAccepted` | src/bybit_flow/native_streams.py:54-75 | an honest snapshot of an uncrossed exchange is accepted if and only if both its sides rest on prices within 6000 levels |
| `NativeStreams.SequencedBook.Apply` | src/bybit_flow/native_streams.py:27-76 | the method computes the admission, the overlay, the depth budget and the bridge flag of the laws above |
| `NativeStreams.BufferedDelta` | src/bybit_flow/native_streams.py:340-346 | a buffered delta is skipped before the bridge or fed, and a valid book is bridged |
| `NativeStreams.BinanceDepth` | src/bybit_flow/native_streams.py:328-347 | the session replays its snapshot and deltas exactly, so the refinement holds of its book, and a book that qualifies is bridged and without a gap |
| `ValueArea.ValueArea` | src/bybit_flow/orderflow.py:185-204 | the area is the first greedy expansion from the point of control that holds the fraction of the whole volume, contiguous, in range, containing the point of control |
| `ValueArea.AreasNest` | src/bybit_flow/orderflow.py:194-203 | the area of a smaller fraction is contained in the area of a larger one |
| `ValueArea.GrowIsGreedy` | src/bybit_flow/orderflow.py:196-203 | each expansion takes the larger neighbour, the lower price on a tie |
| `ValueArea.NextAdds` | src/bybit_flow/orderflow.py:198-203 | an expansion adds exactly the volume of the level it takes |
| `ValueArea.SentinelChosen` | src/bybit_flow/orderflow.py:196-199 | the body of the loop, entered with any interval, stays inside the profile from every one if and only if every level but the lowest is above -1 and every level but the highest at least -1 |
| `ValueArea.Expand` | src/bybit_flow/orderflow.py:193-203 | the loop terminates with the first interval that reaches a reachable target |
| `ValueArea.PointOfControl` | src/bybit_flow/orderflow.py:192 | the largest volume, the lowest price on a tie |
| `Tape.Tape.Add` | src/bybit_flow/orderflow.py:361-381 | each of the five outcomes with the whole new tape: the deque, its id index, the watermark and the history |
| `Tape.Tape.InWindow` | src/bybit_flow/orderflow.py:383-384 | from coverage_start on, a window is exactly the filter over all accepted trades, evicted ones included |
| `Tape.RetainedWindow` | src/bybit_flow/orderflow.py:371-372 | the retained suffix answers every window past the watermark as the whole history would |
| `Tape.PushKeeps` | src/bybit_flow/orderflow.py:371-377 | retention, order and the exact id index survive an append, with or without eviction |
| `Tape.Tape.Evict` | src/bybit_flow/orderflow.py:371-376 | the index loses exactly the evicted trade's id, and the watermark moves past it and never back |
| `EventFeatures.Features.Add` | src/bybit_flow/event_features.py:31-110 | a print is refused exactly when foreign, early or without notional; otherwise history, baseline and quantiles move as stated, the row of its second counts and classifies it, and the invariant is kept |
| `EventFeatures.Features.Snapshot` | src/bybit_flow/event_features.py:112-147 | covered: the count is that of all prints ever added in the window; ready: bucket totals of each side sum to exactly the window's notional |
| `EventFeatures.PrintedKnows` | src/bybit_flow/event_features.py:60-70 | counting and classifying one print keeps every aligned window of the rows exact |
| `EventFeatures.PrintEntersItsBucket` | src/bybit_flow/event_features.py:41-70 | a classified print adds its notional to one bucket of its own side, between the quantiles below it and those that are not, and to no other |
| `EventFeatures.BucketIs` | src/bybit_flow/event_features.py:41 | a print's bucket is the number of quantiles below its notional: those before it, and none after |
| `EventFeatures.OpenedKnows` | src/bybit_flow/event_features.py:41-59 | opening a second, with eviction of the oldest, keeps every aligned window past the new watermark exact |
| `EventFeatures.SpinKeeps` | src/bybit_flow/event_features.py:71-106 | closed rotations cover back-to-back runs of the history, each ending at the print that first reached its threshold, and the open one covers everything since |
| `EventFeatures.OverIs` | src/bybit_flow/event_features.py:71-92 | the rotation over a run of prints holds their number, what both sides traded, by how much buying exceeds selling, the distance the price went, and where it began and ended |
| `EventFeatures.Efficiency` | src/bybit_flow/event_features.py:103 | a rotation's efficiency lies in [0, 1], by the triangle inequality over its path |
| `EventFeatures.TurnOk` | src/bybit_flow/event_features.py:85-90 | a print keeps displacement within path and delta within notional |
| `DbRuntime.MetadataWriter.Offer` | src/bybit_flow/db_runtime.py:134-152 | critical keys are refused; a queued row is what readers see, in the stated order; with room for the nine global names no global row is evicted |
| `DbRuntime.MetadataWriter.Flush` | src/bybit_flow/db_runtime.py:158-184 | the oldest row is stored, requeued last or given up; the number stored for a key strictly grows |
| `DbRuntime.MetadataWriter.OnlyGlobalsPending` | src/bybit_flow/db_runtime.py:10-22 | with only global rows pending and a new global key, fewer than nine rows are pending |
| `DbRuntime.MetadataWriter.MakeRoom` | src/bybit_flow/db_runtime.py:139-150 | at capacity the oldest local row gives way, and a global one only when there is no local row and capacity is below nine |
| `DbRuntime.VictimIsOldest` | src/bybit_flow/db_runtime.py:139-150 | the row that gives way is the oldest that is not global, or the oldest of all when every row is, and the others keep their order |
| `OrderedDict.Pigeonhole` | src/bybit_flow/db_runtime.py:10-22 | distinct names drawn from a list are no more than the list is long |
| `DnsMessage.AnswerReparses` | deploy/dns_proxy.py:34-53 | rewriting the TTLs of a cacheable answer leaves a message that parses to the same field offsets, each with its lowered TTL |
| `DnsMessage.RecordsReparse` | deploy/dns_proxy.py:43-53 | the same for any run of records, OPT records included |
| `DnsMessage.RecordsSeparated` | deploy/dns_proxy.py:43-50 | the TTL fields lie inside the message, past the names they follow, and never overlap |
| `DnsMessage.FieldsAreTtls` | deploy/dns_proxy.py:43-53 | an offset is rewritten if and only if it stands four bytes past the type of a record, delimited by names and lengths alone, whose type is not 41; the reply is malformed if and only if its names and lengths do not delimit its records |
| `DnsMessage.OptIsUntouched` | deploy/dns_proxy.py:46-47 | no byte of an OPT record lies in a rewritten field |
| `DnsMessage.NameEndsExactly` | deploy/dns_proxy.py:18-31 | a name ends at an offset if and only if labels below 64 bytes lead to a zero byte or to a pointer into the message just before it |
| `DnsMessage.AnswersBits` | deploy/dns_proxy.py:36-40 | a reply is positive if and only if the TC bit and the response code are clear, QDCOUNT is 1 and ANCOUNT is not 0 |
| `DnsMessage.SkipNameAgrees` | deploy/dns_proxy.py:18-31 | a name whose bytes are untouched ends at the same offset |
| `DnsProxy.Serve` | deploy/dns_proxy.py:67-72 | in place: the id and the TTLs are rewritten, every other byte is the stored one |
| `DnsProxy.FreshTtlsPositive` | deploy/dns_proxy.py:63-71 | before expiry every served TTL is positive and lowered by the same elapsed seconds |
| `DnsProxy.ServeEntry` | deploy/dns_proxy.py:61-72 | a served answer has the query's id, the stored bytes outside the fields, the same parse, and no TTL of zero |
| `DnsProxy.CacheableExactly` | deploy/dns_proxy.py:83-91 | a reply is stored if and only if it is positive and well formed, has a record besides OPT, and every such record has a positive TTL |
| `DnsProxy.OptServedUnchanged` | deploy/dns_proxy.py:67-72 | a served answer carries every byte of a stored OPT record as it was |
| `DnsProxy.Cache.CachedAnswer` | deploy/dns_proxy.py:56-72 | served exactly while not expired and then most recent; an expired entry is dropped; nothing else changes |
| `DnsProxy.Cache.Store` | deploy/dns_proxy.py:94-97 | the entry becomes the most recent, and beyond the limit exactly the least recently used one goes |
| `DnsProxy.Cache.Resolve` | deploy/dns_proxy.py:75-98 | whatever is returned carries the query's id; an answer is cached exactly when it is well formed and positive with records besides OPT, all with a positive TTL, and then for a minute or its shortest TTL if that is less |
| `Leases.NeverInConflict` | src/bybit_flow/leases.py:34-97 | through acquire, renew with an advancing start, release, expiry, late renewal and reap, two live overlapping leases are both shared |
| `Leases.ReapKeepsLive` | src/bybit_flow/leases.py:89-97 | reaping keeps every live row and archives every expired one it removes |
| `Leases.LeaseSurvives` | src/bybit_flow/leases.py:34-78 | while its owner does nothing, a lease stays as it is until it expires, whatever others do |
| `Leases.RefusedExactly` | src/bybit_flow/leases.py:48-60 | a beat is refused if and only if another live row meets its range, ends included, and one of the two is exclusive |
| `Leases.SharedNeverBlocks` | src/bybit_flow/leases.py:48-60 | a shared lease among shared ones is never refused |
| `Leases.BeatKeepsAlive` | src/bybit_flow/leases.py:34-70 | a beat that is not refused, skipped or not, leaves the row alive for more than another 150 seconds |
| `Leases.PairAlternates` | src/bybit_flow/leases.py:34-70 | two overlapping leases of one list only go on together while each call of the one comes a whole lifetime after the last call of the other |
| `Leases.PackedRangesDisjoint` | src/bybit_flow/packing.py:98-161 | for a whole lease list, any number of passes with the last one forced, and any other processes: a timing of the calls admits only disjoint ranges if and only if no two leases take turns a whole lifetime apart from beginning to end |
| `Leases.SlowPassPacksOverlap` | src/bybit_flow/packing.py:98-161 | every timing in which two leases do so is one of a pack, its entering and last passes forced, in which no call raises and the two ranges are the same |
| `Leases.QuickPassIsDisjoint` | src/bybit_flow/packing.py:98-139 | one pass over the list in less than a lifetime, entering or beating, leaves only disjoint ranges |
| `Leases.RangeLease.Heartbeat` | src/bybit_flow/leases.py:34-70 | the method is exactly the renewal step, raises exactly when that step is denied, and keeps the absence of conflicts |
| `Leases.LeaseStore.Reap` | src/bybit_flow/leases.py:89-97 | the method is exactly the reaping step |
| `Leases.LeaseStore.Overlaps` | src/bybit_flow/leases.py:17-25 | a range overlaps exactly when an exclusive lease on it would be refused |
| `Packing.Segments.PackVerified` | src/bybit_flow/packing.py:132-171 | wherever the process stops, every reader gets the same bytes and the same manifest content as before; the originals are gone if and only if everything was stored faithfully and nothing stopped it, and then the archive holds all three files of every segment |
| `Packing.PublishedDeletionIsInvisible` | src/bybit_flow/packing.py:34-53 | with one manifest in the sidecar and in the table, publishing verified copies and deleting any part of the originals changes no bytes and no manifest content for any reader |
| `Packing.ArchivingIsInvisible` | src/bybit_flow/packing.py:136-146 | a half-written or corrupt archive is invisible as long as it is unpublished |
| `Packing.Segments.Verify` | src/bybit_flow/packing.py:147-151 | verification succeeds if and only if every archived file has its original's bytes |
| `Bars.SortByStartSorts` | src/bybit_flow/reconciliation.py:25 | sorting by start orders the candles and keeps every one of them |
| `Bars.Sort` | src/bybit_flow/path_research.py:140 | the insertion loop computes that stable sort |
| `Reconciliation.CandlesNeverHideAStop` | src/bybit_flow/reconciliation.py:23-82 | for candles that contain the trades of their minutes, with or without trades: no trade at the stop lies in a checked minute before the stop's candle, whatever the verdict, and no minute is missing; a stop candle whose extremes were traded holds a trade at the stop |
| `Reconciliation.EntryMeans` | src/bybit_flow/reconciliation.py:39-49 | for a call that starts without an entry: it is entered at e if and only if the first candle it moved over that starts by the end of the trigger and whose range meets the zone ends at e, and has no entry if and only if there is no such candle |
| `Reconciliation.VerdictMeans` | src/bybit_flow/reconciliation.py:37-58 | STOP or TARGET if and only if a candle the call moved over touches the stop, or the target of a current plan entered before it; the verdict is that of the first such candle, the stop first, and ambiguous if and only if it touches both or began before the cursor |
| `Reconciliation.ExpiresExactly` | src/bybit_flow/reconciliation.py:61-81 | EXPIRED if and only if nothing halted or decided the call, the deadline has come and the cursor has reached its minute; covered as far as the call could see |
| `Reconciliation.TouchMeans` | src/bybit_flow/reconciliation.py:37-38 | a candle touches the stop if and only if some price of its range is at or beyond it on the losing side, and a target on the winning side |
| `Reconciliation.TargetMeans` | src/bybit_flow/reconciliation.py:40-58 | TARGET has an entry older than its candle, found in the call by a candle that meets the zone, a candle that reaches the target, by a trade of that minute when its extremes were traded, and no trade at the stop before its end |
| `Reconciliation.ExpiryMeans` | src/bybit_flow/reconciliation.py:61-81 | EXPIRED has seen every whole minute to the deadline, quiet ones included, and no trade at the stop in any of them |
| `Reconciliation.PagingInvisible` | src/bybit_flow/reconciliation.py:23-61 | the two-page step: after a page without verdict or gap, a page that may deliver candles again gives exactly the result of one call over all candles |
| `Reconciliation.PagesInvisible` | src/bybit_flow/reconciliation.py:10-82 | however candles that fit the cursor are split into ordered pages, redelivered candles, gaps, bad candles and verdicts included, the run leaves the cursor, entry, coverage, verdict and ambiguity of one call over all of them; for other candles the same while no page is broken off |
| `Reconciliation.PagesInvisibleExactly` | src/bybit_flow/reconciliation.py:10-82 | for every plan, cursor and paging the run leaves that of one call if and only if every candle starts on a whole minute |
| `Reconciliation.ReasonMayDiffer` | src/bybit_flow/reconciliation.py:29-38 | a candle after a gap halts a page with a reason, which an empty page after it does not repeat |
| `Reconciliation.ReconciledAsOne` | src/bybit_flow/reconciliation.py:85-161 | with no candle inside the minute of another, any number of attempts, each asking from its stored cursor's minute on, leave exactly the result of one request |
| `Reconciliation.CandleInsideIsPassed` | src/bybit_flow/reconciliation.py:23-38 | for every usable candle followed by one inside its minute: two attempts as each closes say EXPIRED, while one request over both stays open |
| `Reconciliation.AttemptsInvisibleExactly` | src/bybit_flow/reconciliation.py:85-161 | for every plan, cursor and attempts the run leaves the result of one request if and only if no candle starts inside the minute of an earlier well-formed whole-minute one |
| `Reconciliation.AdvanceLoop` | src/bybit_flow/reconciliation.py:10-82 | the loop with its early returns computes the function the lemmas are about |
| `Lifecycle.NoStopBehindTheCandles` | src/bybit_flow/lifecycle.py:105-148 | whatever trades the monitor watches, its stop is never dated in a minute the candles have cleared, quiet minutes included |
| `Lifecycle.ExpiryIsFinalExactly` | src/bybit_flow/reconciliation.py:61-81 | EXPIRED rules out a trade at the stop, and a stop dated by a monitor, before the deadline if and only if the deadline is on a whole minute |
| `Lifecycle.LateStop` | src/bybit_flow/lifecycle.py:105-148 | for every deadline off the minute: no candles, EXPIRED, and a trade at the stop before the deadline that the monitor reports |
| `Lifecycle.StopSeenByTheMonitor` | src/bybit_flow/lifecycle.py:105-148 | when the candles say STOP, a monitor that saw those trades in time order has a verdict, and its stop lies in that very candle |
| `Lifecycle.EntryIsTheFirstTrade` | src/bybit_flow/lifecycle.py:105-148 | entry is the first watched trade in the zone; a target needs an entry, an alerted plan and a current profile |
| `Lifecycle.WatchMeans` | src/bybit_flow/lifecycle.py:105-148 | what one trade does, told of its price and time: ignored when not yet seen or past the deadline, else the entry in the zone, the touches, and stop before target |
| `Lifecycle.StopVerdict` | src/bybit_flow/lifecycle.py:126-148 | a stop names the first watchable stop-touching trade, and an open verdict means that none was watched |
| `Lifecycle.AdvanceTrades` | src/bybit_flow/lifecycle.py:91-149 | the trades watched are those from the point where none is the last read one or older than the cursor and the one before is, watched forwards |
| `Lifecycle.UnreadExactly` | src/bybit_flow/lifecycle.py:91-98 | on a tape in time order, a trade is unread if and only if it is not before the cursor and the last read trade does not come at or after it |
| `PathResearch.StopPolicyDominance` | src/bybit_flow/path_research.py:188-202 | over every candle sequence: incumbent undecided means all undecided, its target or expiry is everyone's at the same candle, and a wider stop implies an incumbent stop no later |
| `PathResearch.IncumbentIsTheFirstTouch` | src/bybit_flow/path_research.py:167-202 | for a stop on the losing side, the incumbent's outcome is the first touch of the stop or the target, and the aftermath is measured only after the stop |
| `PathResearch.JobIsItsCandles` | src/bybit_flow/path_research.py:140-202 | over every candle sequence, everything a job records is told from the candles it follows: entry and first touches, time, extremes, reclaim and failure after the stop, and for each policy the first candle that decides it with the outcome, ambiguity and net result |
| `PathResearch.FlagsAreItsCandles` | src/bybit_flow/path_research.py:143-171 | covered if and only if no candle leaves a gap or is malformed; ambiguous if and only if the candle around the decision meets a level, the entry candle another one, or a followed candle both the stop and the target |
| `PathResearch.GridIs` | src/bybit_flow/path_research.py:47-85 | the four stops stand their widths away on the losing side: the plan's risk, and the larger of it and the noise, the structure with its margin, and the range |
| `PathResearch.StoppedLosesItsRisk` | src/bybit_flow/path_research.py:189-202 | a stopped policy loses its own risk and the cost |
| `PathResearch.PagingInvisible` | src/bybit_flow/path_research.py:140-202 | the two-page step: pages split anywhere, with candles delivered again, leave the very job of one call over all candles |
| `PathResearch.PagesInvisible` | src/bybit_flow/path_research.py:132-229 | any number of ordered pages, with candles delivered again, leave in the tables the job and the label of one call over all candles, but for the time of the label |
| `PathResearch.ClosesAtTheDeadlineOnly` | src/bybit_flow/path_research.py:140-204 | the cursor reaches the deadline if and only if a candle that ends exactly there was delivered in time |
| `PathResearch.OffMinuteDeadlineNeverCloses` | src/bybit_flow/path_research.py:116-122 | with candles on whole minutes, a deadline off the minute is never met |
| `PathResearch.ClassesAgreeWithTheGrid` | src/bybit_flow/path_research.py:96-129 | a correct thesis means that all four policies took profit, a short horizon that all expired, a tight stop that some wider policy held |
| `PathResearch.Research.Enrol` | src/bybit_flow/path_research.py:25-93 | a grid is frozen once: an ineligible, followed or labelled decision changes nothing |
| `PathResearch.Research.Advance` | src/bybit_flow/path_research.py:132-229 | the tables become exactly those of a visit with the page in start order: the job moves as the walk says, and at the deadline becomes a label that is never written twice |
| `PathResearch.FollowPage` | src/bybit_flow/path_research.py:140-202 | the candle loop computes the walk over the sorted page |
| `Quality.OneCandidatePerAnchor` | src/bybit_flow/quality_v211.py:60-162 | evaluations at any two times that find a valid candidate at one anchor saw the same candles: an event is minted on one prefix only |
| `Quality.EventIdIsTheAnchor` | src/bybit_flow/quality_v211.py:163-212 | evaluations at any times name the same anchor if and only if they give the same event id, and then freeze the same level |
| `Quality.LevelIsTheExtreme` | src/bybit_flow/quality_v211.py:66-68 | the level of a long breakout or a short rejection is the largest high of the twenty candles before the anchor, that of the others their smallest low, and the event's id holds both |
| `Quality.AnchorIsEarliest` | src/bybit_flow/quality_v211.py:60-76 | the anchor is the earliest candle among the last six, or four for a rejection, after the last one taken, at which an event starts against that level |
| `Quality.ValidMeans` | src/bybit_flow/quality_v211.py:60-162 | a structure is valid if and only if its anchor's event completes on the last candle, measured at the extreme of the twenty candles before the anchor and spelled out candle by candle |
| `Quality.RangeCandidate` | src/bybit_flow/quality_v211.py:71-104 | RECLAIMED now: the first close back inside, never two closes in a row outside before it |
| `Quality.ReclaimNeverAccepted` | src/bybit_flow/quality_v211.py:71-104 | for well-formed candles, a valid range candidate never saw two closes in a row behind its level, from the first reference candle on |
| `Quality.BreakoutCandidate` | src/bybit_flow/quality_v211.py:105-157 | RETEST_HELD now: two accepting closes, no touch since, and a last candle that touches and closes beyond |
| `Quality.Structural` | src/bybit_flow/quality_v211.py:60-162 | the anchor loop returns the earliest anchor of its window that has an event |
| `Quality.ClosedIsPrefix` | src/bybit_flow/quality_v211.py:43 | the candles closed by a time are a prefix of the stream |
| `Backtest.Run` | src/bybit_flow/backtest.py:51-118 | over every interleaving: 0 <= exited <= quantity <= requested, values and fees are those of the recorded fills, entries precede exits |
| `Backtest.TradeKeeps` | src/bybit_flow/backtest.py:51-105 | a trade adds at most one fill, within its participation, and a closed position ignores it |
| `Backtest.FillsAreConservative` | src/bybit_flow/backtest.py:51-105 | a fill is never better than its print; entries only in the zone, the window and before expiry, exits only for a stop, target, time or earlier reason |
| `Backtest.FillsExactly` | src/bybit_flow/backtest.py:51-105 | a print is a fill if and only if the open position may still enter on it, or holds something and has a reason to leave |
| `Backtest.SlippageIsAgainst` | src/bybit_flow/backtest.py:72-98 | slippage in basis points is always against the position: a long buys above and sells below the print, a short the other way round |
| `Backtest.FundingMeans` | src/bybit_flow/backtest.py:107-115 | funding is paid once per timestamp on what is left: a long pays the rate on its value, a short receives it |
| `Backtest.StressMeans` | src/bybit_flow/backtest.py:117-120 | a mark is margin stress if and only if the loss in units of the entry reaches what the leverage leaves less the maintenance |
| `Backtest.ProfitMeans` | src/bybit_flow/backtest.py:122-128 | the profit is what a long sold for more, or a short bought for less, less fees on both values and the funding |
| `Backtest.ClosedBooksAreSettled` | src/bybit_flow/backtest.py:51-118 | after the close, no run of events changes fills, quantities, values or fees |
| `Backtest.FinalExactlyWithoutDust` | src/bybit_flow/backtest.py:104-115 | a closed position is final under every event if and only if nothing at all is left of it |
| `Backtest.DustIsReachable` | src/bybit_flow/backtest.py:93-105 | for every tradable setup and every rest below 1e-10 a run of two prints closes the position with exactly that rest, and it is not final |
| `Backtest.PaperPosition.Trade` | src/bybit_flow/backtest.py:51-105 | the method computes the trade step and keeps the invariant |
| `Backtest.PaperPosition.Funding` | src/bybit_flow/backtest.py:107-115 | the method computes the funding step, each timestamp once |
| `Backtest.PaperPosition.Outcome` | src/bybit_flow/backtest.py:122-128 | the verdict is that of the fills: signed difference of the two sides less the fee rate on both and the funding; incomplete in exactly the stated cases |
| `Ranks.TieAveraged` | src/bybit_flow/forward_stats.py:140-151 | each value's rank is the number of smaller values plus half of one more than the number of equal ones |
| `Ranks.RanksSum` | src/bybit_flow/forward_stats.py:140-151 | whatever the ties, n ranks add up to n (n + 1) / 2 |
| `Ranks.RanksSeeOrderOnly` | src/bybit_flow/forward_stats.py:140-151 | a strictly increasing transform changes no rank |
| `Ranks.RanksMirror` | src/bybit_flow/forward_stats.py:140-151 | a strictly decreasing transform mirrors every rank |
| `Ranks.RanksKeepOrder` | src/bybit_flow/forward_stats.py:140-151 | ranks are ordered exactly as the values |
| `Ranks.SortedIndexes` | src/bybit_flow/forward_stats.py:141 | the index sort lists every index once, by value |
| `Ranks.RunBounds` | src/bybit_flow/forward_stats.py:144-149 | in any ordering a run of equal values stands exactly between the two counts |
| `Holm.Holm` | src/bybit_flow/forward_stats.py:121-129 | every p-value gets its adjusted value, defined without any ordering |
| `Holm.AdjustedIsStepDown` | src/bybit_flow/forward_stats.py:121-129 | for every level below 1, an adjusted value is at most the level if and only if Holm's step-down procedure at that level rejects it |
| `Holm.AdjustedOrderAndDominance` | src/bybit_flow/forward_stats.py:121-129 | adjusted values keep order, lie in [0, 1] and dominate the raw ones |
| `Holm.TieOrderIrrelevant` | src/bybit_flow/forward_stats.py:124-128 | equal p-values get equal adjusted values whatever order the sort leaves ties in |
| `Holm.RunningIsAdjusted` | src/bybit_flow/forward_stats.py:125-128 | the running maximum at a position is the largest contribution of the values not above it |
| `Spearman.Spearman` | src/bybit_flow/forward_stats.py:154-162 | no coefficient exactly below three pairs or for a constant column; otherwise both spreads are positive and sxy^2 <= sxx syy |
| `Spearman.CauchySchwarz` | src/bybit_flow/forward_stats.py:159-162 | Cauchy-Schwarz for every two columns and every two centres |
| `Spearman.MeanCancels` | src/bybit_flow/forward_stats.py:158 | the centre of the sums is the one whose deviations cancel |
| `Spearman.MeanOfRanks` | src/bybit_flow/forward_stats.py:158 | and for ranks it is (n + 1) / 2, whatever the ties |
| `Spearman.SpreadOfRanks` | src/bybit_flow/forward_stats.py:160-162 | ranks have no spread if and only if the ranked column is constant |
| `Spearman.PerfectAgreement` | src/bybit_flow/forward_stats.py:154-162 | the coefficient is 1 between a column and any strictly increasing transform of it |
| `Spearman.PerfectDisagreement` | src/bybit_flow/forward_stats.py:154-162 | and -1 for a strictly decreasing one |
| `Spearman.SpearmanSeesOrderOnly` | src/bybit_flow/forward_stats.py:154-162 | replacing a column by a strictly increasing transform changes no sum |

## Left out

- HTTP, WebSocket, REST paging, sockets, threads and locks: a POST is an event with any answer, and one call of the DNS proxy is one step.
- The SQLite engine, zip and gzip formats and hashing: transactions are atomic, digests are opaque, and an archive is a map from file name to bytes.
- Card text, embeds, related cards, transport records and metrics: formatting and counters.
- Notifications.Notifier.DeliverInitial: the guards before the claim (visible-setup block, macro pause, live check) only return early and are not repeated here; guards inside `deliver` are arbitrary answers. The stored message id is not modelled.
- Notifications.Notifier.Deliver: the webhook URL check, and the early return for updates without a visible initial card, come before the modelled part.
- Delivery.AtMostOncePerFingerprint: `seed_delivered` and schema migrations, which rewrite the claim table offline, are not steps of the protocol.
- `identity.relationship`, `register_candidate` and the fingerprint's own fields: a setup's fingerprint and its siblings are given.
- OrderBook.Book.Apply: change lists, order-flow imbalance and pressure samples are not modelled.
- NativeStreams.BookEqualsExchange: the agreement is on named prices, since the REST snapshot is cut to 1000 levels; the recorder, the ten-second timeout and reconnects are not modelled.
- EventFeatures.Features.Add: the size quantiles come from numpy and are given; the divergence signs and rotation statistics of the snapshot only restate sums.
- DbRuntime.MetadataWriter.Flush: `abort` and `close`, the wake-up event and the measurements are not modelled.
- Leases.RangeLease.Heartbeat: a lease whose stored reason is not valid JSON counts as shared; such rows are not modelled. All processes share one clock that does not run backwards.
- Packing.Segments.PackVerified: a manifest text stands for the value it parses to. The symlink and path check, the selection query and the batch marker are not modelled; other processes are kept out by the leases of module Leases.
- Reconciliation.AdvanceLoop: the expiry mark and the explanatory texts are not modelled, and page fetching in `reconcile` is not part of it.
- Reconciliation.Reconciled: the hand-over to the live tape, the pacing of attempts and attempts that fail without candles are not modelled; an attempt sees any closed front of the stream.
- Lifecycle.NoStopBehindTheCandles: nothing is claimed about entries, because a candle's entry is an overlap of its range with the zone, which is weaker than a trade inside it.
- PathResearch.Research.Advance: batching and the next polling time are not modelled. `observations.py` has the same shape and is not repeated.
- Quality.Structural: the further reasons against a structure (regime balance, efficiency, trend qualification) and the descriptive fields only restate one branch each; they can only remove candidates. Families other than the two event families have no event.
- Quality.OneCandidatePerAnchor: candles are taken to arrive in time order.
- Backtest.Run: prices are positive, participation is not negative and slippage is below 100 percent, as the callers give them.
- Spearman.Spearman: the square root and the quotient of the coefficient are not taken; the three sums determine it.
- `clusters`, bootstraps, quantiles and normal power calculations of `forward_stats.py`; float rounding and the Decimal context.
- Trading heuristics with fixed cut-offs (`production.py`, `flow_quality.py`, `liquidation.py`, `breadth.py`): a property there restates one branch.
