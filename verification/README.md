# Verified model of openai-worker-node

openai-worker-node serves OpenAI-style endpoints against payment: every paid request carries a
payment blob, and a payee daemon keeps the balance behind it. This project models the parts of
the worker in which money, concurrency or exact arithmetic are at stake, and proves what they
promise.

* **The paid-request pipeline** (`PaidRequest*.dfy`, `Scripted.dfy`, `Middleware.dfy`, `Ledger.dfy`). Any number
  of request handlers are interleaved, one shared-memory action at a time, against one
  semaphore, one ledger and one set of counters. A schedule fixes who moves and what the outside
  world answers, so a lemma about every schedule covers every interleaving and every pattern of
  failures. `Middleware.Worker` is the same pipeline as the code writes it: straight-line
  methods with early returns and deferred functions over mutable fields, where other goroutines
  may run between any two steps. Its contract says that everything it does is a sequence of
  turns of the machine.
* **The cardinality-capped counter**, with one caller (`CapVec.dfy`) and with N interleaved
  callers (`CapRace.dfy`).
* **Catalog, index, daemon cross-check and startup** (`Catalog.dfy`, `Startup.dfy`).
* **The streaming relay** (`Relay.dfy`), **metering arithmetic** (`Metering.dfy`,
  `Tokenizer.dfy`, `Form.dfy`, `Images.dfy`) and **wire codecs** (`Codecs.dfy`).
* **What they promise together** (`Composition.dfy`).

`dafny verify dfyconfig.toml` checks everything.

## Where the code and its documentation differ

The model follows the code.

* The comment at internal/runtime/http/middleware.go:100-102 has the request metric emitted
  after the slot is released. Deferred functions run last registered first, so the order is
  CloseSession, request metric, release.
* docs/product-specs/chat_completions.md:36 says that an interrupted stream reconciles with the
  last usage seen. The pipeline returns on a Serve error before it reconciles
  (internal/runtime/http/middleware.go:213-223). `Composition.InterruptedReconcilesIff` gives the
  exact condition under which the statement still comes out true, and
  `Composition.InterruptedUndercharges` builds a run that refutes it for every admissible request
  and every stream whose last usage exceeds the estimate.
* The comment above the image estimators promises a ceiling that never under-charges.
  `Images.UnitsExactIff` gives the exact condition, and `Images.OverflowIsFree` a request that is
  metered at zero.
* The comment at internal/providers/metrics/prometheus.go:347-348 calls the joined key
  collision-free because labels hold no NUL. Nothing keeps a NUL out of a client's model name, so
  the reason given is not the one that works: a key is collision-free as long as only one position
  of a tuple can hold NULs (`CapVec.KeyInjectiveIff`), the model is the only label that is not a
  constant of the program, and so, with one caller at a time, every series it emits is exact
  for any model name (`CapVec.EmittedSeriesAreExact`).
* The two image estimators are meant to agree. On form texts of at most 64 KiB they do, except on a
  size that is a default wrapped in white space (`Images.EstimatorsAgreeIff`). Past 64 KiB the form
  reader cuts a field (internal/service/modules/multipartutil/multipartutil.go:70) and JSON does not;
  the first byte too many already makes a difference (`Images.LimitIsExact`, `Images.CutSizeDiffers`).
* The series cap is meant to admit max label tuples. With concurrent callers it admits up to
  max + N - 1 (`CapRace.OvershootBound`, `CapRace.OvershootIsAttained`) and can drop one early
  (`CapRace.DropBelowCapPossibleIff`).

Session identity is per payment blob: two requests with one blob share a ledger key, and one may
close while the other still serves. Statements about closing are therefore per request. The rule
that nothing is served on a negative balance is about the signed balance of the client contract
(internal/providers/payeedaemon/interface.go:52-56), not about the gRPC decoder, which can only
produce non-negative balances (internal/providers/payeedaemon/grpc.go:177).

## Model

| member | source | states |
|---|---|---|
| `PaidRequestLedger.Conservation` | internal/providers/payeedaemon/fake.go:142-184 | after any interleaving of any number of requests, the balance of a (sender, work id) pair is its credits minus the rate times every unit successfully debited on it |
| `PaidRequestLedger.OtherBlobsUntouched` | internal/runtime/http/middleware.go:143-246 | no turn of a request changes any balance of a payment blob with a digest other than its own, for any sender |
| `PaidRequestLedger.DistinctWorkIDs` | internal/runtime/http/workid.go:21-24 | two blobs share a work id if and only if they share a digest |
| `PaidRequestLedger.ServedOnlyWhenPaid` | internal/runtime/http/middleware.go:143-213 | Serve is entered only after the request's own slot, OpenSession, ProcessPayment and upfront debit succeeded in that order and nothing else, and at that debit the account's total debited wei was covered by its total credited wei, whoever shares the key |
| `PaidRequestLedger.ExecSessions` | internal/runtime/http/middleware.go:130-162 | every session opened is the one the request's blob and the route table determine |
| `PaidRequestTrace.TurnAdvances` | internal/runtime/http/middleware.go:62-248 | every step of the pipeline keeps the handler's locals consistent and emits exactly what its expected trace grows by |
| `PaidRequestTrace.ExecLocals` | internal/runtime/http/middleware.go:62-248 | in every reachable state the trace of each request is the one its locals determine, deferred functions last registered first |
| `PaidRequestCounts.SemaphoreIsExact` | internal/runtime/http/middleware.go:78-93 | in every reachable state the semaphore counts exactly the handlers between acquire and release, never exceeds max_concurrent_requests (or one, where that is not positive), bounds the open sessions, sheds only with exactly that many slots held, and is empty once all handlers finished |
| `PaidRequestCounts.SlotsCanBeFilled` | internal/runtime/http/mux.go:60-78 | every number of requests up to max_concurrent_requests can hold slots at once |
| `PaidRequestCounts.GateShedsIffFull` | internal/runtime/http/middleware.go:78-93 | a request at the gate gets a slot if and only if fewer than max_concurrent_requests are held |
| `PaidRequestCounts.ShedsAreCounted` | internal/runtime/http/middleware.go:86-91 | capacity rejections are the requests that got no slot |
| `PaidRequestCounts.CallsFollowProtocol` | internal/runtime/http/middleware.go:152-246 | for every pattern of failures the daemon calls of a request are a prefix of Open, Process, Debit, optional Debit, with one final Close attempt if and only if Process succeeded |
| `PaidRequestCounts.FinishedCharge` | internal/runtime/http/middleware.go:185-246 | a finished request was charged 0 without an upfront debit, the actual units when Serve succeeded above the clamped estimate and reconcile succeeded, the clamped estimate otherwise |
| `PaidRequestCounts.DebitsStayInRange` | internal/runtime/http/middleware.go:189-237 | no debit ever asked for is negative and the reconcile subtraction never overflows int64 |
| `PaidRequestMetrics.WorkUnitsAreCovered` | internal/runtime/http/middleware.go:225-246 | in every intermediate state the work-units counter of a label is at most the units of the debits in the log that the daemon took for it, plus the reconcile debits in the log that it refused, plus the deltas still pending |
| `PaidRequestMetrics.WorkUnitsAreExact` | internal/runtime/http/middleware.go:225-233 | in every state the work-units counter of a label is the positive actual units of its requests whose Serve succeeded and whose metric step has run |
| `PaidRequestMetrics.RequestsCountedOnce` | internal/runtime/http/middleware.go:86-107 | the request counter of a label and outcome is the number of requests reported under them, and a finished request was reported exactly once |
| `PaidRequest.ClassifyOutcome` | internal/runtime/http/middleware.go:289-317 | which contexts and statuses fall into each outcome bucket, both ways |
| `PaidRequestMetrics.OutcomesAreTruthful` | internal/runtime/http/middleware.go:86-107 | a finished request is counted as canceled if and only if it held a slot and its context had ended, a shed one always as 5xx, a 2xx only if it was paid for and served with no negative balance after its debit, one that did not reach Serve by the refusal it was written, and its label is the model it named or none if it was shed or unreadable |
| `PaidRequestMetrics.RejectionsAreExact` | internal/runtime/http/middleware.go:116-210 | in every state, between counting and writing too, payment rejections equal the 402s the middleware wrote plus upfront debit errors, plus the 402s counted and not yet written, minus the debit errors not yet counted |
| `PaidRequestMetrics.RejectionsOfDrainedWorker` | internal/runtime/http/middleware.go:116-210 | with no request in flight the two sides are equal |
| `PaidRequestMetrics.RejectionsByReason` | internal/runtime/http/middleware.go:116-210 | in every state and for every reason, the counter is the refusals written for it plus those counted and not yet written, and for the daemon's reasons the failed payments, failed upfront debits and negative balances in the log are the counter plus those not yet counted |
| `PaidRequestMetrics.EveryRequestFinishes` | internal/runtime/http/middleware.go:62-248 | from any state, thirteen turns of its own finish a request, however the others are scheduled and whatever fails |
| `Middleware.StatusWriter.WriteHeader` | internal/runtime/http/middleware.go:255-267 | the first status written is the one that stays |
| `Middleware.StatusWriter.Write` | internal/runtime/http/middleware.go:269-275 | a body written before any header counts as 200 |
| `Middleware.Worker.PaymentMiddleware` | internal/runtime/http/middleware.go:62-248 | the handler, with other goroutines running between its steps, performs only turns of the machine, keeps the shared memory and the calls the daemon received equal to the machine's, and runs to the end; each call has had the outside world's answer; the status sent, the label and outcome it is counted under, and its charge over its debits in the log are what the request and those answers make them, given only whether a slot was free and whether the balance held |
| `Scripted.ScriptedCharge` | internal/runtime/http/middleware.go:143-246 | for any schedule, a request's charge is 0, the clamped estimate or the actual units, as the answers it had decide |
| `Scripted.ScriptedOutcome` | internal/runtime/http/middleware.go:86-210 | for any schedule, the refusal, the status, the label and the outcome of a finished request, cause by cause, from the answers it had |
| `PaidRequest.IntakeMeaning` | internal/runtime/http/middleware.go:109-162 | which requests get 400, 402 with which reason, 404 and 500, and which are admitted with which session, each as an if-and-only-if on the request and on a scan of the catalog; and which metric label a refused request carries |
| `Middleware.Worker.Pay` | internal/runtime/http/middleware.go:152-182 | OpenSession then ProcessPayment: either the payment is in and the account known, or the matching refusal has been written |
| `Middleware.Worker.Reserve` | internal/runtime/http/middleware.go:184-210 | estimate, clamp, upfront debit: either the way to Serve is free, or the refusal has been written and only CloseSession is left |
| `Middleware.Worker.Dispatch` | internal/runtime/http/middleware.go:212-246 | Serve, metric, reconcile in that order; a Serve error goes straight to CloseSession |
| `Middleware.Worker.Deferred` | internal/runtime/http/middleware.go:82-107 | CloseSession exactly when payment succeeded, then the outcome metric, then the slot release |
| `Middleware.OthersKeepLocals` | internal/runtime/http/middleware.go:72-107 | no number of moves of other requests changes a handler's locals |
| `Ledger.KeysSeparateIff` | internal/providers/payeedaemon/fake.go:210-212 | the ledger key separates accounts with work ids of lengths n and m if and only if n equals m, which the 64-character ids satisfy |
| `Ledger.AdjustTouchesOneAccount` | internal/providers/payeedaemon/fake.go:142-184 | crediting or debiting one account moves that account by the amount and no other one |
| `Ledger.Fake.ProcessPayment` | internal/providers/payeedaemon/fake.go:142-164 | a success credits exactly the sender's account, a failure leaves the ledger unchanged |
| `Ledger.Fake.DebitBalance` | internal/providers/payeedaemon/fake.go:166-184 | a success takes rate times units from the account and answers the balance left, a failure leaves the ledger unchanged |
| `Ledger.Fake.OpenSession` | internal/providers/payeedaemon/fake.go:123-140 | the call is recorded with all its arguments, failed or not |
| `Ledger.Fake.CloseSession` | internal/providers/payeedaemon/fake.go:186-196 | the call is recorded with its account, failed or not |
| `Ledger.DeriveWorkID` | internal/runtime/http/workid.go:21-24 | every work id has 64 characters |
| `CapVec.JoinNulLoop` | internal/providers/metrics/prometheus.go:349-360 | the buffer loop yields the NUL-terminated concatenation and the capacity it reserved is exact |
| `CapVec.JoinNulInjective` | internal/providers/metrics/prometheus.go:347-360 | on NUL-free label lists of any arity the key determines the list |
| `CapVec.KeyInjectiveIff` | internal/providers/metrics/prometheus.go:347-360 | on tuples of one arity whose NULs are confined to a set of positions the key is injective if and only if that set has at most one position |
| `CapVec.CapHoldsIff` | internal/providers/metrics/prometheus.go:312-360 | on such tuples the cap keeps its promise, over all caps and call sequences, if and only if there is at most one such position |
| `CapVec.EmittedSeriesAreExact` | internal/providers/metrics/prometheus.go:207-265 | with one caller at a time, on each of the eight capped vectors the program's own calls keep the promise, whatever model names clients send |
| `CapVec.LabelsDetermineEmission` | internal/providers/metrics/prometheus.go:207-282 | emissions without empty values show the same labels on a vector if and only if they are the same |
| `CapVec.Counter.Allow` | internal/providers/metrics/prometheus.go:327-345 | the in-place code is one step of the sequential specification |
| `CapVec.Counter.AddTo` | internal/providers/metrics/prometheus.go:310-323 | the counter moves exactly when the tuple is allowed |
| `CapVec.CappedByKey` | internal/providers/metrics/prometheus.go:312-345 | for any labels and deltas, a tuple's capped counter is the uncapped one if its key is among the first max distinct keys, and 0 otherwise |
| `CapVec.DisabledCapCountsAll` | internal/providers/metrics/prometheus.go:327-330 | with a non-positive cap every tuple's counter is the uncapped one and the callback never fires |
| `CapVec.CappedIsFirstTuples` | internal/providers/metrics/prometheus.go:312-360 | for labels of one arity with NULs at one position at most, the same holds of the first max distinct tuples |
| `CapVec.FiresOnce` | internal/providers/metrics/prometheus.go:335-341 | the exceed callback fires at most once, with a count of exactly max, and has fired if and only if more than max keys were used |
| `CapRace.OvershootBound` | internal/providers/metrics/prometheus.go:327-345 | with N interleaved callers the count and the number of admitted keys stay at most max + N - 1, every admitted key is in the map, and the callback fires at most once with an observed count of at least max |
| `CapRace.OvershootIsAttained` | internal/providers/metrics/prometheus.go:327-345 | for every max and N some interleaving ends with all calls returned, the set of admitted keys equal to the map, and exactly max + N - 1 of them |
| `CapRace.CallbackReportsTheCount` | internal/providers/metrics/prometheus.go:337-339 | for every max and N some interleaving makes the callback report max + N - 1 |
| `CapRace.AdmittedStaysAdmitted` | internal/providers/metrics/prometheus.go:331-334 | a key once in the map is admitted in one step by every later call, after any interleaving |
| `CapRace.DisabledCapAdmitsAll` | internal/providers/metrics/prometheus.go:327-330 | with a non-positive cap every call of every caller is admitted in one step, in every interleaving |
| `CapRace.DropBelowCapPossibleIff` | internal/providers/metrics/prometheus.go:327-345 | for every cap setting and number of callers, some interleaving drops a key with fewer than max in the map if and only if max and the callers are both at least two |
| `CapRace.DropsBelowCapNeedARace` | internal/providers/metrics/prometheus.go:335-344 | in every run the count exceeds the map by exactly the repeated stores, so a key is dropped below the cap only after two callers stored the same key |
| `CapRace.RaceDropsBelowCap` | internal/providers/metrics/prometheus.go:335-344 | for every cap and number of callers of at least two, a run that drops a key with max - 1 in the map |
| `Catalog.MatchName` | internal/config/parse.go:181-186 | accepts exactly the names that split into a lower-case scheme, a colon and a non-empty rest |
| `Catalog.ValidateOffering` | internal/config/parse.go:208-233 | accepts exactly offerings with an id, a positive decimal price, a good URL and no null constraints, and otherwise names a fault the offering has |
| `Catalog.ValidateCapability` | internal/config/parse.go:181-206 | accepts exactly the good entries, distinct offering ids included, and otherwise names a fault the entry has |
| `Catalog.ValidateCapabilities` | internal/config/parse.go:164-179 | accepts exactly the non-empty good catalogs and otherwise names the first entry at which the catalog stops being good |
| `Catalog.ProjectFromYAML` | internal/config/parse.go:235-263 | the catalog has, entry by entry and offering by offering, the capability, work unit, id, price and backend URL of the file, and the index built from them |
| `Catalog.FileRoute` | internal/config/parse.go:235-263 | for a validated file, Lookup of an offering's capability and id returns the capability, id, work unit, backend URL and price that the file gives it |
| `Catalog.RouteIsInFile` | internal/config/config.go:113-145 | every route that Lookup returns is that of an offering of the file |
| `Catalog.New` | internal/config/config.go:103-125 | the nested loops build the index of the ordered catalog |
| `Catalog.LookupIsLastMatch` | internal/config/config.go:113-145 | for any catalog, Lookup on the index is the last match of a linear scan, and a miss exactly when there is no match |
| `Catalog.ValidatedLookupIsUniqueMatch` | internal/config/parse.go:164-206 | in a validated catalog the match is unique and Lookup returns it |
| `Catalog.ValidatedIndexSize` | internal/config/config.go:113-123 | in a validated catalog the index has one route per offering |
| `Catalog.VerifyDaemonCatalog` | internal/config/verify.go:21-51 | agrees if and only if the two catalogs, seen without backend URLs, are equal, and otherwise names a difference that is there |
| `Catalog.RouteIsBackedByDaemon` | internal/config/verify.go:21-51 | after validation and a clean cross-check every route names exactly one daemon offering with the same work unit and price string, and the price is positive |
| `Catalog.ValidatedPriceParses` | internal/runtime/http/middleware.go:145-151 | every route of a validated catalog has a price that parses to a positive integer |
| `Catalog.VerifiedPriceIsCanonicalInt64` | internal/providers/payeedaemon/grpc.go:199-209 | a positive price that matches the daemon's string is canonically spelled and fits in int64 |
| `Startup.Mux.Register` | internal/runtime/http/mux.go:106-113 | binds a plain route, or refuses exactly when the pattern is bound |
| `Startup.Mux.RegisterPaidRoute` | internal/runtime/http/mux.go:121-138 | binds the module behind the payment middleware and records its capability, or refuses exactly when the pattern is bound |
| `Startup.Mux.CollidesIffPresent` | internal/runtime/http/mux.go:121-126 | a module's pattern collides with the unpaid and paid routes if and only if its own capability is already registered |
| `Startup.SixCapabilities` | cmd/openai-worker-node/main.go:282-348 | exactly the six named capabilities have a module, each on POST and its own path |
| `Startup.RegisterModules` | cmd/openai-worker-node/main.go:282-348 | panics if and only if an implemented capability is configured twice; otherwise the paid capabilities are exactly the implemented ones configured, and the returned count is zero exactly when there is none |
| `Startup.MissingCapabilityModules` | cmd/openai-worker-node/main.go:354-362 | lists the configured capabilities without a module, in order |
| `Startup.Wire` | cmd/openai-worker-node/main.go:152-169 | each of the four ends of the module checks with its exact condition, for any catalog |
| `Startup.ValidateHead` | internal/config/parse.go:129-162 | accepts exactly the files without a publisher block, with the supported protocol version, a payment_daemon section, a good address if any, and a complete worker section |
| `Startup.Run` | cmd/openai-worker-node/main.go:79-169 | from a decoded worker.yaml startup never panics, succeeds if and only if the rest of the file and the catalog are valid, the daemon can be dialed, its catalog agrees when that is checked and only implemented capabilities are named, refuses with the cause that applies, and on success every routable capability is served behind the payment middleware and no other capability is |
| `Relay.ServeStream` | internal/service/modules/chat_completions/module.go:176-217 | the output is a prefix of the stream, made of the lines the client took in full and at most part of the next; it is the whole stream on a nil error; errors occur exactly when the client or the stream failed; the units are the usage of the last usage-bearing line among the fully written ones, and zero if there is none |
| `Relay.LastUsageIs` | internal/service/modules/chat_completions/module.go:193-198 | the remembered usage is that of the last line carrying one, and none exactly when no line does |
| `Relay.FramingIsUnique` | internal/service/modules/chat_completions/module.go:178-180 | cutting a stream after each LF is the only framing of it |
| `Relay.UsageIgnoresFraming` | internal/service/modules/chat_completions/module.go:222-237 | white space around the data field and its payload, CRLF endings included, is irrelevant: a line carries the usage of its payload, and none when that is the terminator or malformed |
| `Relay.UsageNeedsData` | internal/service/modules/chat_completions/module.go:222-237 | a line that carries usage is a data field whose payload is not the terminator and decodes to that usage |
| `Tokenizer.CountTokens` | internal/providers/tokenizer/tokenizer.go:50-71 | the flag-driven loop counts word starts and scales them |
| `Tokenizer.WordsCountRuns` | internal/providers/tokenizer/tokenizer.go:54-65 | words are counted one per maximal separator-free run, a run being a (start, end) pair |
| `Tokenizer.TokensAreCeiling` | internal/providers/tokenizer/tokenizer.go:66-71 | the count is the ceiling of runs times multiplier over 100 if and only if the scaled count plus 99 fits in int64 |
| `Tokenizer.CountJoined` | internal/providers/tokenizer/tokenizer.go:88-90 | for n parts, a positive multiplier and a scaled count that fits in int64 with its rounding, the joined count lies between the sum of the parts' counts minus n - 1 and that sum |
| `Tokenizer.NewWordCount` | internal/providers/tokenizer/tokenizer.go:39-44 | the multiplier in use is the given one if that is positive, and 133 otherwise |
| `Metering.RoundUpExactIff` | internal/service/modules/images_generations/module.go:91-93 | the wrapping round-up of a positive product is the true ceiling if and only if product plus divisor minus one fits in int64, and falls short of the product every time it does not |
| `Images.UnitsExactIff` | internal/service/modules/images_generations/module.go:89-94 | for positive factors the estimate is the exact ceiling if and only if the product plus 999,999 fits in int64, and then no partial product overflows and at least one unit is charged; beyond that every estimate under-charges |
| `Images.UnitsMonotone` | internal/service/modules/images_generations/module.go:89-94 | the estimate is monotone in each factor while the larger product fits |
| `Images.OverflowIsFree` | internal/service/modules/images_generations/module.go:89-94 | a size of 2^32 by 2^32 is accepted and metered at zero |
| `Images.SizeRoundTrip` | internal/service/modules/images_generations/module.go:124-139 | every positive pair written as WxH parses back to itself |
| `Images.UpperXSeparates` | internal/service/modules/images_generations/module.go:129 | an upper-case X separates the sides just as well |
| `Images.SizeNeedsTwoSides` | internal/service/modules/images_generations/module.go:129-138 | whatever parses has exactly one x of either case, with the positive sides around it |
| `Images.AtoiMeans` | internal/service/modules/images_generations/module.go:133-137 | a decimal integer is read as itself if it fits in 64 bits and refused if not |
| `Images.PaddedSize` | internal/service/modules/images_edits/module.go:129-140 | white space around a size never changes what it parses to |
| `Images.EstimateGenerations` | internal/service/modules/images_generations/module.go:73-95 | refuses exactly when the size, or its default, does not parse, and otherwise meters the factors the branches choose, all positive, by their exact ceiling if and only if the rounded product fits |
| `Images.GenerationsMeterTheRequest` | internal/service/modules/images_generations/module.go:73-95 | in the request's own values: an absent or non-positive n counts as 1 and steps as 30, a size WxH as its sides, an empty one or auto as 1024 by 1024, and the estimate is the ceiling of their product over 1,000,000 whenever that fits in int64 with its rounding |
| `Images.EstimateEdits` | internal/service/modules/images_edits/module.go:75-98 | the same for form fields, each cut at 64 KiB and trimmed before it is read |
| `Images.EditsMeterTheRequest` | internal/service/modules/images_edits/module.go:75-98 | the same of the form fields, for texts within 64 KiB that spell those values |
| `Images.EstimatorsAgreeIff` | internal/service/modules/images_edits/module.go:75-98 | for every size and every integer or absent n and steps whose form texts are at most 64 KiB, the two estimators agree if and only if the size is not a default wrapped in white space |
| `Images.LimitIsExact` | internal/service/modules/multipartutil/multipartutil.go:70-76 | that holds of all texts of at most B bytes if and only if B is at most 64 KiB |
| `Images.CutSizeDiffers` | internal/service/modules/multipartutil/multipartutil.go:70-76 | one byte past the limit a trimmed size loses its last digit in a form and not in JSON, for all sides |
| `Form.CutKeeps` | internal/service/modules/multipartutil/multipartutil.go:70-76 | a text within the limit is read whole |
| `Images.TrimmedSizesAgree` | internal/service/modules/images_edits/module.go:75-98 | within that limit they agree on every trimmed size, and an absent form size equals an empty JSON one |
| `Images.PaddedDefaultDiffers` | internal/service/modules/images_generations/module.go:124-132 | on every default wrapped in white space, within the limit, generations refuse and edits meter 1024x1024 |
| `Images.FormattedSpells` | internal/service/modules/images_edits/module.go:77-87 | every int64 written in decimal, in any white space, spells that number, and within the limit the form reader reads it back |
| `Codecs.AddressRoundTrip` | internal/runtime/http/handlers.go:240-287 | parsing undoes rendering if and only if there are 20 bytes; every other length is refused as such |
| `Codecs.EveryAddressIsAccepted` | internal/runtime/http/handlers.go:240-254 | forty hex digits of either case behind 0x or 0X, in any white space, parse to their bytes |
| `Codecs.HexTextDecodes` | internal/runtime/http/handlers.go:249 | each byte is sixteen times the value of its first digit plus that of its second (section 8 of RFC 4648) |
| `Codecs.RefusedAddresses` | internal/runtime/http/handlers.go:240-254 | each refusal of an address text with its exact condition |
| `Codecs.AcceptedAddressText` | internal/runtime/http/handlers.go:240-254 | an accepted address text is the 0x-form of its 20 bytes up to letter case and outer white space |
| `Codecs.FaceValueRoundTrip` | internal/runtime/http/handlers.go:222-294 | a positive face value survives decimal to big-endian bytes to decimal if and only if it was canonical |
| `Codecs.DaemonPriceIsCanonicalInt64` | internal/providers/payeedaemon/grpc.go:199-209 | every daemon price string is the canonical spelling of an int64 |
| `Codecs.DaemonPriceMeans` | internal/providers/payeedaemon/grpc.go:199-209 | the string parses to the price over the pixel count cut toward zero, to the price itself when the count is not positive, and to 0 when there is no price |
| `Codecs.DecimalMeans` | internal/config/parse.go:216-219 | digits, with or without one sign, parse to their signed decimal value |
| `Codecs.BoundaryFromBody` | internal/service/modules/multipartutil/multipartutil.go:20-43 | each of the five outcomes with its exact condition: a short body, no LF in the first 1 KiB, and otherwise the one boundary that the first line delimits, in both directions, with errors for an empty one and for none |
| `Codecs.BoundaryRecovered` | internal/service/modules/multipartutil/multipartutil.go:20-43 | a boundary without LF is recovered from its delimiter line if and only if it is non-empty, does not end in CR, and the line ends within 1 KiB (section 5.1.1 of RFC 2046) |
| `Composition.NoInternalError` | internal/runtime/http/middleware.go:137-162 | under a validated catalog no schedule makes the middleware itself write anything but 400, 402, 404, 502 or 503, and every opened session is for a catalog offering at that offering's positive price |
| `Composition.StreamCharge` | internal/runtime/http/middleware.go:213-246 | a relayed stream that is interrupted costs exactly the estimate; a complete one costs its last usage when that is above the estimate and reconcile succeeded, and the estimate otherwise |
| `Composition.InterruptedReconcilesIff` | docs/product-specs/chat_completions.md:36 | an interrupted stream is charged as documented if and only if the usage it showed does not exceed the estimate |
| `Composition.InterruptedUndercharges` | internal/runtime/http/middleware.go:213-223 | for every admissible request and every stream whose last usage exceeds the estimate there is a run that charges the estimate only |

## Left out

- Transport: gRPC, HTTP, unix sockets, server and metrics-listener lifecycle are I/O plumbing.
- JSON, YAML, base64, URL, multipart-reader and regexp libraries: each is a value or an error given to the model; the capability-name pattern is written out.
- SHA-256: some function to 32 bytes. Nothing is assumed of it; where two blobs must not share a ledger key, their digests are required to differ.
- UTF-8 decoding of stream lines: a given function, like the JSON decoder behind it.
- tiktoken and its encoding cache; the chat, embeddings and audio estimators, whose estimate and actual units are arbitrary int64 inputs to the pipeline.
- Histograms, gauges, timestamps, logs, error texts, and floating-point rounding of counters.
- The free-form `extra` and `constraints` maps beyond their presence, command-line flags, and reading and decoding worker.yaml.
- Model names that are not valid UTF-8: a multipart form can carry one, and the Prometheus library then panics after the key is stored.
- Bearer-token checks, the health and registry handlers, and the ticket-params handler around its codecs.
- The daemon's own ticket validation, redemption and session cleanup.
- Ledger.Fake.ProcessPayment: the recorded call keeps the work id and not the payment bytes, which the pipeline passes through unread.
- Middleware.Worker.Interfere: the other goroutines are whatever its contract allows, any number of moves that leave this handler's locals alone; its own body makes none.
- Relay.ServeStream: the backend call before the stream, flushing and response headers are not modelled; the client is a list of write results.
