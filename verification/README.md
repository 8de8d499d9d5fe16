# A verified model of the budgeting backend's stateful cores

This project models, in Dafny 4.11, the parts of the Go budgeting backend whose correctness rests on
state, parsing or arithmetic, and proves what they keep true over every input and every run:

- **Response cache** (`ResponseCache`, `CacheHistory`): key map, recency list and per-budget index as one
  object; every operation refines a step on the recency list, and what a lookup returns, in which order
  entries age and how long an expired entry can linger is told from the history of operations alone.
- **Cached summaries** (`Models`, `SummaryTables`, `SummaryMeaning`, `SummaryUsers`, `SummaryRequests`,
  `RequestEffects`, `SummaryServer`, `BudgetUpdate`, `DataRules`): the server with its tables and its two caches answers
  any sequence of summary reads and expense, category and link writes as a server without caches would, whatever the
  clocks read. What that server without caches does is told from the rows: who is let through, why others are refused,
  which row a request writes, and which expenses every amount shown counts.
  `UpdateBudget` breaks this; the exact condition is proved.
- **Spending roll-up** (`Spending`, `InsertionSort`): totals, per-category, per-link and per-user sums, their
  conservation and independence of row order.
- **Billing calendar** (`Calendar`, `Billing`): civil dates against a closed-form day count, the Go computation, its SQL twin, the algebra of shifting, and
  the tiling of past periods.
- **App Attest and Play Integrity** (`Cbor`, `Attestation`, `AttestProtocol`, `KeyWrap`): the CBOR skipper and
  readers (RFC 8949), COSE keys (RFC 9053), the AES key wrap of RFC 3394, and the challenge and counter protocol
  under interleaving.
- **Query filters** (`QueryStrings`, `QueryFilter`, `QueryWhere`, `QuerySql`): builder, parser and SQL compiler,
  composed end to end.
- **WebSocket hub** (`HubSteps`, `HubDelivery`, `HubAgreement`, `Hub`): a transition system of lock sections,
  the objects that implement it, delivery, and when the bucket index agrees with the subscriptions.
- **Smaller cores**: allocation ceiling and template seeding (`Allocation`, `AllocationCeiling`), UUID keys
  (`UuidKey`), the login limiter (`LoginLimiter`), and If-None-Match (`EntityTag`).

Run `dafny verify dfyconfig.toml`, or pass all files to `dafny verify` with `--resource-limit 2000000`.

## How the source is represented

- Money is integer cents in the tables and `real` in requests; a column stores its amount rounded half away from
  zero. UUIDs are numbers except in `UuidKey`, where they are their sixteen bytes.
- A database transaction is one atomic step. Clock readings, random bytes, the database's own comparisons, ECDSA
  and the block cipher are parameters; nothing is assumed of clocks beyond what a lemma's `requires` says.
- Go integers that can wrap are written out (the 16-bit sum in `Attestation.ParseAuthData`). A Go slice
  `b[off:]` is the buffer with an offset; a Go nil slice is `None`.
- A loop or an object of the source is a method or a class here, tied by its `ensures` to a function, and the
  properties are lemmas about that function.

## Where the code does not do what it or its comments promise

- `internal/ws/hub.go:301-307` says that a registration racing a subscription always settles consistently. It does
  not: `HubAgreement.MissedInterleaving` gives the run, `HubAgreement.MissedExactly` the exact condition.
  A registration racing an unsubscription can leave the client in the bucket it left:
  `HubAgreement.LeftBehindInterleaving` and `HubAgreement.LeftBehindExactly`.
- `internal/handlers/auth_email.go:27` calls the window sliding. It is fixed from the first failure. From any moment
  on, at most five failures within fifteen minutes are let through if and only if no window of the email is open, not
  yet full and about to end within that time: `LoginLimiter.FiveExactly`. Otherwise up to nine can pass:
  `LoginLimiter.NineIsReached` gives the run, `LoginLimiter.AtMostNineFailures` the bound.
- `internal/captcha/attestation.go:70` adds in 16 bits, so its bounds check can be passed by a length that slices out
  of range: `Attestation.SlicesInBounds` gives the exact condition, `Attestation.SliceOutOfRangeExample` the input.
- `internal/handlers/summary.go:697` says the SQL mirrors the Go function. It does for cutoff days from 1 on and for
  no others: `Billing.SqlMatchesGo`. Below 1, shifts no longer compose, starts are not unique, past periods leave gaps
  and at 0 monthly ones are empty: `Billing.ShiftComposes`, `Billing.PeriodIsUnique`, `Billing.PastPeriodsTile`,
  `Billing.EmptyAtZero`. Such days can be stored, because one-time budgets are created without the check and can be
  made recurring: `BudgetUpdate.RecurringWithoutCutoff`, with `BudgetUpdate.CutoffAfterUpdate` as the exact condition.
- `internal/handlers/budgets.go:670-672` purges only the updated budget, although summaries of budgets that link it
  show its row with its icon, mode and time stamp. An accepted update leaves stale responses exactly if a response of
  a linking budget is stored: `BudgetUpdate.UpdateBudget`. `BudgetUpdate.StaleRead` serves one, and
  `BudgetUpdate.StaleReadExample` shows that a new icon is enough.
- `internal/database/database.go:484` accepts every list of values, but an empty list, a comma or an outer
  parenthesis changes what is bound: `QueryWhere.ListArgsExactly`. Conditions that all have unknown operators
  leave a bare WHERE: `QuerySql.WhereReadsBack`, with a query string in `QuerySql.MalformedExample`.
- `internal/cache/cache.go:225-231` first says the sweep stops at a live entry; the code walks the whole list,
  and so does the model.
- `internal/handlers/attest.go:66-68`: the guard orders counters, but it does not look at the public key, which a
  concurrent registration may have replaced. An accepted assertion is sure to verify under the key stored at the bump
  exactly if that is the public key looked up: `AttestProtocol.AcceptedUnderStoredKey`.
  `AttestProtocol.PassesUnderReplacedKey` is a run from the empty stores in which it is not.

## Model

| member | source | states |
|---|---|---|
| ResponseCache.Cache.Get | internal/cache/cache.go:153-178 | a lookup answers the stored value unless absent or expired, moves a hit to the front, drops an expired entry, and counts hits and misses; map, list and index stay linked |
| ResponseCache.Cache.RemoveElement | internal/cache/cache.go:256-268 | removing one list element removes exactly its key from map, list and index, and an emptied bucket with it |
| ResponseCache.Cache.PushFront | internal/cache/cache.go:193-202 | a new entry enters the front of the list, the map and its bucket |
| ResponseCache.Cache.Replace | internal/cache/cache.go:184-202 | overwriting removes the key's old node first, so the key moves to the front |
| ResponseCache.Cache.SetLocked | internal/cache/cache.go:181-223 | an insert replaces the key's entry at the front, sweeps on every 256th insert, then trims the list to 10000 from the back |
| ResponseCache.Cache.SweepExpired | internal/cache/cache.go:232-241 | the tail-first walk keeps exactly the live entries in their order |
| ResponseCache.Cache.Evict | internal/cache/cache.go:217-222 | the overflow loop leaves the first 10000 entries |
| ResponseCache.Cache.Set | internal/cache/cache.go:280-287 | a TTL of zero or less stores nothing; otherwise the insert step |
| ResponseCache.Cache.Sweep | internal/cache/cache.go:247-252 | drops every expired entry and restarts the insert counter |
| ResponseCache.Cache.Delete | internal/cache/cache.go:291-297 | drops the one key, if present, from all three structures |
| ResponseCache.Cache.InvalidateBudget | internal/cache/cache.go:307-326 | drops exactly the entries of the budget and its bucket |
| ResponseCache.Cache.DropKeys | internal/cache/cache.go:318-323 | the bucket walk removes exactly the named keys, whatever its iteration order |
| ResponseCache.Cache.Clear | internal/cache/cache.go:332-339 | empties all structures and restarts the insert counter, keeping the statistics |
| ResponseCache.StepSound | internal/cache/cache.go:153-339 | every operation keeps keys distinct, at most 10000 entries and fewer than 256 inserts since the last sweep |
| ResponseCache.BucketSplits | internal/cache/cache.go:307-326 | the index bucket of a budget names exactly the entries that dropping the budget removes |
| ResponseCache.WithoutAt | internal/cache/cache.go:256-268 | dropping a key drops exactly one list position |
| CacheHistory.Residency | internal/cache/cache.go:153-339 | after any operations, an entry is stored if and only if it was inserted and no later operation ousted it |
| CacheHistory.RunSound | internal/cache/cache.go:153-339 | every run of operations leaves at most 10000 entries with distinct keys |
| CacheHistory.StepMember | internal/cache/cache.go:153-339 | one operation keeps exactly the entries it does not oust, plus what it inserts |
| CacheHistory.GetAnswersLatestSet | internal/cache/cache.go:153-223 | a lookup returns a value if and only if its latest store was not expired, deleted, invalidated, cleared, swept or evicted since |
| CacheHistory.InsertedSize | internal/cache/cache.go:213-222 | an insert overflows exactly when the cache is full, the key is new and a due sweep finds nothing |
| CacheHistory.OrderIsLastTouchOrder | internal/cache/cache.go:165-196 | the list is sorted by last touch, so eviction takes the least recently touched entry |
| CacheHistory.ExpiredGoneAfter256Stores | internal/cache/cache.go:203-212 | with a monotone clock an expired entry is physically gone after at most 256 further inserts, whatever else happens |
| SummaryTables.BuildSummary | internal/handlers/summary.go:361-491 | the handler's assembly loops yield the summary computed from the tables |
| SummaryTables.ShowCategories | internal/handlers/summary.go:448-472 | the category loop shows each category with its own aggregate or zeros |
| SummaryTables.ShowLinks | internal/handlers/summary.go:872-896 | the link loop shows each assembled link once, in order |
| SummaryTables.SummaryFrame | internal/handlers/summary.go:659-801 | a summary depends only on its budget's rows, the links to it, and the linked categories and source expenses |
| SummaryTables.ExpenseWriteFrame | internal/handlers/helpers.go:26-43 | an expense write in a budget can change only its own summary and those of the budgets that link it |
| SummaryTables.CategoryWriteFrame | internal/handlers/helpers.go:26-43 | so can a category write, because links use only categories of their source budget |
| SummaryRequests.AddExpenseReach | internal/handlers/expenses.go:230-244 | inserting an expense leaves every summary outside the purged budgets as it was |
| SummaryRequests.PatchExpenseReach | internal/handlers/expenses.go:373-441 | so does updating or deleting one |
| SummaryRequests.AddCategoryReach | internal/handlers/categories.go:165-180 | inserting a category leaves every summary outside the purged budgets as it was |
| SummaryRequests.PatchCategoryReach | internal/handlers/categories.go:260-346 | so does updating one |
| SummaryRequests.AddLinkReach | internal/handlers/links.go:206-226 | a new link changes only its target's summary and its source's target list |
| SummaryRequests.PatchLinkReach | internal/handlers/links.go:267-289 | a changed filter mode changes only its target's summary and no target list |
| SummaryRequests.DropLinkReach | internal/handlers/links.go:322-341 | a deleted link changes only its target's summary and its source's target list |
| SummaryServer.Server.GetBudgetSummary | internal/handlers/summary.go:324-503 | the cached read answers what the tables give now, or not found without access, and keeps both caches coherent |
| SummaryServer.Server.FetchTargetBudgetIDs | internal/handlers/links.go:475-515 | the memoised lookup returns the distinct targets in the table, hit or miss |
| SummaryServer.Server.InvalidateBudget | internal/handlers/helpers.go:22-24 | drops exactly the budget's responses |
| SummaryServer.Server.InvalidateLinkedTargets | internal/handlers/helpers.go:35-43 | drops exactly the responses of the budgets that link the source |
| SummaryServer.Server.InvalidateLinkTargetsCache | internal/handlers/links.go:44-53 | drops exactly the source's target list |
| SummaryServer.Server.AfterSourceWrite | internal/handlers/expenses.go:243-247 | the tail of expense and category writes purges the budget and its dependents and nothing else |
| SummaryServer.Server.CreateExpense | internal/handlers/expenses.go:162-250 | same checks, reply and write as without caches, and the caches stay a mirror of the tables |
| SummaryServer.Server.UpdateExpense | internal/handlers/expenses.go:285-393 | same checks, reply and write as without caches, and the caches stay a mirror of the tables |
| SummaryServer.Server.DeleteExpense | internal/handlers/expenses.go:397-447 | same checks, reply and write as without caches, and the caches stay a mirror of the tables |
| SummaryServer.Server.CreateCategory | internal/handlers/categories.go:101-196 | same checks, reply and write as without caches, and the caches stay a mirror of the tables |
| SummaryServer.Server.UpdateCategory | internal/handlers/categories.go:240-351 | both update paths reply and write as without caches, and the caches stay a mirror of the tables |
| SummaryServer.Server.CreateLink | internal/handlers/links.go:139-232 | all preconditions, the reply and the write as without caches; both caches stay coherent |
| SummaryServer.Server.UpdateLink | internal/handlers/links.go:253-294 | same reply and write as without caches; the target lists are rightly left alone |
| SummaryServer.Server.DeleteLink | internal/handlers/links.go:313-346 | same reply and write as without caches; both caches stay coherent |
| SummaryServer.Server.Handle | internal/handlers/links.go:222-226 | every request, whichever handler takes it, replies and writes as without caches and keeps both caches coherent |
| SummaryServer.PurgeMirrors | internal/handlers/helpers.go:11-43 | purging every budget whose view changed leaves only responses that recomputation would give |
| SummaryServer.Serve | internal/handlers/summary.go:324-503 | over any run of requests at any clock readings, every reply equals the reply of a server without caches, and both caches stay coherent |
| BudgetUpdate.UpdateBudget | internal/handlers/budgets.go:556-681 | the checks, reply and write of the handler; when the new time stamp differs from the stored one, an accepted update leaves a coherent cache coherent if and only if no response of another budget linking it is stored |
| BudgetUpdate.StaleExactly | internal/handlers/budgets.go:670-672 | for any new row and any stored responses, purging the budget alone suffices exactly if the whole row is as before or no linking budget has a response stored |
| BudgetUpdate.StaleRead | internal/handlers/budgets.go:636-672 | read a summary, update a budget it links, read it again within its time to live: the second reply is the first one and differs from what the tables give |
| BudgetUpdate.StaleReadExample | internal/handlers/budgets.go:636-672 | two concrete budgets and an update of the icon alone for which this happens |
| BudgetUpdate.UpdateAcceptedExactly | internal/handlers/budgets.go:556-630 | an update is done exactly if every given field is valid, the user owns the budget, and a lowered income covers the allocations |
| BudgetUpdate.UpdateWrites | internal/handlers/budgets.go:632-662 | it writes the fields given and the time stamp into the named row, and nothing else |
| BudgetUpdate.CreatedRow | internal/handlers/budgets.go:293-391 | a creation is done exactly below seven budgets and with a valid amount, period, mode and day; the row holds what was given and the defaults |
| BudgetUpdate.CutoffAfterUpdate | internal/handlers/budgets.go:575-580 | an accepted update keeps recurring budgets on days from 1 to 31, except exactly when it makes a budget with another stored day recurring without setting the day |
| BudgetUpdate.RecurringWithoutCutoff | internal/handlers/budgets.go:345-361 | a budget created as one-time with a day below 1 and then made recurring has different own and linked period starts on every date, and past periods that do not tile |
| SummaryMeaning.SummaryHead | internal/handlers/summary.go:474-491 | a summary carries the budget's own row, and its budget total is that row's income |
| SummaryMeaning.TotalCounts | internal/handlers/summary.go:400-408 | the total counts each own expense from the start of the budget's billing period on once and, per link, each expense the link shows to the viewer |
| SummaryMeaning.CategoriesCount | internal/handlers/summary.go:448-472 | every category is shown with exactly its expenses of the period: their sum, their number and, from two users on, the sum of each user |
| SummaryMeaning.CategoriesInOrder | internal/handlers/summary.go:531-556 | the categories shown are those of the budget, each once, by ascending sort order and among equals in table order |
| SummaryMeaning.LinksCount | internal/handlers/summary.go:739-766 | every shown link has exactly the matching expenses of its source category, those of the viewer alone for mine-only links: their sum, their number and, from two users on, each nonzero sum of a user |
| SummaryMeaning.TotalIsShown | internal/handlers/summary.go:400-491 | the total is the sum of the amounts shown beside the categories and the links; no expense falls through or counts twice |
| SummaryMeaning.LinksInOrder | internal/handlers/summary.go:823-897 | the links shown are exactly those with an existing source and category, in table order, each beside those rows |
| SummaryUsers.SummaryByUser | internal/handlers/summary.go:205-216 | the top-level breakdown lists, from two on, exactly the users with an own expense in the period or one behind a mine-only link, each with the sum of both |
| SummaryMeaning.LinksShowSources | internal/handlers/summary.go:755-766 | a summary shows every link beside its source budget's row |
| BudgetUpdate.UnlinkedUnchanged | internal/handlers/summary.go:659-801 | a summary without a link from a budget does not depend on that budget's row |
| DataRules.ExpenseOrigins | internal/handlers/expenses.go:373-427 | an update gives the named row the fields given and leaves its others and all other rows as they were; a deletion removes the named row only |
| DataRules.StepKeepsRules | internal/handlers/links.go:111-232 | every request keeps the link, category, expense and integrity rules |
| DataRules.RunKeepsRules | internal/handlers/expenses.go:131-211 | over any run: at most 3000 expenses a budget, amounts in range, categories of the own budget, no two rows of a table with one id, at most 10 links a target, no self or mutual links, each category linked once per target |
| DataRules.EveryTotalIsShown | internal/handlers/summary.go:473-491 | after any run of requests every summary adds up |
| RequestEffects.AccessExactly | internal/handlers/summary.go:515-520 | access is being the owner of the budget row or a member; owning is being the owner |
| RequestEffects.AcceptedExactly | internal/handlers/expenses.go:131-211 | every request is served or done exactly when its conditions hold of the rows: ownership or membership, existing rows of the right budget, valid amounts, and every limit of the tables |
| RequestEffects.RefusedForCause | internal/handlers/links.go:139-205 | a refusal names a condition that really fails |
| RequestEffects.WrittenExactly | internal/handlers/expenses.go:343-393 | an accepted request writes the named row as given, a new category at the end of the order, and nothing else |
| RequestEffects.AmountsMove | internal/handlers/expenses.go:361-390 | an accepted expense request moves the amount and the count of any budget, category and user by the share of the row it writes minus the share of the row it replaces; no other request moves them |
| Spending.AggregateSummarySpending | internal/handlers/summary.go:237-289 | the roll-up loop equals the sums over its rows, per category, per user and in total |
| Spending.TotalIsConserved | internal/handlers/summary.go:244-286 | the unrounded total of the one reducer is the sum of its category totals plus the sum of the link totals the other reducer returns |
| Spending.BudgetByUserIs | internal/handlers/summary.go:205-216 | a user's top-level amount is their own spending plus their rows of mine-only links |
| Spending.AllUsersAre | internal/handlers/summary.go:244-286 | the user ids collected are those of the rows, own and linked |
| Spending.RowOrderIsInvisible | internal/handlers/summary.go:237-289 | permuting the rows changes nothing in the roll-up |
| Spending.LinkRowOrderIsInvisible | internal/handlers/summary.go:806-897 | permuting the linked rows changes no link's accumulator and not which links are listed |
| Spending.GroupingIsInvisible | internal/handlers/summary.go:566-609 | grouping own rows in SQL first changes nothing in the roll-up |
| Spending.GroupByUnique | internal/handlers/summary.go:576-593 | GROUP BY leaves one row per group and user |
| Spending.GroupByKeeps | internal/handlers/summary.go:576-593 | GROUP BY preserves every selected sum and count and the set of groups |
| Spending.AssembleLinkedSummaries | internal/handlers/summary.go:806-897 | the accumulator loop yields, per link in order of first appearance, its total, count and spenders |
| Spending.OrderIsFirstRows | internal/handlers/summary.go:823-864 | a link is shown exactly if it has a row |
| Spending.ProfilesAreFetched | internal/handlers/summary.go:410-426 | every user in any breakdown is in the profile set, so an emitted breakdown implies profiles were fetched |
| Spending.BuildUserSpending | internal/handlers/summary.go:432-446 | fewer than two spenders give no breakdown; otherwise every spender once, sorted by amount descending |
| InsertionSort.Sort | internal/handlers/summary.go:151-174 | the in-place insertion sort equals its functional form |
| InsertionSort.SortedIsSort | internal/handlers/summary.go:151-174 | the result is ordered and a permutation, for any strict weak order |
| InsertionSort.InsertInPlace | internal/handlers/summary_singleflight.go:211-219 | the shifting inner loop inserts behind the last element the key does not precede |
| Calendar.AddDays | internal/handlers/summary.go:94-117 | adding days steps through valid civil dates |
| Calendar.AddDaysCounts | internal/handlers/summary.go:94-117 | adding n days adds n to the day number, a closed form over years, months and leap days |
| Calendar.BeforeCounts | internal/handlers/summary.go:94-117 | dates are ordered as their day numbers, which no two dates share |
| Billing.GoDate | internal/handlers/summary.go:94-97 | the date constructor normalises any year, month and day to a valid date |
| Billing.DaysInIsLength | internal/handlers/summary.go:94-97 | day zero of the next month is the month's length, leap Februaries included |
| Billing.ShiftIsAtMonth | internal/handlers/summary.go:100-117 | for every cutoff day, shifting moves the month index and clamps to the cutoff again |
| Billing.StartIsAtMonth | internal/handlers/summary.go:58-91 | the Go start is the cutoff day of the month that today's period began in |
| Billing.StartDay | internal/handlers/summary.go:58-91 | the Go start is on the cutoff day, or on the last day of a month too short for it |
| Billing.ShiftDay | internal/handlers/summary.go:100-117 | a shift by n moves the month by exactly n and clamps the day again |
| Billing.SqlStartIsAtMonth | internal/handlers/summary.go:693-738 | the SQL start, for every cutoff day and period length |
| Billing.SqlMatchesGo | internal/handlers/summary.go:58-117 | for every date and nonzero period length the SQL and Go starts agree if and only if the cutoff day is at least 1 |
| Billing.ShiftComposes | internal/handlers/summary.go:100-117 | shifts under one cutoff day compose additively if and only if the day is at least 1 |
| Billing.ShiftMonotone | internal/handlers/summary.go:100-117 | shifts are strictly monotone in the number of months, in both directions, for every cutoff day |
| Billing.PeriodContainsToday | internal/handlers/summary.go:58-91 | the computed start is never after today, and today lies in its period exactly if the cutoff day is at least 1 or today is before the next month's clamped day |
| Billing.PeriodIsUnique | internal/handlers/summary.go:58-91 | among all shifts of the start exactly the start itself has today in its last month, if and only if the cutoff day is at least 1 |
| Billing.ResumePeriods | internal/handlers/summary.go:1181-1206 | for every cutoff day the loop yields the past periods back to the creation date, at most 12 divided by the period length; its no-progress break is never taken |
| Billing.PastPeriodsTile | internal/handlers/summary.go:1194-1206 | the past periods cover every earlier date exactly once, without gap or overlap, if and only if the cutoff day is at least 1 |
| Billing.GapBelowOne | internal/handlers/summary.go:1196-1201 | below that, the first past period ends before the current one starts |
| Billing.EmptyAtZero | internal/handlers/summary.go:1196-1201 | at cutoff day 0 every monthly past period is empty |
| Cbor.ReadLength | internal/captcha/appattest.go:365-388 | a decoded head ends inside the buffer and its argument is below 2^32 |
| Cbor.ReadString | internal/captcha/appattest.go:324-340 | a read text string advances and stays in the buffer |
| Cbor.ReadBytes | internal/captcha/appattest.go:344-360 | a read byte string advances and stays in the buffer |
| Cbor.CborSkipValue | internal/captcha/attestation.go:145-198 | the recursive skipper with its element loops equals its functional form, terminates, and stays in bounds |
| Cbor.SkipElements | internal/captcha/attestation.go:160-173 | the array loop skips the announced number of elements |
| Cbor.SkipPairs | internal/captcha/attestation.go:174-192 | the map loop skips the announced number of pairs |
| Cbor.SkipFrom | internal/captcha/attestation.go:145-198 | skipping fails or advances by at least one byte within the buffer |
| Cbor.SkipsEncoding | internal/captcha/attestation.go:145-198 | any encoded tree of major types 0 to 5 is skipped by exactly its length, whatever follows |
| Cbor.SkippedIsEncoding | internal/captcha/attestation.go:145-198 | whatever is skipped is the encoding of such a tree |
| Cbor.SkipExact | internal/captcha/attestation.go:145-198 | the skipper succeeds if and only if an encoded tree stands there |
| Cbor.CborHeadIsShortest | internal/captcha/appattest.go:411-427 | the encoder writes the shortest head there is for the argument, and nothing from 2^32 on |
| Attestation.ExtractAuthDataLoop | internal/captcha/attestation.go:105-143 | the map walk equals its functional form |
| Attestation.ScanLoop | internal/captcha/attestation.go:117-139 | its entry loop stops at the first authData key |
| Attestation.ExtractsAuthData | internal/captcha/attestation.go:105-143 | in a map with any entry order, the byte string under the first key that spells authData is found, and otherwise an error |
| Attestation.DecodeCoseLoop | internal/captcha/attestation.go:212-290 | the key walk equals its functional form |
| Attestation.ReadKeyInt | internal/captcha/attestation.go:226-249 | a map key reads as an integer, negative ones as -1 minus the argument |
| Attestation.DecodesCoseKey | internal/captcha/attestation.go:212-290 | in any entry order the decoder returns the last -2 and -3 coordinates if both have 32 bytes and all keys are integers, else an error |
| Attestation.SlicesInBounds | internal/captcha/attestation.go:62-75 | slicing runs out of range if and only if the credential id length exceeds 65480 |
| Attestation.SliceOutOfRangeExample | internal/captcha/attestation.go:69-74 | an input on which it does |
| Attestation.ParsesAuthData | internal/captcha/attestation.go:49-96 | well-formed authData is parsed into its credential id, key, counter and AAGUID |
| Attestation.DecodeFieldsLoop | internal/captcha/appattest.go:228-258 | the two-entry loop equals its functional form |
| Attestation.DecodeAssertionExact | internal/captcha/appattest.go:228-258 | an assertion decodes if and only if the blob starts with the encodings of both fields, in either order and any head width |
| Attestation.AssertionRoundTrip | internal/captcha/appattest.go:393-427 | decoding undoes encoding for all byte strings below 2^32 bytes |
| AttestProtocol.CountersIncrease | internal/handlers/attest.go:66-88 | under any interleaving, between registrations of a key the accepted counters strictly increase in bump order, starting above the registered one |
| AttestProtocol.RedeemedOncePerIssue | internal/handlers/attest.go:96-135 | a challenge is redeemed exactly as often as it was issued and is no longer live |
| AttestProtocol.AcceptancesPerIssue | internal/captcha/appattest.go:158-213 | under any interleaving, at most as many acceptances rest on a challenge as it was redeemed, and at most as often was it redeemed as it was issued |
| AttestProtocol.AcceptancesUseDistinctChallenges | internal/captcha/appattest.go:158-213 | so no two acceptances rest on a challenge that was issued once |
| AttestProtocol.AcceptedWasIssued | internal/captcha/appattest.go:158-213 | every acceptance redeemed an issued challenge itself |
| AttestProtocol.JudgeExactly | internal/captcha/appattest.go:169-207 | the checks pass exactly if the assertion decodes, is for this app unless that check is off, has a counter above the stored one in its octets 33 to 36, and is signed under the stored key |
| AttestProtocol.EveryPassIsGenuine | internal/captcha/appattest.go:154-211 | under any interleaving, every acceptance goes back to a complete token sent in after its challenge was issued and before it expired, whose assertion passes those checks under a public key registered for the key id |
| AttestProtocol.SignatureBindsKey | internal/captcha/appattest.go:198-207 | over all signature schemes, an assertion that passes under one public key is sure to verify under another exactly if the two are equal |
| AttestProtocol.AcceptedUnderStoredKey | internal/captcha/appattest.go:164-211 | a request that reached its bump, whatever ran meanwhile, has a signature under the key it looked up, and one that is sure to verify under the stored key exactly if the last registration since the lookup, if any, stored the same public key |
| AttestProtocol.PassesUnderReplacedKey | internal/handlers/attest.go:69-88 | a run from the empty stores in which a request is accepted while the stored public key is another one, under which its assertion does not verify |
| AttestProtocol.PassesUnderReplacedKeyExample | internal/handlers/attest.go:231-240 | the run with a concrete token and concrete challenges |
| AttestProtocol.RunInvariant | internal/handlers/attest.go:216-240 | registrations and verifications interleaved in any way keep counters and redemptions in step with the log |
| AttestProtocol.Stores.IssueChallenge | internal/handlers/attest.go:96-116 | takes the issue step: a challenge is stored once, by its primary key |
| AttestProtocol.Stores.Consume | internal/handlers/attest.go:120-135 | redeeming removes a live challenge and refuses others |
| AttestProtocol.Stores.BumpCounter | internal/handlers/attest.go:69-88 | the guarded update advances the counter or fails |
| AttestProtocol.Stores.BeginVerify | internal/captcha/appattest.go:154-162 | takes the first step of a verification: refuse incomplete tokens, redeem the challenge |
| AttestProtocol.Stores.LookUpKey | internal/captcha/appattest.go:164-167 | takes the second step |
| AttestProtocol.Stores.CheckAssertion | internal/captcha/appattest.go:169-207 | takes the third step, which touches no store |
| AttestProtocol.Stores.FinishVerify | internal/captcha/appattest.go:209-211 | takes the last step, accepting exactly if the bump advances the counter |
| AttestProtocol.Stores.BeginRegister | internal/handlers/attest.go:216-222 | takes the first step of a registration |
| AttestProtocol.Stores.UpsertKey | internal/handlers/attest.go:231-240 | takes the second step, which replaces key and counter |
| AttestProtocol.Stores.Verify | internal/captcha/appattest.go:136-213 | an uninterrupted verification is its four steps in a row; it accepts exactly complete tokens with an issued and unexpired challenge and a genuine assertion for the stored row, and its bump cannot fail |
| KeyWrap.AesKeyUnwrap | internal/captcha/playintegrity.go:267-318 | the 6n-round loop over registers equals the functional unwrap |
| KeyWrap.UnwrapRounds | internal/captcha/playintegrity.go:285-304 | the rounds, last to first, rewrite the registers in place as the functional unwrap does |
| KeyWrap.WrapRounds | internal/captcha/playintegrity_test.go:103-121 | the rounds, first to last, rewrite the registers in place as the functional wrap does |
| KeyWrap.Load | internal/captcha/playintegrity.go:279-283 | splits the octets into registers of eight |
| KeyWrap.Store | internal/captcha/playintegrity.go:313-317 | concatenates the registers |
| KeyWrap.AesKeyWrap | internal/captcha/playintegrity_test.go:84-128 | the wrap loop equals the functional wrap |
| KeyWrap.IntegrityCheck | internal/captcha/playintegrity.go:305-312 | the folded comparison holds exactly for the initial value |
| KeyWrap.UnwrapOfWrap | internal/captcha/playintegrity.go:267-318 | for any invertible cipher, unwrapping a wrap gives the key back if and only if the key has at least eight octets |
| KeyWrap.WrapOfUnwrap | internal/captcha/playintegrity.go:267-318 | wrapping what was unwrapped gives the accepted ciphertext back |
| KeyWrap.AcceptedExactly | internal/captcha/playintegrity.go:267-318 | a ciphertext is accepted if and only if it is the wrap of the returned key |
| KeyWrap.WrapIsStandard | internal/captcha/playintegrity_test.go:84-128 | the wrap is the one RFC 3394 describes first, with rotating registers |
| KeyWrap.CounterCounts | internal/captcha/playintegrity.go:291-298 | the step counter is the base-256 digits of the step number, most significant first |
| KeyWrap.UnwrapExample | internal/captcha/playintegrity.go:267-318 | a wrapped key in octets that is accepted |
| KeyWrap.WordsAt | internal/captcha/playintegrity.go:279-283 | register i holds octets 8i to 8i + 7 |
| QueryStrings.UnescapeEscape | internal/database/database.go:176-177 | unescaping undoes escaping for every byte string, whatever follows |
| QueryStrings.EscapeIsSafe | internal/database/database.go:441-491 | escaped text has none of the characters the query syntax uses |
| QueryStrings.EscapedAs | internal/database/database.go:441-491 | an octet that is not unreserved goes out as a percent sign and its two hexadecimal digits, the blank as a plus |
| QueryStrings.UnescapeFailsExactly | internal/database/database.go:176-177 | unescaping fails exactly at a percent sign without two hexadecimal digits behind it |
| QueryStrings.TrimSpaceIs | internal/database/database.go:295 | trimming cuts the blanks at both ends and nothing else |
| QueryStrings.IdentRoundTrip | internal/database/database.go:204-207 | SQL reads a quoted identifier back as exactly the name, whatever bytes it has |
| QueryStrings.SplitJoin | internal/database/database.go:511-514 | splitting undoes joining when the parts lack the separator |
| QueryStrings.TrimWrapped | internal/database/database.go:247 | trimming the parentheses of a list gives the list back exactly if it has no outer ones of its own |
| QueryFilter.Filter.Select | internal/database/database.go:442-445 | appends the escaped select parameter |
| QueryFilter.Filter.Eq | internal/database/database.go:448-451 | appends the escaped equality parameter |
| QueryFilter.Filter.Neq | internal/database/database.go:454-457 | appends the escaped inequality parameter |
| QueryFilter.Filter.Gt | internal/database/database.go:460-463 | appends the escaped greater-than parameter |
| QueryFilter.Filter.Gte | internal/database/database.go:466-469 | appends the escaped greater-or-equal parameter |
| QueryFilter.Filter.Lt | internal/database/database.go:472-475 | appends the escaped less-than parameter |
| QueryFilter.Filter.Lte | internal/database/database.go:478-481 | appends the escaped less-or-equal parameter |
| QueryFilter.Filter.In | internal/database/database.go:484-491 | the escaping loop appends the list parameter |
| QueryFilter.Filter.Order | internal/database/database.go:494-497 | appends the order parameter |
| QueryFilter.Filter.Limit | internal/database/database.go:500-503 | appends the limit parameter |
| QueryFilter.Filter.Offset | internal/database/database.go:506-509 | appends the offset parameter |
| QueryFilter.Filter.Build | internal/database/database.go:512-514 | the built string is that of the chain of calls |
| QueryFilter.ParamIsSpelled | internal/database/database.go:442-509 | every call adds the parameter that the query syntax spells for it |
| QueryFilter.ParseQuery | internal/database/database.go:166-202 | the parsing loop equals its functional form |
| QueryFilter.ValueReadsBack | internal/database/database.go:442-509 | key and value of every well-formed parameter unescape to what was meant |
| QueryFilter.ParseUndoesBuild | internal/database/database.go:166-202 | parsing a built query recovers every call of any chain of well-formed calls |
| QueryWhere.BuildWhere | internal/database/database.go:211-259 | the loop with its running index yields the clause text and the argument list |
| QuerySql.CompiledText | internal/database/database.go:222-245 | the SQL operator behind each of the six operator names, with its placeholder and its argument |
| QueryWhere.CompileCondition | internal/database/database.go:221-256 | the switch yields at most one clause and the arguments it binds |
| QueryWhere.Placeholders | internal/database/database.go:249-254 | the list loop numbers its placeholders consecutively |
| QueryWhere.BuildLimitOffset | internal/database/database.go:272-286 | LIMIT and OFFSET take the next placeholders |
| QueryWhere.SelectColumns | internal/database/database.go:288-298 | the column loop yields the quoted, trimmed list |
| QueryWhere.SlotsAreConsecutive | internal/database/database.go:211-259 | the placeholders run consecutively from argStart, one per argument |
| QueryWhere.QueryPlaceholders | internal/database/database.go:312-319 | across WHERE, LIMIT and OFFSET they run from 1 to the number of arguments, once each and in order |
| QueryWhere.ClausesMean | internal/database/database.go:211-259 | the clauses, reading their placeholders, hold of exactly the rows the conditions hold of |
| QueryWhere.WhereSelectsWhatWasAsked | internal/database/database.go:211-259 | built, parsed and compiled, any chain of calls selects exactly the rows that satisfy every call |
| QueryWhere.ListReadsBack | internal/database/database.go:246-255 | a list survives if and only if it is nonempty, comma-free and without outer parentheses |
| QueryWhere.ListArgsExactly | internal/database/database.go:484-491 | an In call binds its own values if and only if its list survives |
| QuerySql.WhereReadsBack | internal/database/database.go:258 | read as SQL, the WHERE text is exactly the clauses meant, and is malformed exactly when there are conditions and all their operators are unknown |
| QuerySql.NoClauseExactly | internal/database/database.go:221-256 | no clause comes out exactly when all operators are unknown |
| QuerySql.MalformedExample | internal/database/database.go:211-259 | a query string for which the WHERE is malformed |
| QuerySql.EmptyQuery | internal/database/database.go:166-170 | an empty query asks for every column and row, in no order |
| QuerySql.BadValueDropped | internal/database/database.go:176-197 | a condition whose value is not properly escaped is dropped |
| QuerySql.SelectListReadsBack | internal/database/database.go:288-298 | the select list reads as exactly the trimmed names, or as a star when nothing or a star was asked for |
| QuerySql.PagingReadsBack | internal/database/database.go:272-286 | LIMIT and OFFSET name the slots of their own values and are there exactly if given |
| QueryFilter.DescendingSpellings | internal/database/database.go:185 | upper-casing gives DESC exactly for D, E, S, C in either case, a long s included |
| QuerySql.OrderReadsBack | internal/database/database.go:261-270 | an Order call comes out as an ordering by that column, descending exactly for those spellings |
| HubSteps.StepIsSafe | internal/ws/hub.go:176-273 | every enabled step avoids panics and keeps buckets nonempty, inside the client set, with open channels |
| HubSteps.RunsAreSafe | internal/ws/hub.go:176-356 | under any interleaving no channel is closed twice or while nil and no send meets a closed channel |
| HubSteps.BroadcastReachesOpenChannels | internal/ws/hub.go:257-270 | after any interleaving, the members of every bucket are registered and have open channels |
| HubSteps.ClosedIsGone | internal/ws/hub.go:209-241 | in any interleaving, a client whose channel was closed stays out of the client set and of every bucket from then on |
| HubDelivery.DeliveryIsInOrder | internal/ws/hub.go:244-270 | each client is written, in order, what its queue accepted; that is an in-order part of what was due, all of it unless it was ejected, which happens at most once |
| HubDelivery.LossMeansOverflow | internal/ws/hub.go:260-268 | a client is ejected exactly when a broadcast finds its 32-slot queue full |
| HubAgreement.StepIsLocal | internal/ws/hub.go:176-356 | what a step does to one client depends on that client's share of the state only |
| HubAgreement.BucketsMatchSubscriptions | internal/ws/hub.go:292-356 | if the calls on a client do not overlap, it is in exactly the buckets of its subscriptions while registered |
| HubAgreement.BucketIsScan | internal/ws/hub.go:249-259 | then a broadcast over the bucket reaches the same clients as a scan of all clients |
| HubAgreement.MissedExactly | internal/ws/hub.go:186-206 | a registration racing a subscription leaves the budget unindexed if and only if it took its snapshot before and committed after it, whatever else runs |
| HubAgreement.MissedInterleaving | internal/ws/hub.go:301-307 | that interleaving is possible on any fresh hub |
| HubAgreement.LeftBehindExactly | internal/ws/hub.go:341-356 | a registration racing an unsubscription leaves the client in the bucket it left if and only if it took its snapshot before and committed after it |
| HubAgreement.LeftBehindInterleaving | internal/ws/hub.go:341-356 | that is possible on any fresh hub too |
| Hub.Client.Offer | internal/ws/hub.go:260-268 | the non-blocking send enqueues or sets the ejection flag |
| Hub.Hub.RegisterTakeSnapshot | internal/ws/hub.go:179-191 | takes the snapshot step |
| Hub.Hub.RegisterIndex | internal/ws/hub.go:193-206 | the loop over the snapshot takes the commit step |
| Hub.Hub.AddToBuckets | internal/ws/hub.go:198-205 | the loop adds the client to the bucket of every budget of the snapshot, creating missing buckets |
| Hub.Hub.TakeUnregister | internal/ws/hub.go:209-241 | removes the client from the set and every bucket before closing its channel |
| Hub.Hub.RemoveFromBuckets | internal/ws/hub.go:224-231 | the bucket walk removes the client everywhere and deletes emptied buckets |
| Hub.Hub.TakeBroadcast | internal/ws/hub.go:257-270 | the walk over the bucket offers the message to each member once |
| Hub.Hub.SubscribeUnderClientLock | internal/ws/hub.go:309-314 | takes the first subscribe step |
| Hub.Hub.SubscribeUnderHubLock | internal/ws/hub.go:316-327 | takes the second, only for registered clients |
| Hub.Hub.UnsubscribeUnderClientLock | internal/ws/hub.go:342-346 | takes the first unsubscribe step |
| Hub.Hub.UnsubscribeUnderHubLock | internal/ws/hub.go:348-355 | takes the second and deletes an emptied bucket |
| Hub.Hub.Pump | internal/ws/hub.go:106-116 | writes the oldest queued message |
| Allocation.TemplatesAreFull | internal/handlers/budgets.go:108-188 | every built-in template has at most fifty nonnegative percentages summing to 100 |
| Allocation.TemplateSections | internal/handlers/budgets.go:97-188 | the templates keep the sections they were flattened from, 50/30/10/10 and so on |
| Allocation.SeedGuidedCategories | internal/handlers/budgets.go:441-465 | the loop with its running total fills in the seeded amounts |
| Allocation.SeedAddsUp | internal/handlers/budgets.go:413-465 | seeding gives nonnegative amounts, each but the last its percentage of the income rounded down to the cent, that add up to exactly the cent-rounded income |
| Allocation.CentsAreNearest | internal/handlers/budgets.go:441-465 | a column holds the nearest cent, halves away from zero |
| AllocationCeiling.RoundedFits | internal/handlers/categories.go:125-167 | an amount that fits before the column rounds it still fits afterwards |
| AllocationCeiling.RemoveRows | internal/handlers/categories.go:375-380 | a deletion removes exactly the named category and never raises the total |
| AllocationCeiling.PatchTotal | internal/handlers/categories.go:323-331 | after an update the total is the other categories' plus the new value |
| AllocationCeiling.ApplyKeepsCeiling | internal/handlers/categories.go:125-167 | every category write and income change keeps the ceiling, the cap and the signs |
| AllocationCeiling.CreatedIsSound | internal/handlers/budgets.go:382-398 | a new budget starts sound, a guided one with its whole stored income allocated |
| AllocationCeiling.CreatedRows | internal/handlers/budgets.go:382-465 | its rows carry the ids given and the template's names, orders and shares |
| AllocationCeiling.CreateExactly | internal/handlers/categories.go:101-170 | a category is created exactly if it fits, holding the amount to the cent |
| AllocationCeiling.UpdateExactly | internal/handlers/categories.go:256-339 | a category is updated exactly if it exists and fits beside the rest; only the named row changes, and only as given |
| AllocationCeiling.IncomeExactly | internal/handlers/budgets.go:616-664 | an income is taken exactly if positive and, when lowered, covering the allocations |
| AllocationCeiling.CeilingHolds | internal/handlers/budgets.go:616-630 | from CreateBudget, any sequence of requests keeps the sum of allocations within the stored income and at most fifty categories |
| AllocationCeiling.BudgetRows.constructor | internal/handlers/budgets.go:382-465 | creates the stored income and the seeded rows, to the cent |
| AllocationCeiling.BudgetRows.CreateCategory | internal/handlers/categories.go:101-170 | accepts exactly what fits the income, the ceiling and the cap, and stores it rounded |
| AllocationCeiling.BudgetRows.UpdateCategory | internal/handlers/categories.go:256-339 | accepts an allocation exactly if it fits beside the other categories |
| AllocationCeiling.BudgetRows.DeleteCategory | internal/handlers/categories.go:375-385 | removes the category's row |
| AllocationCeiling.BudgetRows.UpdateIncome | internal/handlers/budgets.go:563-664 | a lowered income is accepted exactly if it covers the allocations |
| UuidKey.KeyTextInjective | internal/cache/cache.go:67-77 | different cache keys have different texts, whatever their tags contain |
| UuidKey.TextInjective | internal/cache/cache.go:67-77 | different UUIDs have different texts |
| UuidKey.TextIsStandard | internal/cache/cache.go:67-77 | the text is 4, 2, 2, 2 and 6 bytes in lower-case hexadecimal between dashes |
| UuidKey.KeyTextLayout | internal/cache/cache.go:67-77 | budget, user and tag stand in this order between bars |
| UuidKey.IsUuidLess | internal/handlers/summary_singleflight.go:233-240 | the byte loop is the lexicographic comparison |
| UuidKey.LessExactly | internal/handlers/summary_singleflight.go:231-240 | the smaller UUID has the smaller byte where the two first differ |
| UuidKey.LessIsStrictTotal | internal/handlers/summary_singleflight.go:231-240 | the byte order is a strict total order |
| UuidKey.SortedUuidsKey | internal/handlers/summary_singleflight.go:200-229 | collecting, sorting and joining gives the same key for every iteration order |
| UuidKey.Collect | internal/handlers/summary_singleflight.go:204-207 | the iteration collects every id once |
| UuidKey.JoinTexts | internal/handlers/summary_singleflight.go:220-228 | the loop joins the texts with commas |
| UuidKey.KeyIdentifiesSet | internal/handlers/summary_singleflight.go:197-229 | two sets have the same key if and only if they are equal |
| UuidKey.KeyLayout | internal/handlers/summary_singleflight.go:220-229 | the key shows the ids of the set in ascending order, each once, between commas |
| LoginLimiter.Limiter.CheckEmailRateLimit | internal/handlers/auth_email.go:43-57 | answers whether the live window holds five failures, and drops an expired window |
| LoginLimiter.Limiter.RecordFailedLogin | internal/handlers/auth_email.go:60-73 | opens a window or counts one more failure |
| LoginLimiter.Limiter.ClearLoginAttempts | internal/handlers/auth_email.go:76-80 | forgets the email |
| LoginLimiter.Limiter.Login | internal/handlers/auth_email.go:21-80 | check, then record or clear, as one step |
| LoginLimiter.Limiter.PurgeExpired | internal/handlers/auth_email.go:88-97 | the purge loop removes exactly the expired records |
| LoginLimiter.FiveExactly | internal/handlers/auth_email.go:43-73 | from any moment of any run on, every continuation within fifteen minutes and without a success lets at most five failures of an email through if and only if no half-used window of the email ends before those fifteen minutes do |
| LoginLimiter.MoreThanFive | internal/handlers/auth_email.go:43-73 | otherwise some continuation lets the rest of that window and a whole next one through |
| LoginLimiter.AtMostNineFailures | internal/handlers/auth_email.go:43-73 | any stretch of at most fifteen minutes without a success lets at most nine failures of an email through |
| LoginLimiter.NineIsReached | internal/handlers/auth_email.go:43-73 | nine are possible, within one second |
| LoginLimiter.LockedUntilExpiry | internal/handlers/auth_email.go:43-57 | a blocked email stays blocked until its window expires, whatever is tried |
| LoginLimiter.SuccessRestarts | internal/handlers/auth_email.go:76-80 | after a success the next five failures are let through |
| LoginLimiter.PurgingIsInvisible | internal/handlers/auth_email.go:82-99 | the purge loop never changes any answer |
| EntityTag.IndexUnquotedComma | internal/middleware/cache.go:269-282 | the scan finds the first comma outside quotes |
| EntityTag.IfNoneMatchHas | internal/middleware/cache.go:240-264 | the loop answers whether the header is a star or one of its items is the tag |
| EntityTag.ListMatchesItsTags | internal/middleware/cache.go:231-264 | a header listing tags matches exactly the tags it lists, commas inside quotes included |
| EntityTag.HeaderMatchesItsTags | internal/middleware/cache.go:231-264 | the same for entity tags as the standard spells them, an optional W/ and a quoted text, whatever commas it contains |

## Left out

- SummaryServer.Serve: handlers are atomic; a read that loads, loses the race against a write's invalidation and then stores leaves a response stale until its TTL, as the code accepts.
- SummaryServer.Server.CreateExpense: checks of request text (names, descriptions, date format, the one-year limit, missing ids) and descriptions, icons and time stamps are not modelled; they only refuse or are carried along. The same holds for the other handlers.
- SummaryServer.Server.GetBudgetSummary: database errors are not modelled, so neither is the degraded summary without links; the stored bytes are the summary value instead of its JSON, unrounded because cents need no rounding.
- SummaryTables.BuildSummary: the queries are functions over rows in insertion order, which stands for ORDER BY created_at; the order of rows of one link by creator is not modelled because no result depends on it.
- BudgetUpdate.UpdateBudget: trimming and the checks of names and currency codes are not modelled, here and in BudgetUpdate.CreatedRow; they only refuse or normalise. The purge of the budget list caches and the seeding of a new budget are elsewhere (the former not modelled, the latter in Allocation).
- DeleteBudget, DeleteCategory and collaborator changes in the coherence model: their cascades depend on the schema, and they do not purge every dependent budget.
- AllocationCeiling.BudgetRows.DeleteCategory: the cascade to expenses is not modelled, and the owner check is left to SummaryRequests.
- Migrate: it does not check the allocation ceiling.
- Spending.BuildUserSpending: the order of users with equal amounts follows map iteration and is left open; profiles and rounding are not modelled.
- Billing.SqlMatchesGo: dates are proleptic Gregorian with a year 0, which PostgreSQL does not have; time zones are not modelled.
- Attestation.DecodesCoseKey: a key is its two coordinates; the library's key type and its marshalling are not modelled.
- AttestProtocol.Stores.Verify: base64, JSON, SHA-256 and ECDSA are a parameter; x5c validation is a stub in the code.
- AttestProtocol.CountersIncrease: it is about the SQL stores; the in-memory stores of the tests bump without a guard.
- KeyWrap.AesKeyUnwrap: the block cipher is any pair of inverse functions; JWE and JWS around it are not modelled.
- QueryWhere.WhereSelectsWhatWasAsked: column names must not use the query syntax or the four reserved names, because the builder does not escape them; a comparison is a parameter that is true only when the row passes, so SQL nulls need no third value.
- QueryFilter.DescendingSpellings: letters outside ASCII whose upper case stays outside ASCII are left alone, because the direction is only compared with DESC.
- QueryStrings.TrimWrapped: trimming blanks elsewhere knows only the ASCII blanks.
- Post and Patch column lists: map iteration with the placeholder pattern already covered.
- HubSteps.RunsAreSafe: clients are single-use, as the code asks; the request channels and JSON encoding are not modelled, so a broadcast happens when the event loop takes it. WebSocket frames, pings and the write pump's early exit on errors are not modelled.
- HubDelivery.DeliveryIsInOrder: after the early exit of a write pump nothing more is written, which the model shows as a pump that stops taking steps.
- LoginLimiter.FiveExactly: as in LoginLimiter.AtMostNineFailures, check and record of one login are one step with one clock reading, as with no concurrent logins of the same email.
- UuidKey.SortedUuidsKey: the other single-flight keys are plain concatenations.
- The Turnstile verifier's cache: its size cap is not an invariant, because a hit drops the map entry but not the list entry.
- Trends, dashboard and resume payloads, Cache-Control tables and their number formatting, user-agent parsing, configuration, sessions, OAuth, invites and Redis: one-branch facts or repetitions of the above.
- Floating-point rounding: amounts are exact cents or real numbers.
