# Verified models of the gateway

Dafny models of the parts of the gateway where a mistake is silent: what a request costs and what
is held for it, what a retried POST answers, what concurrent settings writes may leave behind, how
much the rate limiter admits, and the small text formats that money, cursors, keys and search terms
travel in. `dafny verify dfyconfig.toml` checks the whole project.

| file | what it models |
|---|---|
| `Amounts.dfy` | exact amounts, the single rounding, sums over a map in any order |
| `PriceTables.dfy` | the token price table: bands, tiers, variants, fallbacks, snapshots |
| `Pricing.dfy` | token billing: validation, contributions, multipliers, quotes, own-credential fees |
| `Holds.dfy` | the pre-authorization: long-context ceiling, output cap, estimate, and why it covers the bill |
| `UnitPrices.dfy` | per-unit rates, which widen and fail closed |
| `PublishedPrices.dfy` | the price list an organization sees, against its bills |
| `Idempotency.dfy`, `IdempotencyProtocol.dfy` | the idempotency table, the capturing writer, and all runs of the protocol |
| `Settings.dfy`, `SettingsRuns.dfy`, `SettingsDeadlock.dfy`, `SettingsCache.dfy` | batches and section rules, concurrent transactions, when they deadlock, the read-through cache |
| `TokenBucket.dfy` | the rate-limit script, its expiry, and the caller's side |
| `Numerals.dfy`, `Money.dfy` | byte strings and positional numerals; the money printer and parser |
| `Cursors.dfy`, `Pagination.dfy` | base64 and cursor texts; following a list page by page |
| `KeyFormat.dfy` | CRC-32 and the API-key format |
| `Search.dfy` | UTF-8, white space, the search-term cut, LIKE escaping |

Conventions. An exact rational of the source is a `real`; an int64 is an `int` with an explicit
range check where the code has one. A loop over a Go map picks its next key arbitrarily, so what is
proved holds for every iteration order. A SQL statement, the Lua script and a cache call are atomic
steps. A Go string is a sequence of bytes. Clocks, random bytes, scheduling, crashes and expiry are
inputs to the steps, and theorems about runs quantify over all of them.

## What the proofs found

These are properties the code has only under a condition; the condition is proved exact, or the
failing case is exhibited.

- Validation does not check image output tokens, nor audio and image input together
  (pricing.go:716-729). Usages that pass are billed for more tokens than they have, or, when the image
  count is the least int64 and the subtraction at pricing.go:250 wraps around, credited:
  `Pricing.OverlappingInputOvercharges`, `Pricing.ExcessImageOvercharges`, `Pricing.WrappedImageCredits`.
  With no overrides the split is invisible if and only if it fits its parent without leaving the int64
  range, or the parent's rate is zero: `Pricing.ConservationIff`.
- A hold does not always cover what it was estimated for (`Holds.ZeroBoundOverrideEscapesHold`). At exact
  cost it covers every usage within the estimate if and only if, in each billed tier and at each prompt
  length, no prompt rate exceeds the raised input rate and no answer rate exceeds the raised output rate
  by more than the prompt's slack makes up for: `Holds.HoldSafeIff`, for every table. It is enough to look
  at lengths zero and one and at the table's own lower bounds (`Holds.SafeAtBoundsIff`). Without audio and
  image rows that comes down to the text input rate at length one, the text output rate at length zero
  and the cache rates at length one and the bounds (`Holds.TextSafeIff`); an override at length zero can
  be harmless (`Holds.HarmlessEarlyOverride`).
- The comments at price_table.go:147 and price_table.go:253 call the band that applies the dearest
  applicable one. It is the one with the greatest reached lower bound. That is the dearest at every
  length if and only if a higher bound never has a lower rate (`PriceTables.DearestIff`); a discount for
  long prompts breaks it (`PriceTables.LongDiscountIsNotDearest`).
- The comment at unit_price.go:193 says a rate that does not name an axis applies to every value of
  it. The lookup tries four nested keys only: a row is reachable if and only if it also leaves its axes
  open in that order (`UnitPrices.ReachableIff`, `UnitPrices.OpenResolutionIsMissed`).
- Section locks are taken in sorted order and cannot deadlock, but rows are written in the batch's own
  order. Batches applied at the same time can deadlock if and only if they can be cut into a stuck
  position, a condition on what each locks with no run in it (`SettingsDeadlock.DeadlockIff`); two can
  if and only if both pass their checks, they share no section, and the first row the one shares with
  the other is not the first the other shares with it (`SettingsDeadlock.TwoBatchesDeadlockIff`).
  Clearing a secret that is not stored locks no row (`SettingsDeadlock.IdleClearsNeverDeadlock`). Any
  number of batches that list keys outside all rules in one agreed order never deadlock
  (`SettingsRuns.NoDeadlock`).
- The response capture keeps the first status a handler writes. That is the final status the client
  sees if and only if it is not an informational one (`IdempotencyStore.CapturedIsFinalIff`); otherwise a
  replay answers with the informational status.
- The delayed second invalidation closes the cache hole if read-throughs take under a second
  (`SettingsCache.NoStaleEntryAfterSecondInvalidation`). Without any timing assumption: after it an older
  value is cached again if and only if a reader stores one later (`SettingsCache.OlderStaysIff`), and
  such a reader selected no later than the commit and took a second or more
  (`SettingsCache.LateStoreTookASecond`). Such readers, and the need for the second round, are real
  (`SettingsCache.HoleIsReal`).
- A refused request repeated as it was is admitted if and only if it waits at least the suggested
  time (`TokenBucket.RetryAfterIsExact`).
- The least int64 prints and does not parse back; every other one does (`Money.RoundTrip`).
- A cursor for an empty id is refused (`Cursors.DecodeInvertsEncode`); a key cursor for the single
  empty component is the empty text, which asks for the first page (`Cursors.KeyCursorContinuesIff`).
- A published rate covers what it stands for if and only if publishing it does not overflow
  (`PublishedPrices.PublishedCoversIff`); the schema's bound on stored rates is exactly what rules the
  overflow out (`PublishedPrices.StoredRatesArePublishable`, `PublishedPrices.StorableIff`).

## Model

| member | source | states |
|---|---|---|
| Amounts.CeilQuotientIsCeil | internal/gateway/catalog/pricing.go:596-606 | truncating division corrected for a positive remainder is the ceiling, for either sign |
| Amounts.CeilToInt64 | internal/gateway/catalog/pricing.go:596-606 | succeeds exactly when the ceiling fits an int64, and returns the least integer not below the amount |
| MapSums.SumSplit | internal/gateway/catalog/unit_price.go:252-268 | a sum over a map is one value whichever key is taken first |
| PriceTables.NewPriceTable | internal/gateway/catalog/price_table.go:135-157 | from rows in any order, the table holds exactly the rows, each key's bands by descending lower bound |
| PriceTables.TakeSnapshot | internal/gateway/catalog/price_table.go:208-231 | a snapshot lists every band of every key, none invented, none twice when bounds are distinct |
| PriceTables.FirstReachedSelects | internal/gateway/catalog/price_table.go:303-310 | the walk finds the greatest reached lower bound, or nothing exactly when no bound is reached |
| PriceTables.DearestIff | internal/gateway/catalog/price_table.go:147-155 | the band that applies is the dearest applicable one at every length if and only if a higher lower bound never has a lower rate |
| PriceTables.LongDiscountIsNotDearest | internal/gateway/catalog/price_table.go:252-253 | bands whose applying rate is below another applicable one |
| PriceTables.TierResolution | internal/gateway/catalog/price_table.go:319-333 | a tier answers with the exact variant, else the plain one, and tells "no rate at this length" from "no rate at all" |
| PriceTables.LookupMeetsSpec | internal/gateway/catalog/price_table.go:282-350 | the nested fallbacks are the declarative rule on the configured rows, for every order of rows |
| PriceTables.RateSpecUnique | internal/gateway/catalog/price_table.go:245-275 | the declarative rule has one answer |
| PriceTables.PricedTierNeverLeaves | internal/gateway/catalog/price_table.go:261-269 | a tier that prices the bucket at any length answers with its own row or the base rate, never another tier's |
| PriceTables.UnnamedBucketIsFree | internal/gateway/catalog/price_table.go:396-412 | a bucket the base price does not name costs nothing without a row |
| PriceTables.SameRowsSameLookup | internal/gateway/catalog/price_table.go:204-231 | tables holding the same rows in any order answer every lookup alike |
| Pricing.UpstreamCostBuckets | internal/gateway/catalog/pricing.go:226-282 | each contribution is the exact sum of tokens times resolved rate; refused exactly when a called tool has no price |
| Pricing.TextAndMediaCost | internal/gateway/catalog/pricing.go:226-255 | of any valid usage, every text, audio and image count is billed at the rate of its own bucket, tier and prompt length, the text being what the parts leave |
| Pricing.CacheCost | internal/gateway/catalog/pricing.go:256-267 | of any valid usage, cache writes with a lifetime are billed at that variant's rate and the rest at the plain one |
| Pricing.WrapsAround | internal/gateway/catalog/pricing.go:250-250 | the int64 subtraction gives the one int64 congruent to the difference |
| Pricing.ToolTotal | internal/gateway/catalog/pricing.go:268-280 | tool calls sum to one value in any order, or are refused exactly when one has no price |
| Pricing.ToolsAddUp | internal/gateway/catalog/pricing.go:268-280 | no calls cost nothing, and one more tool adds its calls times its price, or nothing on a free table |
| Pricing.ToolCallsBilled | internal/gateway/catalog/pricing.go:268-280 | at par a tool called n more times moves the charge and the cost by n times its prices |
| Pricing.Compute | internal/gateway/catalog/pricing.go:340-398 | the quote, or the refusal of the first failing check |
| Pricing.RefusedIff | internal/gateway/catalog/pricing.go:340-364 | exactly which usages, rates, exchange rates and tool calls are refused, and with what, in the order of the checks |
| Pricing.QuoteAmounts | internal/gateway/catalog/pricing.go:366-398 | the charge is the least integer not below the list total times both customer multipliers and the exchange rate, the cost likewise with the procurement multiplier, a zero multiplier counting as 1x |
| Pricing.ComputeExactContributions | internal/gateway/catalog/pricing.go:504-538 | the unrounded contributions of the quote that Compute would give, or the refusal Compute would give |
| Pricing.ExactRecordScales | internal/gateway/catalog/pricing.go:524-537 | each of the ten recorded contributions is its own bucket times the same factors |
| Pricing.SingleRounding | internal/gateway/catalog/pricing.go:366-398 | each amount of a quote is one ceiling of the sum of the exact contributions |
| Pricing.ChargeIgnoresCost | internal/gateway/catalog/pricing.go:314-328 | quotes that differ only in cost table or procurement multiplier charge the same |
| Pricing.FreeFailsClosed | internal/gateway/catalog/price_table.go:233-243 | a free model charges nothing, tools included, keeps the real cost, and never hides a tool missing from the cost table |
| Pricing.OutputSum | internal/gateway/catalog/pricing.go:250-250 | for any int64 image count the parts of the output add up to it again if and only if they fit and the subtraction does not wrap |
| Pricing.ConservationIff | internal/gateway/catalog/pricing.go:242-266 | without overrides the split is invisible if and only if it fits its parent without wrapping or the parent's rate is zero |
| Pricing.SplitInvisible | internal/gateway/catalog/pricing.go:217-220 | two splits of the same four counts get the same charge |
| Pricing.PlainTenAndTen | internal/gateway/catalog/pricing.go:340-364 | the reference for the three below: ten tokens in and ten out at one nano a token are billed 20 |
| Pricing.OverlappingInputOvercharges | internal/gateway/catalog/pricing.go:715-739 | a usage that validates and is billed 30 for 20 tokens, its audio and image counts overlapping |
| Pricing.ExcessImageOvercharges | internal/gateway/catalog/pricing.go:715-739 | a usage that validates and is billed 35 for 20 tokens, its image count exceeding its output |
| Pricing.WrappedImageCredits | internal/gateway/catalog/pricing.go:250-254 | a usage that validates and is billed a negative amount, the subtraction having wrapped around |
| Pricing.SnapshotRebills | internal/gateway/catalog/price_table.go:204-231 | a table rebuilt from a snapshot bills every usage at every rate alike, on both sides of the quote |
| Pricing.ComputeByok | internal/gateway/catalog/pricing.go:424-463 | the service-fee quote, with no cost recorded |
| Pricing.ByokAmounts | internal/gateway/catalog/pricing.go:424-463 | the fee is the list total times fee, plan multiplier and exchange rate, rounded up once, for every fee, zero included |
| Pricing.ByokRefusedIff | internal/gateway/catalog/pricing.go:424-446 | refuses a negative fee, and otherwise what the platform's billing refuses, whatever the model multiplier |
| Pricing.ByokMatchesPlatform | internal/gateway/catalog/pricing.go:400-423 | at a fee equal to the model multiplier both credentials are charged the same |
| Holds.LongContextCeiling | internal/gateway/catalog/price_table.go:365-394 | per base bucket the greatest rate with a positive lower bound, zero when there is none |
| Holds.HoldCap | internal/gateway/catalog/catalog.go:1411-1422 | the cap is the maximum over model and candidates, and one candidate that ignores the request's cap disqualifies it |
| Holds.Estimate | internal/gateway/catalog/pricing.go:660-687 | the amount held, or the refusal, as one value, which the rows below pin |
| Holds.HeldOutputIsLeast | internal/gateway/catalog/pricing.go:641-670 | the output held is never above an honoured request limit nor above a positive cap, and is one of the two |
| Holds.HoldAmount | internal/gateway/catalog/pricing.go:671-687 | the hold is the exact charge of the estimated prompt and the held output at the dearer rates, rounded up once, or one nano |
| Holds.HoldRefusedIff | internal/gateway/catalog/pricing.go:671-682 | exactly which estimates are refused, and with what |
| Holds.HeldOutputCovers | internal/gateway/catalog/catalog.go:1401-1410 | the hold reserves at least the output any candidate allows |
| Holds.HeldOutputIsAllowed | internal/gateway/catalog/catalog.go:1401-1410 | and no more than need be: a candidate whose own limit is the cap is allowed all that is held, unless it honours a limit another ignores |
| Holds.AllowedOutputIsLeast | internal/gateway/catalog/catalog.go:1401-1410 | what a candidate allows is its own limit or the model's, and less only for a smaller limit it honours |
| Holds.RaisedCoversIff | internal/gateway/catalog/price_table.go:352-364 | the raised rate covers a bucket from a length on if and only if it covers it at that length |
| Holds.HoldSafeIff | internal/gateway/catalog/pricing.go:641-659 | a hold covers at exact cost every usage within its estimate if and only if the table is safe, for every table |
| Holds.SafeAtBoundsIff | internal/gateway/catalog/price_table.go:303-310 | safety is decided at lengths zero and one and at the table's lower bounds |
| Holds.TextSafeIff | internal/gateway/catalog/price_table.go:356-364 | without audio and image rows safety is decided by the text rates at lengths one and zero and the cache rates at length one and the bounds |
| Holds.LongContextOnlyIsSafe | internal/gateway/catalog/price_table.go:356-364 | a configuration of positive lower bounds, no audio or image overrides and cache rates at most the input rate is safe |
| Holds.HarmlessEarlyOverride | internal/gateway/catalog/price_table.go:303-310 | a table with an override at length zero that is safe all the same |
| Holds.ExactCostCovered | internal/gateway/catalog/pricing.go:654-659 | the exact cost of any usage within the estimate is at most the estimate's, for a safe table |
| Holds.HoldDominatesSettlement | internal/gateway/catalog/pricing.go:641-687 | for a safe table the hold is at least the charge, for every usage within it, every tier, length, serving candidate and procurement multiplier |
| Holds.ZeroBoundOverrideEscapesHold | internal/gateway/catalog/price_table.go:378-380 | a table whose zero-bound override is billed above its hold |
| UnitPrices.NewUnitPriceTable | internal/gateway/catalog/unit_price.go:132-148 | the keys are those of the rows with the tier filled in, each at the rate of its last row |
| UnitPrices.TakeSnapshot | internal/gateway/catalog/unit_price.go:228-246 | the snapshot is exactly the table's entries, each once |
| UnitPrices.RebuildFromSnapshot | internal/gateway/catalog/unit_price.go:225-246 | rebuilding from the snapshot gives back the same rates |
| UnitPrices.SnapshotRebills | internal/gateway/catalog/unit_price.go:225-246 | a table rebuilt from a snapshot bills every job at every rate alike, on both sides of the quote and for the service fee |
| UnitPrices.BillingUnit | internal/gateway/catalog/unit_price.go:174-189 | the one unit every row names, a refusal when no row names one, a refusal only when two rows differ |
| UnitPrices.ReachableIff | internal/gateway/catalog/unit_price.go:197-213 | which rows a request can reach: those that apply and are nested in it |
| UnitPrices.OpenResolutionIsMissed | internal/gateway/catalog/unit_price.go:191-207 | a row that applies to a request and is not found |
| UnitPrices.LookupMeetsSpec | internal/gateway/catalog/unit_price.go:197-213 | a hit has the request's unit and tier, agrees on every named axis and is the most specific; a miss means no such row |
| UnitPrices.UnitCost | internal/gateway/catalog/unit_price.go:250-270 | one sum for every iteration order, or a refusal exactly when a nonzero quantity has no rate |
| UnitPrices.UnitsAddUp | internal/gateway/catalog/unit_price.go:250-270 | no entries cost nothing, and one more entry adds its quantity times its rate |
| UnitPrices.ComputeUnits | internal/gateway/catalog/unit_price.go:284-309 | the quote, or the refusal of the first failing check |
| UnitPrices.RefusedIff | internal/gateway/catalog/unit_price.go:284-305 | exactly which jobs are refused, and with what, in the order of the checks |
| UnitPrices.QuoteAmounts | internal/gateway/catalog/unit_price.go:284-309 | both amounts are the exact totals times their factors, each rounded up once |
| UnitPrices.EntriesBilled | internal/gateway/catalog/unit_price.go:250-270 | at par an empty job is free and one more entry moves charge and cost by its quantity times its rates |
| UnitPrices.OneEntryBilled | internal/gateway/catalog/unit_price.go:250-270 | a job of one entry is billed its quantity times its rate, on both sides |
| UnitPrices.FreeFailsClosed | internal/gateway/catalog/unit_price.go:121-129 | a free list charges nothing, keeps the real cost, and never hides a rate missing from the cost table |
| UnitPrices.ComputeUnitsByok | internal/gateway/catalog/unit_price.go:324-361 | the service-fee quote of a job, with no cost recorded |
| UnitPrices.ByokAmounts | internal/gateway/catalog/unit_price.go:324-361 | the fee is the job's list total times fee, plan multiplier and exchange rate, rounded up once, for every fee, zero included |
| UnitPrices.ByokRefusedIff | internal/gateway/catalog/unit_price.go:324-345 | refuses a negative fee, and otherwise what the platform's billing refuses |
| UnitPrices.UnitsByokMatchesPlatform | internal/gateway/catalog/unit_price.go:311-323 | at a fee equal to the model multiplier both credentials are charged the same |
| PublishedPrices.ApplyOrgMultipliers | internal/gateway/catalog/models_handler.go:184-201 | a published rate is the multiplied rate rounded up once, or zero on a nonpositive rate, refused multipliers or overflow |
| PublishedPrices.PublishedAmount | internal/gateway/catalog/models_handler.go:184-201 | a published rate is the least integer not below the rate times both multipliers |
| PublishedPrices.PublishedCoversIff | internal/gateway/catalog/models_handler.go:184-201 | a published rate is at least what it stands for if and only if publishing it does not overflow |
| PublishedPrices.StoredRatesArePublishable | migrations/0002_gateway.sql:1369-1372 | no stored rate overflows at any admitted multiplier |
| PublishedPrices.StorableIff | migrations/0002_gateway.sql:1369-1372 | the schema's bound is exact: a rate is stored if and only if it is publishable at tenfold multipliers |
| PublishedPrices.BillWithinPublishedList | internal/gateway/catalog/models_handler.go:161-201 | a USD flat-rate bill is at most the ceiling of the same usage at the published list |
| PublishedPrices.OrgBillWithinOrgList | internal/gateway/catalog/models_handler.go:161-215 | for every price the schema admits, a bill is less than one nano above tokens times the organization's own published rates, and a configured multiplier is the one in force |
| IdempotencyStore.Store.TryClaim | foundation/httpx/idempotency_store.go:31-44 | succeeds exactly on a free slot, leaves it in flight for its request, and touches no other slot |
| IdempotencyStore.Store.TryTakeOver | foundation/httpx/idempotency_store.go:55-69 | succeeds exactly on a silent execution of the same request, which no other takeover can then follow, and touches no other slot |
| IdempotencyStore.Store.CompleteRow | foundation/httpx/idempotency_store.go:71-87 | completes exactly an execution in flight of the same request; a completed, foreign or vacated slot and all others stay |
| IdempotencyStore.Store.VacateRow | foundation/httpx/idempotency_store.go:89-95 | frees exactly the slot of an execution in flight of the same request; everything else stays |
| IdempotencyStore.Store.Sweep | foundation/httpx/idempotency_store.go:97-100 | removes exactly the expired rows |
| IdempotencyStore.CaptureIsWhole | foundation/httpx/idempotency.go:264-277 | over any run of a handler the buffer is the whole body, or overflow is set, exactly when the body exceeds the bound |
| IdempotencyStore.CaptureStatusIsFirst | foundation/httpx/idempotency.go:257-284 | the captured status is the first a handler fixes, 200 if it only writes |
| IdempotencyStore.CapturedIsFinalIff | foundation/httpx/idempotency.go:257-262 | the captured status is the final one the client sees if and only if it is not one of 100 to 199 other than 101 |
| IdempotencyStore.CaptureWriter.WriteHeader | foundation/httpx/idempotency.go:257-262 | the writer's fields follow the capture of the operations so far |
| IdempotencyStore.CaptureWriter.Write | foundation/httpx/idempotency.go:264-277 | the writer's fields follow the capture of the operations so far |
| IdempotencyStore.CaptureWriter.Status | foundation/httpx/idempotency.go:279-284 | the first status fixed, 200 if none |
| IdempotencyStore.StorableHeaders | foundation/httpx/idempotency.go:203-212 | every header but those whose canonical name is blocked |
| IdempotencyStore.BlockedInAnyCase | foundation/httpx/idempotency.go:194-212 | a blocked header is dropped in whatever capitals it was set |
| IdempotencyStore.KeptIff | foundation/httpx/idempotency.go:190-212 | a header is kept, with its values, if and only if it is none of the five blocked names in any capitals |
| IdempotencyProtocol.ExecuteAndStore | foundation/httpx/idempotency.go:156-188 | the row it runs for is completed with first status, kept headers and whole body if the body is at most 1 MiB and the status below 500 and not 429, and vacated otherwise; nothing else is touched |
| IdempotencyProtocol.StorableIff | foundation/httpx/idempotency.go:156-188 | what a handler wrote decides alone whether it is stored, a 4xx included, and all of it is |
| IdempotencyProtocol.Handle | foundation/httpx/idempotency.go:99-148 | undisturbed: a first sighting executes and settles, a repeat replays, another request is refused, a running one is in the way until it is overdue |
| IdempotencyProtocol.HandleTwice | foundation/httpx/idempotency.go:21-25 | a retry gets the first status, headers and body if they were worth keeping, another request is refused, and any other first answer is earned again |
| IdempotencyProtocol.FaithfulStep | foundation/httpx/idempotency.go:99-188 | every step keeps each stored and each replayed response backed by a finished execution |
| IdempotencyProtocol.ReplayFidelity | foundation/httpx/idempotency.go:156-227 | in every run a replay is exactly the first status, the whole body and the unblocked headers left by one execution of the same key and request, below 500 and not 429; the status is the final one unless informational |
| IdempotencyProtocol.CompletedRowIsFrozen | foundation/httpx/idempotency_store.go:55-100 | no step changes a completed row except the sweep, once it has expired |
| IdempotencyProtocol.NoExecutionAfterCompletion | foundation/httpx/idempotency.go:126-147 | no execution starts on a slot that is completed |
| IdempotencyProtocol.FirstCompletionWins | foundation/httpx/idempotency.go:152-155 | a completed row keeps its answer in every later state until it expires |
| IdempotencyProtocol.ExclusiveStep | foundation/httpx/idempotency.go:99-148 | every step keeps each live execution the owner of its row and alone on its slot |
| IdempotencyProtocol.AtMostOneLive | foundation/httpx/idempotency.go:28-36 | if live executions keep to the timeout, no key has two live executions in any reachable state |
| IdempotencyProtocol.TakeOverIffOverdue | foundation/httpx/idempotency.go:135-147 | a retry takes over a live execution if and only if it is older than the timeout |
| IdempotencyProtocol.ReadAnswers | foundation/httpx/idempotency.go:111-133 | a request that reads its row replays, is refused, or finds a running execution |
| IdempotencyProtocol.RetryIsReplayed | foundation/httpx/idempotency.go:111-133 | in every run a retry that reads its row before the answer expires is answered with what was stored |
| IdempotencyProtocol.FinishSettles | foundation/httpx/idempotency.go:156-188 | the execution that owns its row leaves its whole answer there if it is worth keeping, and a free slot otherwise |
| IdempotencyProtocol.ClaimExecutesIff | foundation/httpx/idempotency.go:99-125 | a claim executes if and only if the slot is free; otherwise the request reads, or fails on its second try |
| IdempotencyProtocol.TimesCarried | foundation/httpx/idempotency.go:28-36 | a row lives for a day, and only an execution silent for over a minute is taken over |
| Settings.LoadValues | settings/settings.go:476-515 | defaults overlaid with stored values for exactly the keys of the sections, an unreadable secret reading as unset |
| Settings.LoadedValue | settings/settings.go:476-515 | a key without a stored or readable value loads as its registered default, and as nothing if it is a secret |
| Settings.MergeIsLoadAfterWrite | settings/settings.go:443-457 | the values the rules judge are those read back after the write, secrets and clears included |
| Settings.WriteAllEffect | settings/settings.go:126-158 | a batch changes its own keys only, and to values independent of what was there |
| Settings.RulesTouching | settings/section.go:185-229 | exactly the rules on or reading a touched section, own rules before those that read others and each by section, and their sections in lock order |
| Settings.CheckAdmissible | settings/settings.go:414-431 | accepts exactly the batches of registered, distinct, well-formed keys |
| Settings.AdmissibleIff | settings/settings.go:414-431 | a batch is admissible if and only if no key is unregistered, repeated or given a value its kind does not admit |
| Settings.Plan | settings/settings.go:413-464 | accepts exactly the admissible batches that pass every rule they touch on the merged values; a broken rule reported is the first in reporting order |
| Settings.Store.Put | settings/settings.go:126-158 | the key is then worth the value written, or nothing after a clear, and every other key what it was worth |
| Settings.RowLeft | settings/settings.go:126-158 | plain values as they are, an emptied secret no row, another secret one readable for its own key under its own master key only |
| Settings.Store.Apply | settings/settings.go:358-370 | writes the whole batch exactly when it is accepted, and otherwise nothing |
| SettingsRuns.PassesMeansWouldHold | settings/settings.go:443-462 | a passed check means the touched rules hold on the table after the write |
| SettingsRuns.CommitKeepsChecks | settings/settings.go:349-357 | a commit leaves intact the verdicts another checked batch relies on |
| SettingsRuns.CommitLeavesAll | settings/settings.go:139-143 | for guarded keys the changes that took effect leave what the whole batch would, skipped clears included |
| SettingsRuns.CommitKeepsSkips | settings/settings.go:436-442 | no commit brings back a guarded row whose clear another checked batch skipped |
| SettingsRuns.CommitKeepsOtherRows | settings/settings.go:139-143 | a commit leaves every row it has not locked as it is, that of a skipped clear included |
| SettingsRuns.LockedSections | settings/settings.go:432-442 | a batch that touches no rule locks nothing; another locks its sections and those of every rule it touches |
| SettingsRuns.CommitKeepsRules | settings/settings.go:358-370 | a commit leaves every rule holding |
| SettingsRuns.SoundStep | settings/settings.go:413-464 | every step of every transaction keeps locks exclusive, rules holding and checks valid |
| SettingsRuns.RulesSurviveEveryRun | settings/settings.go:358-370 | in every interleaving every section rule holds after every commit |
| SettingsRuns.GuardedRowIsFree | settings/settings.go:436-442 | nobody waits for a row whose section is locked by every writer |
| SettingsRuns.NoDeadlock | settings/settings.go:436-442 | any number of batches that list unguarded keys in one agreed order never deadlock |
| SettingsDeadlock.DeadlockAnatomy | settings/settings.go:358-370 | in every run, commits included, a deadlock holds a closed circle of writers that share no section and no row, each waiting for an unguarded row of the next |
| SettingsDeadlock.DeadlockIsStuck | settings/settings.go:358-370 | the writers of a deadlock stand at a stuck position of the batches |
| SettingsDeadlock.ReachStanding | settings/settings.go:358-370 | any members that can be cut apart are brought to their cuts by some run, section locks included |
| SettingsDeadlock.DeadlockIff | settings/settings.go:358-370 | any family of batches can deadlock if and only if it can be cut into a stuck position |
| SettingsDeadlock.TwoBatchesDeadlockIff | settings/settings.go:358-370 | any two batches can deadlock if and only if both pass, share no section lock, and their first shared rows differ |
| SettingsDeadlock.AppliedAlone | settings/settings.go:358-370 | a batch that passes, applied alone, runs through and leaves exactly the table its writes leave |
| SettingsDeadlock.DeadlockAfterCommits | settings/settings.go:358-370 | after any batches have committed one after another, a family that can be cut into a stuck position on their table does deadlock |
| SettingsDeadlock.IdleClearsNeverDeadlock | settings/settings.go:139-143 | a batch that only clears secrets that are not stored is in no deadlock |
| SettingsDeadlock.OppositeOrdersDeadlock | settings/settings.go:363-368 | two rows listed in opposite orders by batches that share no section do deadlock |
| SettingsCache.CoherentStep | settings/settings.go:223-272 | every step of readers and writers keeps swept keys free of older values, cached or on their way |
| SettingsCache.NoStaleEntryAfterSecondInvalidation | settings/admin/admin.go:97-120 | once a commit's second invalidation has run, no cached entry is older than the commit |
| SettingsCache.OlderStaysIff | settings/admin/admin.go:97-112 | in every run, whatever readers take, an older value is cached after the second invalidation if and only if a reader stores one after it |
| SettingsCache.LateStoreTookASecond | settings/admin/admin.go:102-120 | such a reader selected no later than the commit and took a second or more |
| SettingsCache.HoleIsReal | settings/admin/admin.go:102-107 | with one round, or with a reader taking a full second, there is a run in which a stale value stays |
| TokenBucket.TakeInRange | foundation/drivers/ratelimit/redis.go:86-107 | tokens stay between zero and the limit |
| TokenBucket.TakeMeans | foundation/drivers/ratelimit/redis.go:74-107 | what is on hand, when a call is admitted, what it takes, and what is reported as remaining, exactly |
| TokenBucket.Server.TakeTokens | foundation/drivers/ratelimit/redis.go:65-108 | the script's answer and the hash and expiry it leaves, whether or not an expired hash was still there |
| TokenBucket.ExpiryUnobservable | foundation/drivers/ratelimit/redis.go:101-105 | an expired hash and no hash give the same answer and leave the same hash |
| TokenBucket.ExpiryNeverShows | foundation/drivers/ratelimit/redis.go:101-105 | over every run and every removal time, each answer is that of a server that never expires |
| TokenBucket.CallBalance | foundation/drivers/ratelimit/redis.go:86-99 | a call admits and leaves at most a full bucket, and at most what was there plus the refill |
| TokenBucket.Potential | foundation/drivers/ratelimit/redis.go:86-99 | over a stretch of calls, what was admitted and what is left is at most a full bucket plus the refill |
| TokenBucket.AdmissionBound | foundation/drivers/ratelimit/redis.go:15-24 | between any two instants at most the limit plus the refill is admitted, for every run, every size of call and every time at which expired hashes disappear |
| TokenBucket.RetryAfterIsExact | foundation/drivers/ratelimit/redis.go:94-98 | a refused call repeated after d milliseconds is admitted if and only if d is at least the suggested wait |
| TokenBucket.AllowN | foundation/drivers/ratelimit/redis.go:118-165 | an impossible request is refused without touching the server; otherwise the script's decision, with a positive wait on refusal |
| TokenBucket.TruncatesTowardZero | foundation/drivers/ratelimit/redis.go:130-130 | the wait of an impossible request is a quotient truncated toward zero |
| Numerals.Width | access/keyfmt/keyfmt.go:28-30 | a number has at most k digits if and only if it is below the k-th power of the base |
| Numerals.Alphabet | access/keyfmt/keyfmt.go:45-45 | digits, then small letters, then capitals |
| Money.OneReading | foundation/money/parse.go:26-40 | a text has at most one reading, the one the parser takes |
| Money.AmountText | foundation/money/parse.go:26-40 | an amount is an optional minus, digits, and optionally a point and digits |
| Money.WholeUnits | foundation/money/parse.go:41-51 | the digits' value, or none exactly when it passes the int64 range |
| Money.FractionNano | foundation/money/parse.go:52-59 | the fraction's exact nano value, below one unit |
| Money.ParseDecimalNano | foundation/money/parse.go:26-67 | accepts exactly the texts of the grammar whose value fits, and returns the exact value |
| Money.FormatDenotes | foundation/money/money.go:68-98 | the printed text denotes the number exactly, at any scale and either sign |
| Money.FormatIsShortest | foundation/money/money.go:72-98 | no text with the same meaning is shorter |
| Money.RoundTrip | foundation/money/money.go:68-70 | parsing what was printed gives the number back, except the least int64, which is refused |
| Base64Url.RoundTrip | foundation/cursorpage/cursorpage.go:66-69 | every byte string survives unpadded URL-safe base64 (section 5 of RFC 4648) |
| Base64Bits.EncodesTheBits | foundation/cursorpage/cursorpage.go:66-69 | the letters spell the bytes' number in base 64, filled up with zero bits, each by the standard's alphabet |
| Base64Bits.Alphabet | foundation/cursorpage/cursorpage.go:66-69 | capitals, small letters, digits, hyphen, underscore |
| Base64Bits.DecodesIff | foundation/cursorpage/cursorpage.go:70-76 | what decodes: letters of the alphabet in any number but one above a multiple of four |
| Base64Bits.BreaksSkipped | foundation/cursorpage/cursorpage.go:70-76 | line breaks are as good as absent |
| Cursors.ParseInt64OfNumeral | foundation/cursorpage/cursorpage.go:84-87 | a printed int64 reads back, holds no colon and has no sign unless it is negative |
| Cursors.OnlyDigitsParse | foundation/cursorpage/cursorpage.go:84-87 | only a sign or none and then digits are read as a number |
| Cursors.DecodeInvertsEncode | foundation/cursorpage/cursorpage.go:64-89 | a cursor is the microsecond, a colon and the id; decoding gives back the id and the instant rounded down to its microsecond, and refuses exactly the empty id |
| Cursors.Clamp | foundation/cursorpage/cursorpage.go:91-101 | a limit in range is kept, one above the maximum becomes the maximum, an absent one the default |
| Cursors.Trim | foundation/cursorpage/cursorpage.go:103-112 | the longest prefix within the limit, and whether anything was cut |
| Cursors.KeyRoundTripIff | foundation/cursorpage/cursorpage.go:163-192 | a key survives exactly when it has a component and none of them holds a NUL |
| Cursors.WrongArityRefused | foundation/cursorpage/cursorpage.go:176-192 | a cursor of another arity is refused |
| Cursors.KeyCursorContinuesIff | foundation/cursorpage/cursorpage.go:195-210 | a minted key cursor continues its list, except the single empty component |
| Pagination.ListingIsSorted | access/apikeys/store.go:112-116 | the listing is the rows, each once, descending |
| Pagination.ListingOrder | access/apikeys/store.go:112-116 | by descending creation time, and by descending id within one instant |
| Pagination.SeekDrops | access/apikeys/store.go:112-116 | seeking below the k-th row drops exactly the first k |
| Pagination.CursorParses | foundation/cursorpage/cursorpage.go:42-58 | a minted cursor parses back to its row |
| Pagination.SelectIsPage | foundation/cursorpage/cursorpage.go:103-112 | the probe of one extra row decides exactly whether there is more |
| Pagination.FollowIsWalk | internal/gateway/consoleapi/logs.go:71-105 | following cursor texts is following the rows: no request fails and nothing is lost |
| Pagination.NothingTwiceNothingMissed | foundation/cursorpage/cursorpage.go:10-15 | with rows coming and going anywhere, no row is seen twice and every row present throughout is seen |
| Pagination.VisitIsExact | foundation/cursorpage/cursorpage.go:1-15 | with only newer rows arriving, a visit is exactly the initial rows in order, in as many pages as they fill, a page holding the limit asked for, clamped |
| Crc32.TableStep | access/keyfmt/keyfmt.go:72-74 | the table-driven step of section 8 of RFC 1952 is eight single-bit steps |
| Crc32.Generator | access/keyfmt/keyfmt.go:72-74 | the polynomial is the standard's, power by power, and the register has 32 ones |
| Crc32.BurstDifference | access/keyfmt/keyfmt.go:72-74 | the difference two equally long byte runs make is one polynomial shifted past them |
| Crc32.BurstDetected | access/keyfmt/keyfmt.go:72-74 | every change confined to four consecutive bytes changes the checksum |
| KeyFormat.FixedWidthInjective | access/keyfmt/keyfmt.go:75-80 | six base-62 characters determine the checksum |
| KeyFormat.CheckMeans | access/keyfmt/keyfmt.go:68-80 | the check is six base-62 digits whose number is the checksum |
| KeyFormat.NewIsValid | access/keyfmt/keyfmt.go:38-51 | New succeeds exactly for a random number of at least eight base-62 digits, and then the key is the prefix, that number and its check, and valid |
| KeyFormat.NewInjective | access/keyfmt/keyfmt.go:38-51 | different random bytes give different keys |
| KeyFormat.ValidIff | access/keyfmt/keyfmt.go:56-66 | valid means exactly prefix, body of at least eight bytes, and that body's check characters |
| KeyFormat.BurstInBodyDetected | access/keyfmt/keyfmt.go:56-80 | any change to up to four consecutive body bytes makes a valid key invalid |
| KeyFormat.OneByteDetected | access/keyfmt/keyfmt.go:56-80 | any change to one byte anywhere makes a valid key invalid |
| Utf8.SplitAtBoundary | foundation/db/search.go:33-33 | valid UTF-8 splits at every byte that begins a character into two valid texts |
| Utf8.ValidIff | foundation/db/search.go:33-33 | valid means a row of characters, each the standard's bytes of one scalar value |
| Trimming.TrimRightValid | foundation/db/search.go:18-18 | trimming trailing white space keeps valid UTF-8 valid |
| Trimming.WhiteIff | foundation/db/search.go:18-18 | the byte forms trimmed are exactly the encodings of Unicode's white-space characters |
| Trimming.TrimSpaceMeans | foundation/db/search.go:18-18 | what is trimmed is white-space characters at both ends, and none is left there |
| Trimming.TrimmedStays | foundation/db/search.go:18-18 | a text without white space at its ends stays as it is |
| Search.Bound | foundation/db/search.go:19-28 | the loop computes the cut |
| Search.CutIsAt | foundation/db/search.go:19-28 | a long text is cut before the last character that begins within 200 bytes, or after it if it is one byte |
| Search.BoundedIsValid | foundation/db/search.go:19-28 | the cut is a prefix of at most 200 bytes; of valid UTF-8 it is valid and gives up at most four bytes below the limit |
| Search.EscapedIsLiteral | foundation/db/search.go:29-30 | an escaped term matches itself and nothing else |
| Search.EscapeUnfolds | foundation/db/search.go:29-30 | a backslash before each percent sign, underscore and backslash, and nothing else |
| Search.EscapingPreservesMeaning | foundation/db/search.go:10-16 | the pattern matches a text if and only if the term occurs in it |
| Search.SearchFindsTheTerm | foundation/db/search.go:17-31 | for every valid UTF-8 input the predicate finds exactly the texts that hold the trimmed, cut input |
| Search.SearchTerm | foundation/db/search.go:17-31 | between two percent signs the result finds, for valid UTF-8, exactly the texts that hold the trimmed, cut input; a short input without white space at its ends goes in escaped and otherwise untouched |
| Search.FoldedSearch | foundation/db/search.go:10-16 | the same without regard to case |

## Left out

- Whole components: HTTP routing and handlers, authentication, telemetry, the CLI, seeds, the surface and endpoint tables, the breaker, spend counters and the in-memory drivers are not modelled.
- Exchange-rate text: reading it into a rational is not modelled; its outcome (not configured, malformed, a value) is an input.
- Snapshot order and JSON: a snapshot's sorting only stabilizes its text, and lookups are proved independent of order; the JSON form is not modelled.
- PriceTables.TakeSnapshot: the sorting of the rows by name, which keeps the JSON stable, is not stated.
- UnitPrices.TakeSnapshot: the sorting of the rows by name is not stated either.
- Holds.HoldDominatesSettlement: assumes the customer's multipliers and exchange rate are the same at hold and settlement, usage without tool calls and with fitting splits, and a positive cap; the condition on the table is exact before rounding, and rounding and the minimum hold of one nano can only add to the hold.
- Amounts as big.Rat: canonical fraction strings of the exact record are not modelled, nor is the record of a service fee, which repeats it with the fee for the model multiplier.
- IdempotencyProtocol.AtMostOneLive: assumes surviving executions finish within the timeout, that a claim or takeover reaches the database within 23 hours and 59 minutes of computing its expiry, and one clock; updated_at is refreshed by the trigger at migrations/0001_core.sql:259-261.
- IdempotencyProtocol.ReplayFidelity: headers are those the handler left, which need not be those already sent; the Idempotency-Replayed header a replay adds is not modelled; the fingerprint hash is taken as injective, and the re-rendering of headers through jsonb is not modelled; a failed store write is a crash step.
- Idempotency key shape: the length limit, the request-body limit and the choice of scope are not modelled.
- Settings.Store.Apply: database errors are not modelled; updated_by, hints and audit rows are not either.
- Settings.RulesTouching: the order among rules that tie in reporting order is not stated.
- SettingsRuns: transactions read committed rows, as READ COMMITTED does; lock names do not collide, every writer is a batch (the single-key setters run no rules), and rule verdicts depend on their own and declared sections only.
- SettingsDeadlock.DeadlockIff: the equivalence is for members none of which commits before the deadlock, from given rows. For runs with commits the necessary half is proved (`SettingsDeadlock.DeadlockAnatomy`), and the sufficient half when the commits come before the others begin (`SettingsDeadlock.DeadlockAfterCommits`); for a commit between two writes of another member it would need, besides the cuts, the order of the commits, since a clear is idle or not by the rows it meets.
- SettingsCache: the cache is shared, a lost second invalidation never counts as swept, the time-to-live is an eviction, and a reader inside an uncommitted transaction is not modelled.
- TokenBucket: Redis holds tokens as text of a float; token counts are exact here. Calls carry a nondecreasing server clock, and a positive window after the caller's rounding.
- TokenBucket.AllowN: a zero limit divides by zero in the source and is excluded; the overflow of a huge duration product and the reset instant are not modelled.
- Money.FormatDenotes: FormatNano, the two-decimal display form, and the literal validators are not modelled.
- Cursors: time zones are not modelled; instants are nanoseconds since 1970. KeyPage.At and BoolAt are not modelled.
- Pagination: how a UUID is written and scanned is a parameter that must round-trip; a client keeps its limit through a visit; conversion of the limit to 32 bits is not modelled.
- Crc32.TableStep: hash/crc32 is not part of this model; its checksum is the definition of the standard.
- KeyFormat.NewIsValid: the randomness of the bytes is not modelled.
- Search.FoldedSearch: case folding is any byte-wise folding that leaves the metacharacters and character starts alone; full Unicode folding and collations are not modelled.
