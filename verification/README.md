# Verified model of the market-data gate and its neighbours

A Dafny model of the parts of the trading platform where a wrong branch costs money or
lets a bad price, a sixth account or a second live session through. `dafny verify
dfyconfig.toml` checks all of it.

| file | what it models |
|---|---|
| `PriceGate.dfy`, `GateRuns.dfy` | the price integrity gate: per-symbol anchor, held outlier, counters, bounded anomaly log; and what it guarantees over whole runs |
| `Bus.dfy`, `BusRuns.dfy` | the event bus around the gate: ordering, de-duplication, drop counters |
| `QuoteStore.dfy`, `MarketService.dfy` | the store that yields marks, and the service that joins provider, bus and store |
| `Base32.dfy`, `Totp.dfy` | the base32 codec with its unmasked 32-bit accumulator, HOTP truncation, the skew window |
| `Calendar.dfy`, `Contracts.dfy` | Gregorian months, the full-closure table, business days, expiry rules, the front-month search |
| `Session.dfy`, `GapSampling.dfy` | Globex sessions, trading dates, the next opening; how far the gate's closure test can be trusted |
| `Ticks.dfy`, `Normalize.dfy`, `BarCache.dfy`, `Candles.dfy` | snapping, bar normalisation, the chunked bar cache and its pages, the candle audit and the live-bar merge |
| `AccountLimit.dfy`, `RefreshTokens.dfy` | two database protocols as interleaved statements |
| `Common.dfy`, `JsNumber.dfy` | options, bounded buffers, JavaScript's non-finite numbers |

State that the source updates in place is a class here, and each of its methods is proved
equal to one step of a function on values. What such a function computes is stated again
without naming it, in plain numbers or by the calendar, and the properties over runs are
proved about those functions. Finite prices are exact reals, with NaN and the infinities kept apart; times are
whole milliseconds; the clock, the provider's answers and the session calendar are parameters.

## What the code does that its documentation does not say

- A bar whose range covers the anchor installs its close unchecked, however far away
  (`GateRuns.CoveringBarInstallsAnyClose` says exactly when such a bar exists).
- Sampling both ends and the midpoint of a silence recognises only a closure near the middle,
  against the comment at `apps/server/src/marketdata/price-integrity.ts:303-312`: an index future
  silent from 14:00 to 17:01 crosses the halt and the daily break unnoticed
  (`GapSampling.DailyBreakIsMissed`; the exact condition, for any closures, is `GapSampling.ClosuresAreSampledIff`).
- A provider switch rebuilds every reference count at one, so the first of several
  subscribers to leave takes the symbol away from the rest (`MarketService.SwitchKeepsSubscribersIffOne`).
- Base32 decodes the empty encoding to null, so the round trip fails on exactly the empty
  secret (`Base32.RoundTrip`); decoding is not injective on text with leftover bits
  (`Base32.EncodeUndoesDecodeIffCanonical`).
- A TOTP check within a window of the Unix epoch throws instead of answering (`Totp.ThrowsIffStepBelowZero`).
- `Math.round` sends ties up, so snapping is not symmetric around zero as
  `packages/instruments/src/math.ts:32` has it (`Ticks.HalfCentIsNotSymmetric`; the exact
  condition is `Ticks.SnapSymmetricIff`).
- The metals expiry is taken in the delivery month, not in the month before as
  `packages/contracts/src/instrument.ts:56-57` has it (`Contracts.MetalsExpireInDeliveryMonth`).
- Storing a batch that names a bucket twice within one chunk of 500 is refused by the
  database after earlier chunks were written (`BarCache.CompletesIffNoClash`).
- Creating an account without the limit check, as approving a funded account does
  (`apps/server/src/platform/commerce.ts:797-813`), keeps the limit exactly when there is room for
  it in the table and in every open creation of the trader (`AccountLimit.UncheckedCreationFitsIffRoom`).
  A free slot in the table is not enough, against `apps/server/src/platform/account-limit.ts:11-13`: a
  purchase that has already counted four still inserts, and the trader has six (`AccountLimit.FreeSlotIsNotEnough`).
- Revoking all sessions of a user leaves one way back in: a refresh that was already under
  way (`RefreshTokens.RevocationIsFinalIffNoneInFlight`).

## Model

| member | source | states |
|---|---|---|
| `PriceGate.PriceIntegrity.Check` | apps/server/src/marketdata/price-integrity.ts:106-229 | one price is refused if and only if it is not finite or not possible, accepted if and only if it is first, across a sampled closure, or at most tolerance times the size of the anchor or of the waiting price away from it; the state changes by exactly one step of the gate |
| `PriceGate.PriceIntegrity.Compare` | apps/server/src/marketdata/price-integrity.ts:180-228 | from an anchored state the tolerance, release and quarantine branches are that same step |
| `PriceGate.PriceIntegrity.Decide` | apps/server/src/marketdata/price-integrity.ts:112-179 | with its rows in place a price takes the first of the refusal, first-price and closure branches that applies, and else is compared |
| `PriceGate.WithinIff` | apps/server/src/marketdata/price-integrity.ts:181-208 | the tolerance test holds if and only if the anchor is finite, not zero, and abs(p - a) <= tolerance * abs(a) |
| `PriceGate.DeviationIs` | apps/server/src/marketdata/price-integrity.ts:181-193 | a deviation d from a finite anchor a other than zero has d * abs(a) == abs(p - a); from zero it is infinite, or NaN at zero itself |
| `PriceGate.PriceIsJudged` | apps/server/src/marketdata/price-integrity.ts:106-229 | verdict, anchor, its time and the waiting price after one price, told by the price, the anchor and the waiting price alone |
| `PriceGate.CountersAreJudged` | apps/server/src/marketdata/price-integrity.ts:106-229 | which of the six counters one price raises |
| `PriceGate.RefusalIsReported` | apps/server/src/marketdata/price-integrity.ts:117-151 | a refused price is reported with its number, time and reason |
| `PriceGate.HoldIsReported` | apps/server/src/marketdata/price-integrity.ts:216-228 | a price held back is reported with how far it lies from the anchor |
| `PriceGate.DiscardIsReported` | apps/server/src/marketdata/price-integrity.ts:182-198 | an accepted price is reported if and only if it contradicts a waiting one, and then by the waiting price, its time and its distance |
| `PriceGate.DefaultsInNumbers` | apps/server/src/marketdata/price-integrity.ts:92-97 | by default a price passes within half a percent, after 120 s of silence over a closure, or within half a percent of a price held for at most 60 s |
| `PriceGate.PriceIntegrity.CheckBar` | apps/server/src/marketdata/price-integrity.ts:238-273 | one bar is a revision, covers the anchor, or is judged by its close, and changes the state by exactly one step |
| `PriceGate.BarIsJudged` | apps/server/src/marketdata/price-integrity.ts:238-273 | an older bar passes and changes nothing; else the newest bar time is the later of the two, and a bar whose closed range holds a recent anchor installs its close, any other is judged by it |
| `PriceGate.CountersTakeBar` | apps/server/src/marketdata/price-integrity.ts:258-273 | a revision raises no counter, a covering bar the accept counter, any other what its close would raise |
| `PriceGate.PriceIntegrity.Accept` | apps/server/src/marketdata/price-integrity.ts:322-331 | anchor and its time move, the accept counter rises, nothing else changes |
| `PriceGate.PriceIntegrity.Record` | apps/server/src/marketdata/price-integrity.ts:353-358 | the log gains the entry and is cut to its bound from the front |
| `PriceGate.PriceIntegrity.Clear` | apps/server/src/marketdata/price-integrity.ts:296-300 | the gate forgets states, counters and log |
| `PriceGate.BarJudgedByClose` | apps/server/src/marketdata/price-integrity.ts:259-273 | a bar that neither revises nor covers leaves the gate as a price equal to its close would |
| `GateRuns.SymbolsDoNotInterfere` | apps/server/src/marketdata/price-integrity.ts:333-351 | in any interleaving each symbol's state depends on its own observations only |
| `GateRuns.StateComesFromHistory` | apps/server/src/marketdata/price-integrity.ts:154-228 | at every moment of every run the anchor is the newest accepted observation and the pending price the newest unsettled quarantined one |
| `GateRuns.AcceptedIffWitnessed` | apps/server/src/marketdata/price-integrity.ts:106-229 | over every run a price is accepted if and only if it is finite and possible and its own history bears it out: first, across a sampled closure, near the anchor, or near a waiting price no older than the limit |
| `GateRuns.SampledClosureIsReal` | apps/server/src/marketdata/price-integrity.ts:313-320 | the closure test never fires without an instant inside the silence at which the market was not open |
| `GateRuns.OutliersAreErased` | apps/server/src/marketdata/price-integrity.ts:181-228 | in a run of agreeing prices with lone outliers between them exactly the agreeing ones are accepted, and the state left is that of the run without the outliers |
| `GateRuns.SustainedMoveGetsThrough` | apps/server/src/marketdata/price-integrity.ts:172-228 | from any state, a run in which each price agrees with its predecessor and follows within the quarantine limit is accepted from its second price on |
| `GateRuns.DriftIsBounded` | apps/server/src/marketdata/price-integrity.ts:181-204 | k accepts without re-anchor or release keep the anchor within (1 - tolerance)^k and (1 + tolerance)^k of where it started |
| `GateRuns.CountersAreConserved` | apps/server/src/marketdata/price-integrity.ts:106-229 | every judged observation is counted once; released + discarded + pending never exceed quarantined, released + reanchored never exceed accepted; reports match the counters |
| `GateRuns.CountersCountRulings` | apps/server/src/marketdata/price-integrity.ts:106-229 | over every run each counter is the number of observations that took its branch |
| `GateRuns.LogIsNewestReports` | apps/server/src/marketdata/price-integrity.ts:353-358 | the anomaly log is always the newest historySize of everything ever reported, in order |
| `GateRuns.CoveringBarInstallsAnyClose` | apps/server/src/marketdata/price-integrity.ts:261-271 | some well-formed bar can install any given finite close as the anchor if and only if the newest bar seen is not too far past the old one |
| `Bus.MarketEventBus.PublishQuote` | apps/server/src/marketdata/bus.ts:108-146 | clocks, statistics and gate after a quote, and whether listeners saw it |
| `Bus.MarkIs` | apps/server/src/marketdata/bus.ts:123-131 | the price put to the gate is the last trade, else for finite bid <= ask the one number m with m - bid == ask - m, else none |
| `Bus.MiddleIsBetween` | apps/server/src/marketdata/bus.ts:126-127 | a mark taken from bid and ask lies between them |
| `Bus.QuoteOutcome` | apps/server/src/marketdata/bus.ts:108-146 | a quote is late, a duplicate, put to the gate by that mark when its symbol is listed, or published; with the one statistic that counts it |
| `Bus.MarketEventBus.PublishTrade` | apps/server/src/marketdata/bus.ts:148-164 | clocks and statistics after a trade, and whether listeners saw it |
| `Bus.TradeOutcome` | apps/server/src/marketdata/bus.ts:148-164 | a trade is a duplicate by its number, else late by its time, else published; with the one statistic that counts it |
| `Bus.MarketEventBus.PublishBar` | apps/server/src/marketdata/bus.ts:171-186 | gate and statistics after a bar, and whether listeners saw it |
| `Bus.BarOutcome` | apps/server/src/marketdata/bus.ts:171-186 | a bar of a listed symbol is put to the gate, any other is published, and no clock moves |
| `Bus.MarketEventBus.PublishDepth` | apps/server/src/marketdata/bus.ts:188-193 | depth is always counted and passed on |
| `Bus.MarketEventBus.Advance` | apps/server/src/marketdata/bus.ts:98-102 | the symbol's stream number rises by one and is returned |
| `Bus.MarketEventBus.Reset` | apps/server/src/marketdata/bus.ts:236-238 | one symbol's ordering state is forgotten |
| `Bus.MarketEventBus.ClearAll` | apps/server/src/marketdata/bus.ts:240-243 | all ordering state and the gate are forgotten, the statistics kept |
| `Bus.OtherOutcomes` | apps/server/src/marketdata/bus.ts:98-102 | depth is published and only counted, a stream number is one more than the last, resets keep the statistics |
| `BusRuns.PublishedInOrder` | apps/server/src/marketdata/bus.ts:108-164 | between resets published quotes strictly rise in exchange time and published trades strictly rise in number with non-falling time, the clock standing on the newest |
| `BusRuns.ReplayIsIdempotent` | apps/server/src/marketdata/bus.ts:108-164 | offering again anything already published, in any order and number, publishes nothing and leaves clocks and gate unchanged |
| `BusRuns.OffersAreConserved` | apps/server/src/marketdata/bus.ts:108-193 | every offer bumps exactly one of published or one drop counter, and published is the sum of the per-symbol counts |
| `BusRuns.GateSeesQuestions` | apps/server/src/marketdata/bus.ts:123-141 | the gate inside the bus is the gate run on exactly the questions the bus asked since the last full reset |
| `BusRuns.MarksWereAccepted` | apps/server/src/marketdata/bus.ts:123-141 | the mark of the last published quote of a listed symbol was accepted by the gate |
| `QuoteStore.Store.PutQuote` | apps/server/src/marketdata/quote-store.ts:83-86 | the symbol's quote and receive time are replaced, all else stays |
| `QuoteStore.Store.PutTrade` | apps/server/src/marketdata/quote-store.ts:88-97 | the trade joins a buffer of the newest 500 |
| `QuoteStore.Store.MarkPrice` | apps/server/src/marketdata/quote-store.ts:113-125 | the last trade, else the number halfway between finite bid <= ask, else none; the same mark the bus asks the gate about |
| `QuoteStore.Store.Clear` | apps/server/src/marketdata/quote-store.ts:180-184 | quotes, trades and receive times are gone |
| `MarketService.MarketDataService.Receive` | apps/server/src/marketdata/service.ts:117-184 | one provider event moves bus and store by one service step; only a published quote or trade reaches the store |
| `MarketService.EventOutcome` | apps/server/src/marketdata/service.ts:117-184 | the store changes if and only if the bus passed a quote or a trade, and then by that one; a status changes neither |
| `MarketService.MarketDataService.Subscribe` | apps/server/src/marketdata/service.ts:190-200 | the symbol's count rises by one, the first count follows it, an unknown symbol changes nothing |
| `MarketService.MarketDataService.Unsubscribe` | apps/server/src/marketdata/service.ts:202-211 | the count falls by one and the last one stops following |
| `MarketService.MarketDataService.Switch` | apps/server/src/marketdata/service.ts:93-115 | bus, gate and store are emptied, every followed symbol is followed again with count one |
| `MarketService.MarketDataService.MarkPrice` | apps/server/src/marketdata/service.ts:342-344 | of the upper-cased symbol the last trade, else the number halfway between finite bid <= ask, else none |
| `MarketService.SwitchKeepsSubscribersIffOne` | apps/server/src/marketdata/service.ts:103-114 | after a switch one leaver keeps or drops the symbol as before if and only if there was a single subscriber |
| `MarketService.BusIsDriven` | apps/server/src/marketdata/service.ts:117-184 | the service's bus is the bus run on the calls its events make |
| `MarketService.StoreHoldsLastPublished` | apps/server/src/marketdata/service.ts:143-155 | the store holds the newest quote published since the last switch, or none |
| `MarketService.StoreHoldsNewestTrades` | apps/server/src/marketdata/service.ts:156-161 | the store keeps the newest 500 trades published since the last switch, in order |
| `MarketService.MarkSafety` | apps/server/src/marketdata/service.ts:93-155 | after any events and switches a mark is that of the newest published quote, and for a listed symbol a finite price the gate accepted as that quote, at its time, since the last switch, with a witness in its own history |
| `Base32.Encode` | apps/server/src/auth/totp.ts:26-40 | the loop with the wrapping accumulator yields the bytes' bits, zero-filled, in fives |
| `Base32.EmitWhole` | apps/server/src/auth/totp.ts:33-36 | the inner loop moves every whole word from the pending bits to the output and loses none |
| `Base32.Decode` | apps/server/src/auth/totp.ts:47-64 | the loop yields the symbols' bits in eights, or null for nothing or a foreign character |
| `Base32.ShiftIn` | apps/server/src/auth/totp.ts:31-31 | shifting and or-ing in a word of 32 bits keeps every pending bit whatever falls off the top |
| `Base32.AlphabetSpelled` | apps/server/src/auth/totp.ts:18-18 | the alphabet is A-Z then 2-7 |
| `Base32.SpacesSpelled` | apps/server/src/auth/totp.ts:48-48 | which characters count as space, by code point |
| `Base32.DecodesIff` | apps/server/src/auth/totp.ts:47-64 | a text decodes if and only if it has something besides spaces and padding, and besides them only letters of either case and the digits 2 to 7 |
| `Common.UpperSpelled` | apps/server/src/auth/totp.ts:48-48 | the small letters a-z become A-Z, letter by letter |
| `Common.OthersUnchanged` | apps/server/src/auth/totp.ts:48-48 | upper-casing changes nothing but those |
| `Base32.EncodedSpells` | apps/server/src/auth/totp.ts:26-40 | an encoding has ceil(8n/5) symbols and writes the bytes' bits followed by zeros |
| `Base32.EncodedIsNumber` | apps/server/src/auth/totp.ts:26-40 | an encoding is the bytes read as one base-256 number, with up to four zero bits behind it, written in base 32 |
| `Base32.VectorOfTheStandard` | apps/server/src/auth/totp.ts:26-40 | the vector "fooba" of RFC 4648 section 10 |
| `Base32.DecodeUndoesEncode` | apps/server/src/auth/totp.ts:26-64 | any text that cleans to an encoding decodes to the bytes |
| `Base32.RoundTrip` | apps/server/src/auth/totp.ts:26-64 | decoding an encoding gives the bytes back if and only if there are any |
| `Base32.RetypedSecretDecodes` | apps/server/src/auth/totp.ts:42-48 | lower case, spaces and padding anywhere do not change what decodes |
| `Base32.EncodeUndoesDecodeIffCanonical` | apps/server/src/auth/totp.ts:47-64 | re-encoding gives the same symbols if and only if fewer than five bits were dropped and all were zero |
| `Totp.WriteUInt32BE` | apps/server/src/auth/totp.ts:75-77 | writes four big-endian bytes in place, or refuses what does not fit |
| `Totp.CounterBuffer` | apps/server/src/auth/totp.ts:73-79 | the two word writes make the eight-byte big-endian step, and throw exactly outside 0 to 2^64 |
| `Totp.CounterSpelled` | apps/server/src/auth/totp.ts:73-79 | eight bytes are those of a step below 2^64 if and only if the step is their sum with the weights 2^56 to 1 |
| `Totp.CounterBytesDiffer` | apps/server/src/auth/totp.ts:73-79 | no two steps give the same eight bytes |
| `Totp.TruncatedIsLow31Bits` | apps/server/src/auth/totp.ts:84-89 | truncation stays inside the digest and is the low 31 bits of the number at the offset (RFC 4226 section 5.3) |
| `Totp.CodeParsesBack` | apps/server/src/auth/totp.ts:82-91 | a code is always six digits that parse back to the truncated value modulo a million |
| `Totp.CodeSpelled` | apps/server/src/auth/totp.ts:84-90 | in plain numbers: six decimal digits that write the four bytes at the offset, modulo 2^31 and then modulo 10^6 |
| `Totp.ExampleOfTheStandard` | apps/server/src/auth/totp.ts:84-90 | the example of RFC 4226 section 5.4 |
| `Totp.Hotp` | apps/server/src/auth/totp.ts:82-91 | the code of a step, or the thrown range error |
| `Totp.CodeOfStep` | apps/server/src/auth/totp.ts:82-91 | the code of a step is that of the digest of the eight bytes whose weighted sum is the step |
| `Totp.StepsLastThirtySeconds` | apps/server/src/auth/totp.ts:97-97 | c is the step of an instant t if and only if 30000 * c <= t < 30000 * (c + 1) |
| `Totp.TotpCode` | apps/server/src/auth/totp.ts:94-99 | null for an undecodable secret, a range error exactly outside 0 to 30000 * 2^64 ms, else the code of the step c with 30000 * c <= t < 30000 * (c + 1) |
| `Totp.VerifyTotp` | apps/server/src/auth/totp.ts:106-125 | the verdict of the skew window |
| `Totp.Compare` | apps/server/src/auth/totp.ts:116-124 | the loop, which computes one code per step, answers as the scan of the steps from oldest to newest |
| `Totp.AcceptsExactlyTheWindow` | apps/server/src/auth/totp.ts:106-125 | for the step c with 30000 * c <= t < 30000 * (c + 1) a typed code verifies if and only if it is the code of a step from c - w to c + w |
| `Totp.ThrowsIffStepBelowZero` | apps/server/src/auth/totp.ts:106-119 | the check throws if and only if the secret decodes, six digits were typed and t < 30000 * w |
| `Totp.SkewIsTolerated` | apps/server/src/auth/totp.ts:116-124 | a step's code verifies at every step at most the window away |
| `Totp.WindowCoversSkew` | apps/server/src/auth/totp.ts:20-23 | a window of w steps covers every skew up to w times 30 s (RFC 6238 section 5.2) |
| `Totp.HonestLoginVerifies` | apps/server/src/auth/totp.ts:94-125 | end to end: the code of the step a time lies in, typed with spaces within 30 s of it, is accepted |
| `Calendar.MonthOf` | packages/instruments/src/contracts.ts:94-101 | every day lies in the month returned |
| `Calendar.MonthsOfYear` | packages/instruments/src/contracts.ts:94-101 | the twelve month lengths of every year, February by the Gregorian leap rule |
| `Calendar.WeekdaysFollow` | packages/instruments/src/contracts.ts:41-44 | 1 January 2025 is a Wednesday and weekdays follow one another |
| `Calendar.TableIsSparse` | packages/instruments/src/holidays.ts:21-60 | no week of the table holds two full closures |
| `Calendar.ClosuresFallOnWeekdays` | packages/instruments/src/holidays.ts:21-60 | no full closure of the table is on a weekend, and its Thanksgivings are Thursdays |
| `Contracts.MinusBusinessDays` | packages/instruments/src/contracts.ts:47-55 | the loop ends for every date, count and finite set of closures, on the walk's day |
| `Contracts.BusinessDaysAre` | packages/instruments/src/contracts.ts:41-44 | business days counted one by one are the number of days Monday to Friday that are no closures |
| `Contracts.WalkIsExact` | packages/instruments/src/contracts.ts:41-55 | the day reached is the one business day with exactly n business days from it up to the start |
| `Contracts.WalkIsMonotone` | packages/instruments/src/contracts.ts:47-55 | starting later never lands earlier |
| `Contracts.ShortWalk` | packages/instruments/src/contracts.ts:47-55 | up to four business days back are at most a week back where no week holds two closures |
| `Contracts.ThirdFridayIsTheOne` | packages/instruments/src/contracts.ts:57-63 | a day is the result if and only if it is a Friday with day of month 15 to 21 |
| `Contracts.ExpiryIsExact` | packages/instruments/src/contracts.ts:66-86 | for every rule and month a day is the last trading day if and only if it is the third Friday, or the n-th business day before the fixed day of the month before (clamped to its end, missing when the contract month has no such day), or before the end of the month itself |
| `Contracts.ExpiryDay` | packages/instruments/src/contracts.ts:66-86 | the rule carried out with the business-day loop gives that day |
| `Contracts.ResolveActiveContract` | packages/instruments/src/contracts.ts:92-118 | m is returned if and only if it is the first listed month among the 36 from the current one whose last trading day by the calendar, less the roll days, lies ahead at midnight; none is returned when there is none |
| `Contracts.FrontFromRollToRoll` | packages/instruments/src/registry.ts:64-82 | for each registered rule a listed month is the front month exactly from the roll of the listed month before it to its own |
| `Contracts.EquityFrontMonth` | packages/instruments/src/registry.ts:64-82 | index contracts: m is the front month if and only if it is March, June, September or December and the instant lies from 8 days before the third Friday of m - 3 to 8 days before its own |
| `Contracts.GoldFrontMonth` | packages/instruments/src/registry.ts:64-82 | gold: if and only if the month is even and the instant lies between the days 5 before the third-last business day of m - 2 and of m |
| `Contracts.CrudeFrontMonth` | packages/instruments/src/registry.ts:64-82 | crude oil: if and only if the instant lies between the days 2 before the third business day ahead of the 25th of m - 2 and of m - 1 |
| `Contracts.ResolvesOnce` | packages/instruments/src/contracts.ts:92-118 | an instant has at most one front month |
| `Contracts.NeverRollsBack` | packages/instruments/src/contracts.ts:92-118 | later instants never have an earlier front month, for any rule and any closures |
| `Contracts.RollsByMonthEnd` | packages/instruments/src/contracts.ts:66-90 | every expiry rule rolls a contract before its month is over |
| `Contracts.FrontMonthIsNearest` | packages/instruments/src/contracts.ts:88-118 | the front month is the least of all listed months, past or future, that have not rolled |
| `Contracts.SearchAlwaysFinds` | packages/instruments/src/registry.ts:64-82 | for each registered rule the search finds a contract at most three months ahead, at any instant |
| `Contracts.MetalsExpireInDeliveryMonth` | packages/instruments/src/contracts.ts:80-84 | the metals expiry lies in the delivery month, and the reading with the month before never gives the same day |
| `Session.FindIsExact` | packages/instruments/src/session.ts:45-68 | looking at today and yesterday finds a window if and only if some session holds the minute |
| `Session.AtMostOneSession` | packages/instruments/src/registry.ts:23-29 | no minute lies in two Globex sessions |
| `Session.SessionBounds` | packages/instruments/src/session.ts:150-165 | start and end exist exactly inside a session, hold the instant between them, and are 17:00 of its opening day and 16:00 of the next |
| `Session.TradingDateOfSession` | packages/instruments/src/session.ts:30-36 | every minute of a session has the trading date after its opening day, Monday to Friday |
| `Session.TradingDateMonotone` | packages/instruments/src/session.ts:30-36 | trading dates never go backwards |
| `Session.SameTradingDate` | packages/instruments/src/session.ts:30-36 | two instants share a trading date if and only if no 17:00 lies between them |
| `Session.WeekIsFiveSessions` | packages/instruments/src/registry.ts:23-29 | the five windows are Sunday 17:00 to Friday 16:00 less one hour a day |
| `Session.WeekendIsClosed` | packages/instruments/src/session.ts:88-128 | from Friday 16:00 to Sunday 17:00 the state is closed, never maintenance |
| `Session.MaintenanceHours` | packages/instruments/src/session.ts:70-78 | maintenance is Monday to Thursday 16:00 to 17:00, and for equity indexes 15:15 to 15:30 on weekdays |
| `Session.OpenMeansTrading` | packages/instruments/src/session.ts:88-128 | an open instant is in a session and its trading date is a weekday and no full closure |
| `Session.OpenIff` | packages/instruments/src/session.ts:88-128 | open and maintenance, each if and only if a condition on the minute of the week, the holiday table and an early close |
| `Session.StateIs` | packages/instruments/src/session.ts:88-128 | the whole state with its reason, told by the week and the holiday table in the order they are asked |
| `Session.ClockIs` | packages/instruments/src/session.ts:25-44 | an instant lies in the 60000 ms of its minute of its day |
| `Session.NextOpen` | packages/instruments/src/session.ts:168-178 | the first open minute step, or null if and only if no step of the range is open |
| `Session.NothingOpensBefore` | packages/instruments/src/session.ts:168-178 | the scan overlooks no opening: at most the answer's own minute was open before it |
| `Session.TenDaysAreEnough` | packages/instruments/src/session.ts:168-178 | with sparse closures and no early close before 08:00 the default range always holds an opening |
| `GapSampling.ClosuresAreSampledIff` | apps/server/src/marketdata/price-integrity.ts:303-320 | a silence over any closures is recognised if and only if one of them holds an end of it, or what lies before and after one differs by no more than its length |
| `GapSampling.AfternoonIsSampledIff` | apps/server/src/marketdata/price-integrity.ts:303-320 | an index-future silence from before the halt to after the daily break is recognised if and only if one of the two lies near its middle |
| `GapSampling.NoClosureNoSample` | apps/server/src/marketdata/price-integrity.ts:303-320 | a silence in an open market is never mistaken for a closure |
| `GapSampling.WeekendIsAlwaysSampled` | apps/server/src/marketdata/price-integrity.ts:303-320 | a silence from Friday's session into Monday's is always recognised |
| `GapSampling.DailyBreakIsMissed` | apps/server/src/marketdata/price-integrity.ts:303-320 | from 14:00 to 17:01 neither does, so the hour of maintenance goes unrecognised and the next price is held |
| `Ticks.RoundSymmetricIff` | packages/instruments/src/math.ts:32-37 | rounding is symmetric around zero if and only if the value is no tie |
| `Ticks.TicksRoundTrip` | packages/instruments/src/math.ts:34-42 | ticks survive the way to a price and back |
| `Ticks.SnapIsIdempotent` | packages/instruments/src/math.ts:53-55 | snapping twice is snapping once |
| `Ticks.SnapIsMonotone` | packages/instruments/src/math.ts:53-55 | snapping keeps the order of prices |
| `Ticks.PriceMonotone` | packages/instruments/src/math.ts:40-42 | more ticks are a higher price and conversely |
| `Ticks.SnapError` | packages/instruments/src/math.ts:34-55 | a snapped price is off by at most half a tick and half a scale unit |
| `Ticks.ValidIffUnmoved` | packages/instruments/src/math.ts:45-50 | a price is a valid tick price if and only if snapping moves it by at most a millionth of a scale unit |
| `Ticks.SnapSymmetricIff` | packages/instruments/src/math.ts:31-37 | snapping is symmetric around zero if and only if no midpoint between ticks is hit |
| `Ticks.HalfCentIsNotSymmetric` | packages/instruments/src/math.ts:31-37 | half a cent of crude oil snaps up on both sides of zero |
| `Ticks.BudgetBuys` | packages/instruments/src/math.ts:69-82 | the ticks a budget buys are the most that cost no more than it |
| `Ticks.MicrosRoundTrip` | packages/instruments/src/math.ts:69-82 | money made of whole ticks converts back to them |
| `Ticks.TickMoney` | packages/instruments/src/math.ts:69-82 | one tick of one contract is worth the tick value, worth adds up over ticks and contracts, and no contracts buy no ticks |
| `Normalize.NormalizeBar` | apps/server/src/marketdata/normalize.ts:46-91 | the bar or the drop, exactly one counter for it, and the inconsistent-extremes drop never taken |
| `Normalize.NormalizedIs` | apps/server/src/marketdata/normalize.ts:63-90 | field by field: the snapped open and close, the highest and lowest of the four snapped prices, seconds in milliseconds, the nearest whole volume or 0 |
| `Normalize.MovedIffOffTick` | apps/server/src/marketdata/normalize.ts:67-67 | a bar counts as snapped if and only if one of its four prices is off the tick grid |
| `Normalize.NormalizedIsSound` | apps/server/src/marketdata/normalize.ts:64-91 | every bar that comes out is consistent and on the tick grid |
| `Normalize.ExtremesAreSnapped` | apps/server/src/marketdata/normalize.ts:64-78 | a consistent bar's high and low are its own, snapped |
| `Normalize.NormalizingTwice` | apps/server/src/marketdata/normalize.ts:46-91 | a normalised bar normalises to itself |
| `BarCache.BarService.Store` | apps/server/src/marketdata/bar-service.ts:220-258 | the closed bars are upserted chunk by chunk, up to the first refused chunk |
| `BarCache.ClosedBarsAre` | apps/server/src/marketdata/bar-service.ts:221-221 | a bar reaches the table if and only if it was offered and is closed |
| `BarCache.ClosedBarsAreKept` | apps/server/src/marketdata/bar-service.ts:221-221 | the closed bars keep order and number |
| `BarCache.BarService.Fill` | apps/server/src/marketdata/bar-service.ts:297-342 | true only when fetch and store completed; chunks written before a failure stay |
| `BarCache.BarService.GetBars` | apps/server/src/marketdata/bar-service.ts:95-175 | the page served from cache, refilled cache or replay, its cursor, source, more-flag and limit reason, and the table afterwards |
| `BarCache.PageIsNewest` | apps/server/src/marketdata/bar-service.ts:95-108 | a page holds stored bars before the cursor (2^53 - 1 when none is given), at most as many as asked for (1500 by default, never over 20000); a stored bar left out is older than all shown and the page is then full |
| `BarCache.PageIsLabelled` | apps/server/src/marketdata/bar-service.ts:117-135 | the cursor is the oldest bar shown; there is more exactly when the page is full and that bar is not at the floor, which is then the reason |
| `BarCache.ReplayPageIs` | apps/server/src/marketdata/bar-service.ts:152-175 | a replay page holds the newest bars emitted before the cursor, and says that there is more whenever one was left out |
| `BarCache.ChunkingIsInvisible` | apps/server/src/marketdata/bar-service.ts:236-257 | a completed run leaves what a single statement would, for any chunk size |
| `BarCache.CompletesIffNoClash` | apps/server/src/marketdata/bar-service.ts:236-257 | a run completes if and only if no chunk names a bucket twice |
| `BarCache.RefusedRunKeepsChunks` | apps/server/src/marketdata/bar-service.ts:236-257 | a refused run leaves exactly the whole chunks before the first that names a bucket twice |
| `BarCache.StoredExactly` | apps/server/src/marketdata/bar-service.ts:241-255 | distinct buckets read as written, a revised row keeps its first provider, no other row moves |
| `BarCache.RowKeepsBar` | apps/server/src/marketdata/bar-service.ts:224-291 | a bar survives the table if and only if its prices are on the tick grid |
| `BarCache.HistoryIsExact` | apps/server/src/marketdata/bar-service.ts:260-291 | the series read is in strict time order and holds exactly the stored buckets before the cursor |
| `BarCache.CursorDescends` | apps/server/src/marketdata/bar-service.ts:117-129 | the cursor moves strictly back and the next request sees exactly what the page left over |
| `BarCache.PagesRebuildHistory` | apps/server/src/marketdata/bar-service.ts:95-135 | following the cursor until there is no more puts together the stored series, every bar once, for any page size: all of it, or all from a bar at the provider's floor on |
| `BarCache.ReplayPagesRebuild` | apps/server/src/marketdata/bar-service.ts:152-175 | replay pages put together are what the replay has emitted before the cursor |
| `BarCache.ReadsBackEqual` | apps/server/src/marketdata/bar-service.ts:220-291 | on-grid bars in distinct buckets read back equal whatever the cache held and however they were chunked |
| `BarCache.CacheStaysSound` | apps/server/src/marketdata/bar-service.ts:220-258 | any run of stores of any series, complete or not, leaves only consistent rows in a series that was offered consistent bars |
| `BarCache.PagesAreSound` | apps/server/src/marketdata/bar-service.ts:260-291 | pages of such a series are consistent closed bars in strict time order |
| `Candles.AuditCandles` | apps/server/src/marketdata/candle-integrity.ts:63-105 | the violations of every bar in order, and ok exactly when none is hard |
| `Candles.ReportedIff` | apps/server/src/marketdata/candle-integrity.ts:63-105 | a violation of a kind at a place is reported if and only if the bar there has that fault against the one before it |
| `Candles.PreviousTimeIs` | apps/server/src/marketdata/candle-integrity.ts:63-105 | the bar before it is the newest finite one |
| `Candles.OkIffSound` | apps/server/src/marketdata/candle-integrity.ts:63-105 | the audit passes if and only if every bar is finite, consistent, of no negative volume, aligned and later than those before |
| `Candles.GetChartBars` | apps/server/src/marketdata/service.ts:268-306 | the page with the live bar combined, appended or left out |
| `Candles.ChartIs` | apps/server/src/marketdata/service.ts:268-306 | older pages and live bars of another bucket than the market's leave the page as it is; else the live bar is appended, joined field by field to the last bar of its bucket, or left out when older |
| `Candles.MergeKeepsSound` | apps/server/src/marketdata/service.ts:285-303 | the merge keeps a sound page sound and adds at most one bar |
| `Candles.LastCandleCoversBoth` | apps/server/src/marketdata/service.ts:288-303 | the last candle covers the live bar and the cached bar of its bucket, and no other bar changes |
| `Candles.ChartPassesAudit` | apps/server/src/marketdata/service.ts:268-306 | a series offered consistent aligned bars, in a cache that also holds any other, serves with the live bar on top charts that pass the audit |
| `AccountLimit.AccountDb.CountActiveAccounts` | apps/server/src/platform/account-limit.ts:42-55 | going through the rows the transaction sees counts exactly the trader's evaluations and funded simulations that are active or pending and not archived |
| `AccountLimit.SlotsSpelled` | apps/server/src/platform/account-limit.ts:42-55 | the accounts that take a slot are those of these types and statuses that are not archived |
| `AccountLimit.AccountDb.AssertActiveSlotAvailable` | apps/server/src/platform/account-limit.ts:62-69 | the guard is the lock step followed by the count step, and throws exactly at the limit |
| `AccountLimit.NeverASixth` | apps/server/src/platform/account-limit.ts:1-15 | in every interleaving of checked creations and slot-freeing steps committed and about-to-be-committed active accounts are at most five |
| `AccountLimit.OneCreatorAtATime` | apps/server/src/platform/account-limit.ts:32-39 | at most one transaction at a time has new accounts in hand for one trader |
| `AccountLimit.UncheckedCreationFitsIffRoom` | apps/server/src/platform/provisioning.ts:252-258 | after a creation that skips the check every checked continuation keeps everyone within five if and only if there was room in the table and in what every open creation of the trader has reserved |
| `AccountLimit.FreeSlotIsNotEnough` | apps/server/src/platform/commerce.ts:797-813 | a run of checked creations with four accounts committed after which one unchecked creation and the one already counted make six |
| `RefreshTokens.AuthService.Issue` | apps/server/src/auth/service.ts:78-102 | one live row is added |
| `RefreshTokens.AuthService.Refresh` | apps/server/src/auth/service.ts:212-243 | INVALID_REFRESH if and only if the token is unknown, revoked or past its expiry, then USER_NOT_FOUND, then USER_DISABLED, each if and only if its condition holds; a success hands out a new token with a live row of the same user and the new expiry, and the presented one is revoked and linked to it; all other rows stay |
| `RefreshTokens.AnswersByCondition` | apps/server/src/auth/service.ts:225-235 | the answers in the order of their conditions |
| `RefreshTokens.RowsAfterRefresh` | apps/server/src/auth/service.ts:226-242 | the rows after a success and after a failure, row by row |
| `RefreshTokens.RefreshedTokenRefreshes` | apps/server/src/auth/service.ts:207-243 | the token handed out is accepted next if and only if it is not past its expiry and its user is active; the one presented never again |
| `RefreshTokens.AuthService.Logout` | apps/server/src/auth/service.ts:245-250 | the presented token is revoked if it was live |
| `RefreshTokens.AuthService.RevokeAllSessions` | apps/server/src/auth/service.ts:259-266 | every live token of the user is revoked, and their number returned |
| `RefreshTokens.UndisturbedStepsRefresh` | apps/server/src/auth/service.ts:212-243 | the four statements run without interruption are the refresh |
| `RefreshTokens.SettledForGood` | apps/server/src/auth/service.ts:212-266 | over every run a token is revoked at most once, exchanged at most once and linked at most once |
| `RefreshTokens.IssuedAtMostOnce` | apps/server/src/auth/service.ts:207-243 | no token is issued for one that has a successor or still works |
| `RefreshTokens.LinkNamesSuccessor` | apps/server/src/auth/service.ts:237-241 | a link names the token that was issued |
| `RefreshTokens.OneLivePerChain` | apps/server/src/auth/service.ts:207-243 | in every interleaving a login's chain has at most one working token |
| `RefreshTokens.LiveTokensNeverExceedLogins` | apps/server/src/auth/service.ts:78-266 | a user's working tokens never outnumber the logins |
| `RefreshTokens.RootsAreLogins` | apps/server/src/auth/service.ts:78-102 | chains are started by logins and nothing else |
| `RefreshTokens.RevocationIsFinalIffNoneInFlight` | apps/server/src/auth/service.ts:252-266 | after a mass revocation the user stays out without a login if and only if no refresh was under way |

## Left out

- IEEE rounding: prices are exact reals, so the 1e-6 guard of tick prices is about exact values.
- Daylight-saving conversion: sessions and rolls are in exchange-local time.
- The rule, fill, position, fold and candle aggregator engines, and the gap detection of the bar service: not part of this model; folded bars and "has holes" are parameters.
- The aggregators that `attach` and `switchProvider` also drive: bars reach them whatever the bus answered, so mark safety is about quotes.
- Listener callbacks, warm-up promises, repair cool-down and provider I/O: one service step is one event handled to its end.
- MarketService.MarketDataService.Switch: does not model calls that run while the server awaits the new provider between clearing and following again, because a switch is one step here.
- BarCache.BarService.Fill: does not model two requests sharing one fetch in flight, because a request runs to its end here.
- BarCache.BarService.GetBars: does not model the page's integrity report, because the check behind it is in an engine that is not part of this model.
- Case mapping outside ASCII in symbols and secrets.
- Real cryptography: HMAC is an arbitrary 20-byte function, tokens are unused numbers, a hash stands for its token.
- Counters above 2^53 in TOTP, where JavaScript loses whole numbers.
- Status changes that re-activate accounts and idempotency keys: account steps are creation, rollback and changes that free slots.
- Map rows and symbol states are values written back, not shared objects: aliasing is not captured.
- Contract codes and display names, fees, formatting, regular hours, latency recording, freshness.
- Early closes of the holiday table: the session lemmas take any holiday table; only the full closures are listed.
