# hedgeAssistant in Dafny

A model of the calculation core of hedgeAssistant, a web tool that advises a
holder of a prediction-market position (a Kalshi or Polymarket YES/NO
contract) on whether to exit or to hedge by buying YES shares of the opposite
market. Everything the JavaScript computes on numbers and lists is modelled;
network requests and rendering are not.

- `Wrappers.dfy`: `Option` and `Result`.
- `Strings.dfy`: the JavaScript string operations the URL parser uses:
  `includes` (`IndexOf`, `Contains`), `split` (`SplitOn`, with its inverse
  `Join`) and `toUpperCase` (`Upper`).
- `KalshiProxy.dfy` models `pages/api/kalshi.js`, the Kalshi proxy route:
  - the query check and the upstream error statuses;
  - the choice of the target market, as a method with loops;
  - the choice of the opposite market, as a method with a loop;
  - the estimated fee schedule it attaches.
- `HedgingCalculator.dfy` models `public/hedging-calculator.js`:
  - `parseMarketURL`;
  - the record built by `fetchKalshiMarket` and `fetchPolymarketMarket`;
  - the fee arithmetic;
  - `calculateSimpleExit`, `calculatePerfectHedge`, `calculatePartialHedge` and `generateAllStrategies`;
  - the input checks of `calculateHedgingStrategies`.

  The comparisons between hedges use closed forms of the two outcomes
  (`OriginalWinsOutcome`, `HedgeWinsOutcome`). They are connected to the
  calculator's step-by-step accounting by `PartialHedgeOutcomes`.
- `HomePage.dfy` models the helpers that `pages/index.js` and
  `pages/index-backup.js` share:
  - percentage normalisation, chances, and dollar/contract conversion;
  - `getCurrentPosition` and the position-size panel;
  - the team list, as a loop over the markets;
  - the price lookup, the buy-price updates and the price warnings;
  - the recommended strategy.

  The page state that the price handlers change is the class `HomeState`.
  Its methods are `LoadKalshiPrices`, `LoadPolymarketPrices`,
  `UpdateBuyPrice` and `RefreshPrices`.

Amounts are exact reals. Prices are in dollars, except in raw Kalshi records,
which quote cents. A returned `None` stands for the NaN or Infinity that
JavaScript would compute:
- a percentage of a zero cost;
- text that `parseFloat` cannot read.

A hedge without an opposite ask is a `None` too, but for a different reason:
the calculator throws while formatting the missing price, and the analysis
fails (`CalculateHedgingStrategies` answers `NoOppositeAsk`).

Behaviour of the code worth knowing:
- The perfect hedge buys exactly as many opposite YES shares as are held
  (`hedgeShares = shares`). It does not solve the payoff-equalisation equation,
  yet the two outcomes still come out equal (`PerfectHedge`'s contract).
- The recommendation goes to the perfect hedge only when its locked profit is
  strictly greater than the exit's profit. A tie goes to the exit
  (`RecommendationIsBest`), not to the hedge.
- Fees are applied to any notional, negative ones included. Nothing is
  clamped to zero, so the fee lemmas ask for a non-negative notional.
- Hedges are computed whenever an opposite ask is present, even when it is 0.
  A Kalshi event with no opposite market gets an opposite ask of 0, and so a
  "perfect hedge" that costs nothing (`KalshiDataIsHedgeable`).
- The Polymarket record has no opposite ask at all. `calculatePerfectHedge`
  and `calculatePartialHedge` then call `toFixed` on an undefined price and
  throw (hedging-calculator.js:334 and :395). `calculateHedgingStrategies`
  catches that and answers with `success: false`. So every valid Polymarket
  analysis fails (`PolymarketAnalysisFails`).
- Any hedge percentage is accepted. A percentage of 100 or more is labelled
  risk-free.
- The refresh handler's own step resets the buy price to the new YES ask
  when it is more than 5 cents away from that ask, whatever side is held
  (`RefreshIgnoresSide`). The page's effect then looks the price up again (see
  "Left out").
- The red border of the buy-price field compares with the YES ask. The
  warning under it compares with the looked-up price of the chosen team and
  side. The two can disagree (`BorderDisagreesWithWarning`).
- Validation upper-cases the side, but the exit calculator compares it
  case-sensitively. So a lower-case "yes" is accepted and then sells at the
  NO bid (`LowercaseYesSellsAtNoBid`).

## Model

| member | source | states |
|---|---|---|
| Strings.IndexOf | public/hedging-calculator.js:19 | `includes`/`indexOf`: the result is an occurrence of the substring, and no occurrence comes earlier; `None` exactly when there is no occurrence at all |
| Strings.ContainsIff | public/hedging-calculator.js:19 | `includes` holds exactly when the substring occurs at some position |
| Strings.JoinSplit | public/hedging-calculator.js:21 | splitting on a non-empty separator loses nothing: joining the pieces with the separator gives back the string |
| Strings.SplitPiecesClean | public/hedging-calculator.js:21 | no piece of a split contains the separator |
| Strings.SplitLastIsSuffix | public/hedging-calculator.js:21-22 | the last piece of a split is a suffix of the string |
| Strings.SplitOn | public/hedging-calculator.js:21 | `split` on a non-empty separator yields at least one piece |
| Strings.FirstPiece | public/hedging-calculator.js:21 | the first piece is a prefix of the string; there are two or more pieces exactly when the separator occurs; without it the one piece is the string; with it the separator follows the first piece and the other pieces split what follows |
| Strings.FirstPieceBound | public/hedging-calculator.js:46 | the first piece is a separator-free prefix, and either it is the whole string or the separator follows it |
| Strings.SecondPiece | public/hedging-calculator.js:46 | `split(sep)[1]` of a string containing the separator is the first piece of what follows its first occurrence |
| Strings.SplitFirstTwo | public/hedging-calculator.js:46 | a string containing the separator splits into at least two pieces and begins with piece 0, the separator, piece 1 |
| Strings.Upper | public/hedging-calculator.js:30 | `toUpperCase` on ASCII: same length, each character upper-cased, no lower-case letter left |
| Strings.UpperIdempotent | public/hedging-calculator.js:559 | upper-casing twice is upper-casing once |
| KalshiProxy.SelectTarget | pages/api/kalshi.js:51-80 | the target is the first market naming the team on either side when a team is given and one does; otherwise the first with an ask strictly between 0 and 100 cents; otherwise market 0 |
| KalshiProxy.FindOpposite | pages/api/kalshi.js:94-99 | the opposite market is the first whose ticker differs from the target's; none exactly when there is at most one market or all tickers equal the target's |
| KalshiProxy.Handle | pages/api/kalshi.js:3-122 | 400 without a ticker; the upstream status on an upstream failure; 404 on an empty market list; otherwise 200 with the market list, the estimated fees 0.02/0.05/0.01, and the target: the first market naming the team, else the first with realistic pricing, else market 0; the opposite market, when there is one, is the first market whose ticker differs from the target's, and there is none exactly when there is one market or all tickers equal the target's |
| HedgingCalculator.QueryGet | public/hedging-calculator.js:52-53 | `searchParams.get`: present exactly when some parameter has the key, and then the value of the first such parameter |
| HedgingCalculator.ParseMarketURL | public/hedging-calculator.js:15-69 | an unsupported platform exactly when the host names neither Kalshi nor Polymarket; an invalid Kalshi URL only on a Kalshi host; an invalid Polymarket URL only on a Polymarket host whose path lacks "/event/"; a Kalshi result exactly for a Kalshi host; a Polymarket result is a slug exactly when the path holds "/event/" |
| HedgingCalculator.KalshiURLIdentifier | public/hedging-calculator.js:19-38 | a Kalshi URL is accepted exactly when its last path segment is neither empty nor "markets"; the identifier is that segment upper-cased, and the segment is a '/'-free suffix of the path |
| HedgingCalculator.PolymarketSlug | public/hedging-calculator.js:40-51 | a Polymarket path with "/event/" yields a slug taken from the text after the first "/event/": the slug begins that text, holds neither '?' nor "/event/", and right after it that text ends, or a '?' or another "/event/" follows |
| HedgingCalculator.EventSlug | public/hedging-calculator.js:46 | for any two separators, the second piece of a split on the first, cut at the second, begins the text after the first occurrence, holds neither separator, and ends where that text ends or one of the separators begins |
| HedgingCalculator.SlugOfRest | public/hedging-calculator.js:46 | the same facts for the first piece, cut at the second separator, of the text after the marker |
| HedgingCalculator.PolymarketId | public/hedging-calculator.js:52-61 | without "/event/" the URL is accepted exactly when an `id` parameter exists, and yields its value; otherwise the error is the invalid-Polymarket one |
| HedgingCalculator.NormalizeKalshi | public/hedging-calculator.js:106-160 | the normalised record is the record's cents divided by 100; the opposite ask and bid are 0 without an opposite market and the opposite's cents otherwise; the fees are the response's or else the estimate; asks within 0..100 cents give prices within 0..1 |
| HedgingCalculator.NormalizePolymarket | public/hedging-calculator.js:202-216 | the Polymarket record quotes each outcome's price as both its ask and its bid, and carries neither an opposite ask nor fees |
| HedgingCalculator.ApplyFees | public/hedging-calculator.js:258-261 | the taker fee is the notional times the taker rate, the transaction fee the notional times the transaction rate, and the total their sum: the notional times the combined rate |
| HedgingCalculator.FeesNonNegative | public/hedging-calculator.js:258-261 | at non-negative rates the fees on a non-negative notional are non-negative |
| HedgingCalculator.Percent | public/hedging-calculator.js:265 | the percentage is defined exactly when the base is non-zero, and then it times the base is 100 times the amount |
| HedgingCalculator.SimpleExit | public/hedging-calculator.js:248-284 | sells at the YES bid exactly when the side is "YES" (case-sensitive), else at the NO bid; net revenue plus fees is gross revenue; the profit is `shares * (sellPrice * (1 - rate) - buyPrice)` |
| HedgingCalculator.ExitFeeMonotone | public/hedging-calculator.js:255-264 | raising the taker or transaction rate never raises the exit's profit when the sale's notional is non-negative |
| HedgingCalculator.PerfectHedge | public/hedging-calculator.js:292-356 | computed exactly when there is an opposite ask; buys as many shares as are held; both outcomes equal the guaranteed profit `shares * (1 - buyPrice - hedgePrice * (1 + rate))`; profit-locked exactly when it is non-negative; each warning shown exactly under its condition, in order |
| HedgingCalculator.PerfectHedgeLocksProfitIff | public/hedging-calculator.js:311-350 | for a held position the perfect hedge locks a profit exactly when the entry price plus the fee-loaded hedge price is at most 1 |
| HedgingCalculator.PerfectHedgeFeeMonotone | public/hedging-calculator.js:300-316 | a higher fee rate never raises any profit figure of the perfect hedge when its notional is non-negative |
| HedgingCalculator.PartialHedge | public/hedging-calculator.js:365-413 | computed exactly when there is an opposite ask; buys `pct` percent of the held shares; pays the fee rate on the hedge notional; each outcome is that side's payout less the whole outlay; the profit is the larger outcome; labelled moderate exactly when `pct < 100` |
| HedgingCalculator.PartialHedgeOutcomes | public/hedging-calculator.js:374-387 | the two outcomes in closed form: the margin on the held shares less the fee-loaded hedge cost, and the hedge payout less its loaded cost and the original stake |
| HedgingCalculator.PartialReportsOriginalWins | public/hedging-calculator.js:386-390 | for a hedge of at most 100% of a non-negative share count, the original side winning is the better outcome and is the reported profit |
| HedgingCalculator.FullPartialIsPerfect | public/hedging-calculator.js:374-410 | the 100% partial hedge buys, pays and earns exactly what the perfect hedge does, and is labelled risk-free |
| HedgingCalculator.ZeroPartialIsUnhedged | public/hedging-calculator.js:374-387 | the 0% partial hedge buys nothing and pays no fee; its outcomes are those of the bare position |
| HedgingCalculator.PartialHedgeGivesUpUpside | public/hedging-calculator.js:374-386 | hedging a larger percentage never improves the original-wins outcome |
| HedgingCalculator.PartialHedgeCoversDownside | public/hedging-calculator.js:374-387 | when a fee-loaded hedge share costs at most 1, hedging a larger percentage never worsens the hedge-wins outcome |
| HedgingCalculator.PartialHedgeFeeMonotone | public/hedging-calculator.js:378-390 | a higher fee rate never raises either outcome or the reported profit of a partial hedge when its notional is non-negative |
| HedgingCalculator.PartialBetweenHoldAndPerfect | public/hedging-calculator.js:365-390 | a partial hedge of 0..100% earns at least the perfect hedge's locked profit if the original side wins and, when a loaded hedge share costs at most 1, at most that if the hedge side wins |
| HedgingCalculator.GenerateAllStrategies | public/hedging-calculator.js:421-455 | the set exists exactly when there is an opposite ask; then it is the exit, the perfect hedge and the 80%, 50% and 25% partial hedges on the market data's prices |
| HedgingCalculator.StrategySetShape | public/hedging-calculator.js:421-453 | with an opposite ask all five strategies exist; the partial hedges are 80%, 50% and 25%, all moderate, with share counts ordered minimal ≤ moderate ≤ conservative ≤ perfect |
| HedgingCalculator.KalshiDataIsHedgeable | public/hedging-calculator.js:112-160 | Kalshi data always yields all five strategies; without an opposite market the perfect hedge costs nothing and locks `shares * (1 - buyPrice)` |
| HedgingCalculator.PolymarketAnalysisFails | public/hedging-calculator.js:202-216 | every analysis of Polymarket data fails, since the record holds no opposite ask; when the input is valid the failure is the throw at line 334, caught at lines 585-589 |
| HedgingCalculator.ValidateInput | public/hedging-calculator.js:555-569 | the input passes exactly when the URL is non-empty, the upper-cased side is YES or NO, the share count is positive and the buy price lies strictly between 0 and 1; each error is reported exactly when the checks before it pass and its own fails |
| HedgingCalculator.LowercaseYesSellsAtNoBid | public/hedging-calculator.js:559 | a lower-case "yes" passes validation but the exit then sells at the NO bid |
| HedgingCalculator.CalculateHedgingStrategies | public/hedging-calculator.js:552-591 | a validation error is returned first; then a failed fetch with its message; on fetched data the result succeeds exactly when there is an opposite ask and fails with `NoOppositeAsk` otherwise; on success it is the generated strategy set, whose exit cost is positive and percentage defined |
| HomePage.Round | pages/index.js:45 | `Math.round`: the result is within half of its argument, halves going up |
| HomePage.Fixed2 | pages/index.js:276 | `toFixed(2)`: a whole number of cents within half a cent of the number; a tie goes away from zero (up for a non-negative number, down for a negative one); non-negative for a non-negative number |
| HomePage.Fixed2OfWholeCents | pages/index.js:276 | a price in whole cents is printed unchanged |
| HomePage.NormalizePercentages | pages/index.js:38-49 | the two percentages add up to 100; 50/50 on a zero total |
| HomePage.NormalizePercentagesNearExact | pages/index.js:38-49 | on a non-zero total each percentage is within half a percent of the exact share, and for non-negative chances both lie within 0..100 |
| HomePage.Chances | pages/index.js:150-155 | with positive asks the chances are the asks' shares and add up to 1; otherwise 0.5 each |
| HomePage.ConvertDollarsToContracts | pages/index.js:51-54 | 0 at a price that is not positive; otherwise the largest whole number of contracts the amount pays for |
| HomePage.ConvertContractsToDollars | pages/index.js:56-59 | the amount is contracts times price at a positive price, 0 at a price that is not positive; non-negative for non-negative contracts |
| HomePage.ContractsRoundTrip | pages/index.js:51-59 | a whole number of contracts converted to dollars and back is unchanged |
| HomePage.DollarsNeverOverAllocated | pages/index.js:51-59 | dollars converted to contracts and back never exceed the amount and fall short by less than one price |
| HomePage.GetCurrentPosition | pages/index.js:73-89 | dollars mode: whole shares that the amount covers and less than one more; contracts mode: the amount is shares times price, 0 at a non-positive price; unreadable fields count as 0 |
| HomePage.SmallDollarAmountIsRejected | pages/index.js:73-81 | an amount under one contract's price gives 0 shares, which the calculator rejects as invalid shares |
| HomePage.Summarize | pages/index.js:481-491 | cost is shares times price, payout one dollar per share, profit their difference; the chance is the first team's for "YES" and the second team's otherwise, in percent, 0 without team prices |
| HomePage.DisplayedChancesSumTo100 | pages/index.js:489-491 | on any Kalshi prices the chances shown for YES and for NO add up to 100, the 50/50 fallback included |
| HomePage.Titles | pages/index.js:122-129 | the sub-titles in market order, YES then NO for each market |
| HomePage.Dedup | pages/index.js:122-129 | the de-duplicated list is no longer than the titles, and holds only non-empty titles that occur |
| HomePage.CollectTeams | pages/index.js:118-129 | the `forEach`/`push` loop yields the de-duplicated list of non-empty sub-titles |
| HomePage.DedupNoDuplicates | pages/index.js:123-128 | no team is listed twice |
| HomePage.DedupMembers | pages/index.js:123-128 | a title is listed exactly when it is non-empty and occurs |
| HomePage.DedupPrefix | pages/index.js:122-129 | the list only grows at its end as more titles are read |
| HomePage.DedupFirstAppearance | pages/index.js:122-129 | a title seen first at a position is listed right after the teams seen before it |
| HomePage.TitlesMembers | pages/index.js:122-129 | a title occurs exactly when some market carries it as its YES or NO sub-title |
| HomePage.TeamsListEverySubTitleOnce | pages/index.js:118-129 | the team list holds every non-empty sub-title of every market, each exactly once |
| HomePage.KalshiPrices | pages/index.js:150-172 | the prices are the market's cents divided by 100; the first team's YES/NO prices are the YES/NO asks and the second team's are swapped; the chances are those of the asks; each team is the listed one when non-empty, else the sub-title, else "Team 1"/"Team 2" |
| HomePage.PolymarketPrices | pages/index.js:196-208 | the Polymarket prices quote each outcome's price as both its ask and its bid, with no team prices |
| HomePage.LookupPrice | pages/index.js:255-273 | the first team's price for the side; else the second team's; otherwise, or without team prices, the side's ask |
| HomePage.KalshiLookup | pages/index.js:147-171 | the first team is the listed first team, else the YES sub-title, else "Team 1"; its YES/NO prices are the market's YES/NO asks, the second team's are swapped, any other name falls back to the side's ask; the chances add up to 1 on positive asks |
| HomePage.KalshiFirstTeam | pages/index.js:135-147 | a non-empty team list supplies the first team |
| HomePage.UpdatedBuyPrice | pages/index.js:247-281 | a buy price exactly when there are prices, a team and a side and the looked-up price lies in (0, 1); then it is that price printed to cents |
| HomePage.UpdatedBuyPriceInRange | pages/index.js:247-281 | a buy price is set exactly when there are prices, a team and a side and the looked-up price lies strictly between 0 and 1; it is then that price printed to cents, within half a cent of it and within 0..1 |
| HomePage.RefreshedBuyPrice | pages/index.js:340-343 | the buy price changes exactly when there is one more than 5 cents from the YES ask, and then becomes that ask printed to cents |
| HomePage.RefreshResetsIff | pages/index.js:340-343 | refresh changes the buy price exactly when there is one more than 5 cents from the new YES ask; afterwards it is either unchanged (so within 5 cents of the ask) or reset to within half a cent of the ask, and a second refresh at the same ask changes nothing |
| HomePage.RefreshIgnoresSide | pages/index.js:340-343 | a NO position filled in at the NO ask is reset to the YES ask when the asks are more than 5 cents apart |
| HomePage.PriceWarning | pages/index-backup.js:1179-1188 | the warning shows exactly when there are prices, a team, a side and a buy price outside 5 cents of the looked-up price |
| HomePage.PriceBorderAlert | pages/index-backup.js:1172-1174 | the red border shows exactly when there are prices and a buy price outside 5 cents of the YES ask |
| HomePage.FreshBuyPriceNoWarning | pages/index-backup.js:1179-1188 | a buy price just filled in by the lookup never raises the deviation warning |
| HomePage.BorderDisagreesWithWarning | pages/index-backup.js:1172-1188 | a NO price just filled in for the first team raises the red border (YES ask) but not the warning (looked-up price) when the asks are more than 5 cents apart |
| HomePage.HomeState.constructor | pages/index.js:22-29 | the page starts with no prices, no buy price and no teams |
| HomePage.HomeState.LoadKalshiPrices | pages/index.js:105-180 | the team list becomes the markets' de-duplicated sub-titles; with a target market the prices become its prices over that list; the buy price is untouched |
| HomePage.HomeState.LoadPolymarketPrices | pages/index.js:181-216 | the prices become the Polymarket ones; the buy price becomes the YES price printed to cents when it lies in (0, 1), else stays; the teams are untouched |
| HomePage.HomeState.UpdateBuyPrice | pages/index.js:247-281 | the buy price becomes the price looked up for the team and side, as `UpdatedBuyPrice` gives it; nothing else changes |
| HomePage.HomeState.RefreshPrices | pages/index.js:283-352 | with a target market the prices are rebuilt and the buy price reset to the YES ask when more than 5 cents off; the team list is untouched |
| HomePage.Recommend | pages/index.js:607-611 | the perfect hedge is recommended only when its locked profit is strictly greater than the exit's profit, the exit only when its profit is at least as great |
| HomePage.RecommendationIsBest | pages/index.js:607-611 | the recommended card's profit is one of the exit's and the perfect hedge's and at least both; a tie goes to the exit |

## Left out

- Network requests are inputs, not modelled: the proxy's three upstream requests, and the page's and calculator's requests to the proxy. The proxy takes the market list or the first failing status; the calculator takes the fetched market data or its error.
- Thrown errors in the proxy are modelled as an upstream status of 500. Their message texts are not modelled.
- The orderbook request and the event record are not modelled: they are passed through to the page unread.
- `new URL` is not modelled. `ParseMarketURL` takes the host name, path and query parameters already separated, so a URL that `new URL` would reject is outside the model.
- `fetchMarketFromURL`'s dispatch and `fetchPolymarketMarket`'s response checks are not modelled. `NormalizePolymarket` takes the two outcome prices as numbers.
- The realistic-pricing test in `fetchKalshiMarket` only logs a warning, so it is not modelled.
- Descriptive fields of the records are not modelled: titles, rules, volume, status, close time and raw data. Neither are the strategy labels, action and description strings, or the formatting helpers (`formatCurrency`, `formatPercent`, `formatPrice`, `explainStrategy`). All of these are text for display.
- Logging is not modelled.
- RefreshPrices, LoadPolymarketPrices, RefreshIgnoresSide: the page's effect on `[team, side, currentPrices]` (pages/index.js:229-231) calls `updateBuyPrice` again once the prices change, so the buy price the user finally sees is `UpdatedBuyPrice` on the new prices (or empty with no team chosen). These members model the handler's own step only.
- React wiring is not modelled: effects, re-rendering, `handleInputModeChange`, the effects that keep the dollar and contract fields in step, and the card layout. The state methods of `HomeState` are what those handlers call.
- `figmaDesign/` and `pages/api/polymarket.js` are not part of this model.
- Floating point is replaced by exact reals. `Fixed2` rounds the exact value to cents, half away from zero, where JavaScript rounds the binary double.
- NaN is modelled as `None`. So are an empty field and, in the price comparisons, an unreadable buy-price field.
- `Upper` upper-cases ASCII letters only. The side is a short ASCII word.
- The `typeof marketURL !== 'string'` check is not modelled: the URL is a string by type here.
