/** The hedging calculator: URL parsing, normalisation of the Kalshi and
    Polymarket records into market data, input validation, and the three
    strategy calculators (simple exit, perfect hedge, partial hedge). All
    amounts are exact reals. */
module HedgingCalculator {
  import opened Wrappers
  import opened Strings
  import opened KalshiProxy

  // ---------------------------------------------------------------------
  // URL parsing

  datatype QueryKind = Slug | Id

  datatype ParsedURL =
    | KalshiURL(identifier: string, originalTicker: string)
    | PolymarketURL(identifier: string, kind: QueryKind)

  /** The three ways parsing fails (each is reported as "Failed to parse URL: ..."). */
  datatype URLError = InvalidKalshiURL | InvalidPolymarketURL | UnsupportedPlatform

  /** `searchParams.get(key)`: the value of the first parameter named `key`. */
  function QueryGet(params: seq<(string, string)>, key: string): (r: Option<string>)
    ensures r.Some? <==> exists i :: 0 <= i < |params| && params[i].0 == key
    ensures r.Some? ==> exists i :: 0 <= i < |params| && params[i] == (key, r.value) &&
                                    forall j :: 0 <= j < i ==> params[j].0 != key
  {
    if |params| == 0 then None
    else if params[0].0 == key then Some(params[0].1)
    else
      var r := QueryGet(params[1..], key);
      assert forall i :: 1 <= i < |params| ==> params[i] == params[1..][i - 1];
      r
  }

  /** The last path segment: what follows the final '/'. */
  function LastSegment(pathname: string): string {
    Last(SplitOn(pathname, "/"))
  }

  /** `parseMarketURL`, with the URL already split into its host name, its
      path and its query parameters. */
  function ParseMarketURL(hostname: string, pathname: string, query: seq<(string, string)>)
    : (r: Result<ParsedURL, URLError>)
    ensures r == Failure(UnsupportedPlatform) <==>
      !Contains(hostname, "kalshi.com") && !Contains(hostname, "polymarket.com")
    ensures r == Failure(InvalidKalshiURL) ==> Contains(hostname, "kalshi.com")
    ensures r == Failure(InvalidPolymarketURL) ==>
      !Contains(hostname, "kalshi.com") && Contains(hostname, "polymarket.com") && !Contains(pathname, "/event/")
    ensures r.Success? ==> (r.value.KalshiURL? <==> Contains(hostname, "kalshi.com"))
    ensures r.Success? && r.value.PolymarketURL? ==> (r.value.kind == Slug <==> Contains(pathname, "/event/"))
  {
    if Contains(hostname, "kalshi.com") then
      var ticker := LastSegment(pathname);
      if ticker == "" || ticker == "markets" then Failure(InvalidKalshiURL)
      else Success(KalshiURL(Upper(ticker), ticker))
    else if Contains(hostname, "polymarket.com") then
      if Contains(pathname, "/event/") then
        SplitFirstTwo(pathname, "/event/");
        var afterEvent := SplitOn(pathname, "/event/")[1];
        Success(PolymarketURL(SplitOn(afterEvent, "?")[0], Slug))
      else
        match QueryGet(query, "id")
        case Some(id) => Success(PolymarketURL(id, Id))
        case None => Failure(InvalidPolymarketURL)
    else Failure(UnsupportedPlatform)
  }

  /** A Kalshi URL is accepted exactly when its last path segment is neither
      empty nor "markets"; the identifier is that segment upper-cased, and the
      segment is a '/'-free suffix of the path. */
  lemma KalshiURLIdentifier(hostname: string, pathname: string, query: seq<(string, string)>)
    requires Contains(hostname, "kalshi.com")
    ensures var r := ParseMarketURL(hostname, pathname, query);
      var seg := LastSegment(pathname);
      (r.Success? <==> seg != "" && seg != "markets") &&
      (r.Failure? ==> r.error == InvalidKalshiURL) &&
      (r.Success? ==> r.value == KalshiURL(Upper(seg), seg)) &&
      !Contains(seg, "/") &&
      |seg| <= |pathname| && pathname[|pathname| - |seg|..] == seg
  {
    var parts := SplitOn(pathname, "/");
    SplitPiecesClean(pathname, "/", |parts| - 1);
    SplitLastIsSuffix(pathname, "/");
  }

  /** A Polymarket event URL yields as slug the text after the first "/event/"
      up to the next '?' or "/event/", or to the end of the path: the slug
      begins the text after the first "/event/", holds neither '?' nor
      "/event/", and right after it that text ends, or a '?' or another
      "/event/" follows. */
  lemma PolymarketSlug(hostname: string, pathname: string, query: seq<(string, string)>)
    requires !Contains(hostname, "kalshi.com") && Contains(hostname, "polymarket.com")
    requires Contains(pathname, "/event/")
    ensures var r := ParseMarketURL(hostname, pathname, query);
      r.Success? && r.value.PolymarketURL? && r.value.kind == Slug &&
      var rest := pathname[IndexOf(pathname, "/event/").value + 7..];
      var slug := r.value.identifier;
      |slug| <= |rest| && rest[..|slug|] == slug &&
      !Contains(slug, "?") && !Contains(slug, "/event/") &&
      (|slug| == |rest| || rest[|slug|] == '?' || OccursAt(rest, "/event/", |slug|))
  {
    SplitFirstTwo(pathname, "/event/");
    var slug := SplitOn(SplitOn(pathname, "/event/")[1], "?")[0];
    assert ParseMarketURL(hostname, pathname, query) == Success(PolymarketURL(slug, Slug));
    EventSlug(pathname, "/event/", "?");
    OccursOneChar(pathname[IndexOf(pathname, "/event/").value + 7..], '?', |slug|);
  }

  /** The slug-extraction facts on the path alone, for any two separators:
      `mark` (the "/event/" marker) and `stop` (the '?'). */
  lemma EventSlug(pathname: string, mark: string, stop: string)
    requires |mark| > 0 && |stop| > 0 && Contains(pathname, mark)
    ensures |SplitOn(pathname, mark)| >= 2
    ensures var rest := pathname[IndexOf(pathname, mark).value + |mark|..];
      var slug := SplitOn(SplitOn(pathname, mark)[1], stop)[0];
      |slug| <= |rest| && rest[..|slug|] == slug &&
      !Contains(slug, stop) && !Contains(slug, mark) &&
      (|slug| == |rest| || OccursAt(rest, stop, |slug|) || OccursAt(rest, mark, |slug|))
  {
    SecondPiece(pathname, mark);
    SlugOfRest(pathname[IndexOf(pathname, mark).value + |mark|..], mark, stop);
  }

  /** The same facts for the text after the first marker, whose first piece
      on the marker is the second piece of the whole path. */
  lemma SlugOfRest(rest: string, mark: string, stop: string)
    requires |mark| > 0 && |stop| > 0
    ensures var slug := SplitOn(SplitOn(rest, mark)[0], stop)[0];
      |slug| <= |rest| && rest[..|slug|] == slug &&
      !Contains(slug, stop) && !Contains(slug, mark) &&
      (|slug| == |rest| || OccursAt(rest, stop, |slug|) || OccursAt(rest, mark, |slug|))
  {
    var after := SplitOn(rest, mark)[0];
    FirstPieceBound(rest, mark);
    FirstPieceBound(after, stop);
    SlugEnd(rest, after, SplitOn(after, stop)[0], mark, stop);
  }

  /** Where the slug ends inside the text after the first marker: `after`
      is that text up to the next marker, and the slug is `after` up to the
      first `stop`. */
  lemma SlugEnd(rest: string, after: string, slug: string, mark: string, stop: string)
    requires |after| <= |rest| && rest[..|after|] == after && !Contains(after, mark)
    requires |after| == |rest| || OccursAt(rest, mark, |after|)
    requires |slug| <= |after| && after[..|slug|] == slug && !Contains(slug, stop)
    requires |slug| == |after| || OccursAt(after, stop, |slug|)
    ensures |slug| <= |rest| && rest[..|slug|] == slug && !Contains(slug, mark)
    ensures |slug| == |rest| || OccursAt(rest, stop, |slug|) || OccursAt(rest, mark, |slug|)
  {
    CleanPrefix(after, mark, |slug|);
    assert rest[..|slug|] == after[..|slug|];
    if |slug| < |after| {
      assert rest[|slug|..|slug| + |stop|] == after[|slug|..|slug| + |stop|];
    }
  }

  /** A Polymarket URL without "/event/" needs an `id` query parameter. */
  lemma PolymarketId(hostname: string, pathname: string, query: seq<(string, string)>)
    requires !Contains(hostname, "kalshi.com") && Contains(hostname, "polymarket.com")
    requires !Contains(pathname, "/event/")
    ensures var r := ParseMarketURL(hostname, pathname, query);
      (r.Success? <==> exists i :: 0 <= i < |query| && query[i].0 == "id") &&
      (r.Success? ==> r.value == PolymarketURL(QueryGet(query, "id").value, Id)) &&
      (r.Failure? ==> r.error == InvalidPolymarketURL)
  {
  }

  // ---------------------------------------------------------------------
  // Market data

  datatype Platform = Kalshi | Polymarket

  /** The normalised market record the calculators read (prices in dollars).
      A field the platform's record does not carry is `None`. */
  datatype MarketData = MarketData(
    platform: Platform,
    yesAsk: real,
    yesBid: real,
    noAsk: real,
    noBid: real,
    lastPrice: real,
    yesSubTitle: Option<string>,
    noSubTitle: Option<string>,
    oppositeYesAsk: Option<real>,
    oppositeYesBid: Option<real>,
    oppositeYesSubTitle: Option<string>,
    oppositeNoSubTitle: Option<string>,
    fees: Option<FeeSchedule>)

  /** `market.yes_ask || market.yes_price || 0`, in cents. */
  function YesAskCents(m: KalshiMarket): real {
    if m.yesAsk != 0.0 then m.yesAsk else m.yesPrice
  }

  /** `market.no_ask || market.no_price || 0`, in cents. */
  function NoAskCents(m: KalshiMarket): real {
    if m.noAsk != 0.0 then m.noAsk else m.noPrice
  }

  /** `s || fallback` for a string. */
  function OrText(s: string, fallback: string): string {
    if s != "" then s else fallback
  }

  /** The fee schedule the normaliser fills in when the response has none. */
  const KalshiDefaultFees: FeeSchedule := FeeSchedule(0.02, 0.05, 0.01, "estimated")

  /** The record-building part of `fetchKalshiMarket`, given the proxy's
      target market, its opposite market (if any) and its fee information.
      It turns cents into dollars, reports an opposite ask of 0 when there is
      no opposite market, and always supplies fees (the proxy's estimate when
      the response carries none). Prices quoted within 0..100 cents land
      within 0..1 dollars. */
  function NormalizeKalshi(market: KalshiMarket, opposite: Option<KalshiMarket>, fees: Option<FeeSchedule>)
    : (md: MarketData)
    ensures md.platform == Kalshi
    ensures md.yesAsk * 100.0 == YesAskCents(market) && md.noAsk * 100.0 == NoAskCents(market)
    ensures md.yesBid * 100.0 == market.yesBid && md.noBid * 100.0 == market.noBid
    ensures md.oppositeYesAsk.Some? && md.oppositeYesBid.Some?
    ensures opposite.None? ==> md.oppositeYesAsk == Some(0.0) && md.oppositeYesBid == Some(0.0)
    ensures opposite.Some? ==>
      md.oppositeYesAsk.value * 100.0 == YesAskCents(opposite.value) &&
      md.oppositeYesBid.value * 100.0 == opposite.value.yesBid
    ensures fees.None? ==> md.fees == Some(EstimatedFees)
    ensures fees.Some? ==> md.fees == fees
    ensures 0.0 <= YesAskCents(market) <= 100.0 ==> 0.0 <= md.yesAsk <= 1.0
    ensures 0.0 <= NoAskCents(market) <= 100.0 ==> 0.0 <= md.noAsk <= 1.0
  {
    MarketData(
      Kalshi,
      YesAskCents(market) / 100.0,
      market.yesBid / 100.0,
      NoAskCents(market) / 100.0,
      market.noBid / 100.0,
      (if market.lastPrice != 0.0 then market.lastPrice else YesAskCents(market)) / 100.0,
      Some(OrText(market.yesSubTitle, "YES")),
      Some(OrText(market.noSubTitle, "NO")),
      Some(match opposite case Some(o) => YesAskCents(o) / 100.0 case None => 0.0),
      Some(match opposite case Some(o) => o.yesBid / 100.0 case None => 0.0),
      Some(match opposite case Some(o) => OrText(o.yesSubTitle, "YES") case None => ""),
      Some(match opposite case Some(o) => OrText(o.noSubTitle, "NO") case None => ""),
      Some(fees.GetOr(KalshiDefaultFees)))
  }

  /** The record-building part of `fetchPolymarketMarket`, given the two
      outcome prices: bids equal asks, and there is neither an opposite market
      nor a fee schedule. */
  function NormalizePolymarket(yesPrice: real, noPrice: real): (md: MarketData)
    ensures md.platform == Polymarket
    ensures md.yesAsk == md.yesBid == md.lastPrice == yesPrice && md.noAsk == md.noBid == noPrice
    ensures md.oppositeYesAsk.None? && md.fees.None?
  {
    MarketData(Polymarket, yesPrice, yesPrice, noPrice, noPrice, yesPrice,
      None, None, None, None, None, None, None)
  }

  // ---------------------------------------------------------------------
  // Strategy calculators

  /** A position: the side as typed, a share count and the entry price. */
  datatype Position = Position(side: string, shares: real, buyPrice: real)

  /** The prices object handed to the calculators. */
  datatype Quotes = Quotes(
    yesAsk: real,
    yesBid: real,
    noAsk: real,
    noBid: real,
    oppositeYesAsk: Option<real>,
    oppositeYesBid: Option<real>,
    fees: Option<FeeSchedule>)

  function QuotesOf(md: MarketData): Quotes {
    Quotes(md.yesAsk, md.yesBid, md.noAsk, md.noBid, md.oppositeYesAsk, md.oppositeYesBid, md.fees)
  }

  /** The taker rate in force: the schedule's, or 0.05 without one. */
  function TakerRate(q: Quotes): real {
    match q.fees
    case Some(f) => f.takerFee
    case None => 0.05
  }

  /** The transaction rate in force: the schedule's, or 0.01 without one. */
  function TransactionRate(q: Quotes): real {
    match q.fees
    case Some(f) => f.transactionFee
    case None => 0.01
  }

  /** The combined rate charged on a trade leg. */
  function FeeRate(q: Quotes): real {
    TakerRate(q) + TransactionRate(q)
  }

  datatype FeeBreakdown = FeeBreakdown(taker: real, transaction: real, total: real)

  /** The taker and transaction fees on one trade leg of the given notional. */
  function ApplyFees(notional: real, q: Quotes): (f: FeeBreakdown)
    ensures f.taker == notional * TakerRate(q) && f.transaction == notional * TransactionRate(q)
    ensures f.total == notional * FeeRate(q)
  {
    var taker := notional * TakerRate(q);
    var transaction := notional * TransactionRate(q);
    FeeBreakdown(taker, transaction, taker + transaction)
  }

  /** At non-negative rates, the fees on a non-negative notional are non-negative. */
  lemma FeesNonNegative(notional: real, q: Quotes)
    requires notional >= 0.0 && TakerRate(q) >= 0.0 && TransactionRate(q) >= 0.0
    ensures var f := ApplyFees(notional, q);
      f.taker >= 0.0 && f.transaction >= 0.0 && f.total >= 0.0
  {
    ScaleMonotone(notional, 0.0, TakerRate(q));
    ScaleMonotone(notional, 0.0, TransactionRate(q));
  }

  /** `amount / base * 100`; `None` where JavaScript would produce Infinity or NaN. */
  function Percent(amount: real, base: real): (p: Option<real>)
    ensures p.Some? <==> base != 0.0
    ensures p.Some? ==> p.value * base == amount * 100.0
  {
    if base == 0.0 then None else Some(amount / base * 100.0)
  }

  datatype ExitResult = ExitResult(
    sellPrice: real,
    initialCost: real,
    grossRevenue: real,
    fees: FeeBreakdown,
    netRevenue: real,
    profit: real)
  {
    /** The profit as a percentage of the initial cost (`None` where
        JavaScript would divide by zero). */
    function ProfitPercent(): Option<real> { Percent(profit, initialCost) }
  }

  /** `calculateSimpleExit`: sell every share at the bid of the held side. The
      side test is case-sensitive: only exactly "YES" sells at `yesBid`. */
  function SimpleExit(pos: Position, q: Quotes): (r: ExitResult)
    ensures r.sellPrice == (if pos.side == "YES" then q.yesBid else q.noBid)
    ensures r.grossRevenue == pos.shares * r.sellPrice
    ensures r.fees.total == r.grossRevenue * FeeRate(q)
    ensures r.netRevenue + r.fees.total == r.grossRevenue
    ensures r.profit == r.grossRevenue - r.fees.total - pos.shares * pos.buyPrice
    ensures r.profit == pos.shares * (r.sellPrice * (1.0 - FeeRate(q)) - pos.buyPrice)
  {
    var sellPrice := if pos.side == "YES" then q.yesBid else q.noBid;
    var initialCost := pos.shares * pos.buyPrice;
    var grossRevenue := pos.shares * sellPrice;
    var fees := ApplyFees(grossRevenue, q);
    var netRevenue := grossRevenue - fees.total;
    var profit := netRevenue - initialCost;
    ExitResult(sellPrice, initialCost, grossRevenue, fees, netRevenue, profit)
  }

  datatype HedgeRisk = ProfitLocked | LossLocked

  /** The advisory notes of the perfect hedge. */
  datatype HedgeWarning = WideSpread | LocksInLoss | NotInFavourYet

  datatype PerfectHedgeResult = PerfectHedgeResult(
    hedgeShares: real,
    hedgePrice: real,
    hedgeCost: real,
    hedgeFees: FeeBreakdown,
    totalInvestment: real,
    profitIfOriginalWins: real,
    profitIfHedgeWins: real,
    guaranteedProfit: real,
    initialCost: real,
    unrealizedGain: real,
    risk: HedgeRisk,
    warning: Option<HedgeWarning>)
  {
    /** The locked profit as a percentage of the initial cost. */
    function ProfitPercent(): Option<real> { Percent(guaranteedProfit, initialCost) }
  }

  /** What the position would fetch at the held side's bid, less its cost. */
  function UnrealizedGain(pos: Position, q: Quotes): real {
    (if pos.side == "YES" then pos.shares * q.yesBid else pos.shares * q.noBid) - pos.shares * pos.buyPrice
  }

  /** `calculatePerfectHedge`: buy as many YES shares of the opposite market as
      are held. `None` when the market data has no opposite ask: the hedge
      price is then undefined and formatting it for the action text throws,
      so the calculator returns nothing. */
  function PerfectHedge(pos: Position, q: Quotes): (r: Option<PerfectHedgeResult>)
    ensures r.Some? <==> q.oppositeYesAsk.Some?
    ensures r.Some? ==> r.value.hedgeShares == pos.shares && r.value.hedgePrice == q.oppositeYesAsk.value
    ensures r.Some? ==>
      r.value.profitIfOriginalWins == r.value.profitIfHedgeWins == r.value.guaranteedProfit
    ensures r.Some? ==>
      r.value.guaranteedProfit == pos.shares * (1.0 - pos.buyPrice - q.oppositeYesAsk.value * (1.0 + FeeRate(q)))
    ensures r.Some? ==> (r.value.risk == ProfitLocked <==> r.value.guaranteedProfit >= 0.0)
    ensures r.Some? ==>
      (r.value.warning == Some(WideSpread) <==> q.yesAsk + q.oppositeYesAsk.value > 1.05)
    ensures r.Some? ==>
      (r.value.warning == Some(LocksInLoss) <==>
        q.yesAsk + q.oppositeYesAsk.value <= 1.05 && r.value.guaranteedProfit < 0.0)
    ensures r.Some? ==>
      (r.value.warning.None? <==>
        q.yesAsk + q.oppositeYesAsk.value <= 1.05 && r.value.guaranteedProfit >= 0.0 &&
        UnrealizedGain(pos, q) > 0.0)
  {
    match q.oppositeYesAsk
    case None => None
    case Some(hedgePrice) =>
      var initialCost := pos.shares * pos.buyPrice;
      var hedgeShares := pos.shares;
      var hedgeCost := hedgeShares * hedgePrice;
      var hedgeFees := ApplyFees(hedgeCost, q);
      var totalInvestment := initialCost + hedgeCost + hedgeFees.total;
      var profitIfOriginalWins := pos.shares - totalInvestment;
      var profitIfHedgeWins := hedgeShares - totalInvestment;
      var guaranteedProfit := if profitIfOriginalWins <= profitIfHedgeWins then profitIfOriginalWins else profitIfHedgeWins;
      var priceSum := q.yesAsk + hedgePrice;
      var unrealizedGain := UnrealizedGain(pos, q);
      var warning :=
        if priceSum > 1.05 then Some(WideSpread)
        else if guaranteedProfit < 0.0 then Some(LocksInLoss)
        else if unrealizedGain <= 0.0 then Some(NotInFavourYet)
        else None;
      Some(PerfectHedgeResult(
        hedgeShares, hedgePrice, hedgeCost, hedgeFees, totalInvestment,
        profitIfOriginalWins, profitIfHedgeWins, guaranteedProfit,
        initialCost, unrealizedGain,
        if guaranteedProfit >= 0.0 then ProfitLocked else LossLocked,
        warning))
  }

  datatype PartialRisk = Moderate | NoRisk

  datatype PartialHedgeResult = PartialHedgeResult(
    hedgePercent: real,
    hedgeShares: real,
    hedgePrice: real,
    hedgeCost: real,
    hedgeFees: FeeBreakdown,
    totalInvestment: real,
    profitIfOriginalWins: real,
    profitIfHedgeWins: real,
    profit: real,
    initialCost: real,
    risk: PartialRisk)
  {
    /** The better profit as a percentage of the initial cost. */
    function ProfitPercent(): Option<real> { Percent(profit, initialCost) }
  }

  /** The accounting of a partial hedge of `pct` percent beside `shares`
      shares bought at `buyPrice`: it buys `pct` percent of the held share
      count at the hedge `price`, pays the fee `rate` on that notional, and its outcomes are each side's payout (one dollar
      per share) less the whole outlay; the reported profit is the better
      outcome. */
  predicate PartialHedgeLaws(shares: real, buyPrice: real, price: real, rate: real, pct: real, r: PartialHedgeResult) {
    r.hedgePercent == pct && r.hedgePrice == price &&
    r.initialCost == shares * buyPrice &&
    r.hedgeShares * 100.0 == shares * pct &&
    r.hedgeCost == r.hedgeShares * price &&
    r.hedgeFees.total == r.hedgeCost * rate &&
    r.totalInvestment == r.initialCost + r.hedgeCost + r.hedgeFees.total &&
    r.profitIfOriginalWins == shares - r.totalInvestment &&
    r.profitIfHedgeWins == r.hedgeShares - r.totalInvestment &&
    r.profit >= r.profitIfOriginalWins && r.profit >= r.profitIfHedgeWins &&
    (r.profit == r.profitIfOriginalWins || r.profit == r.profitIfHedgeWins)
  }

  /** `calculatePartialHedge`: buy `pct` percent of the held share count as YES
      shares of the opposite market, and report the better of the two outcomes.
      `None` when there is no opposite ask, where it throws like
      `calculatePerfectHedge`. */
  function PartialHedge(pos: Position, q: Quotes, pct: real): (r: Option<PartialHedgeResult>)
    ensures r.Some? <==> q.oppositeYesAsk.Some?
    ensures r.Some? ==>
      PartialHedgeLaws(pos.shares, pos.buyPrice, q.oppositeYesAsk.value, FeeRate(q), pct, r.value)
    ensures r.Some? ==> (r.value.risk == Moderate <==> pct < 100.0)
  {
    match q.oppositeYesAsk
    case None => None
    case Some(hedgePrice) =>
      var initialCost := pos.shares * pos.buyPrice;
      var hedgeShares := pos.shares * (pct / 100.0);
      var hedgeCost := hedgeShares * hedgePrice;
      var hedgeFees := ApplyFees(hedgeCost, q);
      var totalInvestment := initialCost + hedgeCost + hedgeFees.total;
      var profitIfOriginalWins := pos.shares - totalInvestment;
      var profitIfHedgeWins := hedgeShares - totalInvestment;
      var betterProfit := if profitIfOriginalWins >= profitIfHedgeWins then profitIfOriginalWins else profitIfHedgeWins;
      Some(PartialHedgeResult(
        pct, hedgeShares, hedgePrice, hedgeCost, hedgeFees, totalInvestment,
        profitIfOriginalWins, profitIfHedgeWins, betterProfit,
        initialCost,
        if pct < 100.0 then Moderate else NoRisk))
  }

  datatype StrategySet = StrategySet(
    exit: ExitResult,
    perfectHedge: PerfectHedgeResult,
    conservative: PartialHedgeResult,
    moderate: PartialHedgeResult,
    minimal: PartialHedgeResult)

  /** `generateAllStrategies`: the exit, the perfect hedge and the 80%, 50%
      and 25% partial hedges, on the prices of the market data. Without an
      opposite ask the hedge calculators throw, and the whole set is lost
      (`None`), the exit computed before them included. */
  function GenerateAllStrategies(pos: Position, md: MarketData): (r: Option<StrategySet>)
    ensures r.Some? <==> md.oppositeYesAsk.Some?
    ensures r.Some? ==>
      var q := QuotesOf(md);
      r.value.exit == SimpleExit(pos, q) &&
      PerfectHedge(pos, q) == Some(r.value.perfectHedge) &&
      PartialHedge(pos, q, 80.0) == Some(r.value.conservative) &&
      PartialHedge(pos, q, 50.0) == Some(r.value.moderate) &&
      PartialHedge(pos, q, 25.0) == Some(r.value.minimal)
  {
    var q := QuotesOf(md);
    if md.oppositeYesAsk.None? then None
    else
      Some(StrategySet(
        SimpleExit(pos, q),
        PerfectHedge(pos, q).value,
        PartialHedge(pos, q, 80.0).value,
        PartialHedge(pos, q, 50.0).value,
        PartialHedge(pos, q, 25.0).value))
  }

  // ---------------------------------------------------------------------
  // Validation and the entry point

  /** Why `calculateHedgingStrategies` rejects its input. */
  datatype InputError = MissingURL | InvalidSide | InvalidShares | InvalidBuyPrice

  /** The checks of `calculateHedgingStrategies`, in order; `None` when the
      input passes. The side is compared after upper-casing. */
  function ValidateInput(url: string, pos: Position): (r: Option<InputError>)
    ensures r.None? <==>
      url != "" && (Upper(pos.side) == "YES" || Upper(pos.side) == "NO") &&
      pos.shares > 0.0 && 0.0 < pos.buyPrice < 1.0
    ensures r == Some(MissingURL) <==> url == ""
    ensures r == Some(InvalidSide) <==> url != "" && Upper(pos.side) != "YES" && Upper(pos.side) != "NO"
    ensures r == Some(InvalidShares) <==>
      url != "" && (Upper(pos.side) == "YES" || Upper(pos.side) == "NO") && pos.shares <= 0.0
    ensures r == Some(InvalidBuyPrice) <==>
      url != "" && (Upper(pos.side) == "YES" || Upper(pos.side) == "NO") && pos.shares > 0.0 &&
      (pos.buyPrice <= 0.0 || pos.buyPrice >= 1.0)
  {
    if url == "" then Some(MissingURL)
    else if pos.side == "" || (Upper(pos.side) != "YES" && Upper(pos.side) != "NO") then Some(InvalidSide)
    else if pos.shares <= 0.0 then Some(InvalidShares)
    else if pos.buyPrice <= 0.0 || pos.buyPrice >= 1.0 then Some(InvalidBuyPrice)
    else None
  }

  /** Why `calculateHedgingStrategies` answers `success: false`: a rejected
      input, a failed fetch (with its message), or a hedge calculator that
      threw on market data without an opposite ask. */
  datatype CalcError = Invalid(reason: InputError) | FetchFailed(message: string) | NoOppositeAsk

  /** `calculateHedgingStrategies`: validate, then compute the strategies on
      the market data that `fetchMarketFromURL` produced (given here as
      `fetched`, its error message on failure). */
  function CalculateHedgingStrategies(url: string, pos: Position, fetched: Result<MarketData, string>)
    : (r: Result<StrategySet, CalcError>)
    ensures ValidateInput(url, pos).Some? ==> r == Failure(Invalid(ValidateInput(url, pos).value))
    ensures ValidateInput(url, pos).None? && fetched.Failure? ==> r == Failure(FetchFailed(fetched.error))
    ensures ValidateInput(url, pos).None? && fetched.Success? ==>
      (r.Success? <==> fetched.value.oppositeYesAsk.Some?) &&
      (r.Failure? ==> r.error == NoOppositeAsk)
    ensures r.Success? ==>
      fetched.Success? && GenerateAllStrategies(pos, fetched.value) == Some(r.value) &&
      r.value.exit.initialCost > 0.0 && r.value.exit.ProfitPercent().Some?
  {
    match ValidateInput(url, pos)
    case Some(e) => Failure(Invalid(e))
    case None =>
      match fetched
      case Failure(msg) => Failure(FetchFailed(msg))
      case Success(md) =>
        match GenerateAllStrategies(pos, md)
        case None => Failure(NoOppositeAsk)
        case Some(s) => Success(s)
  }

  // ---------------------------------------------------------------------
  // Properties of the strategies

  /** `n * a <= n * b` for a non-negative `n` and `a <= b`. */
  lemma ScaleMonotone(n: real, a: real, b: real)
    requires n >= 0.0 && a <= b
    ensures n * a <= n * b
  {
    assert n * b - n * a == n * (b - a);
  }

  /** `ScaleMonotone` with the factor on the right. */
  lemma ScaleMonotoneRight(n: real, a: real, b: real)
    requires n >= 0.0 && a <= b
    ensures a * n <= b * n
  {
    ScaleMonotone(n, a, b);
  }

  /** For a held position, the perfect hedge locks in a profit exactly when
      the entry price plus the fee-loaded hedge price is at most 1. */
  lemma PerfectHedgeLocksProfitIff(pos: Position, q: Quotes)
    requires q.oppositeYesAsk.Some? && pos.shares > 0.0
    ensures var h := PerfectHedge(pos, q).value;
      h.risk == ProfitLocked <==> pos.buyPrice + q.oppositeYesAsk.value * (1.0 + FeeRate(q)) <= 1.0
  {
    var x := 1.0 - pos.buyPrice - q.oppositeYesAsk.value * (1.0 + FeeRate(q));
    assert PerfectHedge(pos, q).value.guaranteedProfit == pos.shares * x;
    SignOfProduct(pos.shares, x);
  }

  /** A positive factor keeps the sign of the other. */
  lemma SignOfProduct(n: real, x: real)
    requires n > 0.0
    ensures n * x >= 0.0 <==> x >= 0.0
  {
    if x < 0.0 {
      assert n * x == -(n * -x);
      assert n * -x > 0.0;
    }
  }

  /** With a hedge of at most 100% of a non-negative share count, the
      original side winning is the better outcome, so it is what a partial
      hedge reports as its profit. */
  lemma PartialReportsOriginalWins(pos: Position, q: Quotes, pct: real)
    requires q.oppositeYesAsk.Some? && pos.shares >= 0.0 && 0.0 <= pct <= 100.0
    ensures var h := PartialHedge(pos, q, pct).value;
      h.profitIfOriginalWins >= h.profitIfHedgeWins && h.profit == h.profitIfOriginalWins
  {
    var h := PartialHedge(pos, q, pct).value;
    ScaleMonotone(pos.shares, pct / 100.0, 1.0);
    assert h.hedgeShares <= pos.shares;
  }

  /** A 100% partial hedge buys what the perfect hedge buys and has the same
      conditional profits. */
  lemma FullPartialIsPerfect(pos: Position, q: Quotes)
    requires q.oppositeYesAsk.Some?
    ensures var p := PartialHedge(pos, q, 100.0).value;
      var h := PerfectHedge(pos, q).value;
      p.hedgeShares == h.hedgeShares && p.hedgeCost == h.hedgeCost && p.hedgeFees == h.hedgeFees &&
      p.totalInvestment == h.totalInvestment &&
      p.profitIfOriginalWins == h.profitIfOriginalWins && p.profitIfHedgeWins == h.profitIfHedgeWins &&
      p.profit == h.guaranteedProfit && p.risk == NoRisk
  {
  }

  /** A 0% partial hedge buys nothing: the outcomes are those of the bare
      position held to resolution. */
  lemma ZeroPartialIsUnhedged(pos: Position, q: Quotes)
    requires q.oppositeYesAsk.Some?
    ensures var p := PartialHedge(pos, q, 0.0).value;
      p.hedgeShares == 0.0 && p.hedgeCost == 0.0 && p.hedgeFees.total == 0.0 &&
      p.profitIfOriginalWins == pos.shares - pos.shares * pos.buyPrice &&
      p.profitIfHedgeWins == -(pos.shares * pos.buyPrice)
  {
  }

  /** Raising the taker or transaction rate never raises the exit's profit
      while the sale's notional is non-negative. */
  lemma ExitFeeMonotone(pos: Position, q: Quotes, f: FeeSchedule)
    requires pos.shares * (if pos.side == "YES" then q.yesBid else q.noBid) >= 0.0
    requires f.takerFee >= TakerRate(q) && f.transactionFee >= TransactionRate(q)
    ensures SimpleExit(pos, q.(fees := Some(f))).profit <= SimpleExit(pos, q).profit
  {
    var q2 := q.(fees := Some(f));
    RaisedFeeRate(q, f);
    var a, b := SimpleExit(pos, q), SimpleExit(pos, q2);
    assert a.grossRevenue == b.grossRevenue;
    ScaleMonotone(a.grossRevenue, FeeRate(q), FeeRate(q2));
  }

  /** Raising the taker or transaction rate never raises any profit figure of
      the perfect hedge while the hedge's notional is non-negative. */
  lemma PerfectHedgeFeeMonotone(pos: Position, q: Quotes, f: FeeSchedule)
    requires q.oppositeYesAsk.Some? && pos.shares * q.oppositeYesAsk.value >= 0.0
    requires f.takerFee >= TakerRate(q) && f.transactionFee >= TransactionRate(q)
    ensures var a := PerfectHedge(pos, q).value;
      var b := PerfectHedge(pos, q.(fees := Some(f))).value;
      b.profitIfOriginalWins <= a.profitIfOriginalWins &&
      b.profitIfHedgeWins <= a.profitIfHedgeWins &&
      b.guaranteedProfit <= a.guaranteedProfit
  {
    RaisedFeeRate(q, f);
    LockedProfitFalls(pos.shares, pos.buyPrice, q.oppositeYesAsk.value, FeeRate(q), FeeRate(q.(fees := Some(f))));
  }

  /** A schedule whose rates are at least those in force raises the combined rate. */
  lemma RaisedFeeRate(q: Quotes, f: FeeSchedule)
    requires f.takerFee >= TakerRate(q) && f.transactionFee >= TransactionRate(q)
    ensures FeeRate(q) <= FeeRate(q.(fees := Some(f)))
  {
  }

  /** The locked profit `n * (1 - bp - h * (1 + r))` of a hedge with a
      non-negative notional `n * h` falls as the rate `r` rises. */
  lemma LockedProfitFalls(n: real, bp: real, h: real, r1: real, r2: real)
    requires n * h >= 0.0 && r1 <= r2
    ensures n * (1.0 - bp - h * (1.0 + r2)) <= n * (1.0 - bp - h * (1.0 + r1))
  {
    LoadedCostMonotone(n, h, r1, r2);
    Distribute(n, 1.0 - bp, h * (1.0 + r1));
    Distribute(n, 1.0 - bp, h * (1.0 + r2));
  }

  /** The fee-loaded cost `n * (h * (1 + r))` of a non-negative notional
      `n * h` grows with the rate `r`. */
  lemma LoadedCostMonotone(n: real, h: real, r1: real, r2: real)
    requires n * h >= 0.0 && r1 <= r2
    ensures n * (h * (1.0 + r1)) <= n * (h * (1.0 + r2))
  {
    assert n * (h * (1.0 + r1)) == n * h + (n * h) * r1;
    assert n * (h * (1.0 + r2)) == n * h + (n * h) * r2;
    ScaleMonotone(n * h, r1, r2);
  }

  /** `n * (x - y) == n * x - n * y`. */
  lemma Distribute(n: real, x: real, y: real)
    ensures n * (x - y) == n * x - n * y
  {
  }

  // The outcomes of a partial hedge in closed form. They are stated on
  // plain numbers so that the comparisons below never unfold two partial
  // hedges at once.

  /** `pct` percent of `s` shares. */
  function HedgeSize(s: real, pct: real): real {
    s * (pct / 100.0)
  }

  /** The price of one hedge share at `h` with the fees at rate `r` on it. */
  function LoadedPrice(h: real, r: real): real {
    h * (1.0 + r)
  }

  /** Holding `s` shares bought at `bp` to a win of the original side, with
      `n` hedge shares bought at the loaded price `u`: the margin on the
      held shares less the cost of the hedge. */
  function OriginalWinsOutcome(s: real, bp: real, u: real, n: real): real {
    s * (1.0 - bp) - n * u
  }

  /** The hedge side winning instead: each hedge share pays 1 less its
      loaded price, and the original stake is lost. */
  function HedgeWinsOutcome(s: real, bp: real, u: real, n: real): real {
    n * (1.0 - u) - s * bp
  }

  /** The outcomes of a partial hedge, by the closed forms: the hedge buys
      `pct` percent of the held shares, and its two outcomes are
      `OriginalWinsOutcome` and `HedgeWinsOutcome` at the fee-loaded price. */
  lemma PartialHedgeOutcomes(pos: Position, q: Quotes, pct: real)
    requires q.oppositeYesAsk.Some?
    ensures var r := PartialHedge(pos, q, pct).value;
      var u := LoadedPrice(q.oppositeYesAsk.value, FeeRate(q));
      var n := HedgeSize(pos.shares, pct);
      r.hedgeShares == n &&
      r.profitIfOriginalWins == OriginalWinsOutcome(pos.shares, pos.buyPrice, u, n) &&
      r.profitIfHedgeWins == HedgeWinsOutcome(pos.shares, pos.buyPrice, u, n)
  {
    var r := PartialHedge(pos, q, pct).value;
    HedgeSizeOf(r.hedgeShares, pos.shares, pct);
    PartialClosedForms(pos.shares, pos.buyPrice, q.oppositeYesAsk.value, FeeRate(q), pct, r);
  }

  /** The accounting of a partial hedge solved for its two outcomes. */
  lemma PartialClosedForms(s: real, bp: real, h: real, r: real, pct: real, x: PartialHedgeResult)
    requires PartialHedgeLaws(s, bp, h, r, pct, x)
    ensures x.profitIfOriginalWins == s * (1.0 - bp) - x.hedgeShares * (h * (1.0 + r))
    ensures x.profitIfHedgeWins == x.hedgeShares * (1.0 - h * (1.0 + r)) - s * bp
  {
    var n := x.hedgeShares;
    assert n * h + (n * h) * r == n * (h * (1.0 + r));
    Distribute(s, 1.0, bp);
    Distribute(n, 1.0, h * (1.0 + r));
  }

  /** A hedge size with `n * 100 == s * pct` is `pct` percent of `s`. */
  lemma HedgeSizeOf(n: real, s: real, pct: real)
    requires n * 100.0 == s * pct
    ensures n == s * (pct / 100.0)
  {
  }

  /** Hedge sizes grow with the percentage. */
  lemma HedgeSizeMonotone(s: real, p1: real, p2: real)
    requires s >= 0.0 && p1 <= p2
    ensures HedgeSize(s, p1) <= HedgeSize(s, p2)
  {
    ScaleMonotone(s, p1 / 100.0, p2 / 100.0);
  }

  /** More hedge shares at a non-negative price and rate leave less if the
      original side wins. */
  lemma OriginalWinsFalls(s: real, bp: real, h: real, r: real, n1: real, n2: real)
    requires n1 <= n2 && h >= 0.0 && r >= 0.0
    ensures OriginalWinsOutcome(s, bp, LoadedPrice(h, r), n2) <= OriginalWinsOutcome(s, bp, LoadedPrice(h, r), n1)
  {
    ScaleMonotone(h, 0.0, 1.0 + r);
    ScaleMonotoneRight(LoadedPrice(h, r), n1, n2);
  }

  /** More hedge shares at a loaded price of at most 1 pay more if the hedge
      side wins. */
  lemma HedgeWinsRises(s: real, bp: real, u: real, n1: real, n2: real)
    requires n1 <= n2 && u <= 1.0
    ensures HedgeWinsOutcome(s, bp, u, n1) <= HedgeWinsOutcome(s, bp, u, n2)
  {
    ScaleMonotoneRight(1.0 - u, n1, n2);
  }

  /** At a higher fee rate the same hedge, of non-negative notional, does no
      better in either outcome. */
  lemma OutcomesFallWithRate(s: real, bp: real, h: real, n: real, r1: real, r2: real)
    requires n * h >= 0.0 && r1 <= r2
    ensures OriginalWinsOutcome(s, bp, LoadedPrice(h, r2), n) <= OriginalWinsOutcome(s, bp, LoadedPrice(h, r1), n)
    ensures HedgeWinsOutcome(s, bp, LoadedPrice(h, r2), n) <= HedgeWinsOutcome(s, bp, LoadedPrice(h, r1), n)
  {
    LoadedCostMonotone(n, h, r1, r2);
    Distribute(n, 1.0, LoadedPrice(h, r1));
    Distribute(n, 1.0, LoadedPrice(h, r2));
  }

  /** Raising the taker or transaction rate never raises any profit figure of
      a partial hedge while the hedge's notional is non-negative. */
  lemma PartialHedgeFeeMonotone(pos: Position, q: Quotes, pct: real, f: FeeSchedule)
    requires q.oppositeYesAsk.Some? && (pos.shares * (pct / 100.0)) * q.oppositeYesAsk.value >= 0.0
    requires f.takerFee >= TakerRate(q) && f.transactionFee >= TransactionRate(q)
    ensures var a := PartialHedge(pos, q, pct).value;
      var b := PartialHedge(pos, q.(fees := Some(f)), pct).value;
      b.profitIfOriginalWins <= a.profitIfOriginalWins &&
      b.profitIfHedgeWins <= a.profitIfHedgeWins &&
      b.profit <= a.profit
  {
    var q2 := q.(fees := Some(f));
    RaisedFeeRate(q, f);
    PartialHedgeOutcomes(pos, q, pct);
    PartialHedgeOutcomes(pos, q2, pct);
    OutcomesFallWithRate(pos.shares, pos.buyPrice, q.oppositeYesAsk.value, HedgeSize(pos.shares, pct),
      FeeRate(q), FeeRate(q2));
  }

  /** Hedging more gives up upside: a larger percentage never improves the
      original-wins outcome. */
  lemma PartialHedgeGivesUpUpside(pos: Position, q: Quotes, p1: real, p2: real)
    requires q.oppositeYesAsk.Some? && q.oppositeYesAsk.value >= 0.0 && FeeRate(q) >= 0.0
    requires pos.shares >= 0.0 && 0.0 <= p1 <= p2
    ensures PartialHedge(pos, q, p2).value.profitIfOriginalWins <= PartialHedge(pos, q, p1).value.profitIfOriginalWins
  {
    PartialHedgeOutcomes(pos, q, p1);
    PartialHedgeOutcomes(pos, q, p2);
    HedgeSizeMonotone(pos.shares, p1, p2);
    OriginalWinsFalls(pos.shares, pos.buyPrice, q.oppositeYesAsk.value, FeeRate(q),
      HedgeSize(pos.shares, p1), HedgeSize(pos.shares, p2));
  }

  /** Hedging more covers more downside: when a fee-loaded hedge share costs
      at most 1, a larger percentage never worsens the hedge-wins outcome. */
  lemma PartialHedgeCoversDownside(pos: Position, q: Quotes, p1: real, p2: real)
    requires q.oppositeYesAsk.Some? && q.oppositeYesAsk.value * (1.0 + FeeRate(q)) <= 1.0
    requires pos.shares >= 0.0 && 0.0 <= p1 <= p2
    ensures PartialHedge(pos, q, p1).value.profitIfHedgeWins <= PartialHedge(pos, q, p2).value.profitIfHedgeWins
  {
    PartialHedgeOutcomes(pos, q, p1);
    PartialHedgeOutcomes(pos, q, p2);
    HedgeSizeMonotone(pos.shares, p1, p2);
    HedgeWinsRises(pos.shares, pos.buyPrice, LoadedPrice(q.oppositeYesAsk.value, FeeRate(q)),
      HedgeSize(pos.shares, p1), HedgeSize(pos.shares, p2));
  }

  /** A partial hedge sits between holding and the perfect hedge: its
      original-wins profit is at least the perfect hedge's locked profit, and
      (when a fee-loaded hedge share costs at most 1) its hedge-wins profit is
      at most that. */
  lemma PartialBetweenHoldAndPerfect(pos: Position, q: Quotes, pct: real)
    requires q.oppositeYesAsk.Some? && q.oppositeYesAsk.value >= 0.0 && FeeRate(q) >= 0.0
    requires pos.shares >= 0.0 && 0.0 <= pct <= 100.0
    ensures var p := PartialHedge(pos, q, pct).value;
      var h := PerfectHedge(pos, q).value;
      p.profitIfOriginalWins >= h.guaranteedProfit &&
      (q.oppositeYesAsk.value * (1.0 + FeeRate(q)) <= 1.0 ==> p.profitIfHedgeWins <= h.guaranteedProfit)
  {
    PartialHedgeGivesUpUpside(pos, q, pct, 100.0);
    if q.oppositeYesAsk.value * (1.0 + FeeRate(q)) <= 1.0 {
      PartialHedgeCoversDownside(pos, q, pct, 100.0);
    }
    FullPartialIsPerfect(pos, q);
  }

  /** The five strategies, on market data with an opposite ask: the partial
      hedges are the 80%, 50% and 25% ones, all labelled moderate, and they
      buy fewer shares than the perfect hedge, in that order. */
  lemma StrategySetShape(pos: Position, md: MarketData)
    requires pos.shares >= 0.0 && md.oppositeYesAsk.Some?
    ensures var s := GenerateAllStrategies(pos, md);
      s.Some? &&
      s.value.conservative.hedgePercent == 80.0 && s.value.conservative.risk == Moderate &&
      s.value.moderate.hedgePercent == 50.0 && s.value.moderate.risk == Moderate &&
      s.value.minimal.hedgePercent == 25.0 && s.value.minimal.risk == Moderate &&
      s.value.minimal.hedgeShares <= s.value.moderate.hedgeShares <= s.value.conservative.hedgeShares <=
        s.value.perfectHedge.hedgeShares
  {
    ScaleMonotone(pos.shares, 25.0, 50.0);
    ScaleMonotone(pos.shares, 50.0, 80.0);
    ScaleMonotone(pos.shares, 80.0, 100.0);
  }

  /** Kalshi market data always carries an opposite ask, so the strategies
      are always computed; without an opposite market that ask is 0 and the
      "perfect hedge" costs nothing and locks in `shares * (1 - buyPrice)`. */
  lemma KalshiDataIsHedgeable(pos: Position, market: KalshiMarket, opposite: Option<KalshiMarket>,
                              fees: Option<FeeSchedule>)
    ensures var s := GenerateAllStrategies(pos, NormalizeKalshi(market, opposite, fees));
      s.Some? &&
      (opposite.None? ==>
        s.value.perfectHedge.hedgeCost == 0.0 &&
        s.value.perfectHedge.guaranteedProfit == pos.shares * (1.0 - pos.buyPrice))
  {
    var md := NormalizeKalshi(market, opposite, fees);
    if opposite.None? {
      var h := PerfectHedge(pos, QuotesOf(md)).value;
      assert h.hedgePrice == 0.0;
    }
  }

  /** Polymarket market data has no opposite ask, so every analysis of a
      Polymarket market fails: on a valid input, because the hedge
      calculators throw. */
  lemma PolymarketAnalysisFails(url: string, pos: Position, yesPrice: real, noPrice: real)
    ensures var r := CalculateHedgingStrategies(url, pos, Success(NormalizePolymarket(yesPrice, noPrice)));
      r.Failure? && (ValidateInput(url, pos).None? ==> r.error == NoOppositeAsk)
  {
  }

  /** A lower-case "yes" passes validation (which upper-cases the side) but
      the exit calculator, which compares the side case-sensitively, then
      sells at the NO bid. */
  lemma LowercaseYesSellsAtNoBid(url: string, shares: real, buyPrice: real, q: Quotes)
    requires url != "" && shares > 0.0 && 0.0 < buyPrice < 1.0
    ensures ValidateInput(url, Position("yes", shares, buyPrice)).None?
    ensures SimpleExit(Position("yes", shares, buyPrice), q).sellPrice == q.noBid
  {
    assert Upper("yes") == "YES" by {
      assert Upper("yes")[0] == UpperChar('y') == 'Y';
      assert Upper("yes")[1] == UpperChar('e') == 'E';
      assert Upper("yes")[2] == UpperChar('s') == 'S';
    }
  }
}
