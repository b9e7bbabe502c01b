/** The calculations and price state of the home page: the duplicated
    helpers of `pages/index.js` and `pages/index-backup.js`, the team list
    and price lookup driven by the Kalshi proxy's answer, the buy-price
    updates, the price-deviation warning and the recommended strategy. */
module HomePage {
  import opened Wrappers
  import opened Strings
  import opened KalshiProxy
  import opened HedgingCalculator

  // ---------------------------------------------------------------------
  // Rounding

  /** `Math.round`: the nearest integer, halves rounded up. */
  function Round(x: real): (n: int)
    ensures n as real - 0.5 <= x < n as real + 0.5
  {
    (x + 0.5).Floor
  }

  /** `x.toFixed(2)` read back by `parseFloat`: `x` to whole cents, a half
      cent rounded away from zero. */
  function Fixed2(x: real): (r: real)
    ensures (r * 100.0).Floor as real == r * 100.0
    ensures x >= 0.0 ==> r - 0.005 <= x < r + 0.005
    ensures x < 0.0 ==> r - 0.005 < x <= r + 0.005
    ensures x >= 0.0 ==> r >= 0.0
  {
    if x >= 0.0 then
      var n := Round(x * 100.0);
      WholeCents(n);
      n as real / 100.0
    else
      var n := Round(-x * 100.0);
      WholeCents(-n);
      (-n) as real / 100.0
  }

  /** `n` cents, in dollars, is a whole number of cents. */
  lemma WholeCents(n: int)
    ensures (n as real / 100.0) * 100.0 == n as real
    ensures ((n as real / 100.0) * 100.0).Floor == n
  {
  }

  /** A price already in whole cents is printed unchanged. */
  lemma Fixed2OfWholeCents(c: int)
    ensures Fixed2(c as real / 100.0) == c as real / 100.0
  {
    var x := c as real / 100.0;
    if c >= 0 {
      assert x * 100.0 == c as real;
      RoundOfWhole(c);
    } else {
      assert -x * 100.0 == (-c) as real;
      RoundOfWhole(-c);
    }
  }

  /** `Math.round` keeps a whole number. */
  lemma RoundOfWhole(c: int)
    ensures Round(c as real) == c
  {
    var n := Round(c as real);
    assert n as real - 0.5 <= c as real < n as real + 0.5;
  }

  function Abs(x: real): real {
    if x < 0.0 then -x else x
  }

  // ---------------------------------------------------------------------
  // Percentages

  /** `normalizePercentages`: the first share rounded to a whole percent,
      the second what is left of 100; 50/50 when the total is 0. */
  function NormalizePercentages(team1Chance: real, team2Chance: real): (r: (int, int))
    ensures r.0 + r.1 == 100
    ensures team1Chance + team2Chance == 0.0 ==> r == (50, 50)
  {
    var total := team1Chance + team2Chance;
    if total == 0.0 then (50, 50)
    else
      var rounded1 := Round(team1Chance / total * 100.0);
      (rounded1, 100 - rounded1)
  }

  /** On a non-zero total both percentages are within half a percent of the
      exact shares, and for non-negative chances they lie within 0..100. */
  lemma NormalizePercentagesNearExact(team1Chance: real, team2Chance: real)
    requires team1Chance + team2Chance != 0.0
    ensures var total := team1Chance + team2Chance;
      var r := NormalizePercentages(team1Chance, team2Chance);
      Abs(r.0 as real - team1Chance / total * 100.0) <= 0.5 &&
      Abs(r.1 as real - team2Chance / total * 100.0) <= 0.5 &&
      (team1Chance >= 0.0 && team2Chance >= 0.0 ==> 0 <= r.0 <= 100 && 0 <= r.1 <= 100)
  {
    var total := team1Chance + team2Chance;
    SharesSumToOne(team1Chance, team2Chance);
    if team1Chance >= 0.0 && team2Chance >= 0.0 {
      QuotientBounds(team1Chance, total);
    }
  }

  /** `a / t + b / t == 1` for `t == a + b != 0`. */
  lemma SharesSumToOne(a: real, b: real)
    requires a + b != 0.0
    ensures a / (a + b) * 100.0 + b / (a + b) * 100.0 == 100.0
  {
    var t := a + b;
    assert a / t + b / t == (a + b) / t;
  }

  /** `0 <= a / t <= 1` for `0 <= a <= t`, `t > 0`. */
  lemma QuotientBounds(a: real, t: real)
    requires 0.0 <= a <= t && t > 0.0
    ensures 0.0 <= a / t * 100.0 <= 100.0
  {
    var q := a / t;
    assert t * q == a;
    assert t * (1.0 - q) == t - a;
    SignOfProduct(t, q);
    SignOfProduct(t, 1.0 - q);
  }

  // ---------------------------------------------------------------------
  // Chances

  /** The chance computation: each side's ask as a share of the two asks,
      or 0.5 each when they do not add up to anything positive. */
  function Chances(yesPrice: real, noPrice: real): (c: (real, real))
    ensures yesPrice + noPrice > 0.0 ==>
      c.0 + c.1 == 1.0 && c.0 * (yesPrice + noPrice) == yesPrice && c.1 * (yesPrice + noPrice) == noPrice
    ensures yesPrice + noPrice <= 0.0 ==> c == (0.5, 0.5)
  {
    var total := yesPrice + noPrice;
    if total > 0.0 then
      assert yesPrice / total + noPrice / total == total / total;
      (yesPrice / total, noPrice / total)
    else (0.5, 0.5)
  }

  // ---------------------------------------------------------------------
  // Dollars and contracts

  /** `convertDollarsToContracts`: as many whole contracts as the amount buys;
      0 at a price that is not positive. */
  function ConvertDollarsToContracts(dollars: real, price: real): (n: int)
    ensures price <= 0.0 ==> n == 0
    ensures price > 0.0 ==> n as real * price <= dollars < (n + 1) as real * price
  {
    if price <= 0.0 then 0
    else
      var n := (dollars / price).Floor;
      FloorTimesPrice(dollars, price, n);
      n
  }

  /** `n == floor(d / p)` brackets `d` between `n * p` and `(n + 1) * p`. */
  lemma FloorTimesPrice(d: real, p: real, n: int)
    requires p > 0.0 && n as real <= d / p < n as real + 1.0
    ensures n as real * p <= d < (n + 1) as real * p
  {
    var q := d / p;
    assert q * p == d;
    Bracket(q, p, n as real, (n + 1) as real);
    assert q * p < (n + 1) as real * p;
  }

  /** Multiplying `lo <= q < hi` through by `p > 0`. */
  lemma Bracket(q: real, p: real, lo: real, hi: real)
    requires p > 0.0 && lo <= q < hi
    ensures lo * p <= q * p < hi * p
  {
    ScaleMonotoneRight(p, lo, q);
    PositiveProduct(p, hi - q);
    Distribute(p, hi, q);
  }

  /** The product of two positive reals is positive. */
  lemma PositiveProduct(x: real, y: real)
    requires x > 0.0 && y > 0.0
    ensures x * y > 0.0
  {
  }

  /** Dividing both sides of `x * t <= y * t` by `t > 0`. */
  lemma CancelLe(x: real, y: real, t: real)
    requires t > 0.0 && x * t <= y * t
    ensures x <= y
  {
    assert t * (y - x) == y * t - x * t;
    SignOfProduct(t, y - x);
  }

  /** Dividing both sides of `x * t < y * t` by `t > 0`. */
  lemma CancelLt(x: real, y: real, t: real)
    requires t > 0.0 && x * t < y * t
    ensures x < y
  {
    assert t * (x - y) == x * t - y * t;
    SignOfProduct(t, x - y);
  }

  /** `convertContractsToDollars`: the cost of the contracts; 0 at a price
      that is not positive. */
  function ConvertContractsToDollars(contracts: real, price: real): (d: real)
    ensures price <= 0.0 ==> d == 0.0
    ensures price > 0.0 ==> d == contracts * price
    ensures price > 0.0 && contracts >= 0.0 ==> d >= 0.0
  {
    if price <= 0.0 then 0.0 else contracts * price
  }

  /** A whole number of contracts converted to dollars and back is the same
      number of contracts. */
  lemma ContractsRoundTrip(c: int, price: real)
    requires price > 0.0
    ensures ConvertDollarsToContracts(ConvertContractsToDollars(c as real, price), price) == c
  {
    var d := c as real * price;
    assert ConvertContractsToDollars(c as real, price) == d;
    var n := ConvertDollarsToContracts(d, price);
    CancelLe(n as real, c as real, price);
    CancelLt(c as real, (n + 1) as real, price);
  }

  /** Dollars converted to contracts and back never exceed the amount, and
      fall short of it by less than one contract's price. */
  lemma DollarsNeverOverAllocated(dollars: real, price: real)
    requires price > 0.0
    ensures var spent := ConvertContractsToDollars(ConvertDollarsToContracts(dollars, price) as real, price);
      spent <= dollars < spent + price
  {
    var n := ConvertDollarsToContracts(dollars, price);
    assert (n + 1) as real * price == n as real * price + price;
  }

  // ---------------------------------------------------------------------
  // The current position

  datatype InputMode = ContractsMode | DollarsMode

  /** `parseFloat(text) || 0`, with `None` for text that does not parse. */
  function OrZero(parsed: Option<real>): real {
    match parsed
    case Some(v) => v
    case None => 0.0
  }

  datatype CurrentPosition = CurrentPosition(shares: real, buyPrice: real, dollarAmount: real)

  /** `getCurrentPosition`, given the parsed form fields: in dollars mode the
      share count is derived from the amount, in contracts mode the amount
      from the share count. */
  function GetCurrentPosition(mode: InputMode, sharesField: Option<real>, dollarField: Option<real>,
                              buyPriceField: Option<real>): (p: CurrentPosition)
    ensures p.buyPrice == OrZero(buyPriceField)
    ensures mode == DollarsMode ==>
      p.dollarAmount == OrZero(dollarField) && p.shares == p.shares.Floor as real &&
      (p.buyPrice <= 0.0 ==> p.shares == 0.0) &&
      (p.buyPrice > 0.0 ==> p.shares * p.buyPrice <= p.dollarAmount < (p.shares + 1.0) * p.buyPrice)
    ensures mode == ContractsMode ==>
      p.shares == OrZero(sharesField) &&
      (p.buyPrice <= 0.0 ==> p.dollarAmount == 0.0) &&
      (p.buyPrice > 0.0 ==> p.dollarAmount == p.shares * p.buyPrice)
  {
    match mode
    case DollarsMode =>
      var dollars := OrZero(dollarField);
      var price := OrZero(buyPriceField);
      CurrentPosition(ConvertDollarsToContracts(dollars, price) as real, price, dollars)
    case ContractsMode =>
      var shares := OrZero(sharesField);
      var price := OrZero(buyPriceField);
      CurrentPosition(shares, price, ConvertContractsToDollars(shares, price))
  }

  /** In dollars mode an amount that does not buy one contract gives a
      position of 0 shares, which the calculator rejects before fetching. */
  lemma SmallDollarAmountIsRejected(url: string, side: string, dollars: real, price: real)
    requires url != "" && (Upper(side) == "YES" || Upper(side) == "NO")
    requires 0.0 <= dollars < price
    ensures var p := GetCurrentPosition(DollarsMode, None, Some(dollars), Some(price));
      p.shares == 0.0 &&
      ValidateInput(url, Position(side, p.shares, p.buyPrice)) == Some(InvalidShares)
  {
    var n := ConvertDollarsToContracts(dollars, price);
    NoWholeContract(n, dollars, price);
  }

  /** An amount below one price brackets to 0 contracts. */
  lemma NoWholeContract(n: int, d: real, p: real)
    requires p > 0.0 && 0.0 <= d < p
    requires n as real * p <= d < (n + 1) as real * p
    ensures n == 0
  {
    assert n as real * p < 1.0 * p;
    CancelLt(n as real, 1.0, p);
    assert 0.0 * p < (n + 1) as real * p;
    CancelLt(0.0, (n + 1) as real, p);
  }

  /** The position-size panel: cost, payout, profit if the side wins, and
      the displayed chance of the side. */
  datatype PositionSummary = PositionSummary(estimatedCost: real, payout: real, profit: real, chance: real)

  /** The position-size panel's figures: the payout is one dollar per
      contract, and the chance is the first team's for YES and the second
      team's otherwise, in percent (0 without team prices). */
  function Summarize(p: CurrentPosition, side: string, cp: Option<CurrentPrices>): (s: PositionSummary)
    ensures s.payout == p.shares && s.estimatedCost == p.shares * p.buyPrice
    ensures s.profit == p.shares * (1.0 - p.buyPrice)
    ensures cp.None? || cp.value.teams.None? ==> s.chance == 0.0
    ensures cp.Some? && cp.value.teams.Some? ==>
      s.chance == (if side == "YES" then cp.value.teams.value.team1Chance else cp.value.teams.value.team2Chance) * 100.0
  {
    var estimatedCost := p.shares * p.buyPrice;
    var payout := p.shares * 1.0;
    var chance :=
      if cp.None? || cp.value.teams.None? then 0.0
      else
        var tp := cp.value.teams.value;
        var c := if side == "YES" then tp.team1Chance else tp.team2Chance;
        if c != 0.0 then c * 100.0 else 0.0;
    PositionSummary(estimatedCost, payout, payout - estimatedCost, chance)
  }

  /** On Kalshi prices the chances shown for YES and for NO add up to 100
      percent, the 50/50 fallback included. */
  lemma DisplayedChancesSumTo100(p: CurrentPosition, market: KalshiMarket, teams: seq<string>)
    ensures var cp := Some(KalshiPrices(market, teams));
      Summarize(p, "YES", cp).chance + Summarize(p, "NO", cp).chance == 100.0
  {
  }

  // ---------------------------------------------------------------------
  // Teams

  /** The sub-titles of the markets in order, YES then NO for each market. */
  function Titles(ms: seq<KalshiMarket>): (ts: seq<string>)
    ensures |ts| == 2 * |ms|
    ensures forall i :: 0 <= i < |ms| ==> ts[2 * i] == ms[i].yesSubTitle && ts[2 * i + 1] == ms[i].noSubTitle
  {
    if |ms| == 0 then []
    else Titles(ms[..|ms| - 1]) + [ms[|ms| - 1].yesSubTitle, ms[|ms| - 1].noSubTitle]
  }

  /** One step of the de-duplication: push a non-empty title not yet listed. */
  function AddTitle(teams: seq<string>, t: string): seq<string> {
    if t != "" && t !in teams then teams + [t] else teams
  }

  /** The titles without the empty ones and without repeats, in order. */
  function Dedup(xs: seq<string>): (d: seq<string>)
    ensures |d| <= |xs|
    ensures forall t :: t in d ==> t != "" && t in xs
  {
    if |xs| == 0 then [] else AddTitle(Dedup(xs[..|xs| - 1]), xs[|xs| - 1])
  }

  /** The team list built from the proxy's `allMarkets`. */
  function Teams(ms: seq<KalshiMarket>): seq<string> {
    Dedup(Titles(ms))
  }

  /** The `forEach`/`push` loop that builds the team list. */
  method CollectTeams(markets: seq<KalshiMarket>) returns (teams: seq<string>)
    ensures teams == Teams(markets)
  {
    teams := [];
    var i := 0;
    while i < |markets|
      invariant 0 <= i <= |markets|
      invariant teams == Dedup(Titles(markets[..i]))
    {
      var m := markets[i];
      if m.yesSubTitle != "" && m.yesSubTitle !in teams {
        teams := teams + [m.yesSubTitle];
      }
      if m.noSubTitle != "" && m.noSubTitle !in teams {
        teams := teams + [m.noSubTitle];
      }
      TitlesStep(markets, i);
      DedupPair(Titles(markets[..i]), m.yesSubTitle, m.noSubTitle);
      i := i + 1;
    }
    assert markets[..i] == markets;
  }

  lemma TitlesStep(ms: seq<KalshiMarket>, i: nat)
    requires i < |ms|
    ensures Titles(ms[..i + 1]) == Titles(ms[..i]) + [ms[i].yesSubTitle, ms[i].noSubTitle]
  {
    assert ms[..i + 1][..i] == ms[..i];
  }

  lemma DedupPair(xs: seq<string>, a: string, b: string)
    ensures Dedup(xs + [a, b]) == AddTitle(AddTitle(Dedup(xs), a), b)
  {
    assert (xs + [a, b])[..|xs| + 1] == xs + [a];
    assert (xs + [a])[..|xs|] == xs;
  }

  /** No element of `s` appears twice. */
  predicate NoRepeats(s: seq<string>) {
    forall i, j :: 0 <= i < j < |s| ==> s[i] != s[j]
  }

  /** No team is listed twice. */
  lemma {:induction false} DedupNoDuplicates(xs: seq<string>)
    ensures NoRepeats(Dedup(xs))
  {
    if |xs| > 0 {
      var init := xs[..|xs| - 1];
      var d0 := Dedup(init);
      var t := xs[|xs| - 1];
      DedupNoDuplicates(init);
      assert Dedup(xs) == AddTitle(d0, t);
      if t != "" && t !in d0 {
        var d := d0 + [t];
        forall i, j | 0 <= i < j < |d|
          ensures d[i] != d[j]
        {
          assert d[i] == d0[i];
          if j == |d0| {
            assert d0[i] in d0;
          } else {
            assert d[j] == d0[j];
          }
        }
      }
    }
  }

  /** A title is listed exactly when it is non-empty and occurs. */
  lemma {:induction false} DedupMembers(xs: seq<string>, t: string)
    ensures t in Dedup(xs) <==> t != "" && t in xs
  {
    if |xs| > 0 {
      var init := xs[..|xs| - 1];
      DedupMembers(init, t);
      assert xs == init + [xs[|xs| - 1]];
    }
  }

  /** The list only grows at its end: the list of a prefix of the titles is
      a prefix of the whole list. */
  lemma {:induction false} DedupPrefix(xs: seq<string>, k: nat)
    requires k <= |xs|
    ensures Dedup(xs[..k]) <= Dedup(xs)
    decreases |xs|
  {
    if k < |xs| {
      var init := xs[..|xs| - 1];
      assert init[..k] == xs[..k];
      DedupPrefix(init, k);
    } else {
      assert xs[..k] == xs;
    }
  }

  /** First-appearance order: a title seen for the first time at index `k`
      is listed right after the teams seen before `k`. */
  lemma DedupFirstAppearance(xs: seq<string>, k: nat)
    requires k < |xs| && xs[k] != "" && xs[k] !in xs[..k]
    ensures var n := |Dedup(xs[..k])|;
      n < |Dedup(xs)| && Dedup(xs)[n] == xs[k]
  {
    DedupMembers(xs[..k], xs[k]);
    assert xs[..k + 1][..k] == xs[..k];
    DedupPrefix(xs, k + 1);
  }

  /** A title occurs among the markets' sub-titles exactly when some market
      carries it as its YES or NO sub-title. */
  lemma TitlesMembers(ms: seq<KalshiMarket>, t: string)
    ensures t in Titles(ms) <==> exists i :: 0 <= i < |ms| && (ms[i].yesSubTitle == t || ms[i].noSubTitle == t)
  {
    var ts := Titles(ms);
    if t in ts {
      var j :| 0 <= j < |ts| && ts[j] == t;
      var i := HalfOf(j);
      assert i < |ms|;
      assert ts[2 * i] == ms[i].yesSubTitle && ts[2 * i + 1] == ms[i].noSubTitle;
    }
    if exists i :: 0 <= i < |ms| && (ms[i].yesSubTitle == t || ms[i].noSubTitle == t) {
      var i :| 0 <= i < |ms| && (ms[i].yesSubTitle == t || ms[i].noSubTitle == t);
      assert ts[2 * i] == ms[i].yesSubTitle && ts[2 * i + 1] == ms[i].noSubTitle;
    }
  }

  /** The pair a title position belongs to. */
  lemma HalfOf(j: nat) returns (i: nat)
    ensures j == 2 * i || j == 2 * i + 1
  {
    i := j / 2;
  }

  /** The team list: every non-empty sub-title of every market, each once. */
  lemma TeamsListEverySubTitleOnce(ms: seq<KalshiMarket>, t: string)
    ensures t in Teams(ms) <==>
      t != "" && exists i :: 0 <= i < |ms| && (ms[i].yesSubTitle == t || ms[i].noSubTitle == t)
    ensures NoRepeats(Teams(ms))
  {
    DedupMembers(Titles(ms), t);
    TitlesMembers(ms, t);
    DedupNoDuplicates(Titles(ms));
  }

  // ---------------------------------------------------------------------
  // Current prices

  /** The team-specific part of the Kalshi prices object. */
  datatype TeamPrices = TeamPrices(
    team1: string,
    team2: string,
    team1Chance: real,
    team2Chance: real,
    team1YesPrice: real,
    team1NoPrice: real,
    team2YesPrice: real,
    team2NoPrice: real)

  /** The prices object the page keeps (in dollars). Polymarket's has no team part. */
  datatype CurrentPrices = CurrentPrices(
    yesAsk: real,
    yesBid: real,
    noAsk: real,
    noBid: real,
    yesSubTitle: string,
    noSubTitle: string,
    teams: Option<TeamPrices>)

  /** `availableTeams[k]`, or "" past the end. */
  function TeamAt(teams: seq<string>, k: nat): string {
    if k < |teams| then teams[k] else ""
  }

  /** The prices object built from the proxy's target market and the team
      list: the asks in dollars, the first team's YES and NO prices are the
      market's YES and NO asks and the second team's are the other way round,
      and the chances are the asks' shares. */
  function KalshiPrices(market: KalshiMarket, availableTeams: seq<string>): (cp: CurrentPrices)
    ensures cp.yesAsk * 100.0 == YesAskCents(market) && cp.noAsk * 100.0 == NoAskCents(market)
    ensures cp.yesBid * 100.0 == market.yesBid && cp.noBid * 100.0 == market.noBid
    ensures cp.teams.Some?
    ensures var tp := cp.teams.value;
      tp.team1YesPrice == cp.yesAsk && tp.team1NoPrice == cp.noAsk &&
      tp.team2YesPrice == cp.noAsk && tp.team2NoPrice == cp.yesAsk &&
      (tp.team1Chance, tp.team2Chance) == Chances(cp.yesAsk, cp.noAsk)
    ensures cp.teams.value.team1 == if |availableTeams| > 0 && availableTeams[0] != "" then availableTeams[0]
                                     else OrText(market.yesSubTitle, "Team 1")
    ensures cp.teams.value.team2 == if |availableTeams| > 1 && availableTeams[1] != "" then availableTeams[1]
                                     else OrText(market.noSubTitle, "Team 2")
  {
    var yesPrice := YesAskCents(market) / 100.0;
    var noPrice := NoAskCents(market) / 100.0;
    var chances := Chances(yesPrice, noPrice);
    CurrentPrices(
      yesPrice, market.yesBid / 100.0, noPrice, market.noBid / 100.0,
      OrText(market.yesSubTitle, "YES"), OrText(market.noSubTitle, "NO"),
      Some(TeamPrices(
        OrText(TeamAt(availableTeams, 0), OrText(market.yesSubTitle, "Team 1")),
        OrText(TeamAt(availableTeams, 1), OrText(market.noSubTitle, "Team 2")),
        chances.0, chances.1,
        yesPrice, noPrice, noPrice, yesPrice)))
  }

  /** The Polymarket prices object: bids equal asks, fixed sub-titles and no
      team prices. */
  function PolymarketPrices(yesPrice: real, noPrice: real): (cp: CurrentPrices)
    ensures cp.yesAsk == cp.yesBid == yesPrice && cp.noAsk == cp.noBid == noPrice
    ensures cp.teams.None?
  {
    CurrentPrices(yesPrice, yesPrice, noPrice, noPrice, "YES", "NO", None)
  }

  /** The price for a team and side: the team's own price when it is one of
      the two teams, the plain ask of the side otherwise. */
  function LookupPrice(cp: CurrentPrices, team: string, side: string): (price: real)
    ensures cp.teams.Some? && team == cp.teams.value.team1 ==>
      price == if side == "YES" then cp.teams.value.team1YesPrice else cp.teams.value.team1NoPrice
    ensures cp.teams.Some? && team != cp.teams.value.team1 && team == cp.teams.value.team2 ==>
      price == if side == "YES" then cp.teams.value.team2YesPrice else cp.teams.value.team2NoPrice
    ensures cp.teams.None? || (team != cp.teams.value.team1 && team != cp.teams.value.team2) ==>
      price == if side == "YES" then cp.yesAsk else cp.noAsk
  {
    match cp.teams
    case Some(tp) =>
      if team == tp.team1 then (if side == "YES" then tp.team1YesPrice else tp.team1NoPrice)
      else if team == tp.team2 then (if side == "YES" then tp.team2YesPrice else tp.team2NoPrice)
      else (if side == "YES" then cp.yesAsk else cp.noAsk)
    case None => if side == "YES" then cp.yesAsk else cp.noAsk
  }

  /** On Kalshi prices the first team is the listed first team (else the YES
      sub-title, else "Team 1"); its YES is the market's YES ask and its NO
      the NO ask, the second team's YES is the NO ask and its NO the YES ask,
      and any other name falls back to the ask of the side. The two chances
      are the asks' shares and sum to 1 when the asks are positive. */
  lemma KalshiLookup(market: KalshiMarket, teams: seq<string>, team: string, side: string)
    ensures var cp := KalshiPrices(market, teams);
      var tp := cp.teams.value;
      var yes, no := YesAskCents(market) / 100.0, NoAskCents(market) / 100.0;
      cp.yesAsk == yes && cp.noAsk == no &&
      tp.team1 == (if |teams| > 0 && teams[0] != "" then teams[0] else OrText(market.yesSubTitle, "Team 1")) &&
      (team == tp.team1 ==> LookupPrice(cp, team, side) == (if side == "YES" then yes else no)) &&
      (team != tp.team1 && team == tp.team2 ==> LookupPrice(cp, team, side) == (if side == "YES" then no else yes)) &&
      (team != tp.team1 && team != tp.team2 ==> LookupPrice(cp, team, side) == (if side == "YES" then yes else no)) &&
      (yes + no > 0.0 ==> tp.team1Chance + tp.team2Chance == 1.0)
  {
  }

  /** A team list built from the markets never holds the empty name, so the
      first team is the first listed one whenever any sub-title is set. */
  lemma KalshiFirstTeam(market: KalshiMarket, ms: seq<KalshiMarket>)
    requires |Teams(ms)| > 0
    ensures KalshiPrices(market, Teams(ms)).teams.value.team1 == Teams(ms)[0]
  {
    DedupMembers(Titles(ms), Teams(ms)[0]);
  }

  /** The buy price `updateBuyPrice` leaves: cleared without prices, team or
      side; otherwise the looked-up price printed to cents when it lies in
      (0, 1), and cleared when it does not. */
  function UpdatedBuyPrice(cp: Option<CurrentPrices>, team: string, side: string): (bp: Option<real>)
    ensures bp.Some? <==>
      cp.Some? && team != "" && side != "" && 0.0 < LookupPrice(cp.value, team, side) < 1.0
    ensures bp.Some? ==> bp.value == Fixed2(LookupPrice(cp.value, team, side))
  {
    if cp.None? || team == "" || side == "" then None
    else
      var price := LookupPrice(cp.value, team, side);
      if 0.0 < price < 1.0 then Some(Fixed2(price)) else None
  }

  /** `updateBuyPrice` sets a buy price exactly when there are prices, a team
      and a side and the looked-up price lies in (0, 1); the price it sets is
      that price to within half a cent, and lies within 0..1. */
  lemma UpdatedBuyPriceInRange(cp: Option<CurrentPrices>, team: string, side: string)
    ensures var bp := UpdatedBuyPrice(cp, team, side);
      bp.Some? ==>
        cp.Some? && team != "" && side != "" &&
        var price := LookupPrice(cp.value, team, side);
        0.0 < price < 1.0 && Abs(bp.value - price) <= 0.005 && 0.0 <= bp.value <= 1.0
    ensures cp.Some? && team != "" && side != "" && 0.0 < LookupPrice(cp.value, team, side) < 1.0 ==>
      UpdatedBuyPrice(cp, team, side) == Some(Fixed2(LookupPrice(cp.value, team, side)))
  {
    var bp := UpdatedBuyPrice(cp, team, side);
    if bp.Some? {
      var price := LookupPrice(cp.value, team, side);
      var r := Round(price * 100.0);
      assert r <= 100;
    }
  }

  /** `Math.abs(buyPrice - yesAsk) > 0.05` on refresh replaces the buy price
      by the new YES ask printed to cents; an unparsable buy price (NaN)
      never compares greater and is kept. */
  function RefreshedBuyPrice(bp: Option<real>, yesAsk: real): (after: Option<real>)
    ensures after != bp <==> bp.Some? && Abs(bp.value - yesAsk) > 0.05
    ensures after != bp ==> after == Some(Fixed2(yesAsk))
  {
    if bp.Some? && Abs(bp.value - yesAsk) > 0.05 then Some(Fixed2(yesAsk)) else bp
  }

  /** Refresh changes the buy price exactly when there is one and it is more
      than 5 cents from the new YES ask; afterwards it is within 5 cents of
      that ask, so a second refresh at the same ask changes nothing. */
  lemma RefreshResetsIff(bp: Option<real>, yesAsk: real)
    ensures RefreshedBuyPrice(bp, yesAsk) != bp <==> bp.Some? && Abs(bp.value - yesAsk) > 0.05
    ensures var after := RefreshedBuyPrice(bp, yesAsk);
      after == bp || (after == Some(Fixed2(yesAsk)) && Abs(after.value - yesAsk) <= 0.005)
    ensures RefreshedBuyPrice(RefreshedBuyPrice(bp, yesAsk), yesAsk) == RefreshedBuyPrice(bp, yesAsk)
  {
  }

  /** Refresh compares with the YES ask whatever the side: a NO position
      bought at the NO ask of a market whose asks are more than 5 cents apart
      is reset to the YES ask. */
  lemma RefreshIgnoresSide(market: KalshiMarket, teams: seq<string>)
    requires var cp := KalshiPrices(market, teams);
      0.0 < cp.noAsk < 1.0 && Abs(Fixed2(cp.noAsk) - cp.yesAsk) > 0.05
    ensures var cp := KalshiPrices(market, teams);
      var bought := UpdatedBuyPrice(Some(cp), cp.teams.value.team1, "NO");
      bought == Some(Fixed2(cp.noAsk)) &&
      RefreshedBuyPrice(bought, cp.yesAsk) == Some(Fixed2(cp.yesAsk))
  {
  }

  // ---------------------------------------------------------------------
  // Price warnings

  /** The warning under the buy-price field: shown when there are prices, a
      team and a side, and the typed price is more than 5 cents from the
      looked-up price. */
  function PriceWarning(cp: Option<CurrentPrices>, team: string, side: string, bp: Option<real>): (w: bool)
    ensures w <==>
      (cp.Some? && team != "" && side != "" && bp.Some? &&
       !(LookupPrice(cp.value, team, side) - 0.05 <= bp.value <= LookupPrice(cp.value, team, side) + 0.05))
  {
    cp.Some? && team != "" && side != "" && bp.Some? &&
    Abs(bp.value - LookupPrice(cp.value, team, side)) > 0.05
  }

  /** The red border of the buy-price field: the typed price is more than 5
      cents from the YES ask, whatever team and side are chosen. */
  function PriceBorderAlert(cp: Option<CurrentPrices>, bp: Option<real>): (alert: bool)
    ensures alert <==> cp.Some? && bp.Some? && !(cp.value.yesAsk - 0.05 <= bp.value <= cp.value.yesAsk + 0.05)
  {
    cp.Some? && bp.Some? && Abs(bp.value - cp.value.yesAsk) > 0.05
  }

  /** A buy price just filled in by `updateBuyPrice` never raises the warning. */
  lemma FreshBuyPriceNoWarning(cp: Option<CurrentPrices>, team: string, side: string)
    ensures !PriceWarning(cp, team, side, UpdatedBuyPrice(cp, team, side))
  {
    UpdatedBuyPriceInRange(cp, team, side);
  }

  /** The border and the warning can disagree: the NO price of the first team,
      just filled in, raises the border but not the warning when the asks
      are more than 5 cents apart. */
  lemma BorderDisagreesWithWarning(market: KalshiMarket, teams: seq<string>)
    requires var cp := KalshiPrices(market, teams);
      0.0 < cp.noAsk < 1.0 && Abs(Fixed2(cp.noAsk) - cp.yesAsk) > 0.05
    ensures var cp := KalshiPrices(market, teams);
      var team := cp.teams.value.team1;
      var bp := UpdatedBuyPrice(Some(cp), team, "NO");
      team != "" && !PriceWarning(Some(cp), team, "NO", bp) && PriceBorderAlert(Some(cp), bp)
  {
    var cp := KalshiPrices(market, teams);
    OrTextNonEmpty(TeamAt(teams, 0), OrText(market.yesSubTitle, "Team 1"));
    FreshBuyPriceNoWarning(Some(cp), cp.teams.value.team1, "NO");
  }

  lemma OrTextNonEmpty(s: string, fallback: string)
    requires fallback != "" || s != ""
    ensures OrText(s, fallback) != ""
  {
  }

  // ---------------------------------------------------------------------
  // The page's state

  /** The part of the page's state the price handlers change. `buyPrice` is
      the buy-price field as `parseFloat` reads it (`None` when empty). */
  class HomeState {
    var currentPrices: Option<CurrentPrices>
    var buyPrice: Option<real>
    var availableTeams: seq<string>

    constructor()
      ensures currentPrices.None? && buyPrice.None? && availableTeams == []
    {
      currentPrices := None;
      buyPrice := None;
      availableTeams := [];
    }

    /** The Kalshi branch of `fetchMarketData`: the team list from all
        markets, and the prices of the target market when there is one. */
    method LoadKalshiPrices(market: Option<KalshiMarket>, allMarkets: seq<KalshiMarket>)
      modifies this
      ensures availableTeams == Teams(allMarkets)
      ensures market.Some? ==> currentPrices == Some(KalshiPrices(market.value, Teams(allMarkets)))
      ensures market.None? ==> currentPrices == old(currentPrices)
      ensures buyPrice == old(buyPrice)
    {
      var teams := CollectTeams(allMarkets);
      if market.Some? {
        var listed := CollectTeams(allMarkets);
        currentPrices := Some(KalshiPrices(market.value, listed));
      }
      availableTeams := teams;
    }

    /** The Polymarket branch of `fetchMarketData`, given the first market's
        two outcome prices: the prices, and the YES price as buy price when
        it lies in (0, 1). */
    method LoadPolymarketPrices(yesPrice: real, noPrice: real)
      modifies this
      ensures currentPrices == Some(PolymarketPrices(yesPrice, noPrice))
      ensures buyPrice == if 0.0 < yesPrice < 1.0 then Some(Fixed2(yesPrice)) else old(buyPrice)
      ensures availableTeams == old(availableTeams)
    {
      currentPrices := Some(PolymarketPrices(yesPrice, noPrice));
      if yesPrice > 0.0 && yesPrice < 1.0 {
        buyPrice := Some(Fixed2(yesPrice));
      }
    }

    /** `updateBuyPrice`: look up the price of the chosen team and side. */
    method UpdateBuyPrice(team: string, side: string)
      modifies this
      ensures buyPrice == UpdatedBuyPrice(old(currentPrices), team, side)
      ensures currentPrices == old(currentPrices) && availableTeams == old(availableTeams)
    {
      if currentPrices.None? || team == "" || side == "" {
        buyPrice := None;
        return;
      }
      var cp := currentPrices.value;
      var price := 0.0;
      match cp.teams {
        case Some(tp) =>
          if team == tp.team1 {
            if side == "YES" { price := tp.team1YesPrice; } else { price := tp.team1NoPrice; }
          } else if team == tp.team2 {
            if side == "YES" { price := tp.team2YesPrice; } else { price := tp.team2NoPrice; }
          } else {
            if side == "YES" { price := cp.yesAsk; } else { price := cp.noAsk; }
          }
        case None =>
          if side == "YES" { price := cp.yesAsk; } else { price := cp.noAsk; }
      }
      if price > 0.0 && price < 1.0 {
        buyPrice := Some(Fixed2(price));
      } else {
        buyPrice := None;
      }
    }

    /** `refreshPrices`' Kalshi branch: new prices from the target market and
        the buy price reset to the YES ask when it is more than 5 cents off.
        The team list is left as it was. */
    method RefreshPrices(market: Option<KalshiMarket>, allMarkets: seq<KalshiMarket>)
      modifies this
      ensures market.Some? ==>
        currentPrices == Some(KalshiPrices(market.value, Teams(allMarkets))) &&
        buyPrice == RefreshedBuyPrice(old(buyPrice), currentPrices.value.yesAsk)
      ensures market.None? ==> currentPrices == old(currentPrices) && buyPrice == old(buyPrice)
      ensures availableTeams == old(availableTeams)
    {
      if market.Some? {
        var listed := CollectTeams(allMarkets);
        var newPrices := KalshiPrices(market.value, listed);
        currentPrices := Some(newPrices);
        if buyPrice.Some? && Abs(buyPrice.value - newPrices.yesAsk) > 0.05 {
          buyPrice := Some(Fixed2(newPrices.yesAsk));
        }
      }
    }
  }

  // ---------------------------------------------------------------------
  // The recommended strategy

  datatype Recommendation = RecommendExit | RecommendPerfectHedge

  /** The card marked as recommended: the perfect hedge when its locked profit
      beats the exit's profit strictly, the exit otherwise. The recommended
      card's headline profit is at least the other one's. */
  function Recommend(s: StrategySet): (r: Recommendation)
    ensures r == RecommendPerfectHedge ==> s.perfectHedge.guaranteedProfit > s.exit.profit
    ensures r == RecommendExit ==> s.exit.profit >= s.perfectHedge.guaranteedProfit
  {
    if s.perfectHedge.guaranteedProfit > s.exit.profit then RecommendPerfectHedge else RecommendExit
  }

  /** The headline profit of the recommended card. */
  function RecommendedProfit(s: StrategySet): real {
    match Recommend(s)
    case RecommendPerfectHedge => s.perfectHedge.guaranteedProfit
    case RecommendExit => s.exit.profit
  }

  /** The recommendation picks the better of the two headline profits, and
      the exit on a tie. */
  lemma RecommendationIsBest(s: StrategySet)
    ensures RecommendedProfit(s) >= s.exit.profit
    ensures RecommendedProfit(s) >= s.perfectHedge.guaranteedProfit
    ensures RecommendedProfit(s) == s.exit.profit || RecommendedProfit(s) == s.perfectHedge.guaranteedProfit
    ensures s.perfectHedge.guaranteedProfit == s.exit.profit ==> Recommend(s) == RecommendExit
  {
  }
}
