/** The `/api/kalshi` proxy route: it validates the query, picks the target
    market of an event and the opposite market used for hedging, and attaches
    the estimated fee schedule. The two upstream requests are inputs here. */
module KalshiProxy {
  import opened Wrappers

  /** One market record of the Kalshi trading API. Prices are in cents. An
      absent field is its falsy default (`""` or `0`), which is exactly how the
      `===`, `>` and `||` tests of the source treat a missing field. */
  datatype KalshiMarket = KalshiMarket(
    ticker: string,
    yesSubTitle: string,
    noSubTitle: string,
    yesAsk: real,
    noAsk: real,
    yesPrice: real,
    noPrice: real,
    yesBid: real,
    noBid: real,
    lastPrice: real)

  /** A fee schedule: fractions of trade notional. */
  datatype FeeSchedule = FeeSchedule(makerFee: real, takerFee: real, transactionFee: real, source: string)

  /** The fee information the proxy always attaches (its `note` is prose). */
  const EstimatedFees: FeeSchedule := FeeSchedule(0.02, 0.05, 0.01, "estimated")

  /** The market names the selected team on its YES or NO side. */
  predicate MatchesTeam(m: KalshiMarket, team: string) {
    m.yesSubTitle == team || m.noSubTitle == team
  }

  /** Some ask strictly between 0 and 100 cents, i.e. the market is not settled. */
  predicate HasRealisticPricing(m: KalshiMarket) {
    (0.0 < m.yesAsk < 100.0) || (0.0 < m.noAsk < 100.0)
  }

  /** A team is given and some market names it. */
  predicate SomeMatchesTeam(markets: seq<KalshiMarket>, team: string) {
    team != "" && exists i :: 0 <= i < |markets| && MatchesTeam(markets[i], team)
  }

  /** Some market has realistic pricing. */
  predicate SomeRealistic(markets: seq<KalshiMarket>) {
    exists i :: 0 <= i < |markets| && HasRealisticPricing(markets[i])
  }

  /** Which market the route quotes: the first one naming `team` (when a team
      is given and one does), else the first with realistic pricing, else the
      first one. */
  method SelectTarget(markets: seq<KalshiMarket>, team: string) returns (t: nat)
    requires |markets| > 0
    ensures t < |markets|
    ensures SomeMatchesTeam(markets, team) ==>
      MatchesTeam(markets[t], team) && forall j :: 0 <= j < t ==> !MatchesTeam(markets[j], team)
    ensures !SomeMatchesTeam(markets, team) && SomeRealistic(markets) ==>
      HasRealisticPricing(markets[t]) && forall j :: 0 <= j < t ==> !HasRealisticPricing(markets[j])
    ensures !SomeMatchesTeam(markets, team) && !SomeRealistic(markets) ==> t == 0
  {
    var found := false;
    t := 0;
    if team != "" {
      var i := 0;
      while i < |markets|
        invariant 0 <= i <= |markets|
        invariant forall j :: 0 <= j < i ==> !MatchesTeam(markets[j], team)
      {
        if MatchesTeam(markets[i], team) {
          t, found := i, true;
          break;
        }
        i := i + 1;
      }
    }
    if !found {
      var i := 0;
      while i < |markets|
        invariant 0 <= i <= |markets|
        invariant forall j :: 0 <= j < i ==> !HasRealisticPricing(markets[j])
      {
        if HasRealisticPricing(markets[i]) {
          t, found := i, true;
          break;
        }
        i := i + 1;
      }
    }
    if !found {
      t := 0;
    }
  }

  /** The hedge market: the first market whose ticker differs from the
      target's, looked for only when there is more than one market. */
  method FindOpposite(markets: seq<KalshiMarket>, target: KalshiMarket) returns (o: Option<nat>)
    ensures o.Some? ==> o.value < |markets| && markets[o.value].ticker != target.ticker
    ensures o.Some? ==> forall j :: 0 <= j < o.value ==> markets[j].ticker == target.ticker
    ensures o.None? <==> |markets| <= 1 || forall j :: 0 <= j < |markets| ==> markets[j].ticker == target.ticker
  {
    o := None;
    if |markets| > 1 {
      var i := 0;
      while i < |markets|
        invariant 0 <= i <= |markets|
        invariant forall j :: 0 <= j < i ==> markets[j].ticker == target.ticker
      {
        if markets[i].ticker != target.ticker {
          o := Some(i);
          return;
        }
        i := i + 1;
      }
    }
  }

  /** Why the route answered with an error. */
  datatype RouteError = MissingTicker | UpstreamError | NoMarkets

  /** The body of a successful answer. */
  datatype ProxyBody = ProxyBody(
    market: KalshiMarket,
    oppositeMarket: Option<KalshiMarket>,
    allMarkets: seq<KalshiMarket>,
    fees: FeeSchedule)

  datatype Response = Error(status: int, reason: RouteError) | Ok(status: int, body: ProxyBody)

  /** The route handler. `ticker` and `team` are the query parameters (absent
      is `""`); `upstream` is what the event and markets requests produced: the
      list of markets, or the HTTP status of the first request that failed (500
      for a thrown error). */
  method Handle(ticker: string, team: string, upstream: Result<seq<KalshiMarket>, int>)
    returns (resp: Response)
    ensures ticker == "" ==> resp == Error(400, MissingTicker)
    ensures ticker != "" && upstream.Failure? ==> resp == Error(upstream.error, UpstreamError)
    ensures ticker != "" && upstream.Success? && upstream.value == [] ==> resp == Error(404, NoMarkets)
    ensures resp.Ok? <==> ticker != "" && upstream.Success? && upstream.value != []
    ensures resp.Ok? ==>
      resp.status == 200 && resp.body.allMarkets == upstream.value &&
      resp.body.fees == EstimatedFees && resp.body.market in upstream.value
    ensures resp.Ok? && SomeMatchesTeam(upstream.value, team) ==>
      exists t :: 0 <= t < |upstream.value| && resp.body.market == upstream.value[t] &&
        MatchesTeam(upstream.value[t], team) &&
        forall j :: 0 <= j < t ==> !MatchesTeam(upstream.value[j], team)
    ensures resp.Ok? && !SomeMatchesTeam(upstream.value, team) && SomeRealistic(upstream.value) ==>
      exists t :: 0 <= t < |upstream.value| && resp.body.market == upstream.value[t] &&
        HasRealisticPricing(upstream.value[t]) &&
        forall j :: 0 <= j < t ==> !HasRealisticPricing(upstream.value[j])
    ensures resp.Ok? && !SomeMatchesTeam(upstream.value, team) && !SomeRealistic(upstream.value) ==>
      resp.body.market == upstream.value[0]
    ensures resp.Ok? && resp.body.oppositeMarket.Some? ==>
      exists o :: 0 <= o < |upstream.value| && resp.body.oppositeMarket.value == upstream.value[o] &&
        upstream.value[o].ticker != resp.body.market.ticker &&
        forall j :: 0 <= j < o ==> upstream.value[j].ticker == resp.body.market.ticker
    ensures resp.Ok? ==>
      (resp.body.oppositeMarket.None? <==>
        |upstream.value| == 1 ||
        forall j :: 0 <= j < |upstream.value| ==> upstream.value[j].ticker == resp.body.market.ticker)
  {
    if ticker == "" {
      return Error(400, MissingTicker);
    }
    if upstream.Failure? {
      return Error(upstream.error, UpstreamError);
    }
    var markets := upstream.value;
    if |markets| == 0 {
      return Error(404, NoMarkets);
    }
    var t := SelectTarget(markets, team);
    var target := markets[t];
    var o := FindOpposite(markets, target);
    var opposite := if o.Some? then Some(markets[o.value]) else None;
    resp := Ok(200, ProxyBody(target, opposite, markets, EstimatedFees));
  }
}
