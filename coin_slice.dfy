/** The market-data slice: the paged coin list with the full request
    lifecycle, and six single-value caches (chart, details, coin by id, search
    result, top 50, trending) that only a successful request overwrites. */
module CoinSlice {
  import opened Common

  datatype CoinMarketData = CoinMarketData(
    id: string,
    name: string,
    symbol: string,
    price: real,
    marketCap: real)

  datatype CoinImage = CoinImage(small: string, thumb: Option<string>, large: Option<string>)

  datatype CoinDetails = CoinDetails(
    id: string,
    name: string,
    symbol: string,
    image: CoinImage,
    currentPriceUsd: real,
    priceChangePercentage24h: real,
    marketCapChange24h: real)

  /** What a thunk of this slice rejects with: the whole error response body
      when a response arrived with a truthy body, otherwise the operation's
      default text. The slice stores it in `error` as it is. */
  datatype CoinFailure = ResponseBody(body: Json) | Text(text: string)

  /** The seven thunks of the slice. */
  datatype Operation =
    | FetchCoins
    | FetchMarketChart
    | FetchCoinDetails
    | FetchCoinById
    | SearchCoin
    | FetchTop50Coins
    | FetchTrendingCoins

  /** The actions the slice's reducer receives. */
  datatype Action =
    | Pending(op: Operation)
    | Rejected(op: Operation, failure: CoinFailure)
    | FetchCoinsFulfilled(list: seq<CoinMarketData>)
    | FetchMarketChartFulfilled(chart: Json)
    | FetchCoinDetailsFulfilled(coinDetails: CoinDetails)
    | FetchCoinByIdFulfilled(coin: CoinMarketData)
    | SearchCoinFulfilled(result: Json)
    | FetchTop50CoinsFulfilled(top: Json)
    | FetchTrendingCoinsFulfilled(trend: Json)

  function DefaultMessage(op: Operation): string
  {
    match op
    case FetchCoins => "Failed to fetch coins"
    case FetchMarketChart => "Failed to fetch chart data"
    case FetchCoinDetails => "Failed to fetch coin details"
    case FetchCoinById => "Failed to fetch coin"
    case SearchCoin => "Search failed"
    case FetchTop50Coins => "Failed to fetch top 50 coins"
    case FetchTrendingCoins => "Failed to fetch trending coins"
  }

  /** `err.response?.data || default`: unlike the other slices, the body is
      passed on whole, so a server message is never extracted from it. A
      falsy body (an empty one arrives as `""`) gives way to the default. */
  function RejectionValue(op: Operation, err: HttpError): (r: CoinFailure)
    ensures r.ResponseBody? <==> err.data.Some? && JsonTruthy(err.data.value)
    ensures r.ResponseBody? ==> r.body == err.data.value
    ensures r.Text? ==> r.text == DefaultMessage(op) && r.text != ""
  {
    match err.data
    case Some(body) => if JsonTruthy(body) then ResponseBody(body) else Text(DefaultMessage(op))
    case None => Text(DefaultMessage(op))
  }

  /** A snapshot of every field of the slice. */
  datatype CoinFields = CoinFields(
    coins: seq<CoinMarketData>,
    selectedCoin: Option<CoinMarketData>,
    chartData: Json,
    details: Option<CoinDetails>,
    topCoins: Json,
    trending: Json,
    searchResult: Json,
    loading: bool,
    error: Option<CoinFailure>)

  /** The slice state (`CoinState` in the source), updated in place by the
      reducer. Fields the source types as `any` hold JSON, `JNull` at first. */
  class CoinState {
    var coins: seq<CoinMarketData>
    var selectedCoin: Option<CoinMarketData>
    var chartData: Json
    var details: Option<CoinDetails>
    var topCoins: Json
    var trending: Json
    var searchResult: Json
    var loading: bool
    var error: Option<CoinFailure>

    function Fields(): CoinFields
      reads this
    {
      CoinFields(coins, selectedCoin, chartData, details, topCoins, trending, searchResult, loading, error)
    }

    /** `initialState` */
    constructor ()
      ensures Fields() == CoinFields([], None, JNull, None, JNull, JNull, JNull, false, None)
    {
      coins := [];
      selectedCoin := None;
      chartData := JNull;
      details := None;
      topCoins := JNull;
      trending := JNull;
      searchResult := JNull;
      loading := false;
      error := None;
    }

    /** The slice's reducer (`extraReducers`). Only the list fetch has pending
        and rejected cases; a success of any other thunk writes its one field
        and touches neither `loading` nor `error`. */
    method Reduce(action: Action)
      modifies this
      ensures action.Pending? && action.op == FetchCoins ==>
        Fields() == old(Fields()).(loading := true, error := None)
      ensures action.Rejected? && action.op == FetchCoins ==>
        Fields() == old(Fields()).(loading := false, error := Some(action.failure))
      ensures (action.Pending? || action.Rejected?) && action.op != FetchCoins ==>
        Fields() == old(Fields())
      ensures action.FetchCoinsFulfilled? ==>
        Fields() == old(Fields()).(loading := false, coins := action.list)
      ensures action.FetchMarketChartFulfilled? ==>
        Fields() == old(Fields()).(chartData := action.chart)
      ensures action.FetchCoinDetailsFulfilled? ==>
        Fields() == old(Fields()).(details := Some(action.coinDetails))
      ensures action.FetchCoinByIdFulfilled? ==>
        Fields() == old(Fields()).(selectedCoin := Some(action.coin))
      ensures action.SearchCoinFulfilled? ==>
        Fields() == old(Fields()).(searchResult := action.result)
      ensures action.FetchTop50CoinsFulfilled? ==>
        Fields() == old(Fields()).(topCoins := action.top)
      ensures action.FetchTrendingCoinsFulfilled? ==>
        Fields() == old(Fields()).(trending := action.trend)
    {
      match action
      case Pending(op) =>
        if op == FetchCoins {
          loading := true;
          error := None;
        }
      case Rejected(op, failure) =>
        if op == FetchCoins {
          loading := false;
          error := Some(failure);
        }
      case FetchCoinsFulfilled(list) =>
        loading := false;
        coins := list;
      case FetchMarketChartFulfilled(chart) =>
        chartData := chart;
      case FetchCoinDetailsFulfilled(coinDetails) =>
        details := Some(coinDetails);
      case FetchCoinByIdFulfilled(coin) =>
        selectedCoin := Some(coin);
      case SearchCoinFulfilled(result) =>
        searchResult := result;
      case FetchTop50CoinsFulfilled(top) =>
        topCoins := top;
      case FetchTrendingCoinsFulfilled(trend) =>
        trending := trend;
    }
  }
}
