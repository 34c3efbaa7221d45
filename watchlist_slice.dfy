/** The watchlist slice: the user's single watchlist, fetched wholesale and
    patched by adding a coin (append) and removing one (filter by id). */
module WatchlistSlice {
  import opened Common

  datatype CoinMarketData = CoinMarketData(
    id: string,
    name: string,
    symbol: string,
    image: string,
    currentPrice: real)

  datatype Watchlist = Watchlist(id: int, userId: int, coins: seq<CoinMarketData>)

  /** The three thunks of the slice. */
  datatype Operation =
    | FetchUserWatchlist
    | AddCoinToWatchlist
    | RemoveCoinFromWatchlist

  /** The actions the slice's reducer receives. The removal thunk fulfils with
      the coin id it was given. */
  datatype Action =
    | Pending(op: Operation)
    | Rejected(op: Operation, message: string)
    | FetchUserWatchlistFulfilled(fetched: Watchlist)
    | AddCoinToWatchlistFulfilled(added: CoinMarketData)
    | RemoveCoinFromWatchlistFulfilled(coinId: string)
    | ClearWatchlistState

  /** `coins.filter(coin => coin.id !== coinId)` */
  function RemoveById(coins: seq<CoinMarketData>, coinId: string): (r: seq<CoinMarketData>)
    ensures |r| <= |coins|
  {
    if coins == [] then []
    else if coins[0].id == coinId then RemoveById(coins[1..], coinId)
    else [coins[0]] + RemoveById(coins[1..], coinId)
  }

  /** Removing an id no coin carries leaves the list as it is. */
  lemma {:induction false} RemoveByIdAbsent(coins: seq<CoinMarketData>, coinId: string)
    requires forall i :: 0 <= i < |coins| ==> coins[i].id != coinId
    ensures RemoveById(coins, coinId) == coins
  {
    if coins != [] {
      RemoveByIdAbsent(coins[1..], coinId);
      assert coins == [coins[0]] + coins[1..];
    }
  }

  /** Exactly the coins with another id are kept, each as often as it was on
      the list, and no coin with the removed id is left. */
  lemma {:induction false} RemoveByIdContents(coins: seq<CoinMarketData>, coinId: string)
    ensures forall c :: c in RemoveById(coins, coinId) <==> c in coins && c.id != coinId
    ensures forall c: CoinMarketData :: c.id != coinId ==>
      multiset(RemoveById(coins, coinId))[c] == multiset(coins)[c]
  {
    if coins != [] {
      RemoveByIdContents(coins[1..], coinId);
      assert coins == [coins[0]] + coins[1..];
    }
  }

  /** Filtering a list with a given first coin. */
  lemma RemoveByIdCons(c: CoinMarketData, rest: seq<CoinMarketData>, coinId: string)
    ensures RemoveById([c] + rest, coinId) ==
      (if c.id == coinId then [] else [c]) + RemoveById(rest, coinId)
  {
    var cs := [c] + rest;
    assert cs[0] == c && cs[1..] == rest;
  }

  /** One step of the induction below: a coin put in front of both sides. */
  lemma RemoveByIdConcatStep(c: CoinMarketData, rest: seq<CoinMarketData>, b: seq<CoinMarketData>, coinId: string)
    requires RemoveById(rest + b, coinId) == RemoveById(rest, coinId) + RemoveById(b, coinId)
    ensures RemoveById([c] + rest + b, coinId) == RemoveById([c] + rest, coinId) + RemoveById(b, coinId)
  {
    var head: seq<CoinMarketData> := if c.id == coinId then [] else [c];
    var kept, keptB := RemoveById(rest, coinId), RemoveById(b, coinId);
    calc {
      RemoveById([c] + rest + b, coinId);
      { assert [c] + rest + b == [c] + (rest + b); }
      RemoveById([c] + (rest + b), coinId);
      { RemoveByIdCons(c, rest + b, coinId); }
      head + (kept + keptB);
      { assert head + (kept + keptB) == (head + kept) + keptB; }
      (head + kept) + keptB;
      { RemoveByIdCons(c, rest, coinId); }
      RemoveById([c] + rest, coinId) + keptB;
    }
  }

  /** Filtering works piece by piece, so the kept coins stay in their
      original order. */
  lemma {:induction false} RemoveByIdConcat(a: seq<CoinMarketData>, b: seq<CoinMarketData>, coinId: string)
    ensures RemoveById(a + b, coinId) == RemoveById(a, coinId) + RemoveById(b, coinId)
  {
    if a == [] {
      assert a + b == b;
    } else {
      RemoveByIdConcat(a[1..], b, coinId);
      RemoveByIdConcatStep(a[0], a[1..], b, coinId);
      assert [a[0]] + a[1..] == a;
    }
  }

  /** Removing the same coin twice is the same as removing it once. */
  lemma RemoveByIdIdempotent(coins: seq<CoinMarketData>, coinId: string)
    ensures RemoveById(RemoveById(coins, coinId), coinId) == RemoveById(coins, coinId)
  {
  }

  /** Removing a coin right after it was appended undoes the append when the
      coin was not on the list before, and otherwise also drops the earlier
      entries with its id. */
  lemma AddThenRemove(coins: seq<CoinMarketData>, added: CoinMarketData)
    ensures RemoveById(coins + [added], added.id) == RemoveById(coins, added.id)
    ensures (forall i :: 0 <= i < |coins| ==> coins[i].id != added.id) ==>
      RemoveById(coins + [added], added.id) == coins
  {
    RemoveByIdConcat(coins, [added], added.id);
    assert RemoveById([added], added.id) == [] by {
      assert [added][1..] == [];
    }
    if forall i :: 0 <= i < |coins| ==> coins[i].id != added.id {
      RemoveByIdAbsent(coins, added.id);
    }
  }

  /** The slice state (`WatchlistState` in the source), updated in place by
      the reducer. */
  class WatchlistState {
    var watchlist: Option<Watchlist>
    var loading: bool
    var error: Option<string>

    /** `initialState` */
    constructor ()
      ensures watchlist == None && !loading && error == None
    {
      watchlist := None;
      loading := false;
      error := None;
    }

    /** The slice's reducer: `clearWatchlistState` and the cases of
        `extraReducers`. The removal thunk has no pending case. */
    method Reduce(action: Action)
      modifies this
      ensures action.Pending? && action.op != RemoveCoinFromWatchlist ==>
        loading && error == None && watchlist == old(watchlist)
      ensures action.Pending? && action.op == RemoveCoinFromWatchlist ==>
        loading == old(loading) && error == old(error) && watchlist == old(watchlist)
      ensures action.Rejected? ==>
        !loading && error == Some(action.message) && watchlist == old(watchlist)
      ensures action.FetchUserWatchlistFulfilled? ==>
        !loading && error == old(error) && watchlist == Some(action.fetched)
      ensures action.AddCoinToWatchlistFulfilled? ==>
        && !loading && error == old(error)
        && (old(watchlist).None? ==> watchlist == None)
        && (old(watchlist).Some? ==>
              watchlist == Some(old(watchlist).value.(coins := old(watchlist).value.coins + [action.added])))
      ensures action.RemoveCoinFromWatchlistFulfilled? ==>
        && !loading && error == old(error)
        && (old(watchlist).None? ==> watchlist == None)
        && (old(watchlist).Some? ==>
              watchlist == Some(old(watchlist).value.(coins := RemoveById(old(watchlist).value.coins, action.coinId))))
      ensures action.ClearWatchlistState? ==>
        watchlist == None && !loading && error == None
    {
      match action
      case Pending(op) =>
        if op != RemoveCoinFromWatchlist {
          loading := true;
          error := None;
        }
      case Rejected(_, message) =>
        loading := false;
        error := Some(message);
      case FetchUserWatchlistFulfilled(fetched) =>
        loading := false;
        watchlist := Some(fetched);
      case AddCoinToWatchlistFulfilled(added) =>
        loading := false;
        if watchlist.Some? {
          watchlist := Some(watchlist.value.(coins := watchlist.value.coins + [added]));
        }
      case RemoveCoinFromWatchlistFulfilled(coinId) =>
        loading := false;
        if watchlist.Some? {
          watchlist := Some(watchlist.value.(coins := RemoveById(watchlist.value.coins, coinId)));
        }
      case ClearWatchlistState =>
        watchlist := None;
        loading := false;
        error := None;
    }
  }
}
