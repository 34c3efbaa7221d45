/** The asset slice: the user's holdings and the one holding a screen has
    selected (by id, or by coin for the signed-in user). */
module AssetSlice {
  import opened Common

  datatype Coin = Coin(id: string, symbol: string, name: string, image: string, currentPrice: real)

  datatype User = User(id: int, fullName: string, email: string)

  datatype AssetModel = AssetModel(
    id: int,
    coinId: string,
    quantity: real,
    buyPrice: real,
    user: User,
    coin: Coin)

  /** The three thunks of the slice. */
  datatype Operation = FetchAllAssets | FetchAssetById | FetchAssetByCoinAndUser

  /** The actions the slice's reducer receives. */
  datatype Action =
    | Pending(op: Operation)
    | Rejected(op: Operation, message: string)
    | FetchAllAssetsFulfilled(all: seq<AssetModel>)
    | FetchAssetByIdFulfilled(byId: AssetModel)
    | FetchAssetByCoinAndUserFulfilled(byCoin: AssetModel)
    | ClearSelectedAsset

  /** The fixed message a thunk falls back to when the server sent none:
      a thunk rejects with `MessageOr(err, DefaultMessage(op))`. */
  function DefaultMessage(op: Operation): string
  {
    match op
    case FetchAllAssets => "Failed to fetch assets"
    case FetchAssetById => "Failed to fetch asset by ID"
    case FetchAssetByCoinAndUser => "Failed to fetch user asset for coin"
  }

  /** The slice state (`AssetState` in the source), updated in place by the
      reducer. */
  class AssetState {
    var assets: seq<AssetModel>
    var selectedAsset: Option<AssetModel>
    var loading: bool
    var error: Option<string>

    /** `initialState` */
    constructor ()
      ensures assets == [] && selectedAsset == None && !loading && error == None
    {
      assets := [];
      selectedAsset := None;
      loading := false;
      error := None;
    }

    /** The slice's reducer: `clearSelectedAsset` and the cases of
        `extraReducers`. */
    method Reduce(action: Action)
      modifies this
      ensures action.Pending? ==>
        && loading && error == None
        && assets == old(assets) && selectedAsset == old(selectedAsset)
      ensures action.Rejected? ==>
        && !loading && error == Some(action.message)
        && assets == old(assets) && selectedAsset == old(selectedAsset)
      ensures action.FetchAllAssetsFulfilled? ==>
        && !loading && error == old(error)
        && assets == action.all && selectedAsset == old(selectedAsset)
      ensures action.FetchAssetByIdFulfilled? ==>
        && !loading && error == old(error)
        && selectedAsset == Some(action.byId) && assets == old(assets)
      ensures action.FetchAssetByCoinAndUserFulfilled? ==>
        && !loading && error == old(error)
        && selectedAsset == Some(action.byCoin) && assets == old(assets)
      ensures action.ClearSelectedAsset? ==>
        && selectedAsset == None && error == None
        && assets == old(assets) && loading == old(loading)
    {
      match action
      case Pending(_) =>
        loading := true;
        error := None;
      case Rejected(_, message) =>
        loading := false;
        error := Some(message);
      case FetchAllAssetsFulfilled(all) =>
        loading := false;
        assets := all;
      case FetchAssetByIdFulfilled(byId) =>
        loading := false;
        selectedAsset := Some(byId);
      case FetchAssetByCoinAndUserFulfilled(byCoin) =>
        loading := false;
        selectedAsset := Some(byCoin);
      case ClearSelectedAsset =>
        selectedAsset := None;
        error := None;
    }
  }
}
