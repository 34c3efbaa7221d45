/** The order slice: the order just placed or looked up, and the user's order
    history, optionally filtered by order type and asset symbol. */
module OrderSlice {
  import opened Common
  import opened UrlEncoding

  datatype OrderType = Buy | Sell

  /** The nested `coin` object is kept as the JSON the server sent. */
  datatype OrderItem = OrderItem(id: int, quantity: real, buyPrice: real, sellPrice: real, coin: Json)

  datatype Order = Order(
    id: int,
    orderType: OrderType,
    price: real,
    timestamp: string,
    orderStatus: string,
    user: Json,
    orderItem: OrderItem)

  /** The three thunks of the slice. */
  datatype Operation = PlaceOrder | FetchOrderById | FetchAllOrders

  /** The actions the slice's reducer receives. */
  datatype Action =
    | Pending(op: Operation)
    | Rejected(op: Operation, message: string)
    | PlaceOrderFulfilled(placed: Order)
    | FetchOrderByIdFulfilled(fetched: Order)
    | FetchAllOrdersFulfilled(all: seq<Order>)
    | ClearCurrentOrder

  /** The fixed message a thunk falls back to when the server sent none:
      a thunk rejects with `MessageOr(err, DefaultMessage(op))`. */
  function DefaultMessage(op: Operation): string
  {
    match op
    case PlaceOrder => "Failed to place order"
    case FetchOrderById => "Failed to fetch order"
    case FetchAllOrders => "Failed to fetch orders"
  }

  /** The query of the history request: `order_type` when an order type is
      given, then `assetSymbol` when a symbol is given, each only when its
      argument is a non-empty string. */
  method FetchAllOrdersParams(orderType: Option<string>, assetSymbol: Option<string>)
    returns (params: seq<QueryParam>)
    ensures |params| == (if Truthy(orderType) then 1 else 0) + (if Truthy(assetSymbol) then 1 else 0)
    ensures forall i :: 0 <= i < |params| ==>
      params[i].name == "order_type" || params[i].name == "assetSymbol"
    ensures (exists i :: 0 <= i < |params| && params[i].name == "order_type") <==> Truthy(orderType)
    ensures (exists i :: 0 <= i < |params| && params[i].name == "assetSymbol") <==> Truthy(assetSymbol)
    ensures forall i :: 0 <= i < |params| && params[i].name == "order_type" ==>
      i == 0 && params[i].value == orderType.value
    ensures forall i :: 0 <= i < |params| && params[i].name == "assetSymbol" ==>
      i == |params| - 1 && params[i].value == assetSymbol.value
  {
    params := [];
    if Truthy(orderType) {
      params := params + [QueryParam("order_type", orderType.value)];
    }
    if Truthy(assetSymbol) {
      params := params + [QueryParam("assetSymbol", assetSymbol.value)];
    }
    assert |"order_type"| != |"assetSymbol"|;
    if Truthy(orderType) {
      assert params[0].name == "order_type";
    }
    if Truthy(assetSymbol) {
      assert params[|params| - 1].name == "assetSymbol";
    }
  }

  /** The request path of the history fetch; the `?` is there even when no
      filter is given. */
  function FetchAllOrdersPath(params: seq<QueryParam>): (path: string)
    ensures params == [] ==> path == "/api/orders/all?"
    ensures |path| >= 16 && path[..16] == "/api/orders/all?"
  {
    "/api/orders/all?" + Serialize(params)
  }

  /** The history request's path carries exactly the filters it was built
      from: reading the query after the `?` gives back the parameter list,
      names, values and order. */
  lemma FetchAllOrdersPathRoundTrip(params: seq<QueryParam>)
    ensures ParseQuery(FetchAllOrdersPath(params)[16..]) == Some(params)
  {
    assert FetchAllOrdersPath(params)[16..] == Serialize(params);
    SerializeRoundTrip(params);
  }

  /** The slice state (`OrderState` in the source), updated in place by the
      reducer. */
  class OrderState {
    var orders: seq<Order>
    var currentOrder: Option<Order>
    var loading: bool
    var error: Option<string>

    /** `initialState` */
    constructor ()
      ensures orders == [] && currentOrder == None && !loading && error == None
    {
      orders := [];
      currentOrder := None;
      loading := false;
      error := None;
    }

    /** The slice's reducer: `clearCurrentOrder` and the cases of
        `extraReducers`. */
    method Reduce(action: Action)
      modifies this
      ensures action.Pending? ==>
        && loading && error == None
        && orders == old(orders) && currentOrder == old(currentOrder)
      ensures action.Rejected? ==>
        && !loading && error == Some(action.message)
        && orders == old(orders) && currentOrder == old(currentOrder)
      ensures action.PlaceOrderFulfilled? ==>
        && !loading && error == old(error)
        && currentOrder == Some(action.placed) && orders == old(orders)
      ensures action.FetchOrderByIdFulfilled? ==>
        && !loading && error == old(error)
        && currentOrder == Some(action.fetched) && orders == old(orders)
      ensures action.FetchAllOrdersFulfilled? ==>
        && !loading && error == old(error)
        && orders == action.all && currentOrder == old(currentOrder)
      ensures action.ClearCurrentOrder? ==>
        && currentOrder == None && error == None
        && orders == old(orders) && loading == old(loading)
    {
      match action
      case Pending(_) =>
        loading := true;
        error := None;
      case Rejected(_, message) =>
        loading := false;
        error := Some(message);
      case PlaceOrderFulfilled(placed) =>
        loading := false;
        currentOrder := Some(placed);
      case FetchOrderByIdFulfilled(fetched) =>
        loading := false;
        currentOrder := Some(fetched);
      case FetchAllOrdersFulfilled(all) =>
        loading := false;
        orders := all;
      case ClearCurrentOrder =>
        currentOrder := None;
        error := None;
    }
  }
}
