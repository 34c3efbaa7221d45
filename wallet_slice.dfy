/** The wallet slice: the user's single wallet record. Only the fetch has the
    full pending/fulfilled/rejected lifecycle; paying for an order, a
    wallet-to-wallet transfer and a top-up only overwrite the record with the
    server's copy when they succeed. */
module WalletSlice {
  import opened Common

  datatype Wallet = Wallet(id: int, balance: real, userId: int, createdAt: string, updatedAt: string)

  /** The four thunks of the slice. */
  datatype Operation = FetchUserWallet | PayForOrder | TransferToWallet | AddBalanceAfterPayment

  /** The actions the slice's reducer receives; every thunk fulfils with the
      wallet as the server holds it afterwards. */
  datatype Action =
    | Pending(op: Operation)
    | Rejected(op: Operation, message: string)
    | Fulfilled(op: Operation, wallet: Wallet)
    | ClearWalletState

  /** The slice state (`WalletState` in the source), updated in place by the
      reducer. */
  class WalletState {
    var wallet: Option<Wallet>
    var loading: bool
    var error: Option<string>

    /** `initialState` */
    constructor ()
      ensures wallet == None && !loading && error == None
    {
      wallet := None;
      loading := false;
      error := None;
    }

    /** The slice's reducer: `clearWalletState` and the cases of
        `extraReducers`. Pending and rejected actions of the pay, transfer and
        top-up thunks have no case, so they change nothing. The wallet held is
        always one the server sent (or none): the reducer never computes a
        balance. */
    method Reduce(action: Action)
      modifies this
      ensures action.Pending? && action.op == FetchUserWallet ==>
        loading && error == None && wallet == old(wallet)
      ensures action.Rejected? && action.op == FetchUserWallet ==>
        !loading && error == Some(action.message) && wallet == old(wallet)
      ensures (action.Pending? || action.Rejected?) && action.op != FetchUserWallet ==>
        wallet == old(wallet) && loading == old(loading) && error == old(error)
      ensures action.Fulfilled? && action.op == FetchUserWallet ==>
        !loading && error == old(error) && wallet == Some(action.wallet)
      ensures action.Fulfilled? && action.op != FetchUserWallet ==>
        loading == old(loading) && error == old(error) && wallet == Some(action.wallet)
      ensures action.ClearWalletState? ==>
        wallet == None && !loading && error == None
      ensures wallet == old(wallet) || wallet == None || (action.Fulfilled? && wallet == Some(action.wallet))
    {
      match action
      case Pending(op) =>
        if op == FetchUserWallet {
          loading := true;
          error := None;
        }
      case Rejected(op, message) =>
        if op == FetchUserWallet {
          loading := false;
          error := Some(message);
        }
      case Fulfilled(op, w) =>
        if op == FetchUserWallet {
          loading := false;
        }
        wallet := Some(w);
      case ClearWalletState =>
        wallet := None;
        loading := false;
        error := None;
    }
  }
}
