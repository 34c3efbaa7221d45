/** The transaction slice: the signed-in user's wallet transaction history,
    a read-only list replaced by each fetch. */
module TransactionSlice {
  import opened Common

  datatype WalletTransaction = WalletTransaction(
    id: int,
    amount: real,
    kind: string,
    description: string,
    createdAt: string,
    updatedAt: string)

  /** The actions the slice's reducer receives: the three phases of its one
      thunk, and the clearing reducer. */
  datatype Action =
    | FetchUserTransactionsPending
    | FetchUserTransactionsFulfilled(transactions: seq<WalletTransaction>)
    | FetchUserTransactionsRejected(message: string)
    | ClearTransactionState

  /** The slice state (`TransactionState` in the source), updated in place by
      the reducer. */
  class TransactionState {
    var transactions: seq<WalletTransaction>
    var loading: bool
    var error: Option<string>

    /** `initialState` */
    constructor ()
      ensures transactions == [] && !loading && error == None
    {
      transactions := [];
      loading := false;
      error := None;
    }

    /** The slice's reducer: `clearTransactionState` and the cases of
        `extraReducers`. An empty history is a success like any other. */
    method Reduce(action: Action)
      modifies this
      ensures action.FetchUserTransactionsPending? ==>
        loading && error == None && transactions == old(transactions)
      ensures action.FetchUserTransactionsFulfilled? ==>
        !loading && error == old(error) && transactions == action.transactions
      ensures action.FetchUserTransactionsRejected? ==>
        !loading && error == Some(action.message) && transactions == old(transactions)
      ensures action.ClearTransactionState? ==>
        transactions == [] && !loading && error == None
    {
      match action
      case FetchUserTransactionsPending =>
        loading := true;
        error := None;
      case FetchUserTransactionsFulfilled(fetched) =>
        loading := false;
        transactions := fetched;
      case FetchUserTransactionsRejected(message) =>
        loading := false;
        error := Some(message);
      case ClearTransactionState =>
        transactions := [];
        loading := false;
        error := None;
    }
  }
}
