/** The withdrawal slice: the user's (or, for an administrator, everybody's)
    withdrawal requests, patched in place by creation and by approval. */
module WithdrawalSlice {
  import opened Common

  datatype Withdrawal = Withdrawal(
    id: int,
    amount: real,
    status: string,
    userId: int,
    createdAt: string,
    updatedAt: string,
    date: string)

  /** The four thunks of the slice. */
  datatype Operation =
    | CreateWithdrawal
    | FetchUserWithdrawalsHistory
    | FetchAllWithdrawals
    | ProceedWithdrawal

  /** The actions the slice's reducer receives. A rejected action carries the
      string the thunk rejected with (see Common.MessageOrTransport). */
  datatype Action =
    | Pending(op: Operation)
    | Rejected(op: Operation, message: string)
    | CreateWithdrawalFulfilled(created: Withdrawal)
    | FetchUserWithdrawalsHistoryFulfilled(history: seq<Withdrawal>)
    | FetchAllWithdrawalsFulfilled(all: seq<Withdrawal>)
    | ProceedWithdrawalFulfilled(updated: Withdrawal)
    | ClearWithdrawalState

  /** The list after an approval or rejection by an administrator: every
      request carrying the payload's id is replaced by the payload. */
  function ReplaceById(ws: seq<Withdrawal>, updated: Withdrawal): (r: seq<Withdrawal>)
    ensures |r| == |ws|
    ensures forall i :: 0 <= i < |ws| ==> r[i] == if ws[i].id == updated.id then updated else ws[i]
    ensures forall i :: 0 <= i < |ws| ==> r[i].id == ws[i].id
  {
    if ws == [] then []
    else [if ws[0].id == updated.id then updated else ws[0]] + ReplaceById(ws[1..], updated)
  }

  /** A processed request that is not on the list leaves the list as it is. */
  lemma ReplaceByIdAbsent(ws: seq<Withdrawal>, updated: Withdrawal)
    requires forall i :: 0 <= i < |ws| ==> ws[i].id != updated.id
    ensures ReplaceById(ws, updated) == ws
  {
  }

  /** Processing the same response twice leaves the list as processing it once. */
  lemma ReplaceIdempotent(ws: seq<Withdrawal>, updated: Withdrawal)
    ensures ReplaceById(ReplaceById(ws, updated), updated) == ReplaceById(ws, updated)
  {
  }

  /** The slice state (`WithdrawalState` in the source), updated in place by
      the reducer. */
  class WithdrawalState {
    var withdrawals: seq<Withdrawal>
    var loading: bool
    var error: Option<string>

    /** `initialState` */
    constructor ()
      ensures withdrawals == [] && !loading && error == None
    {
      withdrawals := [];
      loading := false;
      error := None;
    }

    /** The slice's reducer: `clearWithdrawalState` and the cases of
        `extraReducers`. */
    method Reduce(action: Action)
      modifies this
      ensures action.Pending? ==>
        loading && error == None && withdrawals == old(withdrawals)
      ensures action.Rejected? ==>
        !loading && error == Some(action.message) && withdrawals == old(withdrawals)
      ensures action.CreateWithdrawalFulfilled? ==>
        !loading && error == old(error) && withdrawals == [action.created] + old(withdrawals)
      ensures action.FetchUserWithdrawalsHistoryFulfilled? ==>
        !loading && error == old(error) && withdrawals == action.history
      ensures action.FetchAllWithdrawalsFulfilled? ==>
        !loading && error == old(error) && withdrawals == action.all
      ensures action.ProceedWithdrawalFulfilled? ==>
        !loading && error == old(error) && withdrawals == ReplaceById(old(withdrawals), action.updated)
      ensures action.ClearWithdrawalState? ==>
        withdrawals == [] && !loading && error == None
    {
      match action
      case Pending(_) =>
        loading := true;
        error := None;
      case Rejected(_, message) =>
        loading := false;
        error := Some(message);
      case CreateWithdrawalFulfilled(created) =>
        loading := false;
        withdrawals := [created] + withdrawals;
      case FetchUserWithdrawalsHistoryFulfilled(history) =>
        loading := false;
        withdrawals := history;
      case FetchAllWithdrawalsFulfilled(all) =>
        loading := false;
        withdrawals := all;
      case ProceedWithdrawalFulfilled(updated) =>
        loading := false;
        withdrawals := ReplaceById(withdrawals, updated);
      case ClearWithdrawalState =>
        withdrawals := [];
        loading := false;
        error := None;
    }
  }
}
