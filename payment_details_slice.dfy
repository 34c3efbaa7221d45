/** The payment-details slice: the user's one bank-account record, fetched
    or created/updated (upsert) through the same endpoint. */
module PaymentDetailsSlice {
  import opened Common

  datatype PaymentDetails = PaymentDetails(
    id: int,
    accountNumber: string,
    accountHoldername: string,
    ifscCode: string,
    bankName: string,
    createdAt: string,
    updatedAt: string)

  /** The argument of the add thunk: `PaymentDetails` without `id`,
      `createdAt` and `updatedAt`. */
  datatype PaymentDetailsRequest = PaymentDetailsRequest(
    accountNumber: string,
    accountHoldername: string,
    ifscCode: string,
    bankName: string)

  /** The two thunks of the slice. */
  datatype Operation = FetchPaymentDetails | AddPaymentDetails

  /** The actions the slice's reducer receives; both thunks fulfil with the
      record as the server holds it. */
  datatype Action =
    | Pending(op: Operation)
    | Rejected(op: Operation, message: string)
    | Fulfilled(op: Operation, details: PaymentDetails)
    | ClearPaymentDetailsState

  /** The JSON body the add thunk posts: exactly the four bank fields, with
      no id and no timestamps. */
  function RequestBody(request: PaymentDetailsRequest): (body: map<string, string>)
    ensures body.Keys == {"accountNumber", "accountHoldername", "ifscCode", "bankName"}
    ensures "id" !in body && "createdAt" !in body && "updatedAt" !in body
  {
    map[
      "accountNumber" := request.accountNumber,
      "accountHoldername" := request.accountHoldername,
      "ifscCode" := request.ifscCode,
      "bankName" := request.bankName]
  }

  /** How the receiving end reads such a body back. */
  function ParseRequestBody(body: map<string, string>): Option<PaymentDetailsRequest>
  {
    if "accountNumber" in body && "accountHoldername" in body && "ifscCode" in body && "bankName" in body
    then Some(PaymentDetailsRequest(body["accountNumber"], body["accountHoldername"], body["ifscCode"], body["bankName"]))
    else None
  }

  /** Every field of the request reaches the server under its own key. */
  lemma RequestBodyRoundTrip(request: PaymentDetailsRequest)
    ensures ParseRequestBody(RequestBody(request)) == Some(request)
  {
  }

  /** The slice state (`PaymentState` in the source), updated in place by the
      reducer. */
  class PaymentDetailsState {
    var details: Option<PaymentDetails>
    var loading: bool
    var error: Option<string>

    /** `initialState` */
    constructor ()
      ensures details == None && !loading && error == None
    {
      details := None;
      loading := false;
      error := None;
    }

    /** The slice's reducer: `clearPaymentDetailsState` and the cases of
        `extraReducers`. Fetching and adding both overwrite the one record. */
    method Reduce(action: Action)
      modifies this
      ensures action.Pending? ==>
        loading && error == None && details == old(details)
      ensures action.Rejected? ==>
        !loading && error == Some(action.message) && details == old(details)
      ensures action.Fulfilled? ==>
        !loading && error == old(error) && details == Some(action.details)
      ensures action.ClearPaymentDetailsState? ==>
        details == None && !loading && error == None
    {
      match action
      case Pending(_) =>
        loading := true;
        error := None;
      case Rejected(_, message) =>
        loading := false;
        error := Some(message);
      case Fulfilled(_, d) =>
        loading := false;
        details := Some(d);
      case ClearPaymentDetailsState =>
        details := None;
        loading := false;
        error := None;
    }
  }
}
