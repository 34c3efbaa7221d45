/** The payment slice: the response to a wallet top-up request, which holds
    the payment gateway's redirect link. */
module PaymentSlice {
  import opened Common
  import opened Numerals

  datatype PaymentMethod = Razorpay | Stripe

  datatype PaymentResponse = PaymentResponse(
    orderId: int,
    paymentUrl: string,
    paymentMethod: string,
    amount: real)

  /** The actions the slice's reducer receives: the three phases of its one
      thunk, and the clearing reducer. */
  datatype Action =
    | CreatePaymentOrderPending
    | CreatePaymentOrderFulfilled(response: PaymentResponse)
    | CreatePaymentOrderRejected(message: string)
    | ClearPaymentState

  const Api: string := "http://localhost:5454/api/payment"

  /** The method's name as it appears in the request path. */
  function MethodName(paymentMethod: PaymentMethod): string
  {
    match paymentMethod
    case Razorpay => "RAZORPAY"
    case Stripe => "STRIPE"
  }

  /** `${API}/${paymentMethod}/amount/${amount}` */
  function CreatePaymentOrderPath(paymentMethod: PaymentMethod, amount: int): (path: string)
    ensures |path| > |Api| + 1 && path[..|Api| + 1] == Api + "/"
  {
    Api + "/" + MethodName(paymentMethod) + "/amount/" + IntToString(amount)
  }

  /** Distinct requests go to distinct paths: the path determines both the
      method and the amount. */
  lemma CreatePaymentOrderPathInjective(m1: PaymentMethod, a1: int, m2: PaymentMethod, a2: int)
    requires CreatePaymentOrderPath(m1, a1) == CreatePaymentOrderPath(m2, a2)
    ensures m1 == m2 && a1 == a2
  {
    var p1, p2 := CreatePaymentOrderPath(m1, a1), CreatePaymentOrderPath(m2, a2);
    var k := |Api| + 1;
    assert p1[k] == MethodName(m1)[0];
    assert p2[k] == MethodName(m2)[0];
    assert m1 == m2;
    var j := k + |MethodName(m1)| + |"/amount/"|;
    assert p1[j..] == IntToString(a1);
    assert p2[j..] == IntToString(a2);
    IntToStringInjective(a1, a2);
  }

  /** The slice state (`PaymentState` in the source), updated in place by the
      reducer. */
  class PaymentState {
    var paymentResponse: Option<PaymentResponse>
    var loading: bool
    var error: Option<string>

    /** `initialState` */
    constructor ()
      ensures paymentResponse == None && !loading && error == None
    {
      paymentResponse := None;
      loading := false;
      error := None;
    }

    /** The slice's reducer: `clearPaymentState` and the cases of
        `extraReducers`. */
    method Reduce(action: Action)
      modifies this
      ensures action.CreatePaymentOrderPending? ==>
        loading && error == None && paymentResponse == old(paymentResponse)
      ensures action.CreatePaymentOrderFulfilled? ==>
        !loading && error == old(error) && paymentResponse == Some(action.response)
      ensures action.CreatePaymentOrderRejected? ==>
        !loading && error == Some(action.message) && paymentResponse == old(paymentResponse)
      ensures action.ClearPaymentState? ==>
        paymentResponse == None && !loading && error == None
    {
      match action
      case CreatePaymentOrderPending =>
        loading := true;
        error := None;
      case CreatePaymentOrderFulfilled(response) =>
        loading := false;
        paymentResponse := Some(response);
      case CreatePaymentOrderRejected(message) =>
        loading := false;
        error := Some(message);
      case ClearPaymentState =>
        paymentResponse := None;
        loading := false;
        error := None;
    }
  }
}
