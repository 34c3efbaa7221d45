# Crypto trading client: store slices and bank-details form

This project models the client-side state of a cryptocurrency trading web
application. It covers ten Redux Toolkit store slices:

- authentication, with its two-factor login step;
- the market-data caches for coins;
- wallet;
- withdrawals;
- watchlist;
- orders;
- holdings (assets);
- payments;
- bank payment details;
- wallet transactions.

It also covers the validation schema and submit mapping of the bank-details
form.

## How each part is modelled

- Each slice's state is a Dafny `class` whose fields are the state
  interface's fields.
- A slice's reducer is the method `Reduce(action)`. The reducer covers both
  the synchronous `clear…` reducers and the `pending`/`fulfilled`/`rejected`
  cases of every async thunk.
  - Each action is a constructor of the slice's `Action` datatype.
  - The contract of `Reduce` fixes every field after every action.
  - Actions the slice registers no case for are modelled too, as explicit
    no-ops. Examples: `removeCoinFromWatchlist.pending`, and the pending and
    rejected phases of the wallet's payment and transfer thunks and of every
    coin thunk except `fetchCoins`.
- The logic inside the thunks is modelled as pure functions with their
  properties proved:
  - how an HTTP failure becomes the rejection value;
  - the login payload and which token gets persisted;
  - the query string of the order-history request;
  - the payment request path;
  - the bank-details request body.
- Payload fields typed `any` are modelled as JSON values (`Common.Json`).
- JavaScript truthiness is explicit: an absent string and `""` are both
  falsy.

In three places the code does something its own declared types, or the
backend's data, would not lead one to expect. The model follows the code in
all three:

- **Watchlist add.** `addCoinToWatchlist.fulfilled` appends the coin even
  when a coin with that id is already listed, so duplicates are possible,
  although the backend keeps a watchlist as a set of coins.
  The model keeps the duplicate: see `WatchlistSlice.AddThenRemove` and
  `WatchlistState.Reduce`.
- **Coin-slice errors.** The coin thunks reject with the whole error
  response body, not with its `message`, and the slice stores that body in
  its `error` field even though the field is declared as a string.
  `CoinSlice.CoinFailure` models this value.
- **Login branch.** `login.fulfilled` branches on the payload's
  `twoFactorRequired` field. For a plain login that payload is the server's
  response as it came, so a response carrying a truthy `twoFactorRequired`
  would open a challenge even though the thunk has already persisted its
  token. `AuthSlice.OpensChallenge` and `AuthSlice.LoginOpensChallenge`
  model this test.

## Model

| member | source | states |
|---|---|---|
| Common.ServerMessage | src/State/withdrawal/withdrawalSlice.ts:45 | the server message is used only when a response arrived, its body is an object and its `message` is a non-empty string, and then it is that string |
| Common.MessageOr | src/State/order/orderSlice.ts:84-120 | `message \|\| default`, the rejection value of every order, asset and auth thunk with that slice's `DefaultMessage`: the server's message when present, else the fallback; a non-empty fallback makes the result non-empty |
| Common.MessageOrTransport | src/State/withdrawal/withdrawalSlice.ts:45 | `message \|\| err.message`, the rejection value of every withdrawal, watchlist, wallet, transaction, payment and payment-details thunk: the server message when it is non-empty, else the transport message; with no response, always the transport message |
| WithdrawalSlice.ReplaceById | src/State/withdrawal/withdrawalSlice.ts:157-159 | the length is kept; each element with the payload's id becomes the payload and every other element is unchanged; ids are kept |
| WithdrawalSlice.ReplaceByIdAbsent | src/State/withdrawal/withdrawalSlice.ts:157-159 | an id that is not on the list leaves the list as it was |
| WithdrawalSlice.ReplaceIdempotent | src/State/withdrawal/withdrawalSlice.ts:155-160 | applying the same processed withdrawal twice gives the same list as applying it once |
| WithdrawalSlice.WithdrawalState.constructor | src/State/withdrawal/withdrawalSlice.ts:31-35 | the initial list is empty, not loading, no error |
| WithdrawalSlice.WithdrawalState.Reduce | src/State/withdrawal/withdrawalSlice.ts:99-165 | pending: loading, error cleared, list kept; rejected: not loading, error set, list kept; create prepends the new request; both fetches replace the list; proceed replaces by id; clear empties everything |
| WatchlistSlice.RemoveById | src/State/watchlist/watchListSlice.ts:149-151 | filtering never lengthens the list |
| WatchlistSlice.RemoveByIdAbsent | src/State/watchlist/watchListSlice.ts:149-151 | removing an id that no listed coin carries leaves the list unchanged |
| WatchlistSlice.RemoveByIdContents | src/State/watchlist/watchListSlice.ts:149-151 | a coin stays exactly when it was listed and has another id, and every coin with another id keeps its number of occurrences |
| WatchlistSlice.RemoveByIdConcat | src/State/watchlist/watchListSlice.ts:149-151 | filtering distributes over concatenation, so the kept coins keep their order |
| WatchlistSlice.RemoveByIdIdempotent | src/State/watchlist/watchListSlice.ts:144-154 | removing a coin a second time changes nothing |
| WatchlistSlice.AddThenRemove | src/State/watchlist/watchListSlice.ts:131-154 | removing the coin just added gives the same list as removing it from the list before the add; when the id was not listed before, this is the original list |
| WatchlistSlice.WatchlistState.constructor | src/State/watchlist/watchListSlice.ts:39-43 | no watchlist, not loading, no error |
| WatchlistSlice.WatchlistState.Reduce | src/State/watchlist/watchListSlice.ts:100-158 | fetch replaces the watchlist; add appends and remove filters only when a watchlist is loaded; removing has no pending case; rejected keeps the data; clear resets everything |
| UrlEncoding.Utf8 | src/State/order/orderSlice.ts:111-115 | each code point becomes one to four bytes; ASCII stays a single byte; every byte of a non-ASCII code point is at least 0x80 |
| UrlEncoding.EncodeByte | src/State/order/orderSlice.ts:111-115 | a byte becomes one to three characters and never `&` or `=`; unreserved bytes stay as they are |
| UrlEncoding.EncodeBytes | src/State/order/orderSlice.ts:111-115 | encoded bytes never contain `&` or `=` |
| UrlEncoding.Encode | src/State/order/orderSlice.ts:111-115 | an encoded name or value never contains `&` or `=`; text made only of unreserved characters is unchanged |
| UrlEncoding.Serialize | src/State/order/orderSlice.ts:115 | the query string is empty exactly when there are no parameters |
| UrlEncoding.SerializeSeparators | src/State/order/orderSlice.ts:115 | a serialised query holds exactly one `&` fewer than it has pairs, so the pairs can be told apart |
| UrlEncoding.Utf8RoundTrip | src/State/order/orderSlice.ts:111-115 | decoding the UTF-8 bytes of a text gives the text back |
| UrlEncoding.BytesRoundTrip | src/State/order/orderSlice.ts:111-115 | decoding percent-encoded bytes (`+`, `%XX`, unreserved characters) gives the bytes back |
| UrlEncoding.EncodeRoundTrip | src/State/order/orderSlice.ts:111-115 | decoding an encoded name or value gives it back |
| UrlEncoding.SerializeRoundTrip | src/State/order/orderSlice.ts:115 | parsing a serialised query gives back the list of pairs, with their names, values and order |
| OrderSlice.FetchAllOrdersParams | src/State/order/orderSlice.ts:111-113 | `order_type` is present exactly when the order type is a non-empty string, and `assetSymbol` likewise; `order_type` comes first and `assetSymbol` last; each carries its argument |
| OrderSlice.FetchAllOrdersPath | src/State/order/orderSlice.ts:115 | the path always starts with `/api/orders/all?`, and is exactly that when no filter is given |
| OrderSlice.FetchAllOrdersPathRoundTrip | src/State/order/orderSlice.ts:111-115 | the query after the `?` reads back as exactly the parameter list the path was built from, so the path carries the filters and nothing else |
| OrderSlice.OrderState.constructor | src/State/order/orderSlice.ts:64-69 | no orders, no current order, not loading, no error |
| OrderSlice.OrderState.Reduce | src/State/order/orderSlice.ts:129-174 | place and fetch-by-id set the current order; fetch-all replaces the list; clear drops the current order and the error but leaves the list and `loading` alone |
| AssetSlice.AssetState.constructor | src/State/Asset/assetSlice.ts:40-45 | no assets, no selected asset, not loading, no error |
| AssetSlice.AssetState.Reduce | src/State/Asset/assetSlice.ts:95-140 | fetch-all replaces the list; both single fetches set the selected asset; clear drops the selection and the error only |
| WalletSlice.WalletState.constructor | src/State/wallet/walletSlice.ts:21-25 | no wallet, not loading, no error |
| WalletSlice.WalletState.Reduce | src/State/wallet/walletSlice.ts:96-133 | only the wallet fetch touches `loading` and `error`; pay, transfer and top-up success only overwrite the wallet; their pending and rejected phases change nothing |
| CoinSlice.RejectionValue | src/State/coin/coinSlice.ts:68-147 | the whole response body exactly when a response arrived with a truthy body; otherwise (no response, or an empty body `""`) the operation's non-empty default text |
| CoinSlice.CoinState.constructor | src/State/coin/coinSlice.ts:46-56 | an empty coin list, every cache null, not loading, no error |
| CoinSlice.CoinState.Reduce | src/State/coin/coinSlice.ts:157-190 | only the list fetch has pending and rejected cases; every other success writes its one field and nothing else |
| TransactionSlice.TransactionState.constructor | src/State/transaction/transactionSlice.ts:32-36 | an empty history, not loading, no error |
| TransactionSlice.TransactionState.Reduce | src/State/transaction/transactionSlice.ts:57-78 | a fetch replaces the history (an empty one too); rejected keeps it; clear empties it |
| Numerals.NatToString | src/State/payment/paymentSlice.ts:44 | a whole amount renders as decimal digits with no leading zero |
| Numerals.ParseNatToString | src/State/payment/paymentSlice.ts:44 | reading the digits back gives the number |
| Numerals.IntToString | src/State/payment/paymentSlice.ts:44 | a minus sign exactly for negative amounts, followed by digits |
| Numerals.IntToStringRoundTrip | src/State/payment/paymentSlice.ts:44 | reading the rendering back gives the integer |
| Numerals.IntToStringInjective | src/State/payment/paymentSlice.ts:44 | different amounts render differently |
| PaymentSlice.CreatePaymentOrderPath | src/State/payment/paymentSlice.ts:44 | the path starts with the payment API base followed by `/` |
| PaymentSlice.CreatePaymentOrderPathInjective | src/State/payment/paymentSlice.ts:43-44 | the path determines both the payment method and the amount |
| PaymentSlice.PaymentState.constructor | src/State/payment/paymentSlice.ts:29-33 | no payment response, not loading, no error |
| PaymentSlice.PaymentState.Reduce | src/State/payment/paymentSlice.ts:60-81 | success stores the gateway response; rejected keeps it; clear drops it |
| PaymentDetailsSlice.RequestBody | src/State/payment/paymentDetailsSlice.ts:61-65 | the posted body has exactly the four bank fields as keys, and no id or timestamps |
| PaymentDetailsSlice.RequestBodyRoundTrip | src/State/payment/paymentDetailsSlice.ts:61-65 | every field of the request reaches the server under its own key |
| PaymentDetailsSlice.PaymentDetailsState.constructor | src/State/payment/paymentDetailsSlice.ts:21-25 | no details, not loading, no error |
| PaymentDetailsSlice.PaymentDetailsState.Reduce | src/State/payment/paymentDetailsSlice.ts:76-110 | fetch and add both overwrite the one record (upsert); rejected keeps it; clear drops it |
| AuthSlice.InitialJwt | src/State/Auth/AuthSlice.ts:16 | the starting token is the persisted one when that is non-empty, and null otherwise |
| AuthSlice.LoginPayloadOf | src/State/Auth/AuthSlice.ts:56-67 | a challenge exactly when the server reports two-factor authentication, carrying its message and session id; otherwise the response unchanged |
| AuthSlice.LoginOpensChallenge | src/State/Auth/AuthSlice.ts:149-160 | the reducer opens a challenge exactly when the server reports two-factor authentication or the response carries a truthy `twoFactorRequired`; the session id kept is the server's `session` in the first case and the response's `sessionId` otherwise |
| AuthSlice.LoginTokenWrite | src/State/Auth/AuthSlice.ts:56-67 | a two-factor challenge persists no token; a plain login persists exactly the token the reducer receives |
| AuthSlice.AuthState.constructor | src/State/Auth/AuthSlice.ts:14-22 | signed in exactly when a non-empty token was persisted; the token is that one or null; no challenge pending |
| AuthSlice.AuthState.Reduce | src/State/Auth/AuthSlice.ts:128-204 | keeps the invariant that a token implies signed in and a session id implies a pending challenge. Pending and rejected touch only `loading` and `error`. A login payload with a truthy `twoFactorRequired` (every challenge) sets the two-factor flag and the payload's session id and keeps the token; any other login, and an OTP success, signs in and closes the challenge. Logout clears the session but not `loading` |
| PaymentDetailsForm.MatchesFixed | src/pages/Payment-Details/PaymentDetailsForm.tsx:14 | a piece repeated a fixed number of times consumes exactly that many characters |
| PaymentDetailsForm.IfscAccepted | src/pages/Payment-Details/PaymentDetailsForm.tsx:13-15 | an IFSC code matches exactly when it is 11 characters: four capitals, `0`, then six capitals or digits |
| PaymentDetailsForm.IfscRejectsLowercase | src/pages/Payment-Details/PaymentDetailsForm.tsx:14 | a matching IFSC code has no lower-case letter anywhere |
| PaymentDetailsForm.AccountNumberAccepted | src/pages/Payment-Details/PaymentDetailsForm.tsx:16-18 | an account number matches exactly when it is 9 to 18 decimal digits |
| PaymentDetailsForm.InvalidFields | src/pages/Payment-Details/PaymentDetailsForm.tsx:11-23 | a field is reported exactly when its own rule fails |
| PaymentDetailsForm.FormAccepted | src/pages/Payment-Details/PaymentDetailsForm.tsx:11-23 | the form passes exactly when both names are non-empty, the IFSC code and account number have their shapes, and the confirmation equals the account number |
| PaymentDetailsForm.ToRequest | src/pages/Payment-Details/PaymentDetailsForm.tsx:45-56 | the holder's name goes under `accountHoldername`; the other three fields are copied; the confirmation is dropped |
| PaymentDetailsForm.Submit | src/pages/Payment-Details/PaymentDetailsForm.tsx:45-66 | a request is sent exactly when no field is in error, and it is the mapped form |
| PaymentDetailsForm.SubmittedRequestWellFormed | src/pages/Payment-Details/PaymentDetailsForm.tsx:11-56 | every request sent has a well-formed IFSC code and account number, and its posted body reads back as the request |

## Left out

- HTTP calls, URLs other than the two modelled paths, and auth headers are
  left out because they are network I/O. Each outcome is an input instead:
  the payload of a `fulfilled` action, or an `HttpError` for a failure.
- Browser storage is left out. The persisted token is the constructor
  parameter of `AuthState`. The token a thunk writes is the value of
  `AuthSlice.LoginTokenWrite`. Register and OTP writes are not separate
  functions, because they store the response's token unconditionally.
- AuthSlice.LoginTokenWrite does not model how storage turns a missing
  token into the strings `"null"` or `"undefined"`.
- `alert`, `console`, navigation and React rendering are left out because
  they have no effect on state.
- Concurrency between overlapping requests is left out. Each `Reduce` call
  is one action applied atomically.
- Amounts are reals, with no floating-point rounding. The money arithmetic
  in pages is outside the model.
- PaymentSlice.CreatePaymentOrderPath takes the amount as an integer. How
  JavaScript renders fractional or exponent-form numbers is not modelled.
- UrlEncoding.Utf8 assumes well-formed Unicode scalar values. The
  replacement of lone surrogates is not modelled.
- PaymentDetailsForm.FieldValid models the schema's accept/reject decision
  per field, not the error message texts.
- Common.ServerMessage reads a `message` that is not a string as absent.
  The source would pass such a truthy value on as the rejection, but every
  slice declares its error as a string.
- `UrlEncoding.ParseQuery` is a strict reading of the query that accepts
  only what `Serialize` produces. It stands for "the query determines the
  filters"; the server's lenient parser is not modelled.
- Entity fields beyond the ones the slices read or write are omitted. This
  includes the open-ended market statistics and the user profile, which is
  kept as JSON.
- An order's nested objects (its `user` and its item's `coin`) are kept
  as JSON values, since the slice only stores orders whole.
- `src/State/Auth/Action.ts` is not part of this model. It is a legacy
  thunk file with only I/O and alerts.
- `src/State/Store.ts` is not part of this model. It is library composition
  only.
- The chart cache in `StockChart.tsx` is left out because it depends on
  timing.
- The Signup and ForgotPassword schemas are left out because their email
  rule is a library-internal regular expression.
