/** The bank-account form: its validation schema, with the two regular
    expressions written as anchored patterns of repeated character classes,
    and the mapping of a valid form to the request the add thunk sends. */
module PaymentDetailsForm {
  import opened Common
  import opened Numerals
  import opened PaymentDetailsSlice

  /** The character classes the schema's patterns use. */
  datatype CharClass = Upper | Digit | UpperOrDigit | Exactly(c: char)

  predicate IsUpper(c: char)
  {
    'A' <= c <= 'Z'
  }

  predicate IsLower(c: char)
  {
    'a' <= c <= 'z'
  }

  predicate InClass(cls: CharClass, c: char)
  {
    match cls
    case Upper => IsUpper(c)
    case Digit => IsDigit(c)
    case UpperOrDigit => IsUpper(c) || IsDigit(c)
    case Exactly(d) => c == d
  }

  predicate AllIn(cls: CharClass, s: string)
  {
    forall i :: 0 <= i < |s| ==> InClass(cls, s[i])
  }

  /** `cls{min,max}` */
  datatype Piece = Piece(cls: CharClass, min: nat, max: nat)

  /** The whole of `s` matches the pieces in order (`^…$`). */
  predicate Matches(pattern: seq<Piece>, s: string)
    decreases |pattern|
  {
    if pattern == [] then s == []
    else
      exists k :: pattern[0].min <= k <= pattern[0].max && k <= |s|
        && AllIn(pattern[0].cls, s[..k]) && Matches(pattern[1..], s[k..])
  }

  /** `/^[A-Z]{4}0[A-Z0-9]{6}$/` */
  const IfscPattern: seq<Piece> :=
    [Piece(Upper, 4, 4), Piece(Exactly('0'), 1, 1), Piece(UpperOrDigit, 6, 6)]

  /** `/^[0-9]{9,18}$/` */
  const AccountNumberPattern: seq<Piece> := [Piece(Digit, 9, 18)]

  predicate IfscMatches(s: string)
  {
    Matches(IfscPattern, s)
  }

  predicate AccountNumberMatches(s: string)
  {
    Matches(AccountNumberPattern, s)
  }

  /** A piece repeated a fixed number of times consumes exactly that many
      characters. */
  lemma MatchesFixed(pattern: seq<Piece>, s: string)
    requires pattern != [] && pattern[0].min == pattern[0].max
    ensures Matches(pattern, s) <==>
      pattern[0].min <= |s| && AllIn(pattern[0].cls, s[..pattern[0].min])
      && Matches(pattern[1..], s[pattern[0].min..])
  {
  }

  /** The last piece of the IFSC pattern: six capitals or digits. */
  lemma IfscTail(t: string)
    ensures Matches(IfscPattern[2..], t) <==> |t| == 6 && AllIn(UpperOrDigit, t)
  {
    var p := IfscPattern[2..];
    assert p == [Piece(UpperOrDigit, 6, 6)] && p[1..] == [];
    MatchesFixed(p, t);
    if 6 <= |t| {
      assert t[6..] == [] <==> |t| == 6;
      assert |t| == 6 ==> t[..6] == t;
    }
  }

  /** The middle piece of the IFSC pattern: the digit zero. */
  lemma IfscMiddle(t: string)
    ensures Matches(IfscPattern[1..], t) <==>
      1 <= |t| && t[0] == '0' && Matches(IfscPattern[2..], t[1..])
  {
    var p := IfscPattern[1..];
    assert p[0] == Piece(Exactly('0'), 1, 1) && p[1..] == IfscPattern[2..];
    MatchesFixed(p, t);
    if 1 <= |t| {
      assert AllIn(Exactly('0'), t[..1]) <==> t[0] == '0' by {
        assert t[..1][0] == t[0];
      }
    }
  }

  /** The first piece of the IFSC pattern: four capitals. */
  lemma IfscHead(s: string)
    ensures Matches(IfscPattern, s) <==>
      4 <= |s| && AllIn(Upper, s[..4]) && Matches(IfscPattern[1..], s[4..])
  {
    MatchesFixed(IfscPattern, s);
  }

  /** The IFSC pattern piece by piece: four capitals, the digit zero, and
      six capitals or digits, with nothing after them. */
  lemma IfscPieces(s: string)
    ensures Matches(IfscPattern, s) <==>
      |s| == 11 && AllIn(Upper, s[..4]) && s[4] == '0' && AllIn(UpperOrDigit, s[5..])
  {
    IfscHead(s);
    if 4 <= |s| {
      IfscMiddle(s[4..]);
      if 5 <= |s| {
        assert s[4..][1..] == s[5..];
        IfscTail(s[5..]);
      }
    }
  }

  /** An IFSC code is accepted exactly when it is eleven characters: four
      capital letters, the digit zero, then six capitals or digits. */
  lemma IfscAccepted(s: string)
    ensures Matches(IfscPattern, s) <==>
      |s| == 11
      && (forall i :: 0 <= i < 4 ==> IsUpper(s[i]))
      && s[4] == '0'
      && (forall i :: 5 <= i < 11 ==> IsUpper(s[i]) || IsDigit(s[i]))
  {
    IfscPieces(s);
    if |s| == 11 {
      AllInSlice(Upper, s, 0, 4);
      assert s[..4] == s[0..4];
      AllInSlice(UpperOrDigit, s, 5, 11);
      assert s[5..] == s[5..11];
    }
  }

  /** A class holds of a slice exactly when it holds at each of its positions. */
  lemma AllInSlice(cls: CharClass, s: string, lo: int, hi: int)
    requires 0 <= lo <= hi <= |s|
    ensures AllIn(cls, s[lo..hi]) <==> forall i :: lo <= i < hi ==> InClass(cls, s[i])
  {
    assert forall i :: lo <= i < hi ==> s[lo..hi][i - lo] == s[i];
  }

  /** The pattern admits no lower-case letter anywhere. */
  lemma IfscRejectsLowercase(s: string)
    requires Matches(IfscPattern, s)
    ensures forall i :: 0 <= i < |s| ==> !IsLower(s[i])
  {
    IfscAccepted(s);
    forall i | 0 <= i < |s|
      ensures !IsLower(s[i])
    {
      if i < 4 {
        assert IsUpper(s[i]);
      } else if i == 4 {
        assert s[i] == '0';
      } else {
        assert IsUpper(s[i]) || IsDigit(s[i]);
      }
    }
  }

  /** An account number is accepted exactly when it is nine to eighteen
      decimal digits. */
  lemma AccountNumberAccepted(s: string)
    ensures Matches(AccountNumberPattern, s) <==> 9 <= |s| <= 18 && AllDigits(s)
  {
    var p := AccountNumberPattern;
    assert p[1..] == [];
    if 9 <= |s| <= 18 && AllDigits(s) {
      assert s[..|s|] == s && s[|s|..] == [];
    }
    if Matches(p, s) {
      var k :| p[0].min <= k <= p[0].max && k <= |s|
        && AllIn(p[0].cls, s[..k]) && Matches(p[1..], s[k..]);
      assert s[k..] == [];
      assert s[..k] == s;
    }
  }

  /** The values the form holds when submitted. */
  datatype BankForm = BankForm(
    accountHolderName: string,
    ifscCode: string,
    accountNumber: string,
    confirmAccountNumber: string,
    bankName: string)

  datatype Field = AccountHolderName | IfscCode | AccountNumber | ConfirmAccountNumber | BankName

  /** The schema's rule for one field: `required` rejects the empty string,
      `matches` the pattern, `oneOf([ref("accountNumber")])` anything other
      than the account number. */
  predicate FieldValid(form: BankForm, field: Field)
  {
    match field
    case AccountHolderName => form.accountHolderName != ""
    case IfscCode => IfscMatches(form.ifscCode) && form.ifscCode != ""
    case AccountNumber => AccountNumberMatches(form.accountNumber) && form.accountNumber != ""
    case ConfirmAccountNumber =>
      form.confirmAccountNumber == form.accountNumber && form.confirmAccountNumber != ""
    case BankName => form.bankName != ""
  }

  /** The fields the resolver reports an error for. */
  function InvalidFields(form: BankForm): (invalid: set<Field>)
    ensures AccountHolderName in invalid <==> !FieldValid(form, AccountHolderName)
    ensures IfscCode in invalid <==> !FieldValid(form, IfscCode)
    ensures AccountNumber in invalid <==> !FieldValid(form, AccountNumber)
    ensures ConfirmAccountNumber in invalid <==> !FieldValid(form, ConfirmAccountNumber)
    ensures BankName in invalid <==> !FieldValid(form, BankName)
  {
    (if FieldValid(form, AccountHolderName) then {} else {AccountHolderName})
    + (if FieldValid(form, IfscCode) then {} else {IfscCode})
    + (if FieldValid(form, AccountNumber) then {} else {AccountNumber})
    + (if FieldValid(form, ConfirmAccountNumber) then {} else {ConfirmAccountNumber})
    + (if FieldValid(form, BankName) then {} else {BankName})
  }

  /** The whole schema, field rules spelled out: the form passes exactly when
      both names are non-empty, the IFSC code has its eleven-character shape,
      the account number is nine to eighteen digits and the confirmation
      repeats it. */
  lemma FormAccepted(form: BankForm)
    ensures InvalidFields(form) == {} <==>
      form.accountHolderName != "" && form.bankName != ""
      && |form.ifscCode| == 11
      && (forall i :: 0 <= i < 4 ==> IsUpper(form.ifscCode[i]))
      && form.ifscCode[4] == '0'
      && (forall i :: 5 <= i < 11 ==> IsUpper(form.ifscCode[i]) || IsDigit(form.ifscCode[i]))
      && 9 <= |form.accountNumber| <= 18 && AllDigits(form.accountNumber)
      && form.confirmAccountNumber == form.accountNumber
  {
    IfscAccepted(form.ifscCode);
    AccountNumberAccepted(form.accountNumber);
    if InvalidFields(form) == {} {
      assert FieldValid(form, AccountHolderName) && FieldValid(form, IfscCode)
        && FieldValid(form, AccountNumber) && FieldValid(form, ConfirmAccountNumber)
        && FieldValid(form, BankName);
    }
  }

  /** `onSubmit`'s payload: the holder's name under the key the backend
      expects (`accountHoldername`), the three other fields copied, the
      confirmation dropped. */
  function ToRequest(form: BankForm): (request: PaymentDetailsRequest)
    ensures request.accountHoldername == form.accountHolderName
    ensures request.accountNumber == form.accountNumber
    ensures request.ifscCode == form.ifscCode
    ensures request.bankName == form.bankName
  {
    PaymentDetailsRequest(form.accountNumber, form.accountHolderName, form.ifscCode, form.bankName)
  }

  /** `handleSubmit(onSubmit)`: the request is sent only when no field is in
      error. */
  function Submit(form: BankForm): (request: Option<PaymentDetailsRequest>)
    ensures request.Some? <==> InvalidFields(form) == {}
    ensures request.Some? ==> request.value == ToRequest(form)
  {
    if InvalidFields(form) == {} then Some(ToRequest(form)) else None
  }

  /** Every request the form sends carries a well-formed IFSC code and
      account number, and the posted body holds each field under its key. */
  lemma SubmittedRequestWellFormed(form: BankForm)
    requires Submit(form).Some?
    ensures var request := Submit(form).value;
      |request.ifscCode| == 11 && request.ifscCode[4] == '0'
      && (forall i :: 0 <= i < |request.ifscCode| ==> !IsLower(request.ifscCode[i]))
      && 9 <= |request.accountNumber| <= 18 && AllDigits(request.accountNumber)
      && ParseRequestBody(RequestBody(request)) == Some(request)
  {
    var request := Submit(form).value;
    assert FieldValid(form, IfscCode) && FieldValid(form, AccountNumber);
    IfscAccepted(request.ifscCode);
    IfscRejectsLowercase(request.ifscCode);
    AccountNumberAccepted(request.accountNumber);
  }
}
