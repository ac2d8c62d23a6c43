/**
 * The invoice server actions: the invoice form schema (customer, amount, status),
 * `createInvoice`, `updateInvoice`, `deleteInvoice`, and the login action
 * `authenticate`.
 */
module Invoices {
  import opened Pipeline

  // Messages written in the invoice schema and the actions.
  const CustomerIdMessage := "Please select a customer."
  const AmountMessage := "Please enter an amount greater than $0."
  const StatusMessage := "Please select an invoice status."
  const CreateFieldsMessage := "Missing Fields. Failed to Create Invoice."
  const UpdateFieldsMessage := "Missing Fields. Failed to Update Invoice."
  const CreateDatabaseMessage := "Database Error: Failed to Create Invoice."
  const InvoicesRoute := "/dashboard/invoices"

  /** The validation library's default message when the amount coerces to NaN. */
  const NotANumberMessage := "Expected number, received nan"

  /** The validation library's default message for a status string outside the enum. */
  function InvalidStatusMessage(received: string): string {
    "Invalid enum value. Expected 'pending' | 'paid', received '" + received + "'"
  }

  // ---------------------------------------------------------------------------
  // The schema
  // ---------------------------------------------------------------------------

  /** A JavaScript number, as far as the amount rule looks at it. */
  datatype JsNumber = NaN | PositiveInfinity | NegativeInfinity | Finite(value: real)

  /** The `gt(0)` check. */
  predicate IsPositive(n: JsNumber) {
    n.PositiveInfinity? || (n.Finite? && n.value > 0.0)
  }

  /**
   * `Number(x)` on what `formData.get` returned: `null` becomes 0 and a file NaN;
   * the conversion of a string is JavaScript's floating-point parse, a parameter.
   */
  function ToNumber(v: Option<EntryValue>, stringToNumber: string -> JsNumber): JsNumber {
    match v
    case None => Finite(0.0)
    case Some(Text(s)) => stringToNumber(s)
    case Some(File(_)) => NaN
  }

  datatype Status = Pending | Paid

  function StatusName(status: Status): string {
    match status
    case Pending => "pending"
    case Paid => "paid"
  }

  /** The typed record the schema yields. */
  datatype InvoiceData = InvoiceData(customerId: string, amount: JsNumber, status: Status)

  function CustomerIdRule(v: Option<EntryValue>): Result<string, string> {
    if IsText(v) then Ok(v.value.s) else Err(CustomerIdMessage)
  }

  function AmountRule(n: JsNumber): Result<JsNumber, string> {
    if n.NaN? then Err(NotANumberMessage)
    else if IsPositive(n) then Ok(n)
    else Err(AmountMessage)
  }

  function StatusRule(v: Option<EntryValue>): Result<Status, string> {
    if v == Some(Text("pending")) then Ok(Pending)
    else if v == Some(Text("paid")) then Ok(Paid)
    else if IsText(v) then Err(InvalidStatusMessage(v.value.s))
    else Err(StatusMessage)
  }

  /** The coerced amount of a submitted form. */
  function AmountOf(form: FormData, stringToNumber: string -> JsNumber): JsNumber {
    ToNumber(Get(form, "amount"), stringToNumber)
  }

  /** True when the submitted status is one of the two enum values. */
  predicate IsStatusValue(v: Option<EntryValue>) {
    v == Some(Text("pending")) || v == Some(Text("paid"))
  }

  /**
   * `safeParse` of the schema without `id` and `date`, followed on failure by
   * `error.flatten().fieldErrors`. The form is accepted exactly when the customer is
   * a string (any string, the empty one included), the amount coerces to a number
   * greater than 0 and the status is `pending` or `paid`; otherwise every failing
   * field, and only those, carries its one message.
   */
  function ValidateInvoice(form: FormData, stringToNumber: string -> JsNumber): (r: Result<InvoiceData, FieldErrors>)
    ensures r.Ok? <==> IsText(Get(form, "customerId")) && IsPositive(AmountOf(form, stringToNumber)) &&
                       IsStatusValue(Get(form, "status"))
    ensures r.Ok? ==> && Get(form, "customerId") == Some(Text(r.value.customerId))
                      && r.value.amount == AmountOf(form, stringToNumber)
                      && Get(form, "status") == Some(Text(StatusName(r.value.status)))
    ensures r.Err? ==> && r.error.Keys <= {"customerId", "amount", "status"}
                       && ("customerId" in r.error <==> !IsText(Get(form, "customerId")))
                       && ("amount" in r.error <==> !IsPositive(AmountOf(form, stringToNumber)))
                       && ("status" in r.error <==> !IsStatusValue(Get(form, "status")))
    ensures r.Err? && "customerId" in r.error ==> r.error["customerId"] == [CustomerIdMessage]
    ensures r.Err? && "amount" in r.error ==>
              r.error["amount"] == [if AmountOf(form, stringToNumber).NaN? then NotANumberMessage else AmountMessage]
    ensures r.Err? && "status" in r.error ==>
              r.error["status"] == [if IsText(Get(form, "status")) then InvalidStatusMessage(Get(form, "status").value.s)
                                    else StatusMessage]
  {
    var customerId := CustomerIdRule(Get(form, "customerId"));
    var amount := AmountRule(AmountOf(form, stringToNumber));
    var status := StatusRule(Get(form, "status"));
    if customerId.Ok? && amount.Ok? && status.Ok? then
      Ok(InvoiceData(customerId.value, amount.value, status.value))
    else
      FlattenThree("customerId", customerId, "amount", amount, "status", status);
      Err(Flatten(IssueOf("customerId", customerId) + IssueOf("amount", amount) + IssueOf("status", status)))
  }

  // ---------------------------------------------------------------------------
  // The actions
  // ---------------------------------------------------------------------------

  /**
   * The statements the actions send to the database. The amount column receives
   * `amount * 100`, a floating-point product this model does not compute.
   */
  datatype Statement =
    | Insert(invoice: InvoiceData, date: string)
    | Update(id: string, invoice: InvoiceData)
    | Delete(id: string)

  /**
   * `createInvoice`. `today` is the server's current date (a clock read); `stringToNumber`
   * is JavaScript's string-to-number conversion; `db` is how the database behaves.
   */
  method CreateInvoice(form: FormData, stringToNumber: string -> JsNumber, today: string, db: Database)
    returns (outcome: Outcome, effects: seq<Effect<Statement>>)
    ensures WellOrdered(outcome, effects)
    ensures var v := ValidateInvoice(form, stringToNumber);
            v.Err? ==> outcome == Returned(FormState(Some(v.error), Some(CreateFieldsMessage))) && effects == []
    ensures var v := ValidateInvoice(form, stringToNumber);
            v.Ok? && !db.QuerySucceeds? ==>
              && outcome == Returned(FormState(None, Some(CreateDatabaseMessage)))
              && effects == if db.QueryFails? then [Execute(Insert(v.value, today))] else []
    ensures var v := ValidateInvoice(form, stringToNumber);
            v.Ok? && db.QuerySucceeds? ==>
              && outcome == Redirected(InvoicesRoute)
              && effects == [Execute(Insert(v.value, today)), Revalidate(InvoicesRoute), Redirect(InvoicesRoute)]
  {
    effects := [];
    var validated := ValidateInvoice(form, stringToNumber);
    if validated.Err? {
      outcome := Returned(FormState(Some(validated.error), Some(CreateFieldsMessage)));
      return;
    }
    var statement := Insert(validated.value, today);
    // Creating the pool and running the query share one try block.
    if db.PoolCreationFails? {
      outcome := Returned(FormState(None, Some(CreateDatabaseMessage)));
      return;
    }
    effects := effects + [Execute(statement)];
    if db.QueryFails? {
      outcome := Returned(FormState(None, Some(CreateDatabaseMessage)));
      return;
    }
    effects := effects + [Revalidate(InvoicesRoute)];
    effects := effects + [Redirect(InvoicesRoute)];
    outcome := Redirected(InvoicesRoute);
  }

  /**
   * `updateInvoice`. The pool is created outside the try block, so its failure
   * propagates; a failing query is swallowed and the action still revalidates and
   * redirects.
   */
  method UpdateInvoice(id: string, form: FormData, stringToNumber: string -> JsNumber, db: Database)
    returns (outcome: Outcome, effects: seq<Effect<Statement>>)
    ensures WellOrdered(outcome, effects)
    ensures var v := ValidateInvoice(form, stringToNumber);
            v.Err? ==> outcome == Returned(FormState(Some(v.error), Some(UpdateFieldsMessage))) && effects == []
    ensures var v := ValidateInvoice(form, stringToNumber);
            v.Ok? && db.PoolCreationFails? ==> outcome == PoolErrorThrown && effects == []
    ensures var v := ValidateInvoice(form, stringToNumber);
            v.Ok? && !db.PoolCreationFails? ==>
              && outcome == Redirected(InvoicesRoute)
              && effects == [Execute(Update(id, v.value)), Revalidate(InvoicesRoute), Redirect(InvoicesRoute)]
  {
    effects := [];
    var validated := ValidateInvoice(form, stringToNumber);
    if validated.Err? {
      outcome := Returned(FormState(Some(validated.error), Some(UpdateFieldsMessage)));
      return;
    }
    if db.PoolCreationFails? {
      outcome := PoolErrorThrown;
      return;
    }
    // The query's failure, if any, is caught and only logged.
    effects := effects + [Execute(Update(id, validated.value))];
    effects := effects + [Revalidate(InvoicesRoute)];
    effects := effects + [Redirect(InvoicesRoute)];
    outcome := Redirected(InvoicesRoute);
  }

  /**
   * `deleteInvoice`: no validation; a failing query is swallowed; the invoices
   * route is revalidated either way and the action never redirects.
   */
  method DeleteInvoice(id: string, db: Database) returns (outcome: Outcome, effects: seq<Effect<Statement>>)
    ensures WellOrdered(outcome, effects)
    ensures db.PoolCreationFails? ==> outcome == PoolErrorThrown && effects == []
    ensures !db.PoolCreationFails? ==>
              outcome == ReturnedUndefined && effects == [Execute(Delete(id)), Revalidate(InvoicesRoute)]
  {
    effects := [];
    if db.PoolCreationFails? {
      outcome := PoolErrorThrown;
      return;
    }
    effects := effects + [Execute(Delete(id))];
    effects := effects + [Revalidate(InvoicesRoute)];
    outcome := ReturnedUndefined;
  }

  // ---------------------------------------------------------------------------
  // Login
  // ---------------------------------------------------------------------------

  const CredentialsSignin := "CredentialsSignin"
  const InvalidCredentialsMessage := "Invalid credentials."
  const SomethingWentWrongMessage := "Something went wrong."

  /** How `signIn('credentials', formData)` ends: normally, with an `AuthError` of some type, or with any other error. */
  datatype SignInOutcome = SignedIn | AuthError(errorType: string) | OtherError(description: string)

  /** What `authenticate` does: return a message (or `undefined`), or re-throw. */
  datatype AuthResult = AuthReturned(message: Option<string>) | AuthRethrown(error: SignInOutcome)

  /**
   * `authenticate`: a `CredentialsSignin` auth error becomes "Invalid credentials.",
   * any other auth error "Something went wrong.", any other error is re-thrown as
   * it is, and a normal sign-in returns nothing.
   */
  function Authenticate(signIn: SignInOutcome): (r: AuthResult)
    ensures r == AuthReturned(None) <==> signIn.SignedIn?
    ensures r == AuthReturned(Some(InvalidCredentialsMessage)) <==> signIn == AuthError(CredentialsSignin)
    ensures r == AuthReturned(Some(SomethingWentWrongMessage)) <==>
              signIn.AuthError? && signIn.errorType != CredentialsSignin
    ensures r.AuthRethrown? <==> signIn.OtherError?
    ensures r.AuthRethrown? ==> r.error == signIn
  {
    match signIn
    case SignedIn => AuthReturned(None)
    case AuthError(errorType) =>
      if errorType == CredentialsSignin then AuthReturned(Some(InvalidCredentialsMessage))
      else AuthReturned(Some(SomethingWentWrongMessage))
    case OtherError(_) => AuthRethrown(signIn)
  }
}
