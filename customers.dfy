/**
 * The customer server action: the customer form schema (name, email, image URL,
 * the latter checked against the pattern `^/\w+$`) and `createCustomer`.
 */
module Customers {
  import opened Pipeline

  // Messages written in the customer schema and the action.
  const NameMessage := "Please enter a name."
  const EmailMessage := "Please enter a valid email."
  const ImageTypeMessage := "Please select an image like /customers/evil-rabbit.png"
  const ImagePatternMessage := "String must start with a \"/\" followed by alphanumeric characters (no spaces)"
  const CreateFieldsMessage := "Missing Fields. Failed to Create Customer."
  const CreateDatabaseMessage := "Database Error: Failed to Create Customer."
  const CustomersRoute := "/dashboard/customers"

  // ---------------------------------------------------------------------------
  // The image URL pattern ^/\w+$
  // ---------------------------------------------------------------------------

  /** `\w` in a JavaScript regular expression without the `u` flag. */
  predicate IsWordChar(c: char) {
    'A' <= c <= 'Z' || 'a' <= c <= 'z' || '0' <= c <= '9' || c == '_'
  }

  /** What `^/\w+$` accepts: a slash, then one or more word characters, then the end. */
  predicate IsImagePath(s: string) {
    |s| >= 2 && s[0] == '/' && forall i :: 1 <= i < |s| ==> IsWordChar(s[i])
  }

  /** The states of a matcher for `^/\w+$`, fed one character at a time. */
  datatype MatchState = AtStart | AfterSlash | InWord | Failed

  function Step(q: MatchState, c: char): MatchState {
    match q
    case AtStart => if c == '/' then AfterSlash else Failed
    case AfterSlash => if IsWordChar(c) then InWord else Failed
    case InWord => if IsWordChar(c) then InWord else Failed
    case Failed => Failed
  }

  function Run(q: MatchState, s: string): MatchState
    decreases |s|
  {
    if s == [] then q else Run(Step(q, s[0]), s[1..])
  }

  /** `regex.test(s)`: the whole input is consumed and the matcher ends inside the word. */
  predicate MatchesImagePattern(s: string) {
    Run(AtStart, s) == InWord
  }

  lemma {:induction false} RunFromFailed(s: string)
    ensures Run(Failed, s) == Failed
    decreases |s|
  {
    if s != [] {
      RunFromFailed(s[1..]);
    }
  }

  lemma {:induction false} RunOverWord(q: MatchState, s: string)
    requires q == AfterSlash || q == InWord
    ensures Run(q, s) == InWord <==> (q == InWord || s != []) && forall i :: 0 <= i < |s| ==> IsWordChar(s[i])
    decreases |s|
  {
    if s != [] {
      if IsWordChar(s[0]) {
        RunOverWord(InWord, s[1..]);
        assert forall i :: 1 <= i < |s| ==> s[i] == s[1..][i - 1];
      } else {
        RunFromFailed(s[1..]);
      }
    }
  }

  /** The matcher accepts exactly the strings the pattern denotes. */
  lemma ImagePatternMeaning(s: string)
    ensures MatchesImagePattern(s) <==> IsImagePath(s)
  {
    if s == [] {
    } else if s[0] == '/' {
      RunOverWord(AfterSlash, s[1..]);
      assert forall i :: 1 <= i < |s| ==> s[i] == s[1..][i - 1];
    } else {
      RunFromFailed(s[1..]);
    }
  }

  /** Accepted and rejected image paths. */
  lemma ImagePatternExamples()
    ensures IsImagePath("/abc_1")
    ensures !IsImagePath("no-slash") && !IsImagePath("/") && !IsImagePath("/has space") && !IsImagePath("/a.png")
    ensures !IsImagePath("/abc\n")
  {
    assert "/has space"[4] == ' ';
    assert "/a.png"[2] == '.';
    assert "/abc\n"[4] == '\n';
  }

  /** The example path that the type-error message suggests is itself rejected by the pattern. */
  lemma ImageTypeHintRejected()
    ensures ImageTypeMessage[28..] == "/customers/evil-rabbit.png"
    ensures !IsImagePath(ImageTypeMessage[28..])
  {
    assert ImageTypeMessage[28..][10] == '/';
  }

  // ---------------------------------------------------------------------------
  // The schema
  // ---------------------------------------------------------------------------

  /** The typed record the schema yields. */
  datatype CustomerData = CustomerData(name: string, email: string, imageUrl: string)

  function NameRule(v: Option<EntryValue>): Result<string, string> {
    if IsText(v) then Ok(v.value.s) else Err(NameMessage)
  }

  function EmailRule(v: Option<EntryValue>, isEmail: string -> bool): Result<string, string> {
    if !IsText(v) then Err(ExpectedStringMessage(v))
    else if isEmail(v.value.s) then Ok(v.value.s)
    else Err(EmailMessage)
  }

  function ImageUrlRule(v: Option<EntryValue>): Result<string, string> {
    if !IsText(v) then Err(ImageTypeMessage)
    else if MatchesImagePattern(v.value.s) then Ok(v.value.s)
    else Err(ImagePatternMessage)
  }

  /** True when the submitted email is a string the library's email check accepts. */
  predicate EmailAccepted(v: Option<EntryValue>, isEmail: string -> bool) {
    IsText(v) && isEmail(v.value.s)
  }

  /** True when the submitted image URL is a string of the form `^/\w+$`. */
  predicate ImageUrlAccepted(v: Option<EntryValue>) {
    IsText(v) && IsImagePath(v.value.s)
  }

  /**
   * `safeParse` of the schema without `id`, followed on failure by
   * `error.flatten().fieldErrors`. The form is accepted exactly when the name is a
   * string (the empty one included), the email is a string that `isEmail` accepts
   * and the image URL is a string of the form `^/\w+$`; otherwise every failing
   * field, and only those, carries its one message. `isEmail` is the validation
   * library's email check.
   */
  function ValidateCustomer(form: FormData, isEmail: string -> bool): (r: Result<CustomerData, FieldErrors>)
    ensures r.Ok? <==> IsText(Get(form, "name")) && EmailAccepted(Get(form, "email"), isEmail) &&
                       ImageUrlAccepted(Get(form, "image_url"))
    ensures r.Ok? ==> && Get(form, "name") == Some(Text(r.value.name))
                      && Get(form, "email") == Some(Text(r.value.email))
                      && Get(form, "image_url") == Some(Text(r.value.imageUrl))
    ensures r.Err? ==> && r.error.Keys <= {"name", "email", "image_url"}
                       && ("name" in r.error <==> !IsText(Get(form, "name")))
                       && ("email" in r.error <==> !EmailAccepted(Get(form, "email"), isEmail))
                       && ("image_url" in r.error <==> !ImageUrlAccepted(Get(form, "image_url")))
    ensures r.Err? && "name" in r.error ==> r.error["name"] == [NameMessage]
    ensures r.Err? && "email" in r.error ==>
              r.error["email"] == [if IsText(Get(form, "email")) then EmailMessage
                                   else ExpectedStringMessage(Get(form, "email"))]
    ensures r.Err? && "image_url" in r.error ==>
              r.error["image_url"] == [if IsText(Get(form, "image_url")) then ImagePatternMessage else ImageTypeMessage]
  {
    var name := NameRule(Get(form, "name"));
    var email := EmailRule(Get(form, "email"), isEmail);
    var imageUrl := ImageUrlRule(Get(form, "image_url"));
    ImagePatternMeaning(if IsText(Get(form, "image_url")) then Get(form, "image_url").value.s else "");
    if name.Ok? && email.Ok? && imageUrl.Ok? then
      Ok(CustomerData(name.value, email.value, imageUrl.value))
    else
      FlattenThree("name", name, "email", email, "image_url", imageUrl);
      Err(Flatten(IssueOf("name", name) + IssueOf("email", email) + IssueOf("image_url", imageUrl)))
  }

  // ---------------------------------------------------------------------------
  // The action
  // ---------------------------------------------------------------------------

  /** The statement the action sends to the database. */
  datatype Statement = Insert(customer: CustomerData)

  /**
   * `createCustomer`: validate, then insert, then revalidate and redirect, with an
   * early return on each of the two failure paths. `isEmail` is the validation
   * library's email check; `db` is how the database behaves.
   */
  method CreateCustomer(form: FormData, isEmail: string -> bool, db: Database)
    returns (outcome: Outcome, effects: seq<Effect<Statement>>)
    ensures WellOrdered(outcome, effects)
    ensures var v := ValidateCustomer(form, isEmail);
            v.Err? ==> outcome == Returned(FormState(Some(v.error), Some(CreateFieldsMessage))) && effects == []
    ensures var v := ValidateCustomer(form, isEmail);
            v.Ok? && !db.QuerySucceeds? ==>
              && outcome == Returned(FormState(None, Some(CreateDatabaseMessage)))
              && effects == if db.QueryFails? then [Execute(Insert(v.value))] else []
    ensures var v := ValidateCustomer(form, isEmail);
            v.Ok? && db.QuerySucceeds? ==>
              && outcome == Redirected(CustomersRoute)
              && effects == [Execute(Insert(v.value)), Revalidate(CustomersRoute), Redirect(CustomersRoute)]
  {
    effects := [];
    var validated := ValidateCustomer(form, isEmail);
    if validated.Err? {
      outcome := Returned(FormState(Some(validated.error), Some(CreateFieldsMessage)));
      return;
    }
    // Creating the pool and running the query share one try block.
    if db.PoolCreationFails? {
      outcome := Returned(FormState(None, Some(CreateDatabaseMessage)));
      return;
    }
    effects := effects + [Execute(Insert(validated.value))];
    if db.QueryFails? {
      outcome := Returned(FormState(None, Some(CreateDatabaseMessage)));
      return;
    }
    effects := effects + [Revalidate(CustomersRoute)];
    effects := effects + [Redirect(CustomersRoute)];
    outcome := Redirected(CustomersRoute);
  }
}
