/**
 * The pieces shared by every server action of the dashboard: the submitted form
 * (`FormData.get`), the validation library's issue list and its flattening into a
 * field-error map, the `FormState` an action returns, and the trace of external
 * effects (database statement, cache revalidation, redirect) an action produces.
 */
module Pipeline {

  datatype Option<+T> = None | Some(value: T)

  datatype Result<+T, +E> = Ok(value: T) | Err(error: E)

  // ---------------------------------------------------------------------------
  // Submitted form data
  // ---------------------------------------------------------------------------

  /** A value a browser submits under a form field name: text or an uploaded file. */
  datatype EntryValue = Text(s: string) | File(fileName: string)

  datatype Entry = Entry(name: string, value: EntryValue)

  /** A submitted form: its entries in submission order; a name may repeat. */
  type FormData = seq<Entry>

  /**
   * `formData.get(name)`: the value of the first entry named `name`, or `None`
   * (JavaScript `null`) when the form has no such entry.
   */
  function Get(form: FormData, name: string): (r: Option<EntryValue>)
    ensures r.None? <==> forall i :: 0 <= i < |form| ==> form[i].name != name
    ensures r.Some? ==> exists i :: 0 <= i < |form| && form[i] == Entry(name, r.value) &&
                                    forall j :: 0 <= j < i ==> form[j].name != name
  {
    if form == [] then None
    else if form[0].name == name then Some(form[0].value)
    else
      var r := Get(form[1..], name);
      assert forall i :: 1 <= i < |form| ==> form[i] == form[1..][i - 1];
      r
  }

  /** True when `formData.get` produced a string. */
  predicate IsText(v: Option<EntryValue>) {
    v.Some? && v.value.Text?
  }

  /**
   * The validation library's default message for a field that must be a string but
   * received `v` (`null` or a file, which it classifies as an object).
   */
  function ExpectedStringMessage(v: Option<EntryValue>): string {
    if v.None? then "Expected string, received null" else "Expected string, received object"
  }

  // ---------------------------------------------------------------------------
  // Validation issues and the flattened field-error map
  // ---------------------------------------------------------------------------

  /** One failed rule: the field it concerns and its message. */
  datatype Issue = Issue(field: string, message: string)

  /** Field name to the messages of its failed rules, in the order they were raised. */
  type FieldErrors = map<string, seq<string>>

  /** The issue, if any, that a field rule's verdict contributes. */
  function IssueOf<T>(field: string, verdict: Result<T, string>): (r: seq<Issue>)
    ensures verdict.Ok? <==> r == []
    ensures verdict.Err? ==> r == [Issue(field, verdict.error)]
  {
    if verdict.Ok? then [] else [Issue(field, verdict.error)]
  }

  /** Reference definition: the messages of the issues about `field`, in order. */
  function MessagesFor(issues: seq<Issue>, field: string): seq<string> {
    if issues == [] then []
    else (if issues[0].field == field then [issues[0].message] else []) + MessagesFor(issues[1..], field)
  }

  /** The fields some issue is about. */
  function IssueFields(issues: seq<Issue>): set<string> {
    set i | 0 <= i < |issues| :: issues[i].field
  }

  lemma {:induction false} MessagesForAppend(a: seq<Issue>, b: seq<Issue>, field: string)
    ensures MessagesFor(a + b, field) == MessagesFor(a, field) + MessagesFor(b, field)
    decreases |a|
  {
    if a == [] {
      assert a + b == b;
    } else {
      assert (a + b)[1..] == a[1..] + b;
      MessagesForAppend(a[1..], b, field);
    }
  }

  lemma {:induction false} MessagesForEmpty(issues: seq<Issue>, field: string)
    ensures MessagesFor(issues, field) == [] <==> field !in IssueFields(issues)
    decreases |issues|
  {
    if issues != [] {
      MessagesForEmpty(issues[1..], field);
      assert IssueFields(issues) == {issues[0].field} + IssueFields(issues[1..]) by {
        forall i | 1 <= i < |issues| ensures issues[i].field == issues[1..][i - 1].field { }
        forall f | f in IssueFields(issues[1..]) ensures f in IssueFields(issues) {
          var i :| 0 <= i < |issues[1..]| && issues[1..][i].field == f;
          assert issues[i + 1].field == f;
        }
      }
    }
  }

  lemma IssueFieldsSnoc(init: seq<Issue>, last: Issue)
    ensures IssueFields(init + [last]) == IssueFields(init) + {last.field}
  {
    var issues := init + [last];
    assert issues[|init|].field == last.field;
    forall f | f in IssueFields(init) ensures f in IssueFields(issues) {
      var i :| 0 <= i < |init| && init[i].field == f;
      assert issues[i].field == f;
    }
  }

  lemma MessagesForSnoc(init: seq<Issue>, last: Issue, field: string)
    ensures MessagesFor(init + [last], field) ==
            MessagesFor(init, field) + (if last.field == field then [last.message] else [])
  {
    MessagesForAppend(init, [last], field);
    assert [last][1..] == [];
  }

  /** Appending one issue's message to the list of its field. */
  function AddIssue(errors: FieldErrors, issue: Issue): FieldErrors {
    errors[issue.field := (if issue.field in errors then errors[issue.field] else []) + [issue.message]]
  }

  lemma AddIssueKeepsMeaning(init: seq<Issue>, prior: FieldErrors, last: Issue)
    requires prior.Keys == IssueFields(init)
    requires forall f :: f in prior ==> prior[f] == MessagesFor(init, f)
    ensures AddIssue(prior, last).Keys == IssueFields(init + [last])
    ensures forall f :: f in AddIssue(prior, last) ==>
              AddIssue(prior, last)[f] == MessagesFor(init + [last], f) && AddIssue(prior, last)[f] != []
  {
    var r := AddIssue(prior, last);
    IssueFieldsSnoc(init, last);
    forall f | f in r ensures r[f] == MessagesFor(init + [last], f) && r[f] != [] {
      MessagesForSnoc(init, last, f);
      MessagesForEmpty(init, f);
    }
  }

  /**
   * `error.flatten().fieldErrors`: walks the issues in order and appends each message
   * to the list of its field. Every field with an issue gets exactly its messages, in
   * order, and no other field appears.
   */
  function Flatten(issues: seq<Issue>): (r: FieldErrors)
    ensures r.Keys == IssueFields(issues)
    ensures forall f :: f in r ==> r[f] == MessagesFor(issues, f) && r[f] != []
    decreases |issues|
  {
    if issues == [] then map[]
    else
      var init, last := issues[..|issues| - 1], issues[|issues| - 1];
      assert issues == init + [last];
      AddIssueKeepsMeaning(init, Flatten(init), last);
      AddIssue(Flatten(init), last)
  }

  /**
   * The field-error map of a schema whose three fields are checked in order, each
   * contributing at most one message: exactly the failing fields appear, each with
   * its own rule's message, however many of them fail.
   */
  lemma FlattenThree<A, B, C>(f1: string, v1: Result<A, string>,
                              f2: string, v2: Result<B, string>,
                              f3: string, v3: Result<C, string>)
    requires f1 != f2 && f1 != f3 && f2 != f3
    ensures var e := Flatten(IssueOf(f1, v1) + IssueOf(f2, v2) + IssueOf(f3, v3));
            && e.Keys <= {f1, f2, f3}
            && (f1 in e <==> v1.Err?) && (f2 in e <==> v2.Err?) && (f3 in e <==> v3.Err?)
            && (v1.Err? ==> e[f1] == [v1.error])
            && (v2.Err? ==> e[f2] == [v2.error])
            && (v3.Err? ==> e[f3] == [v3.error])
  {
    var i1, i2, i3 := IssueOf(f1, v1), IssueOf(f2, v2), IssueOf(f3, v3);
    var issues := i1 + i2 + i3;
    IssueFieldsAppend(i1 + i2, i3);
    IssueFieldsAppend(i1, i2);
    MessagesForThree(i1, i2, i3, f1);
    MessagesForThree(i1, i2, i3, f2);
    MessagesForThree(i1, i2, i3, f3);
  }

  lemma IssueFieldsAppend(a: seq<Issue>, b: seq<Issue>)
    ensures IssueFields(a + b) == IssueFields(a) + IssueFields(b)
  {
    forall f | f in IssueFields(a) ensures f in IssueFields(a + b) {
      var i :| 0 <= i < |a| && a[i].field == f;
      assert (a + b)[i].field == f;
    }
    forall f | f in IssueFields(b) ensures f in IssueFields(a + b) {
      var i :| 0 <= i < |b| && b[i].field == f;
      assert (a + b)[|a| + i].field == f;
    }
  }

  lemma MessagesForThree(i1: seq<Issue>, i2: seq<Issue>, i3: seq<Issue>, f: string)
    ensures MessagesFor(i1 + i2 + i3, f) == MessagesFor(i1, f) + MessagesFor(i2, f) + MessagesFor(i3, f)
  {
    MessagesForAppend(i1 + i2, i3, f);
    MessagesForAppend(i1, i2, f);
  }

  // ---------------------------------------------------------------------------
  // What an action hands back, and what it does to the outside world
  // ---------------------------------------------------------------------------

  /** The `FormState` an action returns: optional field errors, optional banner. */
  datatype FormState = FormState(errors: Option<FieldErrors>, message: Option<string>)

  /**
   * How an action ends: it returns a `FormState`, returns `undefined`, ends the
   * request with a redirect (the framework's `redirect` throws to navigate), or
   * lets the database pool's construction error propagate to its caller.
   */
  datatype Outcome =
    | Returned(state: FormState)
    | ReturnedUndefined
    | Redirected(path: string)
    | PoolErrorThrown

  /** An external effect, in the order the action performs it. */
  datatype Effect<S> =
    | Execute(statement: S)   // the pool runs one SQL statement
    | Revalidate(path: string) // the cached view of a route is marked stale
    | Redirect(path: string)   // navigation to a route; terminal for the request

  /** What the database does when an action reaches it (abstract success/failure). */
  datatype Database = PoolCreationFails | QueryFails | QuerySucceeds

  function Last<S>(effects: seq<Effect<S>>): Effect<S>
    requires effects != []
  {
    effects[|effects| - 1]
  }

  /**
   * The effect discipline every action keeps: at most one statement runs, and
   * before anything else; a redirect is the last effect, directly after the
   * revalidation of the same route; and the action ends by navigating exactly when
   * its last effect is a redirect to that route.
   */
  predicate WellOrdered<S>(outcome: Outcome, effects: seq<Effect<S>>) {
    && (forall i :: 0 <= i < |effects| && effects[i].Execute? ==> i == 0)
    && (forall i :: 0 <= i < |effects| && effects[i].Redirect? ==>
          i == |effects| - 1 && 0 < i && effects[i - 1] == Revalidate(effects[i].path))
    && (outcome.Redirected? ==> effects != [] && Last(effects) == Redirect(outcome.path))
    && (effects != [] && Last(effects).Redirect? ==> outcome == Redirected(Last(effects).path))
  }
}
