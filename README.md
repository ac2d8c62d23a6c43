# Validated mutation pipeline of the invoices/customers dashboard

This project models the server actions of a Next.js administration dashboard:
the code that takes a submitted form, validates it against a Zod schema, runs one
database statement, and then reports back with a `FormState`, revalidates a
route's cache and redirects. It also models the login action's classification of
sign-in failures.

- `pipeline.dfy` (module `Pipeline`): `FormData.get`, the validation library's issue
  list and its flattening into a field-error map (`error.flatten().fieldErrors`),
  the `FormState` an action returns, how an action ends (`Outcome`), the trace of
  external effects (`Execute`, `Revalidate`, `Redirect`) and the effect discipline
  every action keeps (`WellOrdered`).
- `invoices.dfy` (module `Invoices`): the invoice schema, `createInvoice`,
  `updateInvoice`, `deleteInvoice` and `authenticate` of `app/lib/actions.ts`.
- `customers.dfy` (module `Customers`): the customer schema, including a matcher
  for the image URL pattern `^/\w+$` proved equal to its plain reading, and
  `createCustomer` of `app/lib/customerActions.ts`.

The schemas are pure functions; each action is a method that follows the source's
statement sequence with its early returns and returns the outcome together with
the effects it performed, in order. The collaborators the actions call are
inputs: the database is one of `PoolCreationFails`, `QueryFails`,
`QuerySucceeds`; `signIn` is one of `SignedIn`, `AuthError(type)`,
`OtherError`; JavaScript's string-to-number conversion and the library's email
check are function parameters; the server's current date is a string parameter.

Where the code departs from what the dashboard is documented to do, the model
follows the code:

- `customerId` and `name` only need to be strings: the empty string is accepted.
- `status` gets "Please select an invoice status." only when it is missing or not a
  string. A string other than `pending`/`paid` gets the library's own enum message,
  "Invalid enum value. Expected 'pending' | 'paid', received '...'".
- An amount that coerces to NaN gets the library's own message,
  "Expected number, received nan", not the `gt(0)` message. A missing amount
  coerces to 0 and gets the `gt(0)` message.
- A missing or non-string `email` gets the library's "Expected string, received
  null" (or "... object" for a file), since that field has no custom type message.
- In `updateInvoice` and `deleteInvoice` the pool is created outside the `try`, so a
  pool-construction error propagates (`PoolErrorThrown`) with no effects. In the
  two create actions it is inside the `try` and yields the database-error message.
- The statements interpolate user input into SQL text; no parameterised form exists
  in the code, so none is modelled.
- The image-type message suggests `/customers/evil-rabbit.png`, which the pattern
  itself rejects (`Customers.ImageTypeHintRejected`).

## Model

| member | source | states |
|---|---|---|
| `Pipeline.Get` | app/lib/actions.ts:36-40 | `formData.get` gives the value of the first entry with that name, and `null` exactly when no entry has it |
| `Pipeline.Flatten` | app/lib/actions.ts:47 | the flattened field errors have exactly the fields that have an issue, each with all of its messages in the order they were raised |
| `Pipeline.FlattenThree` | app/lib/customerActions.ts:35-47 | for a three-field schema every failing field is reported, with its own message, however many fail, and no passing field appears |
| `Invoices.ValidateInvoice` | app/lib/actions.ts:10-40 | the invoice form is accepted iff customerId is a string, the coerced amount is greater than 0 and status is `pending` or `paid`; the typed record holds those values; on failure exactly the failing fields carry "Please select a customer.", "Please enter an amount greater than $0." (or the NaN message), "Please select an invoice status." (or the enum message) |
| `Invoices.CreateInvoice` | app/lib/actions.ts:35-81 | a validation failure returns the field errors with "Missing Fields. Failed to Create Invoice." and no effects; a database failure returns only "Database Error: Failed to Create Invoice." with no revalidate or redirect; success inserts, then revalidates and then redirects to `/dashboard/invoices` without returning a `FormState` |
| `Invoices.UpdateInvoice` | app/lib/actions.ts:89-123 | a validation failure returns "Missing Fields. Failed to Update Invoice." and no effects; a failing query is swallowed and the action still updates, revalidates and redirects to `/dashboard/invoices`; a pool-construction error propagates with no effects |
| `Invoices.DeleteInvoice` | app/lib/actions.ts:126-141 | the delete runs and `/dashboard/invoices` is revalidated whether or not the query succeeded; it never redirects and returns nothing; a pool-construction error propagates with no effects |
| `Invoices.Authenticate` | app/lib/actions.ts:144-160 | an AuthError of type `CredentialsSignin` gives exactly "Invalid credentials.", any other AuthError exactly "Something went wrong.", any other error is re-thrown unchanged, a normal sign-in returns nothing |
| `Customers.ImagePatternMeaning` | app/lib/customerActions.ts:18 | the matcher for `^/\w+$` accepts exactly a `/` followed by one or more of `[A-Za-z0-9_]` and nothing else |
| `Customers.ImagePatternExamples` | app/lib/customerActions.ts:18-20 | `/abc_1` matches; `no-slash`, `/`, `/has space`, `/a.png` and a path with a trailing newline do not |
| `Customers.ImageTypeHintRejected` | app/lib/customerActions.ts:15-18 | the example path in the image-type message does not match the image pattern |
| `Customers.ValidateCustomer` | app/lib/customerActions.ts:9-39 | the customer form is accepted iff name is a string, email is a string the email check accepts and image_url is a string matching `^/\w+$`; on failure exactly the failing fields carry "Please enter a name.", "Please enter a valid email." (or the library's type message) and the pattern message `String must start with a "/" followed by alphanumeric characters (no spaces)` (or the image-type message) |
| `Customers.CreateCustomer` | app/lib/customerActions.ts:34-78 | a validation failure returns the field errors with "Missing Fields. Failed to Create Customer." and no effects; a database failure returns only "Database Error: Failed to Create Customer."; success inserts, revalidates and then redirects to `/dashboard/customers` |

## Left out

- The amount conversion: `Number(string)` is a floating-point parse and `amount * 100`
  a floating-point product; the model takes the parse as a parameter and records the
  validated amount in the statement, not the cents value.
- The email grammar of the validation library: a parameter `isEmail`.
- The server's current date in `createInvoice`: a clock read, given as a parameter.
- The SQL text and the connection string: a statement is recorded as the typed
  record it carries.
- Console logging, and the framework internals of `revalidatePath`, `redirect` and
  `signIn` (session handling); `revalidatePath` and `redirect` are trace events, and
  `redirect` ends the action.
- The unused `prevState` parameter of every action.
- The client-side customer form (`app/ui/customers/create-form.tsx`) and the customer
  pages: rendering and data fetching for display. The form takes any response
  without `errors`, a database-error response included, down its success branch.
- Concurrency and duplicate submissions: the actions have no such handling.
