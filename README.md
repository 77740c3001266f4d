# Pizza order form: validation and state transitions

This project models the order form of a small pizza-ordering front end
(`frontend/components/Form.js`). The form keeps four pieces of state: the
draft order (`fullName`, `size`, `toppings`), the per-field error map, a
submitting flag and the thank-you message. It has these parts:

- a declarative schema. The name must be 3 to 20 characters long and is
  required. The size is one of `S`, `M`, `L` and is required. At least one
  topping must be selected. Each rule has a fixed message, and validation
  reports every failing rule instead of stopping at the first;
- a change handler that overwrites one field of the draft;
- a checkbox handler that appends a topping when checked and filters every
  occurrence of it out when unchecked;
- an eligibility gate that enables the submit button. It checks only the
  name's lower bound and the size;
- a submit workflow. On success it clears the errors, builds the thank-you
  message and resets the draft. On failure it writes one error per failing
  path, where a later message for a path overwrites an earlier one, and keeps
  the draft.

Modules:

- `Draft` (`draft.dfy`): the field names, the draft record, the topping
  catalog and the list operations of the checkbox handler.
- `Validation` (`validation.dfy`): the schema as a list of failures, the
  error map folded from them (`ErrorMapOf`, `Validate`) and the gate
  (`Eligible`).
- `Message` (`message.dfy`): the thank-you message, including the decimal
  rendering of the topping count and a parser that reads the count back.
- `Form` (`form.dfy`): the `OrderForm` class with the component's four
  state fields and its handlers, and the loop that fills the error map.

Modelling choices that follow the code:

- Nothing is trimmed. The length bounds, the gate at Form.js:118 and the
  message at Form.js:78 all use the name as typed.
- Toppings are a list (Form.js:38, 58, 63). A check appends the name and an
  uncheck filters out every occurrence. Each checkbox is rendered as checked
  exactly when its topping is in the list (Form.js:168), so the UI sends an
  uncheck only for a selected topping and a check only for an unselected one.
  `ToggleKeepsWellFormed` proves that, driven that way, the list holds only
  catalog names and never a duplicate.
- The error map is left as it is until validation finishes (Form.js:72-76).
  On a failed submit it is replaced by the failures' map, and the previous
  thank-you message stays (Form.js:95-101).
- The schema requires at least one topping (Form.js:22). So the draft
  `"Al"`, `M`, no toppings is reported under both `fullName` and `toppings`
  (`ShortNameNoToppings`).
- Validation runs only on submit (Form.js:70-73). The change handlers do not
  touch the error map.

The order of failures within one field is the model's own choice. `Failures`
lists each field's failing rules in the order they are declared (Form.js:13-22),
with `required` last. The validation library decides the real order, and that
library is not part of this model. The empty name breaks both the minimum
length and `required`, and the empty size breaks both the option list and
`required`. For those two cases, the field lemmas (`FullNameRule`,
`SizeRule`) claim only that the message is one of that field's own messages.
`HandleSubmit` says more, because its failing branch sets `errors` to
`Validate(old(formData))`. So for an empty name or an empty size, the exact
message it records (the `required` one) depends on this chosen order.
This matters only for a submit the UI blocks. The submit button is disabled
unless the gate holds (Form.js:178), and the gate rules out an empty name and
an empty size. `EligibleErrors` proves that for every draft the gate lets
through, no field breaks two rules, so the error map does not depend on the
order.

## Model

| member | source | states |
|---|---|---|
| `Validation.FullNameFailures` | frontend/components/Form.js:13-16 | the name's failures are all reported under fullName with one of its three messages, and there are none iff the untrimmed length is in [3, 20] |
| `Validation.SizeFailures` | frontend/components/Form.js:18-20 | the size's failures are all reported under size with one of its two messages, and there are none iff the size is exactly "S", "M" or "L" |
| `Validation.ToppingsFailures` | frontend/components/Form.js:22 | every toppings failure is the toppings path with "At least one topping must be selected", and there is none iff at least one topping is selected |
| `Validation.Failures` | frontend/components/Form.js:12-23 | the full pass reports no failure iff the draft meets all three fields' rules |
| `Validation.ErrorMapOf` | frontend/components/Form.js:97-100 | the map written from a list of failures has exactly one key per reported path |
| `Validation.Validate` | frontend/components/Form.js:72-73 | the validation map is empty iff the draft meets all three fields' rules |
| `Validation.FullNameRule` | frontend/components/Form.js:13-16 | the name gets no error iff its untrimmed length is in [3, 20]; 1-2 characters give the too-short message, over 20 the too-long message, and the empty name gets the too-short or the required message |
| `Validation.SizeRule` | frontend/components/Form.js:18-20 | the size gets no error iff it is exactly "S", "M" or "L"; any other non-empty value gives "size must be S or M or L", and "" gets that message or "Size is required" |
| `Validation.ToppingsRule` | frontend/components/Form.js:22 | the toppings get an error iff the list is empty, and that error is "At least one topping must be selected" |
| `Validation.FieldEntries` | frontend/components/Form.js:12-23 | each field appears in the validation map iff one of its own rules fails, and holds the last message among that field's failures |
| `Validation.ErrorMapLastWins` | frontend/components/Form.js:98-99 | the message kept for a path is that of a failure with that path after which no failure reports the same path |
| `Validation.ErrorMapAppend` | frontend/components/Form.js:98-99 | writing two lists of failures in turn gives the union of their maps, the later list winning on shared paths |
| `Validation.FieldErrorMap` | frontend/components/Form.js:98-99 | failures that all share one path give the empty map when there are none, and otherwise that path alone, holding the last failure's message |
| `Validation.ValidateSplits` | frontend/components/Form.js:12-23 | the validation map is the union of the name, size and toppings maps taken separately |
| `Validation.Eligible` | frontend/components/Form.js:118 | the gate holds iff the untrimmed name has at least 3 characters and the size breaks none of its schema rules |
| `Form.OrderForm.IsFormValid` | frontend/components/Form.js:118 | the submit button is enabled iff the current name has at least 3 characters and the current size has no validation error |
| `Validation.EligibleIff` | frontend/components/Form.js:118 | the submit gate holds iff the untrimmed name has at least 3 characters and the size has no schema error |
| `Validation.ValidIsEligible` | frontend/components/Form.js:118 | every draft the schema accepts passes the submit gate |
| `Validation.EligibleButRejected` | frontend/components/Form.js:118 | an eligible draft fails the schema iff its name is over 20 characters or it has no toppings |
| `Validation.EligibleErrors` | frontend/components/Form.js:118 | for a draft the gate lets through, the name breaks at most one rule and the size none, and the validation map is exactly the too-long name entry (if the name is over 20 characters) together with the toppings entry (if none are selected) |
| `Validation.ShortNameNoToppings` | frontend/components/Form.js:13-22 | the draft "Al", M, no toppings gets exactly the too-short name error and the toppings error |
| `Validation.NoSizeNotEligible` | frontend/components/Form.js:118 | "Bob" with no size has no name error but fails the gate |
| `Draft.CatalogTexts` | frontend/components/Form.js:26-32 | the checkbox names are the catalog's topping texts, in catalog order, with no duplicates |
| `Draft.Without` | frontend/components/Form.js:63 | the filtered list no longer holds the topping, is no longer than before, and holds only values from the original list |
| `Draft.Toggled` | frontend/components/Form.js:55-65 | a check gives the old list with the topping appended at the end; an uncheck gives a list without the topping that still holds every other selected value |
| `Draft.WithoutRemovesExactly` | frontend/components/Form.js:63 | unchecking keeps the number of occurrences of every value other than the unchecked topping (that none of the topping is left is `Without`'s own contract) |
| `Draft.WithoutDistributes` | frontend/components/Form.js:63 | the filter works element by element, so it keeps the order of the remaining toppings |
| `Draft.WithoutAbsent` | frontend/components/Form.js:63 | unchecking a topping that is not in the list leaves the list unchanged |
| `Draft.WithoutIdempotent` | frontend/components/Form.js:63 | unchecking twice has the same effect as unchecking once |
| `Draft.CheckThenUncheck` | frontend/components/Form.js:53-66 | for a topping not in the list, checking and then unchecking it restores the original list |
| `Draft.ToggleKeepsWellFormed` | frontend/components/Form.js:162-172 | when checkbox events follow the rendered checked state, the list keeps catalog names only, with no duplicates |
| `Draft.WithoutKeepsWellFormed` | frontend/components/Form.js:63 | filtering keeps a duplicate-free list of catalog names in that shape, and adds nothing new |
| `Message.SizeLabel` | frontend/components/Form.js:79 | the label is small, medium or large; it is small iff the size is "S" and medium iff it is "M" |
| `Message.ToppingClause` | frontend/components/Form.js:80-84 | one topping gives " with 1 topping"; any other count gives a clause ending in " toppings" |
| `Message.SuccessMessage` | frontend/components/Form.js:78-84 | the message starts with "Thank you for your order, " and the name as typed, and ends with the topping clause for the draft's count |
| `Message.Decimal` | frontend/components/Form.js:83 | the rendered topping count is a non-empty string of decimal digits, "0" for zero and without a leading zero otherwise |
| `Message.DecimalRoundTrip` | frontend/components/Form.js:83 | reading the rendered count's digits back gives the count |
| `Message.ToppingClauseRoundTrip` | frontend/components/Form.js:80-84 | the topping clause can be parsed back to the exact topping count |
| `Message.ToppingClausePlural` | frontend/components/Form.js:80-84 | the clause is " with no toppings" iff there are none, and for one or more, ends in "s" iff there are more than one |
| `Message.SuccessMessageShape` | frontend/components/Form.js:78-84 | the message starts with "Thank you for your order, " and the name exactly as typed, continues with "! Your ", the size label and " pizza", and its tail reports the topping count |
| `Message.AcceptedMessage` | frontend/components/Form.js:79-84 | for a draft the schema accepts, the label is small/medium/large iff the size is S/M/L, and the "no toppings" clause never appears |
| `Message.ComposeSuccessMessage` | frontend/components/Form.js:78-84 | the message built by successive appends equals the greeting, name, size label, " pizza" and topping clause |
| `Form.CollectErrors` | frontend/components/Form.js:97-100 | the loop that writes each failure into a fresh map produces the map of the failure list, with later messages overwriting earlier ones |
| `Form.OrderForm.constructor` | frontend/components/Form.js:35-43 | the form mounts with an empty draft, no errors, not submitting and no message |
| `Form.OrderForm.HandleChange` | frontend/components/Form.js:45-51 | the named field takes the new value; the other draft fields and all other state are unchanged |
| `Form.OrderForm.HandleCheckboxChange` | frontend/components/Form.js:53-66 | the topping list is appended to (check) or filtered (uncheck); name, size and all other state are unchanged |
| `Form.OrderForm.HandleSubmit` | frontend/components/Form.js:70-103 | on a passing draft: errors empty, message set, draft reset to empty values; on a failing draft: errors become the validation map, draft and message unchanged; never left submitting |

## Left out

- JSX rendering (Form.js:121-181): the banners, inputs, select and checkbox
  markup, and the disabled submit button. They are UI. The gate they use is
  modelled as `Eligible` and `OrderForm.IsFormValid`.
- The `useEffect` that rewrites the success message while `isSubmitting` is
  true (Form.js:107-114). Whether it ever fires depends on how React batches
  state updates and schedules effects. That scheduling is not part of this
  model, and the submit handler sets the flag true and back to false inside
  one callback.
- Yup's internals and the promise-based `validate(...).then/.catch`.
  Validation is modelled as a synchronous function over the three rules the
  schema declares. The order in which Yup reports two failures of one field is
  not known here; the model uses declaration order.
- Form.OrderForm.HandleSubmit: for an empty name or an empty size, the exact
  message its error map records follows the model's declaration order
  (`required` last), not an order taken from the validation library. Only the
  field lemmas' membership claims are independent of that order. Such a draft
  cannot be submitted through the disabled button (Form.js:178); for drafts
  the gate admits, `EligibleErrors` gives the map independently of the order.
- Event objects and `preventDefault`. Handlers take plain
  `(name, value)` and `(name, checked)` arguments.
- `OrderForm.HandleChange` accepts only the two wired fields (`NameInput`,
  `SizeSelect`). The source's computed-key spread would also accept any other
  name, but no input sends one.
- String length: `|s|` counts characters, while JavaScript's `.length` counts
  UTF-16 code units. The two differ for names with characters outside the
  Basic Multilingual Plane.
