# Project store and field validator of the drag-and-drop project manager

The application is a small in-browser project manager. A form collects a
title, a description and a number of people. Each value is checked by a
generic field validator. When all three pass, a new project is added to a
single shared project store. The store then hands a copy of its whole
project list to every registered listener. Two of those listeners are the
"active" and "finished" project lists, which keep the projects of their own
status.

This Dafny project models that core:

- `text.dfy`, module `JsText`: the JavaScript string behaviour the validator
  relies on. `trim` uses the full ECMAScript whitespace and line-terminator
  set. `length` is measured in UTF-16 code units, exactly so for
  well-formed text. `toString` on an integer gives decimal text, proved to
  read back to the same number.
- `validation.dfy`, module `Validation`: the `Validatable` descriptor, with
  the value as a tagged union `Text | Num` and the optional rule fields as
  `Option`. The `validate` method is written step by step with its `isValid`
  accumulator, as the source is, and is proved equal to the predicate
  `Valid`, the conjunction of the three rules. Lemmas about `Valid` pin down
  each rule's exact boundary. They also prove that `min` and `max` never
  affect the result, and that the length rules ignore numbers.
- `store.dfy`, module `ProjectStore`: `Project`, `ProjectStatus` and the
  store as a class. It has a `listeners` field, a `projects` field and a
  ghost log of listener calls. `AddProject` appends, then loops over the
  listeners and logs one call per listener. Its contract ties the new state
  to the old one and to `Deliveries`, the specification of one notification
  round. The object invariant says every project is `Active`, every logged
  call names a registered listener, and every snapshot handed out is a
  prefix of the list and of every later snapshot. The singleton is a holder
  object whose `instance` field is filled on the first `GetInstance`.
- `project_list.dfy`, module `ProjectLists`: the status filter of the two
  lists and the body of their listener. Lemmas prove that the two lists
  partition the projects, and that with only `Active` projects the
  "active" list is the whole store and the "finished" list is empty.
- `submission.dfy`, module `Submission`: the submit path. The three
  descriptors are built exactly as the form builds them. `GatherUserInput`
  validates the fields in order and stops at the first failure.
  `SubmitHandler` adds a project only when all three pass and empties the
  three fields in every case. `Accepts` states what the three
  validations add up to. Scenario methods run an accepted and a rejected
  submission against a fresh store.

A snapshot is the current `seq` of projects. `projects.slice()`
(src/app.ts:39) makes a new array, but the `Project` objects in it are the
store's own. Projects are values here, so the model does not capture that
sharing (see "## Left out").

Points where the code does less than its own declarations suggest:

- The `Validatable` shape declares `min` and `max` (src/app.ts:52-53), and
  the people descriptor sets `min: 1, max: 5` (src/app.ts:183-184). But
  `validate` (src/app.ts:56-68) never reads `min` or `max`. The model
  proves that the result does not depend on them (`IgnoresMinMax`) and that
  every number passes (`NumberAlwaysValid`, `NumberBoundsExamples`).
- The people field is validated as the text of the input field
  (src/app.ts:167, 180-185), not as a number. So only non-blank text is
  required of it: "0" and "9" are accepted (`PeopleRangeNotEnforced`).
- The strict `>` of `minLength` and `<` of `maxLength` are kept as written.
  The length is counted in UTF-16 code units (src/app.ts:62). For text
  within U+FFFF that is the number of characters, so a 5-character
  description is rejected under `minLength: 5` (`MinLengthFiveBoundary`,
  `FiveCharacterDescriptionRejected`). A character beyond U+FFFF counts
  twice, so five of them pass. The length is taken before trimming, so
  "  ab  " passes `minLength: 5` (`MinLengthFiveBoundary`).

## Model

| member | source | states |
|---|---|---|
| `JsText.IsWhitespace` | src/app.ts:59 | every character `trim` removes is one UTF-16 code unit, and none is a digit or a minus sign |
| `JsText.TrimStart` | src/app.ts:59 | the result is the longest suffix not starting with whitespace; everything removed is whitespace |
| `JsText.TrimEnd` | src/app.ts:59 | the result is the longest prefix not ending with whitespace; everything removed is whitespace |
| `JsText.Trim` | src/app.ts:59 | the result is the slice of the text between a blank prefix and a blank remainder, and it neither starts nor ends with whitespace |
| `JsText.TrimEmptyIffBlank` | src/app.ts:59 | `trim` leaves nothing exactly when the text has no visible character |
| `JsText.Utf16Length` | src/app.ts:59-65 | the JavaScript length of a text is at least its number of characters and at most twice that |
| `JsText.Utf16LengthOfBmp` | src/app.ts:62 | on text without characters beyond U+FFFF the JavaScript length equals the character count |
| `JsText.NatToText` | src/app.ts:59 | the decimal text of a natural number is non-empty, all digits, with no leading zero |
| `JsText.NatToTextRoundTrip` | src/app.ts:59 | reading back the decimal text of `n` gives `n` |
| `JsText.IntToText` | src/app.ts:59 | an integer's text is a minus sign exactly for negatives, then the digits of the magnitude; it never starts with whitespace |
| `Validation.TextForm` | src/app.ts:59 | `toString()` of a text is the text itself; a number's text is non-empty, starts with `-` exactly for negatives and never starts with whitespace |
| `Validation.RequiredRule` | src/app.ts:58-60 | the `required` rule can fail only when `required` is set and the value is a text |
| `Validation.MinLengthRule` | src/app.ts:61-63 | the `minLength` rule can fail only on a text with `minLength` set; a text with more characters than the bound passes |
| `Validation.MaxLengthRule` | src/app.ts:64-66 | the `maxLength` rule can fail only on a text with `maxLength` set; a text that passes has fewer characters than the bound |
| `Validation.Valid` | src/app.ts:56-68 | a valid value with `required` set has a visible character in its text form |
| `Validation.Validate` | src/app.ts:56-68 | the step-by-step accumulator returns exactly the conjunction of the switched-on rules |
| `Validation.VisibleFirstPassesRequired` | src/app.ts:58-60 | a text whose first character is visible passes `required` |
| `Validation.RequiredRejectsBlank` | src/app.ts:58-60 | with `required` set, the required rule fails exactly when the value's text form has no visible character, and then the whole validation fails |
| `Validation.NoRulesAcceptsAll` | src/app.ts:57-67 | with no rule switched on, every value is valid |
| `Validation.ValidText` | src/app.ts:56-68 | on a text value: valid iff visible when required, untrimmed length > `minLength` and < `maxLength` when present |
| `Validation.NumberAlwaysValid` | src/app.ts:58-66 | every numeric value is valid, whatever the rule fields say |
| `Validation.IgnoresMinMax` | src/app.ts:47-68 | changing `min` or `max` never changes the result |
| `Validation.NumberIgnoresLengthBounds` | src/app.ts:61-66 | on a number, changing `minLength` or `maxLength` never changes the result |
| `Validation.LengthBoundsAreStrict` | src/app.ts:61-66 | a text exactly as long as `minLength`, or as `maxLength`, is rejected |
| `Validation.RequiredExamples` | src/app.ts:58-60 | "" and "   " fail `required`, "ok" passes |
| `Validation.MinLengthFiveBoundary` | src/app.ts:58-62 | under `required` and `minLength: 5`, a text within U+FFFF passes iff it has a visible character and at least 6 characters, whitespace included |
| `Validation.NumberBoundsExamples` | src/app.ts:47-68 | 1 and 9 both pass with `min: 1, max: 5` |
| `ProjectStore.Deliveries` | src/app.ts:38-40 | a notification round has one call per listener, the `k`-th call going to the `k`-th listener with the snapshot |
| `ProjectStore.DeliveredOnceEach` | src/app.ts:38-40 | in a round each listener position is called exactly once |
| `ProjectStore.ProjectState.constructor` | src/app.ts:13-23 | a new store has no listeners, no projects and no calls, and satisfies the invariant |
| `ProjectStore.ProjectState.AddListener` | src/app.ts:14-16 | appends the listener without deduplication; projects and calls are unchanged; the invariant is kept |
| `ProjectStore.ProjectState.AddProject` | src/app.ts:34-41 | appends one `Active` project with the given fields, leaves earlier entries and listeners alone, and logs exactly one round calling every listener in order with the full new list; the invariant is kept |
| `ProjectStore.ProjectStateHolder.constructor` | src/app.ts:20 | before the first `getInstance` there is no store |
| `ProjectStore.ProjectStateHolder.GetInstance` | src/app.ts:25-32 | the first call creates an empty store and keeps it; every later call returns that same store |
| `ProjectStore.GetInstanceTwice` | src/app.ts:25-32 | two calls return the same store |
| `ProjectLists.Relevant` | src/app.ts:131-136 | a project is kept by the "active" list exactly when it is `Active`, and by the "finished" list exactly when it is not |
| `ProjectLists.RelevantProjects` | src/app.ts:131-136 | a project is in a list's result exactly when it is in the input and has that list's status |
| `ProjectLists.ListsPartition` | src/app.ts:131-136 | the "active" and "finished" results together hold every project exactly as often as the input does |
| `ProjectLists.AllRelevantKeepsOrder` | src/app.ts:131-136 | when every project passes the filter, the result is the input itself, in order |
| `ProjectLists.NoneRelevantIsEmpty` | src/app.ts:131-136 | when no project passes the filter, the result is empty |
| `ProjectLists.ListsOfStore` | src/app.ts:131-136 | with only `Active` projects, the "active" list is the whole input and the "finished" list is empty |
| `ProjectLists.ProjectList.constructor` | src/app.ts:112-117 | a new list has its type and no projects; unlike the source's constructor, which calls `configure()` (src/app.ts:115, 130), it does not register its listener with the store |
| `ProjectLists.ProjectList.OnProjects` | src/app.ts:130-137 | the listener replaces the list's projects by the filtered snapshot |
| `Submission.TitleDescriptor` | src/app.ts:169-172 | the title descriptor passes exactly when the title has a visible character |
| `Submission.DescriptionDescriptor` | src/app.ts:174-178 | the description descriptor passes exactly when the description has a visible character and is longer than 5 code units |
| `Submission.PeopleDescriptor` | src/app.ts:180-185 | the people descriptor passes exactly when the people text has a visible character; `min: 1, max: 5` play no part |
| `Submission.Accepts` | src/app.ts:187 | the three validations pass iff title and people have a visible character and the description has one and is longer than 5 |
| `Submission.GatherUserInput` | src/app.ts:164-194 | returns the input exactly when all three validations pass, with the people text converted to a number |
| `Submission.ProjectInput.constructor` | src/app.ts:151-159 | a new form holds the three given field values |
| `Submission.ProjectInput.ClearInputField` | src/app.ts:197-201 | all three fields become empty |
| `Submission.ProjectInput.SubmitHandler` | src/app.ts:203-211 | adds one `Active` project and notifies every listener only when all three validations pass, otherwise leaves projects and calls unchanged; empties the fields in both cases |
| `Submission.SubmitToFreshStore` | src/app.ts:203-211 | on a fresh store with two listeners, an accepted form yields exactly the new project and one call per listener; a rejected one yields no project and no call; every project is `Active` |
| `Submission.ListsFromSnapshot` | src/app.ts:129-139 | on a snapshot of `Active` projects, the "active" list shows all of them and the "finished" list none |
| `Submission.AcceptedSubmissionScenario` | src/app.ts:203-211 | after any accepted submission to a fresh store, the active list holds exactly the new project and the finished list nothing |
| `Submission.RejectedSubmissionScenario` | src/app.ts:187-189 | submitting an empty title, whatever the other fields, leaves the store empty |
| `Submission.ExampleFieldsPass` | src/app.ts:169-185 | "Build API", "Initial skeleton" and "3" each pass their validation |
| `Submission.EmptyTitleRejected` | src/app.ts:169-172 | an empty title fails validation whatever the other fields hold |
| `Submission.FiveCharacterDescriptionRejected` | src/app.ts:174-178 | a description of 5 characters within U+FFFF (5 code units) fails `minLength: 5` whatever the other fields hold |
| `Submission.PeopleRangeNotEnforced` | src/app.ts:180-185 | every one-digit people field passes, 0 and 6 to 9 included, although outside `min: 1, max: 5` |

## Left out

- The `Component` base class, `ProjectList` rendering and the form's DOM wiring (src/app.ts:85-148, 150-224): template import, element insertion, `innerHTML`, list items and `querySelector` are browser I/O. Only the filter and the listener's state update are modelled.
- The `autobind` decorator (src/app.ts:72-82): it only rebinds `this`, and Dafny method calls are always bound.
- `alert` (src/app.ts:188): rejection is the `None` result of `GatherUserInput`.
- The project id from `Math.random().toString()` (src/app.ts:35) is a parameter of `AddProject`. Ids are not claimed to be unique, because the source does not ensure it.
- The `+people` conversion (src/app.ts:191) is the function parameter `toNumber`. JavaScript's NaN and fractional results are not modelled.
- Listener callbacks are not executed. Each call is recorded in the store's ghost log, and the `ProjectList` listener body is a separate method.
- The generic `State<T>` base class (src/app.ts:12-17) is folded into `ProjectState`, because Dafny classes do not inherit from classes.
- Numbers are integers. Fractions, NaN, infinities and the exponent notation `toString` uses from 1e21 up are not modelled.
- `validate` (src/app.ts:56-68) tests `required` for truthiness. It is a `bool` here, as the `Validatable` type declares.
- Projects are immutable values here. In the source, `Project`'s fields are public and writable (src/app.ts:5-7), and `projects.slice()` (src/app.ts:39) copies only the array, so the store and every snapshot share the same `Project` objects. A listener that wrote a project's field would change the store and every other snapshot. The invariant that every project is `Active` holds because no code of the program writes a project field.
- Re-entrant listeners: the `for...of` at src/app.ts:38 walks the live `listeners` array. A listener that registered another listener or added a project during a round would change that round. `AddProject`'s log clause assumes callbacks never call back into the store.
- Unpaired UTF-16 surrogates: a Dafny `char` is a Unicode scalar value and cannot hold one, while a JavaScript string can. `Utf16Length` is therefore exact only for well-formed text.
- The module-level calls at src/app.ts:44 and 222-224 wire one store, one form and two lists. The scenario methods in `Submission` stand in for them.
