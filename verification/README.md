# Contact form and project filter of the ShowCase site

This project models, in Dafny, the two pieces of behaviour in the ShowCase
marketing site that are more than markup:

- the **contact section** (`src/components/sections/Contact.tsx`): the
  `validate` function that turns the three fields `name`, `email` and
  `message` into a map of error messages, and the section's state machine:
  field edits (`handleChange`), the submit handler (`handleSubmit`), and the
  two timer continuations it schedules. The first is the 1500 ms simulated
  request latency. The second is the 3000 ms reset of the form;
- the **showcase section** (`src/components/sections/Showcase.tsx`): the
  six-entry project catalogue, `filteredProjects`, the four filter buttons
  and which of them is highlighted.

Files:

- `text.dfy` (module `Text`) holds the string operations the validator
  relies on. This covers the ECMAScript whitespace class, `trim()`, and the
  unanchored pattern `\S+@\S+\.\S+`. The pattern's meaning is a ghost
  predicate: some substring has the shape. Beside it is a decision procedure,
  proved equal to that predicate.
- `contact.dfy` (module `Contact`) holds `ValidateForm` (`validate` without
  its `setErrors` call) and the per-field lemmas about it. It also holds the
  class `ContactSection`. Its fields are the component's four `useState`
  slots, and its methods are the four events.
- `showcase.dfy` (module `Showcase`) holds the catalogue and the filter with
  its subsequence, soundness, completeness, uniqueness and idempotence
  lemmas. It also holds the filter buttons and the `activeCategory` state,
  as values.

The length test at `Contact.tsx:43` uses the untrimmed `length`, so
surrounding spaces count toward the ten characters
(`ValidateAcceptsExamples`).

## Model

| member | source | states |
|---|---|---|
| `Text.TrimStartSpec` | src/components/sections/Contact.tsx:31 | the leading half of `trim()` keeps a suffix, drops only whitespace, and what it keeps does not start with whitespace |
| `Text.TrimEndSpec` | src/components/sections/Contact.tsx:31 | the trailing half of `trim()` keeps a prefix, drops only whitespace, and what it keeps does not end with whitespace |
| `Text.Trim` | src/components/sections/Contact.tsx:31 | `trim()` never lengthens a string, and a non-empty result neither starts nor ends with whitespace |
| `Text.TrimEmptyIffAllSpace` | src/components/sections/Contact.tsx:31 | trimming yields `""` exactly when every character is whitespace (including `s == ""`) |
| `Text.IsBlank` | src/components/sections/Contact.tsx:31 | `!s.trim()` holds exactly when every character of `s` is whitespace |
| `Text.ShortestEmailMatchCorrect` | src/components/sections/Contact.tsx:37 | some substring matches `\S+@\S+\.\S+` iff there is a match with one character before the `@` and one after the dot |
| `Text.EmailPatternTest` | src/components/sections/Contact.tsx:37 | the e-mail test is true exactly when some substring of the raw value is non-space+ `@` non-space+ `.` non-space+ |
| `Contact.NameError` | src/components/sections/Contact.tsx:31-33 | the name check fails iff the name is empty or all whitespace, and then with "Name is required" |
| `Contact.EmailError` | src/components/sections/Contact.tsx:35-39 | a blank e-mail fails with "Email is required"; otherwise the check fails iff no substring matches the pattern, and then with "Email address is invalid" |
| `Contact.MessageError` | src/components/sections/Contact.tsx:41-45 | a blank message fails with "Message is required"; otherwise the check fails iff the untrimmed length is under 10, and then with "Message must be at least 10 characters" |
| `Contact.FormState.With` | src/components/sections/Contact.tsx:77 | `{ ...prev, [name]: value }` sets the edited field to the new value and keeps the other two |
| `Contact.ValidateForm` | src/components/sections/Contact.tsx:28-46 | every message the validator records is a non-empty (truthy) string |
| `Contact.ValidateName` | src/components/sections/Contact.tsx:31-33 | the name has an error iff it is empty or all whitespace, and that error is exactly "Name is required" |
| `Contact.ValidateEmail` | src/components/sections/Contact.tsx:35-39 | a blank e-mail gets "Email is required"; otherwise it gets an error iff no substring matches the pattern, and that error is "Email address is invalid" |
| `Contact.ValidateMessage` | src/components/sections/Contact.tsx:41-45 | a blank message gets "Message is required"; otherwise it gets an error iff its untrimmed length is under 10, and that error is "Message must be at least 10 characters" |
| `Contact.ValidatePassesIff` | src/components/sections/Contact.tsx:47-48 | the error map is empty (validate returns true) iff name and message are not blank, the e-mail matches, and the message has at least 10 characters |
| `Contact.EmailExamples` | src/components/sections/Contact.tsx:37 | "abc" does not match, "a@b.co" does, and a match surrounded by other words and spaces still counts |
| `Contact.ValidateEmptyForm` | src/components/sections/Contact.tsx:28-46 | the empty form gets all three "required" messages |
| `Contact.ValidateRejectsExample` | src/components/sections/Contact.tsx:28-46 | name "Rohit", e-mail "abc" and message "hello" give exactly the invalid-address and too-short errors |
| `Contact.ValidateAcceptsExamples` | src/components/sections/Contact.tsx:41-45 | a good address with a 10-character message passes, and so does a message that reaches 10 characters only through padding spaces |
| `Contact.ContactSection.Status` | src/components/sections/Contact.tsx:25-26 | the two flags encode exactly one of idle, pending and succeeded |
| `Contact.ContactSection.constructor` | src/components/sections/Contact.tsx:18-26 | on mount the fields are empty, there are no errors, and neither flag is set |
| `Contact.ContactSection.RunValidation` | src/components/sections/Contact.tsx:28-49 | `validate` replaces the error map wholesale with the errors of the current fields and returns true iff the map has no keys |
| `Contact.ContactSection.Change` | src/components/sections/Contact.tsx:75-82 | an edit sets only that field and removes only that field's error; the flags and the other errors stay as they were, and the state invariant is kept |
| `Contact.ContactSection.Submit` | src/components/sections/Contact.tsx:51-56 | from idle, submitting sets the errors to the validator's result and leaves the fields alone; it starts the request iff there are no errors, otherwise both flags stay false |
| `Contact.ContactSection.LatencyElapsed` | src/components/sections/Contact.tsx:60-62 | when the simulated latency ends, the section moves from pending to succeeded |
| `Contact.ContactSection.ResetElapsed` | src/components/sections/Contact.tsx:65-68 | when the reset timer fires, the fields become three empty strings and the section is idle; the error map is untouched, so it stays empty |
| `Contact.SubmitAndWait` | src/components/sections/Contact.tsx:51-68 | a valid form goes idle → pending → succeeded → idle, ending with an empty form and no errors |
| `Showcase.FilteredProjects` | src/components/sections/Showcase.tsx:63-65 | the shown list is never longer than the catalogue; `'all'` shows the catalogue itself, any other category only projects of that category |
| `Showcase.FilteredProjectsSpec` | src/components/sections/Showcase.tsx:63-65 | `'all'` yields the list itself; any other category yields an order-preserving subsequence holding only, and every occurrence of, the projects of that category |
| `Showcase.Filter` | src/components/sections/Showcase.tsx:65 | the filtered list is never longer than the catalogue |
| `Showcase.FilterSubsequence` | src/components/sections/Showcase.tsx:65 | the filtered list is an order-preserving subsequence of the input |
| `Showcase.FilterSound` | src/components/sections/Showcase.tsx:65 | every project in the filtered list has the requested category |
| `Showcase.FilterComplete` | src/components/sections/Showcase.tsx:65 | every project of the requested category appears in the result as often as in the input |
| `Showcase.FilterUnique` | src/components/sections/Showcase.tsx:65 | any order-preserving selection of matching projects that drops none of them equals the filter's result |
| `Showcase.FilterIdempotent` | src/components/sections/Showcase.tsx:65 | filtering the result again by the same category returns it unchanged |
| `Showcase.FilterPartition` | src/components/sections/Showcase.tsx:63-65 | when every project is mobile, web or desktop, the three category filters together hold each project exactly as often as the list |
| `Showcase.CatalogueMobile` | src/components/sections/Showcase.tsx:18-65 | on the shipped catalogue the mobile filter keeps the first and fourth entries |
| `Showcase.CatalogueWeb` | src/components/sections/Showcase.tsx:18-65 | on the shipped catalogue the web filter keeps the second and fifth entries |
| `Showcase.CatalogueDesktop` | src/components/sections/Showcase.tsx:18-65 | on the shipped catalogue the desktop filter keeps the third and sixth entries |
| `Showcase.CatalogueFilters` | src/components/sections/Showcase.tsx:18-65 | `'all'` shows the whole catalogue in order; mobile, web and desktop show ids [1,4], [2,5] and [3,6] |
| `Showcase.CatalogueCategories` | src/components/sections/Showcase.tsx:18-61 | every shipped project is mobile, web or desktop |
| `Showcase.CataloguePartition` | src/components/sections/Showcase.tsx:18-65 | the three category views partition the shipped catalogue |
| `Showcase.ButtonIndex` | src/components/sections/Showcase.tsx:67-72 | every category has a button in the filter bar, at the given position |
| `Showcase.ButtonVariant` | src/components/sections/Showcase.tsx:91 | a filter-bar button is `'primary'` iff it is the button of the active category |
| `Showcase.ExactlyOnePrimary` | src/components/sections/Showcase.tsx:67-91 | for every active category exactly one button gets variant `'primary'`: the one whose value is the active category |
| `Showcase.InitialView` | src/components/sections/Showcase.tsx:16-64 | on mount (`'all'`) the whole catalogue shows and only "All Projects" is highlighted |
| `Showcase.Click` | src/components/sections/Showcase.tsx:93 | a click makes the button's value the active category; a clicked filter-bar button becomes the only `'primary'` one |
| `Showcase.ClickSelects` | src/components/sections/Showcase.tsx:89-93 | clicking a button makes its value the active category, makes it the only primary button, and shows that category's projects |

## Left out

- Rendering: JSX, Tailwind class strings, icons and images, and the class
  composition in `Button.tsx` and `Card.tsx`. The only thing kept from the
  rendering is which filter button gets the `'primary'` variant.
- `Showcase.Project`: the `image` and `description` fields of the catalogue
  entries are only rendered, so the model keeps `id`, `title` and `category`.
- Time: `setTimeout` and `await` become the events `LatencyElapsed` and
  `ResetElapsed`. The 1500 ms and 3000 ms durations, and any interleaving
  defined by real time, are not modelled. Each event can only fire in the
  phase that scheduled it: pending for the latency, succeeded for the reset.
- The `catch` branch of `handleSubmit` (`Contact.tsx:69-71`): the simulated
  request cannot fail, and that branch only logs.
- `Contact.ContactSection.Submit` requires the idle phase. The handler does
  not check this itself. The submit button is disabled while
  `isSubmitting` (`Button.tsx:52`), and the form is not rendered while
  `submitSuccess` (`Contact.tsx:141`). `Change` is allowed in every phase,
  which is more than the page allows.
- `[name]: undefined` in `handleChange` is modelled as removing the key. Every
  read of the error map in the component is a truthiness test, and
  `Object.keys` is only applied to the fresh map built by `validate`, so the
  two cannot be told apart.
- React's state batching and closures: each event is modelled as seeing the
  state left by the previous one.
- Unmounting the section (and the reset timer that outlives it) is not
  modelled.
- String lengths: JavaScript's `length` counts UTF-16 code units, while the
  model counts characters (code points). They differ only for characters
  outside the Basic Multilingual Plane.
- `Text.IsSpace` lists the ECMAScript WhiteSpace and LineTerminator code
  points (the set used by both `trim()` and `\s`). No general lemma depends
  on which characters are in it; the concrete examples only need letters,
  digits, `@` and `.` to be non-space and `' '` to be space.
- Theme store, navigation bar, smooth scrolling, the `scrollY > 50` navbar
  threshold, and the static Hero and Features content: not part of this model.
