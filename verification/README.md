# Ad-copy generator: session and history model

The page lets a marketer fill in a campaign form (product name, business
type, audience, platform, tone, objective, language), asks a hosted model for
ad-copy variations, shows them, keeps a newest-first history of past
generations, and exports the current results as a text file.

This project models the page's state logic as pure transitions over one
immutable `Session` record `{formData, variations, isLoading, error, viewMode,
history}`, and proves what each handler changes and what it leaves alone:

- `types.dfy` (`Types`): the form, variation and history-entry shapes, and the
  overwrite of one named form field.
- `constants.dfy` (`Constants`): the four option lists and the initial form.
- `text.dfy` (`Text`): the `\s` whitespace class, ASCII lower-casing, the
  file-name slug, and decimal numerals.
- `history_log.dfy` (`HistoryLog`): removal of every entry with a given id.
- `export.dfy` (`Export`): the export document and its file name.
- `session.dfy` (`Session`): the session record and every handler.
- `session_properties.dfy` (`SessionProperties`): properties across several
  transitions, and an invariant of every run of user events.

The generation call is an outcome parameter, `Success(result) | Failure`.
The result is the parsed list of variations. The service fails on an empty
reply, a reply `JSON.parse` rejects, or a transport error
(`services/geminiService.ts:78-88`); all of these are `Failure`. It does not
check the parsed reply's shape (`services/geminiService.ts:82`). So nothing
here assumes three variations or a declared framework name; `framework` is a
plain string.

Parameters stand in for everything non-deterministic:
- the entry id and the timestamp are two parameters, since the code reads the
  clock twice (`App.tsx:69-70`);
- the export's date line is a parameter;
- the answer to the Clear All confirmation dialog is a boolean;
- the value read from storage at start-up is a `Saved` outcome.

A submit is two transitions. `HandleSubmit` validates and starts.
`Resolve` applies the outcome to the session as it is when the call returns.
The handler updates the history with a function of the previous value, and
the form can be edited while a call runs. So the entry records the form
captured at submit time (the `request`), and a failure leaves `variations` as
it finds them. They stay empty unless an entry is opened or another
generation succeeds in between; see `SubmitThenFailure`.

Behaviour that is easy to assume but that the code does not have:
- the prompt asks for exactly 3 variations (services/geminiService.ts:35), but
  the parsed reply is returned unchecked (services/geminiService.ts:82);
- entry ids come from the clock (App.tsx:69) and can repeat, so deleting
  removes every entry with the id;
- the results are cleared when a submit starts (App.tsx:61), not on failure
  (App.tsx:77);
- `handleSubmit` has no busy guard (App.tsx:52-61).

## Model

| member | source | states |
|---|---|---|
| `Types.Put` | App.tsx:47-50 | editing the control named `k` makes that field `v`; every other field keeps its value |
| `Types.PutCurrentValue` | App.tsx:49 | writing a field's own value back leaves the form unchanged |
| `Types.PutTwice` | App.tsx:49 | of two edits to one field the later wins |
| `Constants.DefaultsAreOffered` | constants.ts:42-50 | the default platform, tone, objective and language are each in their option list |
| `Constants.OptionListsDistinct` | constants.ts:1-40 | no option list repeats an entry (they serve as element keys) |
| `Text.IsSpace` | App.tsx:122 | the characters the `\s` in the slug's pattern matches |
| `Text.IsSpaceMatchesTable` | App.tsx:122 | that class is exactly the 25 listed code points of JavaScript's white space and line terminators |
| `Text.LowerChar` | App.tsx:122 | an ASCII capital becomes the matching small letter, every other character is kept, and whitespace stays whitespace |
| `Text.DropSpaces` | App.tsx:122 | the result is the suffix of the input after its whole leading whitespace run |
| `Text.Slug` | App.tsx:122 | the slug has no whitespace, no ASCII capital, and is no longer than the name |
| `Text.DropSpacesBeforeWord` | App.tsx:122 | a whitespace run followed by a non-whitespace character or nothing is dropped entirely |
| `Text.SlugCollapsesRun` | App.tsx:122 | each whitespace run, however long, becomes exactly one `-` |
| `Text.SlugKeepsWord` | App.tsx:122 | a stretch without whitespace passes into the slug only lower-cased, followed by the slug of the rest |
| `Text.SlugOfWord` | App.tsx:122 | a name without whitespace only changes case |
| `Text.NatToString` | App.tsx:110 | the option number is a non-empty string of decimal digits with no leading zero |
| `Text.NatToStringRoundTrip` | App.tsx:110 | reading the numeral back as decimal gives the number |
| `HistoryLog.RemoveId` | App.tsx:98 | an entry survives iff its id differs; the result is no longer than the history |
| `HistoryLog.RemoveIdMultiplicity` | App.tsx:98 | each entry with another id keeps its number of occurrences; every entry with the id goes, since ids may repeat (App.tsx:69) |
| `HistoryLog.RemoveIdAppend` | App.tsx:98 | removal distributes over concatenation, so survivors keep their relative order |
| `HistoryLog.RemoveAbsentId` | App.tsx:98 | removing an id no entry carries leaves the history unchanged |
| `HistoryLog.RemovePresentId` | App.tsx:98 | removing an id some entry carries shortens the history |
| `HistoryLog.RemoveIdIdempotent` | App.tsx:98 | removing an id twice is removing it once |
| `Export.Header` | App.tsx:104-107 | the header lines: product name, date, platform and objective, then the separator |
| `Export.Section` | App.tsx:110-115 | one variation's section: option number and framework, headline, primary text, CTA, explanation, separator |
| `Export.FileName` | App.tsx:122 | the file name is `ad-copy-`, then the slug of the product name, then `.txt`, and contains no whitespace |
| `Export.Export` | App.tsx:101-122 | no download iff there are no variations; otherwise the file is named from the product name and the body starts with the header for the form and date |
| `Export.SectionHeading` | App.tsx:110 | each section opens with `OPTION k (framework)` and a blank line |
| `Export.NumberedAppend` | App.tsx:109-116 | the sections of two runs of variations are those of the first then those of the second, numbering carried on |
| `Export.NumberedAt` | App.tsx:109-116 | the section of the element at index `i` sits between those before and those after it, numbered `first + i` |
| `Export.ExportLayout` | App.tsx:104-116 | the body is the header followed by one `OPTION k (framework)` section per variation, the one at index `i` as option `i + 1`, in order |
| `Export.OptionNumberReadsBack` | App.tsx:109-110 | right after the header and the sections of the `i` earlier variations, the document holds `OPTION`, the number of variation `i`, and its framework; that number reads back as `i + 1` |
| `Session.LoadSaved` | App.tsx:31-40 | decoded saved entries become the history; an absent or unparseable value changes nothing |
| `Session.HandleInputChange` | App.tsx:47-50 | only the named field of the form changes; results, flags, view and history stay |
| `Session.HandleSubmit` | App.tsx:52-61 | an empty name only sets the validation message and starts nothing; otherwise loading starts, the message and results are cleared, the request is the current form, and the history stays |
| `Session.Resolve` | App.tsx:63-80 | success shows the result and puts one entry for request and result in front of the unchanged old history; failure only sets the failure message; loading stops either way |
| `Session.HandleClear` | App.tsx:83-87 | the form returns to the initial form, results and message are cleared, history, loading and view stay |
| `Session.LoadFromHistory` | App.tsx:89-94 | form and results become the entry's, the view becomes the generator, history, loading and message stay |
| `Session.DeleteHistoryItem` | App.tsx:96-99 | the history keeps exactly the entries with another id; an absent id changes nothing; nothing but the history changes |
| `Session.ClearAllHistory` | App.tsx:376-381 | a confirmed Clear All empties the history and changes nothing else; a declined one changes nothing |
| `Session.ShowView` | App.tsx:142-161 | the tabs change only the view |
| `SessionProperties.InitialFormIsRejected` | App.tsx:54-57 | the initial form's empty name makes every submit of it take the validation path, changing only the message |
| `SessionProperties.SubmitThenSuccess` | App.tsx:52-75 | submit then success: results are the reply, history is the new entry for the submitted form in front of the old, loading off, message cleared |
| `SessionProperties.SubmitThenFailure` | App.tsx:59-80 | submit then failure: no results, failure message, loading off, history untouched |
| `SessionProperties.EmptyReplyIsSaved` | App.tsx:64-75 | an empty reply counts as a success and saves an entry with no variations |
| `SessionProperties.DeleteUndoesSuccess` | App.tsx:68-98 | deleting the id of the entry a success just added, when no older entry shares it, restores the old history |
| `SessionProperties.DeleteIdempotent` | App.tsx:96-99 | deleting an id twice equals deleting it once |
| `SessionProperties.ClearIdempotent` | App.tsx:83-87 | clearing twice equals clearing once |
| `SessionProperties.ClearAllTwice` | App.tsx:377-380 | after two Clear All dialogs the history is `[]` if either was confirmed, and unchanged otherwise |
| `SessionProperties.InitialNamedHistory` | App.tsx:23-28 | the starting session has no unnamed entry, which starts the run invariant |
| `SessionProperties.StepKeepsNamedHistory` | App.tsx:47-99 | no event adds an entry for an unnamed form when it answers a launched request, and every request a submit launches is named |
| `SessionProperties.RunKeepsNamedHistory` | App.tsx:47-99 | after any run of events in which each returning generation answers a request an earlier submit launched, every history entry has a non-empty product name |
| `SessionProperties.RunFromStartKeepsNamedHistory` | App.tsx:23-99 | from the starting session, every such run saves only entries with a non-empty product name |
| `SessionProperties.StepLoadingFlag` | App.tsx:59-79 | only a submit raises the loading flag, only a returning generation lowers it |

## Left out

- The generation service client, the prompt text and the response schema: a network call to a hosted model, represented by the `Outcome` parameter.
- Writing the history to browser storage after every change (App.tsx:43-45). The write-through value would always equal `history`. JSON encoding and decoding are a library, so the start-up read is the `Saved` outcome.
- A generation reply whose parsed value is not a list of five-string variation records (`null`, a non-list, records with missing fields): the code casts it unchecked (services/geminiService.ts:82), and `null` would throw at `variations.length` (App.tsx:313). `Success` carries only a list of such records.
- A stored JSON value that parses to something other than a list of entries: the code casts it unchecked. Its run-time shape has no counterpart here.
- Date.now, toLocaleString, Blob, object URLs, the anchor click, the scroll call and the confirmation dialog: browser calls, replaced by parameters or dropped.
- Overlapping submits: Regenerate is disabled while loading (App.tsx:322) and the submit button gets the loading state (App.tsx:295), but the handler itself has no guard. `HandleSubmit` therefore has no `requires !isLoading`. Interleavings are expressed through `Run` over events, not through concurrency.
- The browser's own check of the `required` name input (App.tsx:186): it normally stops an empty-name submit through the Generate button (App.tsx:292) before the handler runs, so only Regenerate (App.tsx:321) reaches the check at App.tsx:54-57. `SubmitPressed` and `HandleSubmit` stand for a call of the handler itself.
- The history list's preview reads the first variation of each entry (App.tsx:414). An entry saved from an empty reply has none (`SessionProperties.EmptyReplyIsSaved`). Rendering is not modelled, so that read is not either.
- Rendering, clipboard copy and its timer (components/AdResultCard.tsx); the card's copy-all template.
- `Text.LowerChar`: lower-cases only the ASCII letters A-Z, because the Unicode-aware case mapping of toLowerCase is not modelled. The model keeps other capitals, and mappings that change length.
- `Text.IsSpace` matches the code-point set of the `\s` class. JavaScript strings are UTF-16, but every character in that class lies in the basic plane, so nothing differs.
- `Text.NatToString` stands for the template literal printing `i + 1`. For integers below 2^53 this prints plain decimal, so the model does not bound the number.
- Names outside the seven form fields: the spread-and-assign in `handleInputChange` would add an extra key, but only the seven named controls call it.
- A generation returning for a request no submit launched: `ValidRun` excludes it, since in the code each result reaches only the submit call that awaited it.
