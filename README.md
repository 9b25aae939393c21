# Automation savings calculator: a Dafny model

The application estimates what automating a business process saves. A
project record holds a transaction count, the minutes each transaction takes
and the business hours it gives back. Two programs work on these records:

- **The backend** (`server/index.js`) keeps two hourly rates and a list of
  records in memory. It seeds the list with two projects. When it returns a
  record it adds four derived values: IT hours, IT saving, business saving
  and their total. Its handlers read and update the rates, list records,
  insert or replace a record, merge a partial update into a record, and
  delete by id.
- **The calculator screen** (`client/src/components/Calculator.jsx`)
  computes its own derived values with fixed rates of 100 and 150. It keeps
  column totals. It edits and saves fields locally, normalising the number
  fields on save. It adds a project under an id that no record already uses.
  When no id is typed, the id is the slug of the name, and `-1`, `-2`, … are
  appended until the id is free.

The Dafny modules follow that split:

- `JsValues` (`values.dfy`) models JavaScript numbers (a real or NaN) and
  loosely typed field values. It defines the two coercions the code uses:
  `Coerce(x)` is `Number(x) || 0` and `NumberOrZero(x)` is `Number(x || 0)`.
- `Text` (`text.dfy`) defines `trim()` and the blank test.
- `Records` (`records.dfy`) defines the project record, the object spread
  `{ ...p, ...patch }` and lookup by id.
- `Server` (`server.dfy`) holds the backend's derived values and the
  specification functions of the handlers. It also has the class `Store`,
  whose `settings` and `projects` fields the handler methods update.
- `Slug` (`slug.dfy`) models `slugify`.
- `FreshIds` (`idgen.dfy`) models the loop that makes ids unique.
- `Client` (`client.dfy`) holds the screen's derived values, totals, local
  edits and saves. It also has the class `Calculator`, whose `projects`
  field stands for the screen's list state.
- `Agreement` (`agreement.dfy`) states where the two programs' figures and
  edits agree and where they do not.

The two business-saving formulas are kept apart on purpose:

- The backend computes `businessHoursBack * businessRate`.
- The screen computes `count * businessHoursBack * 150 / 60`.

`Agreement.DefaultRatesAgreement` states exactly when the two agree.

Two facts about ids shape the model:

- Ids are meant to be unique and fixed, but the partial-update handler
  merges whatever the body holds, so a body with an `id` renames the record.
  `Server.PatchKeepsIdsUniqueIff` states when ids stay unique anyway.
- Neither program enforces unique ids on upsert, but both preserve them when
  they already hold.

## Model

| member | source | states |
|---|---|---|
| JsValues.Coerce | server/index.js:50-62 | `Coerce(x)` is the parsed number when there is one and 0 when parsing gives NaN |
| JsValues.ToNumber | server/index.js:50-62 | `Number(v)`: a number reads as itself, blank text as 0, other text as the number it parses to, and a missing field as NaN; `Coerce` and `NumberOrZero` are stated in terms of it |
| JsValues.Truthy | client/src/components/Calculator.jsx:110 | the truth test the two coercions use: a missing field, 0, NaN and the empty string are falsy; `CoercionsCompared` states what this means for `Coerce(x)` and `NumberOrZero(x)` |
| JsValues.NumberOrZero | client/src/components/Calculator.jsx:205-207 | `NumberOrZero(x)` reads a falsy value as 0 and anything else with `Number`; `CoercionsCompared` relates it to `Coerce(x)`, and `FiniteAfterSaving` shows a second application is finite |
| JsValues.CoercionsCompared | client/src/components/Calculator.jsx:202-208 | `NumberOrZero(x)` equals `Coerce(x)` whenever `Number(x)` is a number; it is NaN exactly for non-blank text that does not parse, where the other gives 0 |
| JsValues.Add | server/index.js:68 | a sum is NaN exactly when an operand is |
| JsValues.Mul | server/index.js:59-65 | a product is NaN exactly when an operand is |
| Text.LTrim | client/src/components/Calculator.jsx:182 | the result is a suffix of the input; the dropped prefix is all in the class; the result does not start with a class character |
| Text.RTrim | client/src/components/Calculator.jsx:182 | the mirror image of LTrim: a prefix, the dropped suffix in the class, no class character at the end |
| Text.Trim | client/src/components/Calculator.jsx:182 | `trim()` leaves text that neither starts nor ends with whitespace |
| Text.BlankIffAllSpace | client/src/components/Calculator.jsx:192 | text trims to "" exactly when every character of it is whitespace |
| Text.IsBlank | client/src/components/Calculator.jsx:192 | the test that text trims to the empty string; `BlankIffAllSpace` states it holds exactly for all-whitespace text |
| Text.TrimUntrimmed | client/src/components/Calculator.jsx:182 | trimming text without whitespace at either end leaves it unchanged |
| Records.MergeLaws | server/index.js:137 | for each of the five keys, a patch that has the key overwrites it and one without it keeps the old value; merging nothing, merging twice, or merging two patches in a row behave as expected |
| Records.Merge | server/index.js:137 | `{ ...p, ...patch }` key by key; `MergeLaws` states that every key of the patch overwrites and every absent key keeps its value |
| Records.HasId | client/src/components/Calculator.jsx:200 | `ps.some(p => p.id === id)`; `Ids` states it holds exactly for the ids in the set of ids in use |
| Records.Ids | server/index.js:114 | the set of ids in use has at most one member per record and holds exactly the ids some record has |
| Records.FindIndex | server/index.js:114 | `findIndex` gives -1 exactly when no record has the id, and otherwise the first index that holds it |
| Records.FindIndexUnique | server/index.js:114 | when ids are unique, the record that holds an id is the one at FindIndex |
| Records.AppendFreshKeepsUnique | server/index.js:120 | appending a record whose id is not in use keeps ids unique |
| Server.UpdatedSettings | server/index.js:84-94 | a rate given in the body is replaced by `Number(rate)`; a rate absent from the body is kept |
| Server.ComputeProjectDerived | server/index.js:47-78 | the record is carried through unchanged; a saving is NaN exactly when its rate is NaN; total = IT saving + business saving |
| Server.DerivedFormula | server/index.js:47-78 | with numeric rates: IT hours = count·minutes/60, IT saving = hours·itRate, business saving = businessHoursBack·businessRate, and the total is their sum, with missing or non-numeric fields counted as 0 |
| Server.DerivedNonNegative | server/index.js:47-78 | non-negative fields and rates give non-negative hours, savings and total |
| Server.SeededPowerBI | server/index.js:23-36 | the seeded `powerbi` record under the default rates: IT hours 2800/60, IT saving 280000/60, business saving 4500, total 280000/60 + 4500 |
| Server.DeriveAll | server/index.js:100 | the listing has one entry per record, in order, each the derived view of that record |
| Server.Upserted | server/index.js:114-120 | a record whose id is in use replaces the first record holding it, and every other record stays; a new id is appended at the end after the unchanged prefix |
| Server.UpsertKeepsIdsUnique | server/index.js:114-120 | upsert preserves unique ids, and the ids in use afterwards are the old ones plus the new one |
| Server.UpsertIdempotent | server/index.js:106-123 | upserting the same record twice is the same as upserting it once, and the listing then contains the record's derived view |
| Server.Patched | server/index.js:131-137 | the first record holding the id has the body merged in; the length, the order and all other records stay; an unknown id changes nothing |
| Server.PatchKeepsIdsUniqueIff | server/index.js:137 | given unique ids, a patch keeps them unique exactly when the body has no id, repeats the patched id, or names an id no record uses |
| Server.Without | server/index.js:148 | after filtering, no record holds the id; the records kept are exactly the others; nothing is added |
| Server.WithoutConcat | server/index.js:148 | filtering distributes over concatenation, so the kept records keep their relative order |
| Server.WithoutAbsent | server/index.js:148 | removing an id no record holds changes nothing |
| Server.DeleteIdempotent | server/index.js:143-151 | deleting twice is the same as deleting once |
| Server.WithoutKeepsUnique | server/index.js:148 | deleting preserves unique ids |
| Server.Store.constructor | server/index.js:23-44 | the store starts with rates 100 and 150 and the two seeded records, whose ids are unique |
| Server.Store.GetSettings | server/index.js:81 | returns the current settings |
| Server.Store.UpdateSettings | server/index.js:84-94 | the new settings are UpdatedSettings of the old ones; the records are untouched; the response is the new settings |
| Server.Store.List | server/index.js:97-103 | one derived entry per stored record, in order, under the current rates |
| Server.Store.Upsert | server/index.js:106-123 | an empty id gives error 400 "id required" and changes nothing; otherwise the list becomes Upserted and the response is the record's derived view |
| Server.Store.Patch | server/index.js:126-140 | the list becomes Patched; an unknown id gives error 404 "not found"; otherwise the response is the merged record's derived view |
| Server.Store.Delete | server/index.js:143-151 | the list becomes Without the id, the settings are untouched, and success is always reported |
| Server.Status | server/index.js:111-134 | a body without an id answers 400 and an unknown id 404, and only those |
| Server.Message | server/index.js:111-134 | a body without an id answers "id required" and an unknown id "not found", and only those |
| Slug.ToLower | client/src/components/Calculator.jsx:183 | an upper-case letter becomes the lower-case letter at the same place in the alphabet; no upper-case letter remains; other characters are unchanged |
| Slug.LowerCase | client/src/components/Calculator.jsx:183 | `toLowerCase()` keeps the length and lowers each character in place |
| Slug.Collapse | client/src/components/Calculator.jsx:184-186 | a replaced run starts the result with the replacement character; otherwise the result starts with the first character |
| Slug.CollapseChars | client/src/components/Calculator.jsx:184-186 | the result holds only the replacement and the input's characters outside the class |
| Slug.CollapseNoAdjacent | client/src/components/Calculator.jsx:184-186 | the result never has two class characters next to each other |
| Slug.CollapseFixed | client/src/components/Calculator.jsx:184-186 | text with no runs to replace is left unchanged |
| Slug.CollapseConcat | client/src/components/Calculator.jsx:184 | collapsing splits at a boundary not next to a class character |
| Slug.WhitespaceRunToHyphen | client/src/components/Calculator.jsx:184 | a whitespace run between two words becomes exactly one `-` |
| Slug.KeepSlugChars | client/src/components/Calculator.jsx:185 | the result holds only `[\w-]` characters taken from the input, and text made only of them is unchanged |
| Slug.Slugify | client/src/components/Calculator.jsx:180-188 | the six steps of `slugify` in order; `SlugifyWellFormed`, `SlugFixedPoint`, `SlugifyIdempotent` and `SlugExample` state its properties |
| Slug.SlugifyWellFormed | client/src/components/Calculator.jsx:180-188 | every slug contains only `[a-z0-9_-]`, does not start or end with `-`, and contains no `--` |
| Slug.SlugFixedPoint | client/src/components/Calculator.jsx:180-188 | a string of slug shape is its own slug |
| Slug.SlugifyIdempotent | client/src/components/Calculator.jsx:180-188 | slugifying twice is the same as slugifying once |
| Slug.SlugifyNoWordChars | client/src/components/Calculator.jsx:180-188 | a name with no letter, digit, `_`, `-` or whitespace has the empty slug |
| Slug.SlugExample | client/src/components/Calculator.jsx:180-188 | "My New Project!" becomes "my-new-project" |
| FreshIds.NatToString | client/src/components/Calculator.jsx:200 | the decimal spelling of a number is a non-empty string of digits |
| FreshIds.ParseNatToString | client/src/components/Calculator.jsx:200 | reading a spelled number back gives the number, so the spelling is injective |
| FreshIds.Attempt | client/src/components/Calculator.jsx:198-200 | the k-th id the loop tries: the candidate when k is 0, otherwise the candidate, `-` and the digits of k; `AttemptInjective` states that the attempts are all different |
| FreshIds.AttemptInjective | client/src/components/Calculator.jsx:198-200 | the candidate, `candidate-1`, `candidate-2`, … are pairwise different |
| FreshIds.Attempts | client/src/components/Calculator.jsx:198-200 | the first m attempts form a set of exactly m ids |
| FreshIds.AttemptsTakenBound | client/src/components/Calculator.jsx:200 | if the first m attempts are all taken, there are at least m records, which bounds the loop |
| FreshIds.FirstFreeUnique | client/src/components/Calculator.jsx:198-200 | at most one attempt is the first free one |
| FreshIds.FreshId | client/src/components/Calculator.jsx:198-200 | the loop terminates within one attempt per record; its result is not in use; it is the candidate when the candidate is free, and otherwise `candidate-n` for the smallest free n |
| FreshIds.SecondGetsSuffixOne | client/src/components/Calculator.jsx:198-200 | when the candidate is taken and `candidate-1` is free, `candidate-1` is chosen |
| Client.ComputeDerived | client/src/components/Calculator.jsx:67-79 | the screen's figures are always numbers, and total = IT saving + business saving |
| Client.ClientFormula | client/src/components/Calculator.jsx:61-79 | with the fixed rates: IT hours·60 = count·minutes, IT saving·60 = 100·count·minutes, business saving·60 = 150·count·businessHoursBack |
| Client.NoCountNoFigures | client/src/components/Calculator.jsx:67-79 | a missing, zero or non-numeric count makes every figure 0 |
| Client.ClientNonNegative | client/src/components/Calculator.jsx:67-79 | non-negative inputs give non-negative figures |
| Client.SumFigures | client/src/components/Calculator.jsx:226-236 | the totals of an empty list are all zero, and the summed total equals the summed IT saving plus the summed business saving |
| Client.TotalsByField | client/src/components/Calculator.jsx:226-236 | each field of the totals equals the sum of that derived field over all projects, using an independent fold from the front |
| Client.TotalsSnoc | client/src/components/Calculator.jsx:211 | appending a project adds its figures to the totals |
| Client.TotalsConcat | client/src/components/Calculator.jsx:226-236 | the totals of two joined lists are the sum of the totals of each |
| Client.SameFiguresSameTotals | client/src/components/Calculator.jsx:226-236 | lists whose records have the same figures, position by position, have the same totals |
| Client.UpdatedLocally | client/src/components/Calculator.jsx:82-84 | every record with the id gets the patch merged in; all others, the order and the length stay |
| Client.UpdateLocalAbsent | client/src/components/Calculator.jsx:82-84 | editing an id no record has changes nothing |
| Client.UpdateLocalKeepsIds | client/src/components/Calculator.jsx:82-84 | a patch without an id keeps every id, the set of ids, and their uniqueness |
| Client.UpdateLocalTwice | client/src/components/Calculator.jsx:82-84 | two edits in a row equal one edit with the combined patch, provided the first keeps the id |
| Client.Normalized | client/src/components/Calculator.jsx:110 | the save-time value is `NumberOrZero(v)`; the extra test for `''` changes nothing |
| Client.EditThenSaveFinite | client/src/components/Calculator.jsx:116-126 | after typing into a field and saving it, the field holds the finite number `Coerce(raw)` |
| Client.FieldPatchWrites | client/src/components/Calculator.jsx:111 | a one-field patch writes that field and no other |
| Client.Edited | client/src/components/Calculator.jsx:102-134 | an empty input stays the empty string and any other input becomes `Number(raw)`; `EditThenSaveFinite` states that saving the edited value stores `Coerce(raw)` |
| Client.SavedField | client/src/components/Calculator.jsx:108-141 | reads the first record with the id and writes its normalised field into every record with the id; `SaveNormalises` and `SaveKeepsFigures` state its effect |
| Client.SaveNormalises | client/src/components/Calculator.jsx:108-141 | with unique ids a save replaces one field of one record by `NumberOrZero(v)` of its old value; everything else stays and ids stay unique |
| Client.SaveKeepsFigures | client/src/components/Calculator.jsx:108-141 | with unique ids, saving changes neither any record's figures nor the totals |
| Client.SavedRecordFigures | client/src/components/Calculator.jsx:108-141 | normalising one field of a record keeps its figures |
| Client.SameCoercedSameFigures | client/src/components/Calculator.jsx:67-79 | the figures depend only on the three coerced numbers |
| Client.FiniteAfterSaving | client/src/components/Calculator.jsx:110 | a field saved twice holds the finite number `Coerce(v)`; reading a saved field with `Coerce(x)` gives what the unsaved one gave |
| Client.IdCandidate | client/src/components/Calculator.jsx:197 | a non-blank typed id is used trimmed, so it is non-empty with no whitespace at its ends; otherwise the candidate is `Slugify` of the name, a well-formed slug |
| Client.PunctuationNameEmptyCandidate | client/src/components/Calculator.jsx:197 | with no typed id, a name made only of punctuation gives the empty candidate, which the server rejects |
| Client.AddErrorMessage | client/src/components/Calculator.jsx:193 | the error shown for a blank name is "Project name is required" |
| Client.NewRecord | client/src/components/Calculator.jsx:202-208 | the record `addProject` stores: the chosen id, the trimmed name and each number as `NumberOrZero(x)`; `NewRecordFigures` states it shows the figures of the typed values |
| Client.NewRecordFigures | client/src/components/Calculator.jsx:202-208 | the stored record has the same figures as the values typed in the form |
| Client.Calculator.constructor | client/src/components/Calculator.jsx:18 | the list starts empty |
| Client.Calculator.UpdateLocal | client/src/components/Calculator.jsx:82-84 | the list becomes UpdatedLocally |
| Client.Calculator.ChangeField | client/src/components/Calculator.jsx:102-134 | the typed value, `''` or `Number(raw)`, is merged into every record with the id |
| Client.Calculator.SaveField | client/src/components/Calculator.jsx:108-141 | the value is read from the first record with the id, normalised, and written into every record with the id; without one nothing changes |
| Client.Calculator.AddProject | client/src/components/Calculator.jsx:191-211 | a blank name gives "Project name is required" and changes nothing; otherwise one record is appended: trimmed name, `NumberOrZero(v)` numbers, and the first free attempt at the candidate id, so unique ids stay unique |
| Client.Calculator.Totals | client/src/components/Calculator.jsx:226-236 | the reduction loop computes SumFigures of the list |
| Agreement.DefaultRatesAgreement | server/index.js:56-68 | under the default rates, hours and IT saving agree with the screen's; business saving and total agree exactly when the count is 60 or the business hours back are 0 |
| Agreement.SeededBusinessSavingsDiffer | client/src/components/Calculator.jsx:74 | for the seeded `powerbi` record the server shows a business saving of 4500 and the screen 15000 |
| Agreement.LocalEditMatchesPatch | server/index.js:131-137 | with unique ids, the screen's local edit gives the same list as the server's patch |
| Agreement.DuplicateIdsDiverge | client/src/components/Calculator.jsx:83 | with a duplicated id the two differ: the screen edits every copy, the server only the first |

## Left out

- HTTP, Express routing, CORS, JSON parsing and the response envelope are not modelled. A handler is a method on the store; a status code is an `ApiError` with its number and message.
- The server listing on port 4000 is not modelled.
- The requests the screen sends (axios calls) are not modelled, nor their ordering. Also left out: the re-fetch after a failed request, and the rollback of a failed delete.
- `handleRemoveProject`, `persistProject` and `fetchProjects`: the screen's delete, save request and load are requests to the backend and are not modelled. The server side of each is modelled.
- Rendering, the modal, `formatNum`, the loading flags and `addError` display are not modelled. App.jsx and main.jsx are not part of this model.
- Numbers are exact reals or NaN. IEEE-754 rounding, infinities and `-0` are not modelled.
- How `Number()` parses non-blank text is not modelled. A text value carries the number it parses to.
- A record carries exactly five keys, `id`, `name`, `count`, `timePerTransactionMin` and `businessHoursBack`, and `name` is always a string. In the source a record is an open object: upsert stores the body as it is, patch and `computeProjectDerived` spread every key, and the screen posts back records holding the server's `itHours`, `itSaving`, `businessSaving` and `total`. Other keys and a missing `name` are not modelled. The derived figures do not depend on them: `computeProjectDerived` reads only the three numeric keys and writes the four derived keys after the spread, so stored copies of them are overwritten.
- Field values that are `null`, booleans or objects are not modelled.
- An id is a string. The server's `!proj.id` test is modelled as the empty string; a missing id is written as "".
- `slugify`, `trim` and `toLowerCase` are modelled on ASCII only. Unicode whitespace, Unicode letters and case mapping are not modelled.
- JavaScript runs handlers one at a time, and the model does the same. React's batching of state updates is not modelled. `SaveField` and `AddProject` read the current list, where the source reads the list captured when the page last rendered.
- Client.Calculator.ChangeField: input text is assumed to be a string, as the browser supplies it.
- Agreement.DefaultRatesAgreement: compares the two sides under the default rates only. The screen never reads the server's rates.
