# Warning generator: a verified model of the application state

`WarningGeneratorApp` (script.js) is a browser application that drafts
employee warning letters. Besides its DOM work, it keeps some state in
memory:

- the list of generated warnings;
- the list of saved templates;
- the warning-number counter;
- the form whose fields it validates, fills and reads.

It also derives several things from that state: the history view (a sorted
copy with shortened details), the two history filters, a CSV export and the
per-type and per-severity counts shown on the analytics page.

This project models exactly that bookkeeping in Dafny and proves what the
code promises about it.

| module | file | what it holds |
|---|---|---|
| `Wrappers` | wrappers.dfy | `Option` |
| `Text` | text.dfy | the JavaScript string operations the code relies on: `trim`, `toLowerCase`, `includes`, `substring(0, n)`, `padStart`, `join`, and `split` used to read a CSV back, plus decimal digits |
| `Counter` | counter.dfy | the counter as a JavaScript number (`Num(n)` or `NaN`), together with `parseInt`, `++`, `toString` and `padStart(4, '0')` |
| `Records` | records.dfy | the 14 form fields, warning and template records, and the `filter` and `find` used on the lists |
| `History` | history.dfy | the newest-first sorted copy, the 150-character detail preview, and the search and type filters |
| `Csv` | csv.dfy | `generateCSV` |
| `Analytics` | analytics.dfy | the counting loop of `updateAnalytics` |
| `App` | app.dfy | the classes `Form` (the input elements) and `WarningGeneratorApp` (the lists, the counter and their storage slots) |

Parts of the code change state in place. These become methods of the two
classes, with `modifies` clauses and loops carrying their invariants:

- `saveWarning`, `saveTemplate`, `deleteWarning`, `deleteTemplate`;
- `incrementWarningNumber`;
- `validateField`, `validateForm`, `updateCharCounter`;
- `fillFormWithData`, `useTemplate`, `duplicateWarning`;
- the counting loop of `updateAnalytics`.

Parts of the code are pure expressions. These are functions, with lemmas
about them:

- `generateCSV`;
- `formatWarningNumber`;
- the sorted copy and the truncation in `loadHistory`;
- the filter predicates.

Modelling choices:

- **Storage.** Each `localStorage` slot the code writes becomes a field of
  the application object: `storedWarnings`, `storedTemplates` and
  `storedWarningNumber`. Each holds the value last written.
- **Record fields.** A record's fields are a partial map from field to
  string. A missing key is JavaScript's `undefined`:
  - `join` prints it as an empty cell;
  - used as an object key, it becomes `"undefined"`.
- **Identifiers and timestamps.** `generateId` and `new Date()` become
  parameters `id`, `templateId` and `now`. `createdAt` is modelled as an
  integer timestamp; the ISO strings the code stores order the same way.
- **Confirmation dialogs.** A `confirm()` answer is the parameter
  `confirmed`.
- **Required fields.** The set of required fields comes from the page's
  markup, so it is the parameter `required`.
- **Filter input.** The filters take each history entry's rendered text as
  input, because that text includes `formatDate` output.

Three behaviours of the code that a reader might expect to be otherwise:

- **What the filters search.** The filters search the rendered entry text
  (`item.textContent`). That text holds the shortened details, not the full
  record.
- **Loading errors.** `loadWarnings` and `loadTemplates` do not catch JSON
  parse errors. So the constructor takes already-parsed lists and models no
  silent fallback.
- **Duplicating.** `duplicateWarning` copies only form fields.
  `collectFormData` always draws a fresh id and timestamp, so generating
  after a duplicate never reuses the old id
  (`App.WarningGeneratorApp.GeneratePreview` takes `id` and `now` afresh).

## Model

| member | source | states |
|---|---|---|
| Text.LeadingWhitespace | script.js:201 | the prefix trim() drops is exactly the leading whitespace run: all of it is whitespace and the next character is not |
| Text.TrimEnd | script.js:201 | trailing trim drops only whitespace, keeps a prefix, and what is left does not end in whitespace |
| Text.TrimIsSlice | script.js:515-516 | trim() returns a contiguous slice of its input with only whitespace removed on either side, and a non-empty result neither starts nor ends with whitespace |
| Text.TrimEmptyIff | script.js:200-202 | a value is blank after trim() exactly when every character of it is whitespace |
| Text.ToLower | script.js:657-658 | toLowerCase keeps the length and maps every character through the ASCII lower-case mapping |
| Text.ToLowerIdempotent | script.js:657-658 | lower-casing twice equals lower-casing once |
| Text.IncludesIff | script.js:658 | includes(sub) holds exactly when sub occurs at some position of the text |
| Text.IncludesEmpty | script.js:658 | every text includes the empty string |
| Text.Clamp | script.js:395-396 | substring(0, n) has length min(length, n) and is a prefix of the text |
| Text.PadStart | script.js:872 | padStart(width, fill) has length max(width, length) and is fill characters followed by the text |
| Text.SplitJoin | script.js:762 | splitting a join on a character that occurs in no piece gives back the pieces |
| Text.JoinAvoids | script.js:762 | a join contains a character only if a piece or the separator does |
| Text.DecimalDigits | script.js:868 | toString of a non-negative integer is a non-empty digit string with no leading zero |
| Text.DigitsValueOfDecimal | script.js:862-868 | reading back the decimal digits of n gives n |
| Text.DigitsValueLeadingZeros | script.js:872 | leading '0' characters do not change a digit string's value |
| Text.LeadingDigits | script.js:862 | the digit run parseInt reads is the longest prefix made of digits |
| Counter.GetNextWarningNumber | script.js:861-864 | an absent or empty slot gives 1; any other stored text is read with parseInt |
| Counter.Increment | script.js:867 | ++ adds exactly one to a number and leaves NaN as NaN |
| Counter.CounterSurvivesReload | script.js:861-869 | the text incrementWarningNumber stores is read back by getNextWarningNumber as the same counter value, NaN included |
| Counter.FormatWarningNumberShape | script.js:871-873 | for a non-negative counter the formatted number has length max(4, digit count) and is '0's followed by the decimal digits |
| Counter.FormatWarningNumberParses | script.js:871-873 | parseInt of the formatted number gives the number back |
| Records.FormFieldsComplete | script.js:219-224 | the 14 collected field names cover every form field |
| Records.CollectFormData | script.js:213-245 | the collected record carries the form values, the checkbox, the given id and time, and status 'active' |
| Records.Filter | script.js:599 | filter keeps only elements satisfying the predicate and never grows the list |
| Records.FilterMultiset | script.js:599 | filter keeps every matching element exactly as often as it occurs and removes every other one |
| Records.FilterConcat | script.js:700 | filtering a concatenation is concatenating the filtered parts, so the kept entries stay in order |
| Records.FilterIdempotent | script.js:700 | filtering twice with the same predicate equals filtering once |
| Records.Find | script.js:573 | find gives nothing exactly when no element matches, and otherwise an element of the list that matches |
| Records.WithoutWarningLaws | script.js:700 | deleteWarning's filter removes exactly the records with the id, keeps the others in order, is idempotent, and changes nothing for an absent id |
| Records.WithoutTemplateLaws | script.js:599 | deleteTemplate's filter removes exactly the templates with the id, keeps the others in order, is idempotent, and changes nothing for an absent id |
| History.Insert | script.js:621 | one insertion step adds exactly the new warning to the list |
| History.SortByNewest | script.js:621 | the sorted copy is a permutation of the warnings |
| History.SortByNewestOrdered | script.js:621 | the sorted copy has non-increasing createdAt |
| History.InsertKeepsOrder | script.js:621 | inserting into a newest-first list keeps it newest-first |
| History.InsertStable | script.js:621 | insertion keeps the relative order of warnings with equal createdAt |
| History.SortByNewestStable | script.js:621 | warnings with equal createdAt keep their stored order, as sort is stable |
| History.DetailsPreview | script.js:644 | details of at most 150 characters are shown whole; longer ones as their first 150 characters followed by '...' |
| History.HistoryView | script.js:621-644 | every history entry's record carries the details the preview reads |
| History.HistoryViewSpec | script.js:607-651 | the history lists every stored warning once, newest first, each with its detail preview |
| History.SearchVisibleIff | script.js:654-661 | an entry stays shown exactly when the lower-cased term occurs in its lower-cased text; the empty term shows it |
| History.SearchCaseInsensitive | script.js:657-658 | a literal occurrence is always found, and lower-casing the term or the text changes nothing |
| History.TypeVisibleIff | script.js:663-673 | the empty type shows an entry; any other type shows it exactly when the type occurs in its text |
| History.FilterHistoryShows | script.js:654-661 | over the whole list, entry i is shown exactly when the lower-cased term occurs in its lower-cased text, and an empty search shows all |
| History.FilterHistoryByTypeShows | script.js:663-673 | over the whole list, the empty type shows every entry and any other type exactly the entries whose text contains it |
| Csv.CsvRow | script.js:751-759 | a row has the seven cells employeeName, employeeEmail, warningType, severity, warningReason, warningDate and company, with undefined printed as empty |
| Csv.CsvLines | script.js:762 | there is one line per warning after the header line, and line i+1 is row i joined by ',' |
| Csv.HeadersAvoid | script.js:747-750 | no header name contains ',' or a newline |
| Csv.CsvLinesSplit | script.js:762 | when no cell contains a newline, splitting the export on newlines gives back its lines |
| Csv.CsvShape | script.js:746-763 | when no cell contains a newline, the export has 1 + number-of-warnings lines: the eight header names, then each warning's joined row |
| Csv.CsvRowRoundTrip | script.js:751-762 | when no cell contains ',' or a newline, splitting line i+1 on ',' gives back the seven fields of warning i |
| Csv.CsvHeaderMisaligned | script.js:747-762 | the header line has eight cells but every data line has seven, and the header names are shifted one column to the right of the data |
| Csv.HeaderTitlesShifted | script.js:747-758 | header name k+1 is the title of the field in data column k |
| Csv.CsvAlignedColumns | script.js:746-763 | with the unmatched first header name dropped, every line has seven cells and each header cell titles the column under it |
| Analytics.KeysOf | script.js:772-775 | the loop visits one key per warning, in order: the property's value, or 'undefined' when it is missing |
| Analytics.TallyStep | script.js:773-774 | visiting one more warning bumps its key's count by one |
| Analytics.TallyCounts | script.js:772-775 | the keys of the dictionary are exactly the visited keys, and each count is the number of times its key was visited |
| Analytics.SumCountsBump | script.js:773-774 | one bump adds one to the total of the counts |
| Analytics.TallySum | script.js:772-775 | the counts add up to the number of warnings visited |
| Analytics.AnalyticsSpec | script.js:767-775 | byType[k] is the number of warnings of type k, only occurring types are keys, and the counts sum to warnings.length; the same holds for bySeverity |
| App.IsFilledIff | script.js:200-202 | a field passes validateField exactly when some character of it is not whitespace |
| App.ValidationStep | script.js:190-209 | validating one more required field updates the error marks and the focus by that field alone |
| App.Form.ValidateField | script.js:200-211 | returns whether the trimmed value is non-empty; a blank field gains the error mark and the focus, a filled one loses the mark |
| App.Form.ValidateForm | script.js:187-198 | true exactly when every required field is filled; every required field is validated with no short-circuit, so the marks are exactly the blank required fields and the focus ends on the last blank one |
| App.Form.UpdateCharCounter | script.js:386-398 | a details value of at most 1000 characters is unchanged, a longer one is cut to its first 1000; the counter shows the remaining length and turns red exactly when the limit was exceeded |
| App.Form.CopyNonEmpty | script.js:716-721 | each listed field with a non-empty source value takes that value; every other field keeps its value |
| App.WarningGeneratorApp.constructor | script.js:3-6 | the counter comes from its slot through getNextWarningNumber, and the lists from theirs, with an empty slot giving an empty list |
| App.WarningGeneratorApp.SaveWarning | script.js:820-827 | appends exactly the record at the end, keeps the earlier ones, and writes the list to its slot |
| App.WarningGeneratorApp.SaveTemplate | script.js:514-529 | a name blank after trimming changes nothing; otherwise exactly one template is appended, holding the form data and the trimmed name and description, and the list is written back |
| App.WarningGeneratorApp.DeleteWarning | script.js:698-706 | when confirmed, the list becomes the filter that removes the id and is written back; otherwise nothing changes |
| App.WarningGeneratorApp.DeleteTemplate | script.js:597-604 | when confirmed, the list becomes the filter that removes the id and is written back; otherwise nothing changes |
| App.WarningGeneratorApp.IncrementWarningNumber | script.js:866-869 | the counter goes up by one, its decimal notation is stored, and reading that slot gives the new counter |
| App.WarningGeneratorApp.GeneratePreview | script.js:169-185 | the form's marks and focus are those of validateForm; when validation fails the lists, the counter and all three storage slots are unchanged; otherwise exactly the collected record is appended and written to its slot, the counter advances by one, its decimal notation is stored and reads back as the new counter; the form's values, the templates and their slot never change |
| App.WarningGeneratorApp.FillFormWithData | script.js:708-724 | each of the 14 fields with a non-empty value in the data is overwritten and the others keep theirs; the checkbox takes the record's flag |
| App.WarningGeneratorApp.UseTemplate | script.js:572-588 | an unknown template id changes nothing; otherwise only the nine template fields can change, each to the first matching template's non-empty value |
| App.WarningGeneratorApp.DuplicateWarning | script.js:686-696 | an unknown id changes nothing; otherwise the form is filled from the first warning with that id |
| App.WarningGeneratorApp.UpdateAnalytics | script.js:767-775 | the total is warnings.length and the two dictionaries are the tallies of the warnings' types and severities |
| App.WarningGeneratorApp.LoadHistory | script.js:607-651 | the entries are the history view of the warnings, and the stored list is not reordered |

## Left out

- DOM work is not modelled, because it is user-interface glue over the
  browser page. This covers:
  - `innerHTML` markup in `renderPreview`, `loadHistory`, `loadTemplatesView`
    and `generateHTMLForExport`;
  - toasts, modals, section navigation, and the empty-history message;
  - the CSS class toggle and `focus()`, which the model follows only as the
    sets `errorMarks` and `focused`.
- JSON serialisation of the storage slots is not modelled. The slots hold
  the values themselves.
- The drafts `saveFormData` and `loadFormData` are not modelled, nor is the
  autosave timer that drives them; their only logic is
  `fillFormWithData`, which is modelled.
- The theme setting is not modelled.
- `formatDate` and the monthly chart are not modelled, because they depend
  on locale formatting (`toLocaleDateString('ar-SA')`).
- Because of `formatDate`, the rendered text of a history entry is an input
  to the filters, not computed.
- `generateId` is not modelled, because it draws on the clock and on
  `Math.random`. Identifiers and timestamps are parameters.
- Timers are not modelled: `setTimeout` delays, `setInterval` autosave and
  `debounce`. `GeneratePreview` models the work done once its delay has
  passed.
- File uploads and `FileReader` are not modelled. Neither are printing, PDF
  and Blob download, `mailto` and `generateEmailBody`, or the service
  worker. All of these are browser services.
- `logoFile` and `signatureFile` in collected data are not modelled, because
  they are file objects.
- `exportHistory` is modelled only through its `generateCSV` content. Its
  download and file name are not.
- `viewWarning` is not modelled separately. On the state, it does what
  `DuplicateWarning` does; the rest is rendering.
- `clearForm` is not modelled, because it is DOM reset work.
- `Text.ToLower`: maps only ASCII letters, not the full Unicode case
  mapping of `toLowerCase`.
- String lengths count Unicode scalar values, not UTF-16 code units.
- `Counter.NumberToString`: does not model double precision, the exponent
  notation `toString` uses beyond 10^21, or -0.
- `Counter.Increment`: the counter is an unbounded integer, so `++` past
  2^53, where a double stops changing, is not modelled.
- `Counter.ParseInt`: the digit run is read exactly; `parseInt` rounds a
  run beyond 2^53 to the nearest double, which is not modelled.
- `Analytics.Tally`: treats the dictionary as a fresh map with no
  prototype, and so do `Analytics.AnalyticsSpec` and
  `App.WarningGeneratorApp.UpdateAnalytics`. In the code, `byType` and
  `bySeverity` are plain `{}` objects (script.js:769-770). A key naming an
  inherited `Object.prototype` member (`toString`, `constructor`,
  `valueOf`, `hasOwnProperty`, `isPrototypeOf`, `propertyIsEnumerable`,
  `toLocaleString`, the `__defineGetter__`-style names and `__proto__`)
  reads that member instead of `undefined`. For a warning of type
  "toString", `(byType[k] || 0) + 1` then stores the function's text
  followed by "1" rather than the count 1. The model gives 1.
- `History.HistoryView`: requires every record to carry `warningDetails`,
  and so does `App.WarningGeneratorApp.LoadHistory`. For a stored record
  without it, script.js:644 reads `.substring` of `undefined` and throws a
  TypeError, which ends the rendering. That error path is not modelled.
- `App.WarningGeneratorApp.FillFormWithData`: the record's
  `requireEmployeeSignature` is always a boolean here, so `|| false` has
  nothing to replace.
- `App.WarningGeneratorApp.constructor`: an empty-string slot, which
  `loadWarnings` also treats as empty, is folded into the absent case.

## Findings

| source | as written | input that shows it | evidently intended | confidence | as-written member | corrected member |
|---|---|---|---|---|---|---|
| script.js:747-762 | `generateCSV` writes eight header names, starting with the warning number, but each row has only seven cells, and none of them is a warning number | any non-empty list: row cell 0 (employeeName) sits under the header 'warning number', and the header 'company' has no cell under it | each data column sits under its own title | not executed | Csv.CsvHeaderMisaligned | Csv.CsvAlignedColumns |

`Csv.GenerateCsv` is the export as written. `Csv.GenerateCsvAligned` is the
export with the unmatched first header name dropped.
