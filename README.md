# Stylist sign-up and service labels, modelled in Dafny

This project models the two pieces of the salon booking frontend that carry logic of their own:

* **The stylist sign-up form** (`frontend/src/partials/StylistSignUpForm.jsx`), in
  `sign_up_form.dfy`. It covers the form state, the three handlers that edit the list of
  `{ type, price }` service entries, the text/file input handler, the required-field check and
  what a submission sends. The storage name built for the icon is in `icon_file_name.dfy`: the
  ISO time without its punctuation, placed between the file's base name and its extension,
  under `icons/`. The `splice(index, 1)` the remove handler relies on is in `splice.dfy`.
* **The service labels of the stylist detail page** (`frontend/src/pages/StylistDetail.jsx`), in
  `stylist_detail.dfy`. This is the mapping from the nine service-type keys to display labels,
  and the list of labels the page renders for a stylist.

`wrappers.dfy` holds `Option`. `sequences.dfy` holds the subsequence relation used to state
what filtering and stripping keep.

How the model is shaped:

* Service entries are objects (`SignUpForm.ServiceRow`), because the change handler writes
  `updatedServices[index][field]` into the entry itself. The copied list holds the same
  entries, so the entry of the previous state changes too. `formData` is a datatype value that
  each handler replaces, as `setFormData` does. The component is the class
  `SignUpForm.StylistSignUpForm`. Its invariant says that entries are distinct objects. Every
  entry comes from its own `{ type: '', price: '' }` literal, and this invariant is what makes
  "every other entry is unchanged" true.
* `removeService` follows `Array.prototype.splice(start, 1)` for every integer index. For an
  index of the list it removes that entry. A negative index counts back from the end. An index
  at or past the end removes nothing.
* The clock is a parameter: `HandleFormSubmit` takes the `toISOString()` text.
* A submission has three outcomes:
  * `Rejected` carries the labels of the alert, and nothing is uploaded or sent.
  * `IconNameError` happens when no icon was chosen. Line 72 reads `formData.icon.name` before
    line 77 checks `formData.icon`, so the code throws there. As a result the check on line 77
    always passes when reached.
  * `Submitted` records the upload path, the payload given to `signUpStylist` and the blob
    request. The payload is `formData` itself, icon included. The `stylist` record with
    `iconPath` (lines 82-83) is built but never sent, and the model keeps both behaviours as
    written.
* The two files name a service's type differently. The form's entries are `{ type, price }`,
  and the detail page reads `serviceTypes[i].name`. Each module uses its own file's names.

## Model

| member | source | states |
|---|---|---|
| `SignUpForm.ServiceRow.Blank` | frontend/src/partials/StylistSignUpForm.jsx:24 | a new entry has empty type and empty price |
| `SignUpForm.StylistSignUpForm.constructor` | frontend/src/partials/StylistSignUpForm.jsx:10-18 | the initial state: all text fields empty, no icon, exactly one fresh blank entry; entries distinct |
| `SignUpForm.StylistSignUpForm.AddService` | frontend/src/partials/StylistSignUpForm.jsx:20-26 | length grows by one; the old entries are the prefix, unchanged; the new last entry is fresh and blank; every other form field is untouched; entries stay distinct |
| `SignUpForm.StylistSignUpForm.HandleServiceChange` | frontend/src/partials/StylistSignUpForm.jsx:28-34 | only `field` of entry `index` becomes `value`; the entry's other field, every other entry and every other form field are unchanged; the new state holds the same entry objects as the old one (the previous state's entry is mutated too) |
| `SignUpForm.StylistSignUpForm.RemoveService` | frontend/src/partials/StylistSignUpForm.jsx:36-42 | the services become `splice(index, 1)` of the old list, and for an index of the list exactly the old list without element `index`; other fields untouched; entries stay distinct |
| `Splice.SpliceOne` | frontend/src/partials/StylistSignUpForm.jsx:39 | removal at the resolved start position: length drops by one when that position is inside the list, the elements before it are kept in place and the ones after it shift down by one; nothing changes when it is at the end |
| `Splice.RemoveAtIndex` | frontend/src/partials/StylistSignUpForm.jsx:36-42 | for `0 <= i < |s|` the result is `s[..i] + s[i+1..]`, one shorter, and its multiset is the old one minus one copy of `s[i]` |
| `Splice.RemoveFromEnd` | frontend/src/partials/StylistSignUpForm.jsx:39 | a negative index `i` removes element `|s| + i` |
| `Splice.RemoveOutOfRange` | frontend/src/partials/StylistSignUpForm.jsx:39 | an index at or past the end leaves the list unchanged; one before `-|s|` removes the first element |
| `SignUpForm.StylistSignUpForm.HandleInputChange` | frontend/src/partials/StylistSignUpForm.jsx:100-106 | a text input sets exactly its named field and leaves the other fields, the icon and the services unchanged; the file input sets exactly the icon |
| `SignUpForm.Label` | frontend/src/partials/StylistSignUpForm.jsx:48-54 | the `label` of each entry of `requiredFields` (the list itself is the constant `RequiredFields`); RequiredFieldLabels and LabelDistinguishes state what it gives |
| `SignUpForm.RequiredFieldLabels` | frontend/src/partials/StylistSignUpForm.jsx:48-54 | the labels of `requiredFields`, in order, are First Name, Last Name, Services, Email, Password |
| `SignUpForm.LabelDistinguishes` | frontend/src/partials/StylistSignUpForm.jsx:48-54 | two different required fields have different labels |
| `SignUpForm.IsMissing` | frontend/src/partials/StylistSignUpForm.jsx:56-62 | the `filter` callback: the services check for `services`, `!formData[name]` for the four text fields; MissingFieldIff and ServicesMissingIff say when it holds |
| `SignUpForm.AllRowsFilled` | frontend/src/partials/StylistSignUpForm.jsx:59 | `every` is true iff every entry has a non-empty type and a non-empty price |
| `SignUpForm.FilterMissing` | frontend/src/partials/StylistSignUpForm.jsx:56-63 | a field is in the result iff it is in the input list and missing; the result is a subsequence of the input list, so it keeps the list's order |
| `SignUpForm.ServicesMissingIff` | frontend/src/partials/StylistSignUpForm.jsx:57-60 | Services are missing iff the list is empty or some entry has an empty type or price |
| `SignUpForm.MissingFields` | frontend/src/partials/StylistSignUpForm.jsx:56-63 | `missingFields`, the filter of `requiredFields`; MissingFieldsExact writes it out field by field and MissingFieldIff gives membership |
| `SignUpForm.MissingFieldsExact` | frontend/src/partials/StylistSignUpForm.jsx:48-63 | the missing-field list written out: First Name, Last Name, Services, Email, Password, each present exactly when its check fails, in that order |
| `SignUpForm.MissingFieldIff` | frontend/src/partials/StylistSignUpForm.jsx:56-63 | a required field is among the missing fields iff its check fails |
| `SignUpForm.MissingLabelsCharacterised` | frontend/src/partials/StylistSignUpForm.jsx:48-63 | each of the five labels is reported iff its field is empty (Services: list empty or an entry incomplete); no other label is ever reported |
| `SignUpForm.MissingLabelsOrdered` | frontend/src/partials/StylistSignUpForm.jsx:48-66 | the reported labels are a subsequence of First Name, Last Name, Services, Email, Password, and none repeats |
| `SignUpForm.MissingFieldsIgnoreOptional` | frontend/src/partials/StylistSignUpForm.jsx:48-63 | changing the description or the icon never changes the missing fields |
| `SignUpForm.Labels` | frontend/src/partials/StylistSignUpForm.jsx:66 | `map(field => field.label)`: same length, the label of each field in place |
| `SignUpForm.MissingFieldLabels` | frontend/src/partials/StylistSignUpForm.jsx:66 | the labels of the missing fields; MissingLabelsCharacterised and MissingLabelsOrdered say which labels appear and in what order |
| `SignUpForm.LabelsOfSubsequence` | frontend/src/partials/StylistSignUpForm.jsx:66 | relabelling a subsequence of fields gives a subsequence of their labels |
| `SignUpForm.StylistSignUpForm.HandleFormSubmit` | frontend/src/partials/StylistSignUpForm.jsx:44-98 | submission is rejected iff some label is missing, and then carries exactly those labels and sends nothing; with all fields present it throws iff there is no icon; otherwise it uploads to `icons/` plus the timestamped file name, sends `formData` unchanged to sign-up, and records a blob of type `icon` with that file name |
| `SignUpForm.SubmittedFileName` | frontend/src/partials/StylistSignUpForm.jsx:71-72 | the stored file name keeps the icon's extension and starts with the stripped base name and `_` |
| `IconFileName.StripTimestamp` | frontend/src/partials/StylistSignUpForm.jsx:71 | `replace(/[-T:.Z]/g, '')`: never longer than the ISO text; the four lemmas below say which characters it keeps |
| `IconFileName.StripTimestampCharacters` | frontend/src/partials/StylistSignUpForm.jsx:71 | the timestamp contains none of `- T : . Z`, and every other character occurs exactly as often as in the ISO text |
| `IconFileName.StripTimestampIsSubsequence` | frontend/src/partials/StylistSignUpForm.jsx:71 | the timestamp is a subsequence of the ISO text |
| `IconFileName.StripTimestampAppend` | frontend/src/partials/StylistSignUpForm.jsx:71 | stripping a concatenation strips each part |
| `IconFileName.StripTimestampKeepsPlainText` | frontend/src/partials/StylistSignUpForm.jsx:71 | text without those characters is left unchanged |
| `IconFileName.IsoTimestampRuns` | frontend/src/partials/StylistSignUpForm.jsx:71 | for `YYYY-MM-DDTHH:mm:ss.sssZ` the timestamp is the digit runs `YYYY`, `MM`, `DD`, `HH`, `mm`, `ss`, `sss` concatenated |
| `IconFileName.IsoTimestampDigits` | frontend/src/partials/StylistSignUpForm.jsx:71 | for that form the timestamp is exactly 17 characters, all digits |
| `IconFileName.LastIndexOf` | frontend/src/partials/StylistSignUpForm.jsx:72 | `None` iff the character is absent; otherwise a position holding it with none after it |
| `IconFileName.LastIndexOfUnique` | frontend/src/partials/StylistSignUpForm.jsx:72 | that position is the only one holding the character with none after it |
| `IconFileName.Split` | frontend/src/partials/StylistSignUpForm.jsx:72 | `split('.')` yields at least one piece and no piece contains the separator |
| `IconFileName.JoinSplit` | frontend/src/partials/StylistSignUpForm.jsx:72 | joining the pieces with the separator gives back the name |
| `IconFileName.SplitLast` | frontend/src/partials/StylistSignUpForm.jsx:72 | `split('.').pop()` is the text after the last `.`, or the whole name when it has none |
| `IconFileName.SplitSingle` | frontend/src/partials/StylistSignUpForm.jsx:72 | a split has a single piece, the whole name, iff the separator is absent |
| `IconFileName.Join` | frontend/src/partials/StylistSignUpForm.jsx:72 | the inverse of `split`, joining pieces with the separator: JoinSplit proves that it rebuilds the name |
| `IconFileName.Extension` | frontend/src/partials/StylistSignUpForm.jsx:72 | `split('.').pop()`: it contains no `.`; SplitLast shows it is the text after the last `.`, or the whole name |
| `IconFileName.StripExtension` | frontend/src/partials/StylistSignUpForm.jsx:72 | `replace(/\.[^/.]+$/, '')`: the base is a prefix of the name; StripExtensionAtMatch and StripExtensionNoMatch tie it to where the pattern matches |
| `IconFileName.AfterLast` | frontend/src/partials/StylistSignUpForm.jsx:72 | the text after the last separator contains no separator |
| `IconFileName.StripExtensionAtMatch` | frontend/src/partials/StylistSignUpForm.jsx:72 | where `/\.[^/.]+$/` matches at `p`, the base is `name[..p]` |
| `IconFileName.StripExtensionNoMatch` | frontend/src/partials/StylistSignUpForm.jsx:72 | where the pattern matches nowhere, the base is the whole name |
| `IconFileName.BaseDotExtension` | frontend/src/partials/StylistSignUpForm.jsx:72 | for a name with a proper extension, base + `.` + extension is the name again |
| `IconFileName.NoDotName` | frontend/src/partials/StylistSignUpForm.jsx:72 | for a name without `.`, base and extension are both the whole name |
| `IconFileName.FileNameWithTimestamp` | frontend/src/partials/StylistSignUpForm.jsx:72 | the template literal `${base}_${timestamp}.${extension}`; FileNameOfProperName, FileNameOfDotlessName and FileNameKeepsExtension give its value |
| `IconFileName.FileNameOfProperName` | frontend/src/partials/StylistSignUpForm.jsx:72 | `base.ext` becomes `base_timestamp.ext` |
| `IconFileName.FileNameOfDotlessName` | frontend/src/partials/StylistSignUpForm.jsx:72 | a dotless `name` becomes `name_timestamp.name` |
| `IconFileName.FileNameKeepsExtension` | frontend/src/partials/StylistSignUpForm.jsx:72 | for a timestamp without `.`, the file name's extension is the icon's extension |
| `StylistDetail.ServiceNameMapper` | frontend/src/pages/StylistDetail.jsx:21-43 | a label iff the key is one of the nine keys, and then the label at that key's position in the table; `None` (`undefined`) for every other key; the result depends on the key alone |
| `StylistDetail.LabelsDistinct` | frontend/src/pages/StylistDetail.jsx:23-41 | the nine labels are pairwise distinct |
| `StylistDetail.MapperInjective` | frontend/src/pages/StylistDetail.jsx:23-41 | two keys with the same defined label are the same key |
| `StylistDetail.MapLabels` | frontend/src/pages/StylistDetail.jsx:62-66 | one mapped label per entry, in the same order |
| `StylistDetail.RenderServiceLabels` | frontend/src/pages/StylistDetail.jsx:62-66 | nothing is rendered iff `serviceTypes` is absent; otherwise one label per entry, in order, the mapping of its `name` |
| `StylistDetail.MapLabelsAppend` | frontend/src/pages/StylistDetail.jsx:62-66 | the labels of two runs of entries are the two runs of labels |
| `StylistDetail.RenderedLabelsKnown` | frontend/src/pages/StylistDetail.jsx:62-66 | a rendered label is defined iff its key is known, and then it is one of the nine labels |

## Left out

- The Firebase upload, `signUpStylist` and `createBlob` are network and storage I/O
  (StylistSignUpForm.jsx:74-97). So are their `try`/`catch` and the unused `uploadFile` helper
  (lines 108-119). The model records what a submission would send, not whether the calls
  succeed. The owner id a blob gets back from the server is not modelled.
- `new Date()` is a clock: its `toISOString()` text is a parameter. IsoTimestampDigits covers the
  24-character form that years 0 to 9999 produce. The six-digit extended years are not covered.
- `alert` and its message text (the labels joined with `, `), `console.*`, `event.preventDefault()`,
  and all JSX markup and styling are output only. The model carries the alerted labels as a
  sequence.
- The detail page's `useEffect` HTTP fetch (StylistDetail.jsx:13-19), and the name, description,
  slider and booking markup of the page, are I/O and presentation.
- `SignUpForm.StylistSignUpForm.HandleServiceChange`: it requires an index of the list. The
  JavaScript throws on any other index (`undefined[field]`), and the rendered controls pass
  only indices of the list. The field is one of `type` and `price`, the only two the markup
  passes.
- `SignUpForm.StylistSignUpForm.HandleInputChange`: the event is restricted to the inputs the
  form renders: five text inputs and one file input. A file is reduced to its name, the only
  part the logic reads.
- `StylistDetail.ServiceNameMapper`: it takes string keys only. Any non-string `name` matches no
  `case` either, so it would also yield `undefined`.
- React's batching and the timing of state updates are not modelled. Each handler is applied to
  the state it is given.
- `ServiceTypeLabels` from `../enum/service-type.enum` only feeds the select's option texts. That
  file is not part of this model.
- `backend/src/app.ts` and `frontend/src/api/http-common.js` are bootstrap and HTTP-client
  configuration with no logic of their own.
