# Document management web part — a Dafny model

This project models the core of a SharePoint (SPFx) web part for engineering
document management. The web part is a shell with a collapsible sidebar. The
sidebar offers seven tabs, listed in a fixed configuration table:

- Projects, Documents, Transmittals, Distribution Lists, Document History, Alerts and Files.

Each tab loads a SharePoint list and turns every raw list item into a row. The
rules for that are the `||` defaults, the expanded lookups, HTML stripping, and
"any failure empties the tab". The Projects tab also has these:

- a new-project form and an edit-project form, with required-field and date checks;
- a ribbon whose buttons depend on the selection;
- a delete loop over the selected projects;
- an Excel upload that pre-reads a project from the first row of a sheet.

Two more components are modelled:

- the people picker: suggestions, and a selection kept in sync with numeric user ids;
- the user hover card: a first/last-name split, contact links, and a directory lookup with fallbacks.

The document metadata form (its validity rule and its save) is modelled as well.

The project has one module per source component:

- `Shell`, `Projects`, `ExcelUpload`, `DocumentMetadataForm`, `PeoplePicker`, `UserHoverCard`;
- `Alerts`, `Documents`, `Transmittals`, `DistributionLists`, `DocumentHistory`, `Files`, `ProjectConfig`.

Shared modules model the JavaScript semantics the components lean on:

- `JsValues`: optional values, `NaN`, truthiness, `Number(...)`;
- `JsStrings`: `toLowerCase`, `trim`, `includes`, `endsWith`, `split`/`join`;
- `Html`: the `/<[^>]+>/g` replace;
- `Seqs`: `filter`, `slice` and `find`;
- `ListItems`: the raw lookup record, the all-or-nothing `data.map` under `try/catch`, and the Yes/No cell.

The model has these parts:

- **Values.** Row mapping, validation, suggestion filtering and name splitting are
  pure code in the source. They are Dafny functions with lemmas.
- **Classes for state.** Components that keep state and change it in handlers
  become classes whose fields are that state:
  - `Projects.ProjectsPage`;
  - `ExcelUpload.UploadState`;
  - `DocumentMetadataForm.FormState`;
  - `PeoplePicker.PickerState`;
  - `UserHoverCard.SmartCard`;
  - `Shell.ShellComponent`.
  Each handler is a method. Its `ensures` ties the new state to a step function
  over the old state, and the lemmas prove properties of those step functions.
- **Loops.** The source's own loops are methods with loop invariants: the
  delete loop of the Projects tab, and the two nested searches of the Excel
  column lookup.
- **Services as parameters.** Remote services, picture lookups and the date
  parser are parameters: the service's answer, or an oracle function.

## Model

The path prefix `src/webparts/documentManagementInterface/components/` is written out in every cell.

| member | source | states |
|---|---|---|
| ProjectConfig.Map | src/config/projectConfig.ts:59-61 | `map` applies the function to every configured tab in order and returns a list of the same length |
| ProjectConfig.IdsAre | src/config/projectConfig.ts:15-57 | The tab ids are exactly projects, documents, transmittals, distributionLists, documentHistory, alerts and files, in that order |
| ProjectConfig.Ids | src/config/projectConfig.ts:59-61 | There is one id per configured tab, and each is that tab's id, in order |
| ProjectConfig.IdsDistinct | src/config/projectConfig.ts:15-57 | No two configured tabs share an id |
| Shell.DispatchMatchesConfig | src/webparts/documentManagementInterface/components/DocumentManagementInterface.tsx:83-101 | A tab id reaches the placeholder exactly when it is not a configured id. Every configured id renders the view of that same tab |
| Shell.DispatchByName | src/webparts/documentManagementInterface/components/DocumentManagementInterface.tsx:83-101 | The switch dispatches each of the seven literal ids to its own view, and every other string to the placeholder |
| Shell.TabChangeOnSidebar | src/webparts/documentManagementInterface/components/DocumentManagementInterface.tsx:66-73 | A tab change selects the tab. It closes the sidebar on mobile and leaves it as it was on desktop. It never changes `isMobile` |
| Shell.ToggleAndClose | src/webparts/documentManagementInterface/components/DocumentManagementInterface.tsx:75-81 | Toggling twice restores the state, and closing twice is closing once. Neither handler touches the selected tab |
| Shell.ResizeEffect | src/webparts/documentManagementInterface/components/DocumentManagementInterface.tsx:46-62 | After a resize, the page is mobile exactly when the width is below 768. The sidebar stays open only if it was open and the new width is mobile. The tab is unchanged |
| Shell.NextKeepsConsistent | src/webparts/documentManagementInterface/components/DocumentManagementInterface.tsx:55-81 | Every event the page offers keeps these two facts: the selected tab is a configured one, and no sidebar is open on desktop |
| Shell.RunKeepsConsistent | src/webparts/documentManagementInterface/components/DocumentManagementInterface.tsx:55-81 | Those two facts also hold after any sequence of offered events |
| Shell.ReachableStates | src/webparts/documentManagementInterface/components/DocumentManagementInterface.tsx:28-101 | Every state reachable from the initial one shows a real tab, never the placeholder, and on desktop its sidebar flag is never left open |
| Shell.ShellComponent.constructor | src/webparts/documentManagementInterface/components/DocumentManagementInterface.tsx:26-33 | The initial state has tab `projects`, the sidebar closed, and `isMobile` taken from the width |
| Shell.ShellComponent.HandleTabChange | src/webparts/documentManagementInterface/components/DocumentManagementInterface.tsx:66-73 | The new state is the tab-change step of the old state |
| Shell.ShellComponent.ToggleSidebar | src/webparts/documentManagementInterface/components/DocumentManagementInterface.tsx:75-77 | The new state is the toggle step of the old state |
| Shell.ShellComponent.CloseSidebar | src/webparts/documentManagementInterface/components/DocumentManagementInterface.tsx:79-81 | The new state is the close step of the old state |
| Shell.ShellComponent.HandleResize | src/webparts/documentManagementInterface/components/DocumentManagementInterface.tsx:50-64 | The new state is the resize step for the new width, taken when the debounce timer fires |
| Shell.ShellComponent.Content | src/webparts/documentManagementInterface/components/DocumentManagementInterface.tsx:83-101 | The rendered content is the placeholder exactly when the selected tab is not configured |
| Html.StripTagsIsTagFree | src/webparts/documentManagementInterface/components/Projects/Projects.tsx:70 | After `replace(/<[^>]+>/g, '')`, no match of the tag pattern is left |
| Html.StripTagsOfTagFree | src/webparts/documentManagementInterface/components/Projects/Projects.tsx:70 | Text without a tag is left unchanged |
| Html.StripTagsIdempotent | src/webparts/documentManagementInterface/components/Projects/Projects.tsx:70 | Stripping twice is the same as stripping once |
| Html.StripTagsChars | src/webparts/documentManagementInterface/components/Projects/Projects.tsx:70 | Stripping never lengthens the text, and never adds a character that was not in it |
| Html.StripTagsDropsTag | src/webparts/documentManagementInterface/components/Projects/Projects.tsx:70 | A tag between two runs of text is removed and the text around it survives in order. Text before the first `<` is kept exactly, and the rest after the tag is stripped in turn |
| Html.StripTagsTrimFacts | src/webparts/documentManagementInterface/components/Documents/Documents.tsx:16 | Strip-then-trim gives text with no tag, no longer than the input, that neither starts nor ends with whitespace |
| Html.StripTagsTrimOfClean | src/webparts/documentManagementInterface/components/Transmittals/Transmittals.tsx:16 | Text that is already tag-free and trimmed comes back unchanged |
| JsStrings.TrimIsInfix | src/webparts/documentManagementInterface/components/Files/DocumentMetadataForm.tsx:98-104 | `trim()` returns a contiguous piece of the input, with only whitespace removed before and after it |
| JsStrings.Trim | src/webparts/documentManagementInterface/components/Files/DocumentMetadataForm.tsx:98-104 | `trim()` is never longer than its input, and its result neither starts nor ends with whitespace |
| JsStrings.ToLower | src/webparts/documentManagementInterface/components/ExcelUpload/ExcelUpload.tsx:101-103 | `toLowerCase()` keeps the length of the string |
| JsStrings.Split | src/webparts/documentManagementInterface/components/UserHoverCard/UserHoverCard.tsx:25 | `split(' ')` always yields at least one part |
| JsStrings.TrimIdempotent | src/webparts/documentManagementInterface/components/Files/DocumentMetadataForm.tsx:98-104 | Trimming twice is the same as trimming once |
| JsStrings.TrimEmptyIff | src/webparts/documentManagementInterface/components/Files/DocumentMetadataForm.tsx:98-104 | `s.trim() === ''` exactly when every character of `s` is whitespace |
| JsStrings.ToLowerIdempotent | src/webparts/documentManagementInterface/components/ExcelUpload/ExcelUpload.tsx:211 | Lower-casing twice is the same as lower-casing once |
| JsStrings.IncludesIff | src/webparts/documentManagementInterface/components/PeoplePicker/PeoplePicker.tsx:72-75 | `includes` holds exactly when the needle occurs at some position |
| JsStrings.JoinSplit | src/webparts/documentManagementInterface/components/UserHoverCard/UserHoverCard.tsx:25-28 | Joining the parts of `split(' ')` with `' '` gives the string back |
| JsStrings.SplitCount | src/webparts/documentManagementInterface/components/UserHoverCard/UserHoverCard.tsx:25-26 | `split(' ')` yields more than one part exactly when the string contains a space |
| JsStrings.Utf16LengthBounds | src/webparts/documentManagementInterface/components/PeoplePicker/PeoplePicker.tsx:98-99 | A string's `length` lies between its number of characters and twice that. For text inside the Basic Multilingual Plane it equals the number of characters |
| JsValues.NumberOfDecimalString | src/webparts/documentManagementInterface/components/PeoplePicker/PeoplePicker.tsx:57-87 | `Number` of the decimal form of a non-negative integer is that integer |
| ListItems.MapAll | src/webparts/documentManagementInterface/components/DocumentHistory/DocumentHistory.tsx:18-32 | `data.map(f)` with an `f` that may throw succeeds exactly when no row throws. It then holds one result per row, in order |
| Seqs.Filter | src/webparts/documentManagementInterface/components/PeoplePicker/PeoplePicker.tsx:72-75 | `filter` keeps exactly the elements that pass the test, in their original order |
| Seqs.Take | src/webparts/documentManagementInterface/components/PeoplePicker/PeoplePicker.tsx:77 | `slice(0, n)` holds the first n elements, or all of them when there are fewer |
| ListItems.LoadOrEmpty | src/webparts/documentManagementInterface/components/Files/Files.tsx:12-28 | A failed request, or one row that throws, leaves the tab empty. Otherwise the tab shows every mapped row, in order |
| ListItems.YesNo | src/webparts/documentManagementInterface/components/Alerts/Alerts.tsx:88 | The cell is "Yes" exactly when the flag is true, and "No" exactly when it is false |
| ListItems.TitleOr | src/webparts/documentManagementInterface/components/Documents/Documents.tsx:33-34 | `lookup?.Title \|\| ''` is the title when the lookup and its title are present, and '' otherwise |
| ListItems.CleanNotes | src/webparts/documentManagementInterface/components/Documents/Documents.tsx:30 | Notes are '' when the raw value is falsy. Otherwise they are the stripped, trimmed text, no longer than the raw one |
| ListItems.CleanNotesIsClean | src/webparts/documentManagementInterface/components/Documents/Documents.tsx:16-30 | The displayed notes never hold a tag or surrounding whitespace |
| ListItems.CleanNotesKeepsClean | src/webparts/documentManagementInterface/components/Documents/Documents.tsx:16-30 | Notes that are already clean are shown unchanged |
| Alerts.MapAlert | src/webparts/documentManagementInterface/components/Alerts/Alerts.tsx:16-38 | The id is copied. The ProjectCode, DocumentId and AssignedTo lookups are present exactly when the raw ones are, and then copy only their listed subfields. AlertType, Priority, ExpectedDate and ResolvedDate are the raw values or '', DaysOverdue the raw value or 0, and IsResolved the raw flag or false. Message is the decoded message |
| Alerts.MapAlertRoundTrip | src/webparts/documentManagementInterface/components/Alerts/Alerts.tsx:16-38 | A raw item carrying an alert's fields maps back to that alert, so the mapping loses nothing it keeps |
| Alerts.MessageText | src/webparts/documentManagementInterface/components/Alerts/Alerts.tsx:30 | An object with `value` is unwrapped, a string is kept, and a missing message gives ''. An object without `value` is kept as an object, and only then is the result not text |
| Alerts.MessageUnwrapAgrees | src/webparts/documentManagementInterface/components/Alerts/Alerts.tsx:30 | A message wrapped in an object with `value` and the same text given as a plain string map to the same Message |
| Alerts.LoadAlerts | src/webparts/documentManagementInterface/components/Alerts/Alerts.tsx:12-44 | A failed request gives no items. Otherwise there is one mapped alert per row, in order |
| Alerts.StripHtml | src/webparts/documentManagementInterface/components/Alerts/Alerts.tsx:59-62 | The result is the input with every tag match removed, as `replace(/<[^>]+>/g, '')` does. It holds no tag and is no longer than the input. Tag-free input comes back unchanged, so this variant does not trim |
| Alerts.StripHtmlKeepsSpaces | src/webparts/documentManagementInterface/components/Alerts/Alerts.tsx:59-62 | Leading and trailing spaces around tag-free text survive, unlike the trimming variant of the other tabs |
| Alerts.ResolvedCell | src/webparts/documentManagementInterface/components/Alerts/Alerts.tsx:88 | The Resolved cell is "Yes" exactly when the alert is resolved and "No" exactly when it is not |
| Alerts.MessageCell | src/webparts/documentManagementInterface/components/Alerts/Alerts.tsx:59-86 | The Message cell fails to render exactly when the message was kept as an object. A text message is shown as `stripHtml` of it: no tag, and tag-free text shown as it is |
| Documents.MapDocument | src/webparts/documentManagementInterface/components/Documents/Documents.tsx:17-35 | Every text and date field is the raw value, or '' when it is missing. TurnaroundDays and DaysLate are the raw value or 0. AssignedTo is `{Id, Title}` exactly when the lookup is present. Notes are the stripped, trimmed raw Notes when truthy and '' otherwise. CreatedBy and ModifiedBy are the Author and Editor titles or '' |
| Documents.MapDocumentRoundTrip | src/webparts/documentManagementInterface/components/Documents/Documents.tsx:17-35 | A document with clean notes survives a trip through the list unchanged |
| Documents.DocumentNotesClean | src/webparts/documentManagementInterface/components/Documents/Documents.tsx:16-30 | Every document's notes are tag-free and trimmed |
| Documents.LoadDocuments | src/webparts/documentManagementInterface/components/Documents/Documents.tsx:12-41 | A failed request gives no items. Otherwise there is one mapped document per row, in order |
| Transmittals.SubjectText | src/webparts/documentManagementInterface/components/Transmittals/Transmittals.tsx:26 | A falsy Subject gives ''. Otherwise the Subject is the stripped Notes, and it throws when Notes is missing |
| Transmittals.MapTransmittal | src/webparts/documentManagementInterface/components/Transmittals/Transmittals.tsx:17-33 | A row throws exactly when its ProjectCode lookup is missing, or when its Subject is truthy and its Notes missing. ProjectCode and ProjectTitle come from the lookup or ''. Every other text field is the raw value, or '' when it is missing or empty. Notes are the stripped, trimmed raw Notes when truthy and '' otherwise. The Subject is the stripped Notes when Subject is truthy and '' otherwise. CreatedBy and ModifiedBy are the Author and Editor titles or '' |
| Transmittals.SubjectMirrorsNotes | src/webparts/documentManagementInterface/components/Transmittals/Transmittals.tsx:26-28 | With a truthy Subject, the shown Subject equals the shown Notes |
| Transmittals.SubjectTextIgnored | src/webparts/documentManagementInterface/components/Transmittals/Transmittals.tsx:26 | The raw Subject text never reaches the row: swapping one non-empty subject for another changes nothing |
| Transmittals.TransmittalTextClean | src/webparts/documentManagementInterface/components/Transmittals/Transmittals.tsx:16-28 | Notes and Subject are both tag-free and trimmed |
| Transmittals.LoadTransmittals | src/webparts/documentManagementInterface/components/Transmittals/Transmittals.tsx:12-39 | A failed request, or any row that throws, empties the tab. A row throws when it has no ProjectCode lookup, or a truthy Subject without Notes. When every row maps, there is one transmittal per row, in order |
| DistributionLists.RefOf | src/webparts/documentManagementInterface/components/DistributionLists/DistributionLists.tsx:27-28 | CreatedBy and ModifiedBy are `{Id, Title}` exactly when the lookup is present |
| DistributionLists.MapEntry | src/webparts/documentManagementInterface/components/DistributionLists/DistributionLists.tsx:16-29 | A row throws exactly when its ProjectCode lookup is missing. Otherwise the project code, ContactEmail, Company, Role, Modified and Created are the raw values or ''. The four flags are true exactly when the raw flag is `true`. CreatedBy and ModifiedBy are `{Id, Title}` of the Author and Editor lookups, or undefined when missing |
| DistributionLists.MapEntryRoundTrip | src/webparts/documentManagementInterface/components/DistributionLists/DistributionLists.tsx:16-29 | An entry survives a trip through the list unchanged |
| DistributionLists.LoadEntries | src/webparts/documentManagementInterface/components/DistributionLists/DistributionLists.tsx:12-36 | A failed request, or any row without the ProjectCode lookup, empties the tab. Otherwise there is one entry per row, in order |
| DistributionLists.FlagCells | src/webparts/documentManagementInterface/components/DistributionLists/DistributionLists.tsx:51-54 | Each of the four flag cells is "Yes" exactly when its flag is true, and "No" otherwise |
| DistributionLists.MissingFlagsRenderNo | src/webparts/documentManagementInterface/components/DistributionLists/DistributionLists.tsx:21-54 | An entry whose flags are all missing renders "No" four times |
| DocumentHistory.PerformerOf | src/webparts/documentManagementInterface/components/DocumentHistory/DocumentHistory.tsx:23-28 | A missing performer gives `undefined`. Without an e-mail no picture is looked up. With an e-mail the row throws exactly when the picture lookup rejects. Id, Title and EMail are copied |
| DocumentHistory.MapEntry | src/webparts/documentManagementInterface/components/DocumentHistory/DocumentHistory.tsx:18-32 | DocumentId, DocumentCode and Revision come from the optional lookup or ''. Action, ActionDate, Status and ApprovalCode are the raw values, or '' when missing. PerformedBy is the performer record, which is present exactly when the raw one is. A row throws exactly when its performer's picture lookup rejects |
| DocumentHistory.NoEmailNoLookup | src/webparts/documentManagementInterface/components/DocumentHistory/DocumentHistory.tsx:27 | Without an e-mail the picture service is never consulted: any two services give the same row, and the row cannot fail |
| DocumentHistory.LoadHistory | src/webparts/documentManagementInterface/components/DocumentHistory/DocumentHistory.tsx:13-38 | A failed request, or any failing row, empties the tab. Otherwise there is one entry per row, in order |
| DocumentHistory.LoadHistoryTotal | src/webparts/documentManagementInterface/components/DocumentHistory/DocumentHistory.tsx:18-32 | With a picture service that never rejects, every row is shown |
| DocumentHistory.PerformedByCellOf | src/webparts/documentManagementInterface/components/DocumentHistory/DocumentHistory.tsx:64-74 | The Performed By cell is '' exactly when the performer has no e-mail. Otherwise it is a hover card with the performer's e-mail, title and picture. A missing performer fails to render |
| Files.MapFile | src/webparts/documentManagementInterface/components/Files/Files.tsx:15-22 | A row throws exactly when Author or Editor is missing. FileName, Modified and Created are the raw values, or '' when missing. CheckedOutTo is `{Id, Title}` exactly when CheckoutUser is present. CreatedBy and ModifiedBy are the titles |
| Files.LoadFiles | src/webparts/documentManagementInterface/components/Files/Files.tsx:11-32 | A failed request, or any row missing Author or Editor, empties the tab. Otherwise there is one file per row, in order |
| Files.MissingAuthorEmptiesTab | src/webparts/documentManagementInterface/components/Files/Files.tsx:20-28 | A single row without an Author empties the whole Files tab |
| Files.CheckedOutCell | src/webparts/documentManagementInterface/components/Files/Files.tsx:44 | The cell is '' for a file that is not checked out, and the user's title otherwise |
| UserHoverCard.SplitNameRejoins | src/webparts/documentManagementInterface/components/UserHoverCard/UserHoverCard.tsx:24-29 | For a name with a space, `first + " " + last` is the name again, and the first name holds no space |
| UserHoverCard.FirstNameBeforeFirstSpace | src/webparts/documentManagementInterface/components/UserHoverCard/UserHoverCard.tsx:24-29 | The first name is the text before the first space, and the last name is everything after it |
| UserHoverCard.SplitNameNoSpace | src/webparts/documentManagementInterface/components/UserHoverCard/UserHoverCard.tsx:22-31 | A non-empty name without a space is all first name, with last name '' |
| UserHoverCard.Render | src/webparts/documentManagementInterface/components/UserHoverCard/UserHoverCard.tsx:13-21 | The card renders by precedence: loading first, then "no user data", then the "User not found" sentinel, then the card with the user's details |
| UserHoverCard.OfficePhone | src/webparts/documentManagementInterface/components/UserHoverCard/UserHoverCard.tsx:47 | The office phone is the first business phone, or '' when there is none |
| UserHoverCard.ContactLinks | src/webparts/documentManagementInterface/components/UserHoverCard/UserHoverCard.tsx:52-70 | The mail and Teams links appear exactly when `mail` is truthy, and both end with that address |
| UserHoverCard.PictureKey | src/webparts/documentManagementInterface/components/UserHoverCard/UserHoverCard.tsx:133-137 | The picture is looked up by the directory id when there is one, and by the e-mail otherwise |
| UserHoverCard.MergeFallbacks | src/webparts/documentManagementInterface/components/UserHoverCard/UserHoverCard.tsx:139-148 | On a successful lookup, id falls back to the e-mail, displayName to the prop, and mail to userPrincipalName and then to the e-mail. The other fields are copied. The picture is the looked-up one, or the given one when that lookup rejects |
| UserHoverCard.FetchedHasContact | src/webparts/documentManagementInterface/components/UserHoverCard/UserHoverCard.tsx:139-156 | After a fetch the user always has a non-empty id and a mail address. A failed directory lookup gives `{id: email, displayName, mail: email, pictureUrl}` |
| UserHoverCard.SmartCard.constructor | src/webparts/documentManagementInterface/components/UserHoverCard/UserHoverCard.tsx:121-123 | The card starts with its props, no user, and not loading |
| UserHoverCard.SmartCard.FetchUser | src/webparts/documentManagementInterface/components/UserHoverCard/UserHoverCard.tsx:125-160 | After `fetchUser` the user is the merged or fallback record, and loading is off |
| PeoplePicker.RemoveDuplicates | src/webparts/documentManagementInterface/components/PeoplePicker/PeoplePicker.tsx:120-126 | The kept personas are exactly the input personas whose id is not among the selected ones: none selected is kept, every unselected one is kept, and their order is kept |
| PeoplePicker.SuggestionsAreCandidates | src/webparts/documentManagementInterface/components/PeoplePicker/PeoplePicker.tsx:72-77 | For a non-empty filter, the suggestions are the first ten users that match and are not selected, in list order |
| PeoplePicker.SuggestionsSpec | src/webparts/documentManagementInterface/components/PeoplePicker/PeoplePicker.tsx:66-78 | An empty filter gives no suggestions. There are at most ten, each matching the filter on name or e-mail ignoring case, none already selected, all in list order. With at most ten candidates, every one is offered |
| PeoplePicker.SelectedIds | src/webparts/documentManagementInterface/components/PeoplePicker/PeoplePicker.tsx:87 | The reported ids are `Number(id)` of each selected persona, in selection order |
| PeoplePicker.SyncRestoresSelection | src/webparts/documentManagementInterface/components/PeoplePicker/PeoplePicker.tsx:54-88 | Suppose user ids are canonical decimal strings and distinct, and the selection was taken from the user list in list order. Then reporting the selection and syncing back from the reported ids selects exactly the same users |
| PeoplePicker.SelectedIff | src/webparts/documentManagementInterface/components/PeoplePicker/PeoplePicker.tsx:54-88 | Suppose ids are canonical and distinct. Then a listed user is selected by the reported ids exactly when that user is in the selection |
| PeoplePicker.PickerState.constructor | src/webparts/documentManagementInterface/components/PeoplePicker/PeoplePicker.tsx:32-33 | The picker starts with no users and no selection |
| PeoplePicker.ValidateInput | src/webparts/documentManagementInterface/components/PeoplePicker/PeoplePicker.tsx:98-99 | Typed input is valid exactly when its JavaScript `length` (UTF-16 code units) exceeds two. More than two characters is always valid, and at most one never is |
| PeoplePicker.TwoAstralCharactersValidate | src/webparts/documentManagementInterface/components/PeoplePicker/PeoplePicker.tsx:98-99 | Two characters outside the Basic Multilingual Plane have `length` 4, so they pass the check |
| PeoplePicker.PickerState.LoadUsers | src/webparts/documentManagementInterface/components/PeoplePicker/PeoplePicker.tsx:38-49 | A successful load replaces the user list. A failed one only logs, and the list stays |
| PeoplePicker.PickerState.SyncSelected | src/webparts/documentManagementInterface/components/PeoplePicker/PeoplePicker.tsx:54-61 | When both the id list and the user list are non-empty, the selection becomes exactly the users whose numeric id is listed, in list order. Otherwise the selection is unchanged |
| PeoplePicker.PickerState.OnSelectionChanged | src/webparts/documentManagementInterface/components/PeoplePicker/PeoplePicker.tsx:83-88 | The selection is stored, with none for an absent one, and its ids are reported as numbers in selection order |
| DocumentMetadataForm.Initial | src/webparts/documentManagementInterface/components/Files/DocumentMetadataForm.tsx:23-32 | Every text field starts as the given value or '', and AssignedToId is taken as given |
| DocumentMetadataForm.FilledIff | src/webparts/documentManagementInterface/components/Files/DocumentMetadataForm.tsx:98-104 | `s.trim() !== ''` holds exactly when `s` has a non-whitespace character |
| DocumentMetadataForm.IsValidSpec | src/webparts/documentManagementInterface/components/Files/DocumentMetadataForm.tsx:98-105 | The form is valid exactly when the six required text fields each hold a non-whitespace character and AssignedToId is a non-zero number, so 0 and NaN are invalid. Notes never affects validity |
| DocumentMetadataForm.ApplyChangesOnlyField | src/webparts/documentManagementInterface/components/Files/DocumentMetadataForm.tsx:86-88 | `handleChange` sets the named field and leaves every other field as it was |
| DocumentMetadataForm.AssignedToAsWritten | src/webparts/documentManagementInterface/components/Files/DocumentMetadataForm.tsx:91-93 | As written, an empty list gives `undefined`. A persona gives `Number(id)`. A plain number, which is what the picker reports, gives NaN |
| DocumentMetadataForm.PickedUserNeverValidates | src/webparts/documentManagementInterface/components/Files/DocumentMetadataForm.tsx:91-174 | As written, picking any user leaves the form invalid |
| DocumentMetadataForm.PickedUserSevenBecomesNaN | src/webparts/documentManagementInterface/components/Files/DocumentMetadataForm.tsx:91-93 | The picker reports `[7]` and the form stores NaN |
| DocumentMetadataForm.AssignedToFromIds | src/webparts/documentManagementInterface/components/Files/DocumentMetadataForm.tsx:91-93 | Corrected handler: the first reported number, or none for an empty list |
| DocumentMetadataForm.PickerSelectedIds | src/webparts/documentManagementInterface/components/Files/DocumentMetadataForm.tsx:173 | The picker is synced from `[AssignedToId]` when it is truthy, and from `[]` otherwise |
| DocumentMetadataForm.PickedUserValidates | src/webparts/documentManagementInterface/components/Files/DocumentMetadataForm.tsx:91-173 | With the corrected handler, picking a user with a non-zero id stores that id and hands it back to the picker. Validity then rests on the text fields alone |
| DocumentMetadataForm.PickedUserStaysSelected | src/webparts/documentManagementInterface/components/Files/DocumentMetadataForm.tsx:171-174 | With the corrected handler, the picker's sync selects exactly the picked user again |
| DocumentMetadataForm.FormState.HandleChange | src/webparts/documentManagementInterface/components/Files/DocumentMetadataForm.tsx:86-88 | The values become the old values with the one change applied. Nothing else changes |
| DocumentMetadataForm.FormState.constructor | src/webparts/documentManagementInterface/components/Files/DocumentMetadataForm.tsx:23-97 | The form starts with the initial values, not touched, with no error and nothing submitted |
| DocumentMetadataForm.FormState.HandleAssignedToChange | src/webparts/documentManagementInterface/components/Files/DocumentMetadataForm.tsx:91-93 | AssignedToId becomes the first reported id, using the corrected handler. Nothing else changes |
| DocumentMetadataForm.FormState.HandleSave | src/webparts/documentManagementInterface/components/Files/DocumentMetadataForm.tsx:107-115 | The form becomes touched. Invalid values set the required-fields error and submit nothing. Valid values clear the error and submit exactly the current values |
| ExcelUpload.Aliases | src/webparts/documentManagementInterface/components/ExcelUpload/ExcelUpload.tsx:35-97 | Each of the eight fields has its list of header aliases. A field without a mapping entry has none |
| ExcelUpload.KeyIndexSpec | src/webparts/documentManagementInterface/components/ExcelUpload/ExcelUpload.tsx:101-103 | The header search finds the first key that equals the alias after lower-casing and trimming both. It gives -1 exactly when no key matches |
| ExcelUpload.FirstFilledSpec | src/webparts/documentManagementInterface/components/ExcelUpload/ExcelUpload.tsx:99-110 | Aliases are tried in order. The value returned is the cell of the first alias whose matched key holds a value other than `undefined`, `null` or `''`. The result is `undefined` exactly when no alias has one |
| ExcelUpload.UnmappedFieldHasNoValue | src/webparts/documentManagementInterface/components/ExcelUpload/ExcelUpload.tsx:97-110 | A field with no mapping entry always gives `undefined` |
| ExcelUpload.FindKey | src/webparts/documentManagementInterface/components/ExcelUpload/ExcelUpload.tsx:101-103 | The `find` loop over the row's keys returns the index of the first matching header, or -1 |
| ExcelUpload.FirstFilledValue | src/webparts/documentManagementInterface/components/ExcelUpload/ExcelUpload.tsx:99-110 | The `for` loop over the aliases returns the first filled matching cell, as specified by FirstFilledSpec |
| ExcelUpload.FindColumnValue | src/webparts/documentManagementInterface/components/ExcelUpload/ExcelUpload.tsx:96-111 | `findColumnValue` returns the column value of the field, as FirstFilledSpec describes it |
| ExcelUpload.ConvertDate | src/webparts/documentManagementInterface/components/ExcelUpload/ExcelUpload.tsx:149-180 | A present value stays present. A non-zero serial number becomes the date it encodes. A parsable string becomes its date. An unparsable string, or a value that is neither number nor string, is kept as it was |
| ExcelUpload.PresentIsData | src/webparts/documentManagementInterface/components/ExcelUpload/ExcelUpload.tsx:149-185 | A found value counts as data for `hasData`, both before and after the date conversion |
| ExcelUpload.HasDataIff | src/webparts/documentManagementInterface/components/ExcelUpload/ExcelUpload.tsx:137-191 | `hasData` holds for the prepared row exactly when at least one field was found |
| ExcelUpload.ParseOutcomeSpec | src/webparts/documentManagementInterface/components/ExcelUpload/ExcelUpload.tsx:127-191 | An empty sheet fails with "The Excel file is empty or does not contain valid data". Only the first row is read. It fails with the no-data message exactly when no field is found. Success delivers that row's prepared data |
| ExcelUpload.AcceptedNameIgnoresCase | src/webparts/documentManagementInterface/components/ExcelUpload/ExcelUpload.tsx:211-212 | The extension check gives the same answer for a name and its lower-cased form |
| ExcelUpload.UploadState.constructor | src/webparts/documentManagementInterface/components/ExcelUpload/ExcelUpload.tsx:30-32 | The component starts not loading, with no error, no success and nothing delivered |
| ExcelUpload.UploadState.ParseExcelFile | src/webparts/documentManagementInterface/components/ExcelUpload/ExcelUpload.tsx:113-205 | Loading ends off. On success the data is delivered once and success is set. On failure nothing is delivered and the error holds the failure's message |
| ExcelUpload.UploadState.HandleFileChange | src/webparts/documentManagementInterface/components/ExcelUpload/ExcelUpload.tsx:207-219 | No file changes nothing. A name not ending in `.xlsx` or `.xls` (lower-cased) sets the unsupported-format error and parses nothing. An accepted file is parsed as ParseExcelFile states |
| ExcelUpload.UploadState.Clear | src/webparts/documentManagementInterface/components/ExcelUpload/ExcelUpload.tsx:245-254 | Clear removes the error and the success flag and leaves the rest |
| Projects.ManagerId | src/webparts/documentManagementInterface/components/Projects/Projects.tsx:84 | The manager id is present exactly when the lookup has a truthy id, and then it is that id |
| Projects.MapProject | src/webparts/documentManagementInterface/components/Projects/Projects.tsx:76-96 | The id is copied. Every text and date field is the raw value, or '' when it is missing. Notes are the stripped, trimmed raw Notes when truthy and '' otherwise. The manager title is the lookup's title or '', the id is its truthy id, and the picture is the one given. CreatedBy and ModifiedBy are the Author and Editor titles or '' |
| Projects.MapProjectRoundTrip | src/webparts/documentManagementInterface/components/Projects/Projects.tsx:76-96 | A project with clean notes and a non-zero or absent manager id survives a trip through the list unchanged |
| Projects.ProjectNotesClean | src/webparts/documentManagementInterface/components/Projects/Projects.tsx:70-90 | Every project's notes are tag-free and trimmed |
| Projects.ManagerPicture | src/webparts/documentManagementInterface/components/Projects/Projects.tsx:72-75 | The manager's picture is looked up by id only when that id is truthy. Without one the picture is `undefined` |
| Projects.LoadProjects | src/webparts/documentManagementInterface/components/Projects/Projects.tsx:65-105 | A failed request, or any rejected picture lookup, empties the list. Otherwise there is one project per row, in order, each with its manager's picture |
| Projects.StoredPicture | src/webparts/documentManagementInterface/components/Projects/Projects.tsx:204 | On the reload after a delete, the picture is the stored one when truthy, and `undefined` otherwise |
| Projects.ReloadItems | src/webparts/documentManagementInterface/components/Projects/Projects.tsx:193-215 | The reload maps every row with its stored picture, one project per row, in order |
| Projects.ValidateSpec | src/webparts/documentManagementInterface/components/Projects/Projects.tsx:113-126 | The required-fields check fails exactly when ProjectCode, Title, Customer or Status is empty or the manager id is missing or 0. A form is accepted exactly when every required field is filled and the end date is not before the start date. A missing date or an unparsable date passes the date check, and so do equal dates |
| Projects.FieldsOf | src/webparts/documentManagementInterface/components/Projects/Projects.tsx:131-151 | The service receives exactly the form's eight fields |
| Projects.RibbonActions | src/webparts/documentManagementInterface/components/Projects/Projects.tsx:290-346 | "New" always comes first. "Edit" is offered exactly when one item is selected, "Delete" exactly when at least one is. No button appears twice |
| Projects.EditFormOf | src/webparts/documentManagementInterface/components/Projects/Projects.tsx:318-330 | The edit form copies the selected project's id and fields. The manager id is kept only when truthy |
| Projects.EditFormOfLoaded | src/webparts/documentManagementInterface/components/Projects/Projects.tsx:76-502 | Take a project loaded from the list, then opened for editing. It passes the required-fields check exactly when its raw item had every required field, with a truthy manager id |
| Projects.ManagerFromPicker | src/webparts/documentManagementInterface/components/Projects/Projects.tsx:454-458 | The manager picker stores the first reported id when it is truthy, and `undefined` otherwise |
| Projects.ManagerSelectedIds | src/webparts/documentManagementInterface/components/Projects/Projects.tsx:453 | The picker is synced from `[ProjectManagerId]` when it is a number, and from `[]` otherwise |
| Projects.ManagerPickRoundTrip | src/webparts/documentManagementInterface/components/Projects/Projects.tsx:453-458 | Picking a manager with a non-zero numeric id fills the required manager field, and the picker gets that id back as its selection |
| Projects.DeleteTargets | src/webparts/documentManagementInterface/components/Projects/Projects.tsx:187-188 | No more ids than selected items, and none of them is 0 |
| Projects.DeleteTargetsSpec | src/webparts/documentManagementInterface/components/Projects/Projects.tsx:187-190 | The ids deleted are exactly `selected.filter(item => item.Id).map(item => item.Id)`: every item with a truthy id, none without, in selection order |
| Projects.DeleteTargetsAllIds | src/webparts/documentManagementInterface/components/Projects/Projects.tsx:187-191 | When every selected item has an id, each one is deleted, in selection order |
| Projects.DeleteTargetsMembers | src/webparts/documentManagementInterface/components/Projects/Projects.tsx:187-191 | Every selected item with an id is among the deletes |
| Projects.DeleteRunSpec | src/webparts/documentManagementInterface/components/Projects/Projects.tsx:185-219 | The awaited deletes all succeed exactly when none is rejected, and then every target was attempted. Otherwise the loop stops right after the first rejected delete |
| Projects.DeleteRunAllAccepted | src/webparts/documentManagementInterface/components/Projects/Projects.tsx:187-191 | With no rejection every target is attempted and the loop succeeds |
| Projects.DeleteRunSomeRejected | src/webparts/documentManagementInterface/components/Projects/Projects.tsx:187-219 | One rejected target makes the run fail |
| Projects.IssueDeletes | src/webparts/documentManagementInterface/components/Projects/Projects.tsx:187-191 | The `for` loop attempts the deletes and reports success as DeleteRunSpec describes |
| Projects.DeleteCalls | src/webparts/documentManagementInterface/components/Projects/Projects.tsx:189 | There is one `deleteProject` call per id, in order |
| Projects.SaveNewRejected | src/webparts/documentManagementInterface/components/Projects/Projects.tsx:107-126 | A save whose checks fail makes no service call and keeps the modal, the form and the list. It marks the form touched and shows the required-fields message or the date message |
| Projects.SaveNewAccepted | src/webparts/documentManagementInterface/components/Projects/Projects.tsx:127-179 | An accepted save makes exactly one call, with the form's fields. On success the modal closes, the edit id is cleared, the form is emptied and the list is fetched again. On failure the form and the modal stay and the creation error shows. Saving and loading end off |
| Projects.SaveEditGated | src/webparts/documentManagementInterface/components/Projects/Projects.tsx:498-600 | The edit save runs the same checks. Failing them makes no call and keeps the modal. Passing them calls `updateProject` for the edited id with the form's fields. On success the edit modal closes and its form is emptied |
| Projects.DeleteSelectedSpec | src/webparts/documentManagementInterface/components/Projects/Projects.tsx:183-224 | With no rejection, one `deleteProject` call is made per selected item with an id, in order. When the reload answers, the list is replaced and the selection and the dialog are cleared |
| Projects.DeleteSelectedRejected | src/webparts/documentManagementInterface/components/Projects/Projects.tsx:187-223 | A rejected delete stops the loop. The list, the selection and the dialog stay as they were |
| Projects.NextKeepsEditIdUnset | src/webparts/documentManagementInterface/components/Projects/Projects.tsx:107-604 | No event on the page sets an edit id |
| Projects.SaveNewKeepsEditIdUnset | src/webparts/documentManagementInterface/components/Projects/Projects.tsx:107-180 | The new-project save never sets an edit id |
| Projects.SaveEditKeepsEditId | src/webparts/documentManagementInterface/components/Projects/Projects.tsx:498-601 | The edit save never touches the new-project edit id |
| Projects.DeleteKeepsEditId | src/webparts/documentManagementInterface/components/Projects/Projects.tsx:183-224 | Deleting never touches the edit id |
| Projects.EditIdNeverSet | src/webparts/documentManagementInterface/components/Projects/Projects.tsx:130-154 | From a state without an edit id, no sequence of events ever sets one |
| Projects.NewProjectOnlyAdds | src/webparts/documentManagementInterface/components/Projects/Projects.tsx:130-243 | From mount on, an accepted new-project save always calls `addProject`, never `updateProject`, and a freshly opened form has status `Active` |
| Projects.ProjectsPage.constructor | src/webparts/documentManagementInterface/components/Projects/Projects.tsx:40-63 | The page starts with no items, loading, no selection, closed modals and empty forms |
| Projects.ProjectsPage.FetchProjects | src/webparts/documentManagementInterface/components/Projects/Projects.tsx:65-228 | The fetch sets the items to the loaded list and ends loading |
| Projects.ProjectsPage.SetTouched | src/webparts/documentManagementInterface/components/Projects/Projects.tsx:108 | `setTouched(true)` marks the new-project form as touched and changes nothing else |
| Projects.ProjectsPage.ResetErrors | src/webparts/documentManagementInterface/components/Projects/Projects.tsx:109-111 | The date error and the form error are cleared and the error pop-up is hidden. Nothing else changes |
| Projects.ProjectsPage.SetFormError | src/webparts/documentManagementInterface/components/Projects/Projects.tsx:113-117 | The given form error is set and the pop-up shown. Nothing else changes |
| Projects.ProjectsPage.SetDateError | src/webparts/documentManagementInterface/components/Projects/Projects.tsx:118-126 | The "end date before start date" error is set and the pop-up shown. Nothing else changes |
| Projects.ProjectsPage.StartSave | src/webparts/documentManagementInterface/components/Projects/Projects.tsx:127-152 | Saving turns on, and exactly one service call is appended to those made so far |
| Projects.ProjectsPage.FinishSave | src/webparts/documentManagementInterface/components/Projects/Projects.tsx:177-178 | The `finally` block turns saving and loading off |
| Projects.ProjectsPage.CloseNewModal | src/webparts/documentManagementInterface/components/Projects/Projects.tsx:153-156 | After a successful create, the modal closes, the edit id is cleared, the form is emptied and loading turns on for the reload |
| Projects.ProjectsPage.CloseEditModal | src/webparts/documentManagementInterface/components/Projects/Projects.tsx:529-542 | After a successful update, the edit modal closes, its form is emptied and loading turns on for the reload |
| Projects.ProjectsPage.SetReloaded | src/webparts/documentManagementInterface/components/Projects/Projects.tsx:193-216 | The items become the reloaded rows, each with its stored picture |
| Projects.ProjectsPage.StartDeletes | src/webparts/documentManagementInterface/components/Projects/Projects.tsx:185-191 | Saving turns on, and one `deleteProject` call per attempted id is appended, in order |
| Projects.ProjectsPage.ResetSelection | src/webparts/documentManagementInterface/components/Projects/Projects.tsx:217-218 | The selection is emptied and the delete dialog closes |
| Projects.ProjectsPage.FinishDeletes | src/webparts/documentManagementInterface/components/Projects/Projects.tsx:222 | The `finally` block turns saving off |
| Projects.ProjectsPage.OpenNewForm | src/webparts/documentManagementInterface/components/Projects/Projects.tsx:291-307 | The new-project form is emptied, touched is cleared and the modal opens |
| Projects.ProjectsPage.ApplyStatusDefault | src/webparts/documentManagementInterface/components/Projects/Projects.tsx:240-245 | With the new-project modal open and no edit id, the status becomes `Active` and `Active` is the only status option. Otherwise nothing changes |
| Projects.ProjectsPage.HandleSaveProject | src/webparts/documentManagementInterface/components/Projects/Projects.tsx:107-180 | `handleSaveProject` moves the page from its old state to the SaveNew state described by SaveNewRejected and SaveNewAccepted |
| Projects.ProjectsPage.HandleEditSave | src/webparts/documentManagementInterface/components/Projects/Projects.tsx:498-601 | The edit modal's `onSave` moves the page to the SaveEdit state described by SaveEditGated |
| Projects.ProjectsPage.HandleDeleteSelected | src/webparts/documentManagementInterface/components/Projects/Projects.tsx:183-224 | `handleDeleteSelected` moves the page to the DeleteSelected state described by DeleteSelectedSpec and DeleteSelectedRejected |
| Projects.ProjectsPage.ClickNewProject | src/webparts/documentManagementInterface/components/Projects/Projects.tsx:240-308 | "New Project" empties the form, clears touched and opens the modal. The status effect then sets status `Active` |
| Projects.ProjectsPage.CancelNewProject | src/webparts/documentManagementInterface/components/Projects/Projects.tsx:378-392 | Cancel empties the new-project form, clears touched and closes the modal |
| Projects.ProjectsPage.ClickEditProject | src/webparts/documentManagementInterface/components/Projects/Projects.tsx:313-332 | "Edit Project", shown only for a single selection, fills the edit form from the selected project and opens the edit modal |
| Projects.ProjectsPage.CancelEditProject | src/webparts/documentManagementInterface/components/Projects/Projects.tsx:602-604 | Cancel closes the edit modal and empties the edit form |

## Left out

- Remote services: SharePoint list reads and writes, the user and profile services, and the directory. They are parameters: the request's answer, or `None` for a rejection, and oracle functions for the per-row picture lookups. Their HTTP behaviour is not part of this model.
- React rendering, asynchrony, the `loading` spinners and the interleaving of state updates. Each handler is modelled as run to completion. Effects run when their dependencies change; in the model they run as explicit steps.
- The 150 ms resize debounce is not modelled: a resize is applied when the timer fires, and cancelled timers are not modelled.
- ErrorPopUp's auto-close timer is not modelled.
- `new Date(...)` on strings is an oracle `parseDate` (`None` for an invalid date, which compares false). The Excel date-code conversion is an oracle `serialToDate`. `toLocaleDateString` formatting in the date cells is left out, because it depends on the locale.
- `toLowerCase` maps only the ASCII letters, because Unicode case mapping is not modelled.
- `Number(...)` of a string is modelled for decimal digit strings, with surrounding whitespace and the empty string. Other strings (signs, fractions, exponents, hex) give NaN, and fractional numbers are not modelled.
- Projects.SaveNew: on a failed create the shown message is the fixed fallback "Errore durante la creazione del progetto.". The extraction of a readable message from the service error is not modelled, because part of that code is missing from the source text.
- Projects.SaveEdit: on a failed update the shown message is the fixed fallback "Errore durante la modifica del progetto.". Extracting the service's own message from the error object is not modelled, because the error object's shape is not visible.
- The Excel pre-fill of the new-project form (Projects.tsx:395-419) is not modelled. Neither are the per-field `onChange` handlers of the two forms: the model treats each as a generic form edit (`EditNewForm`, `EditEditForm`).
- The status-choices fetch of the Projects tab, and the choice fetches and user list of the metadata form, only fill dropdown options. They are left out.
- The delete dialog's title and body text (singular or plural) are presentation only and are not modelled.
- The photo URL of the hover card's persona, the `Persona` image sizes and the styles are presentation only and are not modelled.
- Alerts.MessageText: a `value` that is not a string, such as `null` or a number, is not modelled: the model takes `.value` to hold the message text.
- FileUpload, ModalContainer, Sidebar, ButtonsRibbon and Spinner are not part of this model.
- ExcelUpload.FindColumnValue: the sheet row is a list of (header, cell) pairs in `Object.keys` order. Keys inherited from the object prototype, such as `columnMappings['constructor']`, are not modelled: only the eight field names have aliases.
- ExcelUpload.FindColumnValue: the `key &&` guard on the found key is not modelled separately. An empty header can only match an alias that trims to '', and no alias does.
- ExcelUpload.UploadState.ParseExcelFile: the workbook read is a parameter (`SheetRead`): the rows of the first sheet, or a read error with its message. The XLSX decoding and the reset of the file input are not modelled.
- DocumentMetadataForm.FormState.HandleAssignedToChange uses the corrected handler. The handler as written is AssignedToAsWritten; see Findings.

## Findings

| source | as written | input that shows it | evidently intended | confidence | as-written member | corrected member |
|---|---|---|---|---|---|---|
| src/webparts/documentManagementInterface/components/Files/DocumentMetadataForm.tsx:91-93 | `handleAssignedToChange` stores `Number(users[0].id)`. The PeoplePicker's `onChange` passes the selected ids as plain numbers (PeoplePicker.tsx:87-88), and a number has no `id`, so the stored value is `Number(undefined)`, which is NaN. `isValid` then fails on `!!values.AssignedToId`, so the form can never be saved once a user is picked | the picker reports `[7]`, and AssignedToId becomes NaN | store the first reported number, `users[0]`, so the assignee is set and validity rests on the text fields | not executed | DocumentMetadataForm.PickedUserNeverValidates | DocumentMetadataForm.PickedUserValidates |
