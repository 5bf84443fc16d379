# Road-condition reporter: verified model of its state logic

The application lets people report road conditions (a category and a description, tagged
with the position the browser reports) and shows the reports on a map. This project models
the three pieces of state logic in its front end and proves what they promise:

- the page (`src/pages/index.tsx`): an append-only list of reports, a list of selected
  categories with select (append) and deselect (remove every occurrence), and the derived
  list of reports shown on the map, namely those whose category is selected (module `Home`,
  class `Home.Page`);
- the report form (`src/components/ReportForm.tsx`): the four report categories, the form's
  description and category fields, and the submit rule. A description that is blank after
  JavaScript's `trim` is refused. Otherwise the untrimmed description and the category are
  forwarded. The description is then cleared, unless the
  callback threw (module `ReportForm`, class `ReportForm.Form`);
- the connection-status widget (`src/components/NetworkStatus.tsx`): the online flag and the
  connection record, the two event handlers that update them, and the label shown. Offline
  wins, then a missing record reads as unknown, then the effective type decides (module
  `NetworkStatus`, class `NetworkStatus.StatusWidget`).

`Seqs` models `Array.prototype.filter`, which both page filters use. It proves that a filter
keeps exactly the kept elements in their original order. `Wrappers` holds `Option`.
JavaScript's `trim` follows ECMA-262. It removes the characters of the WhiteSpace production
(tab, vertical tab, form feed, space, no-break space, zero-width no-break space and Unicode
category Zs) and of the LineTerminator production (LF, CR, U+2028, U+2029).

Browser inputs are parameters. The position from the geolocation success callback is
`Option<Location>`; `None` stands for a callback that never fires. Whether `navigator.geolocation`
exists is a `bool`; when it does not, reading it throws inside the form's `onSubmit` callback. `navigator.onLine` is a
`bool`. `navigator.connection` is `Option<Connection>`. Coordinates and the connection's
numbers are `real`; no arithmetic is done on them.

## Model

| member | source | states |
|---|---|---|
| Seqs.Filter | src/pages/index.tsx:29 | a filter never returns more elements than it is given |
| Seqs.FilterSnoc | src/pages/index.tsx:29 | filtering a list extended by one element extends the result by that element exactly when it is kept |
| Seqs.FilterPositions | src/pages/index.tsx:29 | the result is the input read at exactly the positions whose element is kept, in increasing order |
| Seqs.FilterMembers | src/pages/index.tsx:29 | an element is in the result exactly when it is in the input and kept |
| Seqs.FilterIsSubsequence | src/pages/index.tsx:29 | the result is a subsequence of the input |
| Seqs.FilterIdempotent | src/pages/index.tsx:29 | filtering twice with the same predicate equals filtering once |
| Seqs.FilterCongruent | src/pages/index.tsx:29 | predicates that agree on every element filter alike |
| Seqs.FilterKeepsAll | src/pages/index.tsx:24 | a filter that keeps every element returns its input |
| ReportForm.ReportCategoriesShape | src/components/ReportForm.tsx:8-12 | four distinct categories; the first, the form's initial choice, is "Pothole" |
| ReportForm.LeadingWhiteSpace | src/components/ReportForm.tsx:16 | the longest all-white-space prefix: all white space, and the next character is not |
| ReportForm.TrailingWhiteSpace | src/components/ReportForm.tsx:16 | the longest all-white-space suffix: all white space, and the character before it is not |
| ReportForm.Trim | src/components/ReportForm.tsx:16 | the trimmed text is empty exactly when the text is all white space; otherwise it starts and ends with a non-white-space character |
| ReportForm.TrimSplits | src/components/ReportForm.tsx:16 | the text is the trimmed text between an all-white-space prefix and suffix |
| ReportForm.Form.constructor | src/components/ReportForm.tsx:11-12 | initial description empty, initial category the first report category |
| ReportForm.Form.SetDescription | src/components/ReportForm.tsx:40-44 | typing replaces the description and keeps the category |
| ReportForm.Form.SetCategory | src/components/ReportForm.tsx:28-39 | choosing a category replaces it with one of the report categories and keeps the description |
| ReportForm.Form.HandleSubmit | src/components/ReportForm.tsx:14-19 | nothing is sent and nothing changes exactly when the description is all white space; otherwise the untrimmed description and the current category are sent once, and the description is cleared if the callback returns normally and kept if it throws; the category is kept |
| Home.FilterReports | src/pages/index.tsx:28-30 | a report is shown exactly when it is in the list and its category is selected; never more reports than the list |
| Home.Without | src/pages/index.tsx:24 | after deselecting, the category is absent and every other selected category is still present |
| Home.ShownInReportOrder | src/pages/index.tsx:28-30 | the shown reports are exactly those at positions whose category is selected, in list order |
| Home.ShownIsSubsequence | src/pages/index.tsx:28-30 | the shown reports are a subsequence of all reports |
| Home.FilterReportsIdempotent | src/pages/index.tsx:29 | filtering the shown reports again with the same selection changes nothing |
| Home.DeselectKeepsOrder | src/pages/index.tsx:23-24 | deselecting keeps exactly the positions holding other categories, in their order |
| Home.DeselectAbsent | src/pages/index.tsx:24 | deselecting a category that is not selected leaves the selection unchanged |
| Home.DeselectIdempotent | src/pages/index.tsx:24 | deselecting twice equals deselecting once |
| Home.DeselectHidesSelectShows | src/pages/index.tsx:20-30 | after deselecting, no report of that category is shown; after selecting it again, every report of it is |
| Home.ReselectShowsSame | src/pages/index.tsx:20-30 | selecting an already selected category duplicates it but does not change the shown reports |
| Home.SubmitExtendsShown | src/pages/index.tsx:28-43 | a new report joins the end of the shown list exactly when its category is selected; the earlier shown reports are unchanged |
| Home.Page.constructor | src/pages/index.tsx:16-18 | no reports, all report categories selected in order, heatmap hidden |
| Home.Page.HandleCategoryChange | src/pages/index.tsx:20-26 | select appends the category (length grows by one), deselect removes every occurrence; afterwards the category is in the selection exactly when the change selected it; reports untouched |
| Home.Page.SetHeatmapVisible | src/pages/index.tsx:54 | the heatmap flag is set; reports and selection untouched |
| Home.Page.HandleReportSubmit | src/pages/index.tsx:32-44 | once a position arrives, exactly one report with the given description, category and position is appended; earlier reports and the selection are unchanged |
| Home.Page.SubmitFromForm | src/pages/index.tsx:32-49 | with geolocation available, a non-blank form description becomes one new report of a report category once the position arrives, and the form is cleared; without geolocation the callback throws, so no report is added and the description is kept; a blank description changes nothing |
| NetworkStatus.GetStatus | src/components/NetworkStatus.tsx:84-96 | 4g is Fast, 3g Moderate, 2g and slow-2g Slow, any other or absent type Unknown |
| NetworkStatus.Render | src/components/NetworkStatus.tsx:66-98 | Offline exactly when offline; Unknown exactly when online and the record is missing or has an unnamed type; otherwise the effective type's label |
| NetworkStatus.RenderTotal | src/components/NetworkStatus.tsx:66-105 | different labels show different texts, so the shown text determines the label (the render itself is total by construction) |
| NetworkStatus.OfflineIgnoresRecord | src/components/NetworkStatus.tsx:66-73 | offline shows Offline whatever the record |
| NetworkStatus.NoRecordLooksUnknown | src/components/NetworkStatus.tsx:75-95 | a missing record and a record with an unnamed type show the same Unknown label |
| NetworkStatus.StatusWidget.constructor | src/components/NetworkStatus.tsx:27-28 | initially online with no record |
| NetworkStatus.StatusWidget.UpdateOnlineStatus | src/components/NetworkStatus.tsx:31-33 | the online flag becomes the browser's; the record is kept; Offline is shown exactly when offline |
| NetworkStatus.StatusWidget.UpdateConnectionDetails | src/components/NetworkStatus.tsx:35-45 | a present connection replaces the record with a copy; an absent one leaves it; a stored record is never dropped |
| NetworkStatus.StatusWidget.Mount | src/components/NetworkStatus.tsx:49-50 | the first run applies the online flag, then the connection record |

## Left out

- src/components/Map.tsx is not part of this model. Its projection, pulse animation and hit-testing are floating-point drawing code; the rest calls the canvas, heatmap.js and image loading.
- src/components/FilterControls.tsx, src/components/Layout.tsx and src/components/CategoryIcons.tsx hold markup and prop forwarding only. The model assumes what FilterControls does: it passes `handleCategoryChange` a category and its checkbox state.
- Geolocation is asynchronous browser I/O. Only the success callback's position enters, as a parameter. The model treats a submission and its position as one step. It does not model other events running between the request and the callback.
- Home.Page.HandleCategoryChange: React state is read from the render's closure, so two changes within one render would both start from the same selection. The model applies each change to the current state.
- Registering and removing the `online`, `offline` and `change` listeners, and `e.preventDefault()`, are browser plumbing. Only the handlers' effect on state is modelled.
- JSX, CSS classes, colours and icons are out of scope. The widget's output is a `Label` and its text.
- JavaScript numbers are modelled as `real`. Nothing computes with them in these files.
