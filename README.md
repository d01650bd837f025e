# HR certificate portal: a Dafny model of its client-side rules

The portal is a single-page client for the human-resources office of a faculty.
Staff members ask for salary, employment, bank and visa certificates. The HR desk
moves each request through a six-step pipeline and the applicant signs for the
document at pickup. The page keeps the request list fetched from a spreadsheet
backend, a browser cache of that list, and a remembered requester profile.

This project models the rules that sit inside the page:

- the request record, its six statuses and its eleven certificate tags (`Types`);
- the public pickup board: its "ready" and "processing" columns, the badge, and the
  name mask (`StatusBoard`);
- the per-requester directory, which folds the requests into a map keyed by normalised
  email and updates the entries in place; its search; the e-mail badge
  (`UserProfileView`);
- the report counters and row numbering (`ReportView`);
- the tracking page: the search by name or exact id, the pickup gate, the confirm
  guard and the progress bar, as a `Tracker` object holding the page's state
  (`StatusTracking`);
- the request form: the tag toggle, the three submit checks, the payload, and the
  profile prefill, as a `Form` object holding the form's fields (`CertificateForm`);
- the administrator's table: its search, tag chips, contact fallback and status
  styles (`CertificateTable`);
- the application shell: the session state, the refresh rule (sort by id, cache,
  fall back to the cache), the navigation gate, the login, and the write handlers,
  as a `Session` object whose methods are tied to pure transitions over a
  `SessionState` value (`App`);
- the spreadsheet export (`AppExport`).

`Strings` and `Seqs` hold what these need from JavaScript's `String` and `Array`:
ASCII lower-casing, `trim`, `includes`, `startsWith`, `split` and `join`, the
decimal form of an id, `filter` and `slice`.

Every remote call is an input to the operation that makes it:

- `Fetch` is what `getRequests` returned: an array, some other value, or a failure.
- `Outcome` is the result of a write.
- `Saved` is the new id or a failure.

A stored profile is an `Option`. Submission dates are compared through a parameter
`time: string -> int`, which stands for `new Date(...)`. The configured credentials
and the status order are parameters too.

The code and the design description of the system disagree on one point. The
description says a failed refresh falls back to the cache only when the list is
empty. The code (`App.tsx:78-81`) replaces the list with the cache whenever a cache
exists. The model follows the code: see `App.RefreshSpec`.

## Model

| member | source | states |
|---|---|---|
| Types.StatusLabelInjective | types.ts:2-9 | Two statuses with the same string value are the same status: the six values are pairwise distinct. |
| Types.CertTypesClosed | types.ts:11-22 | The tag list has exactly eleven entries with pairwise distinct string values, every tag is among them, and so is the visa tag. |
| StatusBoard.ReadyColumn | components/StatusBoard.tsx:17-19 | The ready column holds only requests of the list that are finished or back from the international office and not signed for, in list order. It has exactly min(number of such requests, 6) entries. |
| StatusBoard.ProcessingColumn | components/StatusBoard.tsx:21-25 | The processing column holds only requests of the list with neither of those statuses and no signature, in list order. It has exactly min(number of such requests, 8) entries. |
| StatusBoard.ColumnsDisjoint | components/StatusBoard.tsx:17-25 | No request appears in both columns. |
| StatusBoard.BadgeAtLeastProcessing | components/StatusBoard.tsx:129 | The badge as written is at least the number of requests the processing filter accepts, before the cap. |
| StatusBoard.BadgeCountsReadyRequest | components/StatusBoard.tsx:129 | Finding, as written: an unsigned request back from the international office is in the ready column and not in the processing column, yet the processing badge counts it. |
| StatusBoard.IntendedBadgePartition | components/StatusBoard.tsx:17-25 | Finding, corrected: the intended badge plus the ready count equals the number of unsigned requests, and the intended badge never exceeds the badge as written. |
| StatusBoard.MaskFirstShape | components/StatusBoard.tsx:32-34 | A masked first token has at most 6 characters: its first two characters, then bullets. A token of up to 6 characters keeps its length, and a longer one is cut to 6. |
| StatusBoard.MaskLastShape | components/StatusBoard.tsx:36-38 | A second token of at most one character becomes empty. Otherwise it becomes its first character followed by bullets, at most 5 characters in all. |
| StatusBoard.FormatNameTwoTokens | components/StatusBoard.tsx:27-41 | For a name of two or more space-separated tokens, the mask is the masked first token, a space and the masked second token; any later tokens are dropped. |
| StatusBoard.FormatNameOneToken | components/StatusBoard.tsx:28-40 | A name without a space becomes its masked first token followed by a lone space. |
| StatusBoard.FormatNameExample | components/StatusBoard.tsx:27-41 | "Somchai Jaidee" is shown as "So•••• J••••". |
| UserProfileView.Fold | components/UserProfile.tsx:28-55 | The directory has one entry per distinct key of the list and no other, and its key order lists each key once. |
| UserProfileView.GroupBy | components/UserProfile.tsx:28-55 | The loop that fills the map entry by entry, in place, ends with exactly the directory `Fold` describes. |
| UserProfileView.UniqueUsers | components/UserProfile.tsx:15-61 | The memo gives the search over the directory's entries, in key order, with requests keyed by lower-cased, trimmed email. |
| UserProfileView.FoldCount | components/UserProfile.tsx:36-44 | Each entry's request count is the number of requests with its key. |
| UserProfileView.FoldCountsSum | components/UserProfile.tsx:36-44 | Before the search, the counts of all entries add up to the length of the list. |
| UserProfileView.FoldTypes | components/UserProfile.tsx:40-45 | Each entry's tag set is the union of the tags of every request with its key. |
| UserProfileView.FoldFirstSeen | components/UserProfile.tsx:31-35 | Email, internal phone and mobile phone come from the first request with the key and are never overwritten. |
| UserProfileView.FoldLatest | components/UserProfile.tsx:47-53 | Name, date, id and e-mail outcome all come from one request: the first with the key to carry a strictly latest date. Ties keep the earlier request. A missing outcome becomes "never sent". |
| UserProfileView.SameKeyFoldsTogether | components/UserProfile.tsx:29-45 | Two requests with the same key make one entry with count 2 and the union of their tags. |
| UserProfileView.CaseAndSpaceVariantsShareKey | components/UserProfile.tsx:29 | "a@x.com" and "A@X.com " have the same key, so they fold together. |
| UserProfileView.SearchUsersSpec | components/UserProfile.tsx:57-60 | The search keeps exactly the entries whose lower-cased name or email contains the lower-cased query, in order. An empty query keeps every entry. |
| UserProfileView.EmailBadgeClassification | components/UserProfile.tsx:69-77 | Exactly "sent" is shown as sent, a "could not send" prefix as failed, and anything else as pending, each in both directions. The "never sent" default is pending. |
| ReportView.StatsBounds | components/ReportView.tsx:11-16 | total is the list's length, pending + returned == total, and every counter is at most total. |
| ReportView.StatsPermutation | components/ReportView.tsx:11-16 | The counters do not depend on the order of the list. |
| ReportView.StatsAllPending | components/ReportView.tsx:13-15 | A list with nothing returned and nothing signed for counts everything as pending. |
| ReportView.RowsNumbered | components/ReportView.tsx:91-93 | One row per request, in list order. The rows are numbered 1 to n with strictly increasing numbers. |
| ReportView.DateCellPrefix | components/ReportView.tsx:113 | The date cell is the prefix of the timestamp before its first comma, or the whole timestamp when it has no comma. |
| StatusTracking.FilteredRequestsSpec | components/StatusTracking.tsx:24-31 | A query of white space only finds nothing. Any other query finds exactly the requests whose lower-cased name contains the trimmed, lower-cased query or whose id string equals it, in list order. |
| StatusTracking.InitialIdQuery | components/StatusTracking.tsx:18-22 | A direct link's id, used as the query, finds exactly the requests with that id and those whose name contains its digits. |
| StatusTracking.InitialIdExact | components/StatusTracking.tsx:18-31 | When no name contains the id's digits, the link finds exactly the requests with that id. |
| StatusTracking.IdQueryNormal | components/StatusTracking.tsx:25 | An id's decimal string is unchanged by trimming and lower-casing, and is not blank. |
| StatusTracking.ReceiptGateSpec | components/StatusTracking.tsx:33-43 | The gate refuses exactly the unsigned requests still at the HR desk or at an office, and reports their status. It opens for any other request, prefilled with the existing signature or with "". |
| StatusTracking.ButtonAgreesWithGate | components/StatusTracking.tsx:120-126 | The pickup button looks disabled exactly when the gate would refuse. |
| StatusTracking.ConfirmedNameSpec | components/StatusTracking.tsx:179-180 | Confirming is refused exactly for a name of white space only; otherwise the trimmed name is passed on. |
| StatusTracking.IndexOf | components/StatusTracking.tsx:83 | `indexOf` gives -1 exactly when the status is absent. Otherwise it gives the position of its first occurrence. |
| StatusTracking.SegmentsSpec | components/StatusTracking.tsx:83-111 | Segment idx is lit exactly when idx is at most the status's position. An absent status lights nothing, and the lit segments form a prefix. |
| StatusTracking.Tracker.constructor | components/StatusTracking.tsx:13-15 | Empty query, no dialog, empty recipient name. |
| StatusTracking.Tracker.ApplyInitialId | components/StatusTracking.tsx:18-22 | A present, non-zero id becomes the query; otherwise nothing changes. |
| StatusTracking.Tracker.SetQuery | components/StatusTracking.tsx:57 | Only the query changes. |
| StatusTracking.Tracker.OpenSignModal | components/StatusTracking.tsx:33-43 | A refused request raises an alert with its status and changes nothing. Otherwise the dialog opens for it with the prefilled name. |
| StatusTracking.Tracker.SetRecipientName | components/StatusTracking.tsx:171 | Only the recipient name changes. |
| StatusTracking.Tracker.Confirm | components/StatusTracking.tsx:179 | With an open dialog and a name that is not blank, it hands on the request's id and the trimmed name and closes the dialog. Otherwise nothing changes. |
| StatusTracking.Tracker.Cancel | components/StatusTracking.tsx:177 | The dialog closes and the typed name is kept. |
| CertificateForm.ToggleSpec | components/CertificateForm.tsx:31-35 | An unselected tag is appended at the end. A selected tag is removed and the rest keep their order. No other tag changes membership. |
| CertificateForm.ToggleNoDup | components/CertificateForm.tsx:31-35 | The toggle never introduces a duplicate tag. |
| CertificateForm.ToggleTwiceAbsent | components/CertificateForm.tsx:31-35 | Toggling an unselected tag twice restores the list. |
| CertificateForm.ToggleTwicePresent | components/CertificateForm.tsx:31-35 | Toggling a selected tag twice keeps the same tags, with that one moved to the end. |
| CertificateForm.EmailMatchesIff | components/CertificateForm.tsx:102 | The email pattern holds exactly when the address has no white space and exactly one `@`, which is not first, followed by a `.` that is neither right after the `@` nor last. |
| CertificateForm.EmailExampleShort | components/CertificateForm.tsx:102-106 | "a@b.c" passes. |
| CertificateForm.EmailExampleNoDot | components/CertificateForm.tsx:102-106 | "a@b" fails. |
| CertificateForm.EmailExampleDoubleAt | components/CertificateForm.tsx:102-106 | "a@@b.c" fails. |
| CertificateForm.ValidateSpec | components/CertificateForm.tsx:96-119 | Each alert fires exactly when its check is the first to fail: required fields, then the email pattern, then a blank visa country. A form passing all three gives the payload of its fields, with the country, untrimmed, exactly when the visa tag is selected. |
| CertificateForm.SubmittedEmailShape | components/CertificateForm.tsx:102-111 | A submitted email has no white space and exactly one `@`, followed by a dot. |
| CertificateForm.PrefillSpec | components/CertificateForm.tsx:21-29 | Prefill writes an identity field from the profile only while that field is empty, and leaves tags and country alone. Prefilling twice is prefilling once. |
| CertificateForm.InitialIsPrefilled | components/CertificateForm.tsx:12-18 | The first state with a profile is what prefilling an empty form gives; without one every field is empty. |
| CertificateForm.Form.constructor | components/CertificateForm.tsx:12-18 | The fields start as the profile's values, or empty. |
| CertificateForm.Form.ApplyProfile | components/CertificateForm.tsx:21-29 | With a profile the fields become its prefill; without one nothing changes. |
| CertificateForm.Form.SetText | components/CertificateForm.tsx:165-307 | Typing into an input changes that field only. |
| CertificateForm.Form.ToggleType | components/CertificateForm.tsx:31-35 | Only the tag list changes, by the toggle. |
| CertificateForm.Form.Submit | components/CertificateForm.tsx:96-124 | Returns the validation result. A success clears only the tags and the country; an alert leaves every field as it was. |
| CertificateTable.TableRequestsSpec | components/CertificateTable.tsx:20-26 | The table shows exactly the requests whose lower-cased name or email contains the lower-cased query, or whose id string contains the query as typed, in list order. An empty query shows every request. |
| CertificateTable.TableFindsById | components/CertificateTable.tsx:23 | The full id string always finds its own request. |
| CertificateTable.TypeChipsSpec | components/CertificateTable.tsx:114-117 | The chips are the first min(n, 2) tags. The "+k" marker appears exactly when n > 2, and chips and marker account for all n tags. |
| CertificateTable.ContactSpec | components/CertificateTable.tsx:110 | The contact is the mobile number, else the internal one, else "-", and is never blank. |
| CertificateTable.StatusStyleInjective | components/CertificateTable.tsx:44-54 | Two statuses share a style exactly when they are equal, and no status gets the fallback style. |
| App.InsertDescSpec | App.tsx:73 | Inserting into a list sorted by descending id keeps it sorted and adds exactly the new request. |
| App.SortByIdDescSpec | App.tsx:73 | The sort gives a list sorted by descending id, holding exactly the input's requests. |
| App.SortByIdDescSorted | App.tsx:73 | A list already in descending id order comes back unchanged. |
| App.RefreshSpec | App.tsx:66-86 | An array becomes the shown list, sorted and holding exactly the fetched requests, and is cached. A non-array value leaves list and cache alone. A failure shows the cache whenever one exists, whatever the list held. Both progress flags end cleared, and nothing else changes. |
| App.RefreshOrderedRows | App.tsx:72-74 | An array already in id order is shown as it came. |
| App.RefreshedProvenance | App.tsx:72-81 | After a refresh every shown request comes from the old list, the fetched array or the cache, and the cache comes from the old cache or the array. |
| App.NavigateGated | App.tsx:111-115 | Without the administrator flag, the staff views only open the login dialog; the view and the tracking id stay. |
| App.NavigateOpen | App.tsx:116-119 | Any other navigation shows the target view. It sets the tracking id to the given id when that is truthy, else clears it, and refreshes unless the target is the form. |
| App.StaleGateHarmless | App.tsx:111-118 | For a view outside the gate, the flag the closure sees makes no difference. |
| App.AdminToggledSpec | App.tsx:124-133 | An administrator is logged out to the dashboard. Anyone else gets the login dialog with blank fields and no error. |
| App.LoginSpec | App.tsx:135-144 | Finding, corrected: the flag is set exactly when both username and password match. A mismatch only sets the error. A match closes the dialog and shows the register. |
| App.LoginAsWrittenReopens | App.tsx:135-144 | Finding, as written: with matching credentials the flag is set, but the navigation reads the old flag. The dialog reopens and the view does not change, so the result differs from the intended login. |
| App.LoginAsWrittenCoherent | App.tsx:135-144 | The login as written also keeps the session coherent: the reopened dialog leaves the view where it was. |
| App.RequestAddedSpec | App.tsx:146-157 | A failed save only hides the overlay. A success ends on the tracking page with the new id (when truthy) and the list of the second refresh. |
| App.WrittenOnlyRefreshes | App.tsx:159-181 | A failed write changes nothing but the sync flag. A successful one changes the list only by a refresh. |
| App.WrittenProvenance | App.tsx:159-181 | After a write every shown request comes from the old list, the fetched array or the cache. |
| App.DeletedSpec | App.tsx:195-206 | Without a (non-zero) pending id nothing changes. A failed delete keeps the list and the pending id. A successful one clears the id and refreshes the list. |
| App.DeletedProvenance | App.tsx:195-206 | After a delete every shown request comes from the old list, the fetched array or the cache. |
| App.MountedSpec | App.tsx:103-109 | The first effect refreshes the list and restores a stored profile; the view and the flag stay. |
| App.FindByIdSpec | App.tsx:208 | `find` gives nothing exactly when no request has the id; otherwise the first request with it. |
| App.DeletePromptSpec | App.tsx:355-362 | The delete dialog names a request of the list with the pending id, and shows whenever such a request exists. |
| App.InitialCoherent | App.tsx:14-30 | Given a cache in id order, the first state is coherent: both lists are in id order and no staff view is shown without the flag. |
| App.NavigateCoherent | App.tsx:111-122 | Navigation keeps the session coherent. |
| App.ApplyCoherent | App.tsx:66-208 | Every handler keeps the session coherent, the login both as written and corrected: no staff view without the administrator flag, and list and cache always in id order. |
| App.Session.constructor | App.tsx:14-30 | The first state, with whatever the cache holds. |
| App.Session.RefreshData | App.tsx:66-86 | The new state is the settled refresh of the old one. |
| App.Session.NavigateTo | App.tsx:111-122 | The new state is the navigation of the old one. |
| App.Session.ToggleAdmin | App.tsx:124-133 | The new state is the toggle of the old one. |
| App.Session.SubmitLogin | App.tsx:135-144 | The new state is the corrected login of the old one. |
| App.Session.SubmitLoginAsWritten | App.tsx:135-144 | The new state is the login as written: the flag is set and the dialog closed, then the gate, seeing the old flag, reopens the dialog. |
| App.Session.CloseLogin | App.tsx:334 | Only the login dialog closes. |
| App.Session.EditUsername | App.tsx:343 | Only the typed username changes. |
| App.Session.EditPassword | App.tsx:346 | Only the typed password changes. |
| App.Session.AddRequest | App.tsx:146-157 | The new state is the add transition of the old one. |
| App.Session.UpdateStatus | App.tsx:159-169 | The new state is the write transition of the old one. |
| App.Session.UpdateReceiving | App.tsx:171-181 | The new state is the write transition of the old one. |
| App.Session.AskDelete | App.tsx:313 | Only the pending delete id changes. |
| App.Session.CancelDelete | App.tsx:365 | Only the pending delete id is cleared. |
| App.Session.ExecuteDelete | App.tsx:195-206 | The new state is the delete transition of the old one. |
| App.Session.Mount | App.tsx:103-109 | The new state is the mount transition of the old one. |
| AppExport.CsvLayout | App.tsx:183-186 | As written, when no name or submission date holds a line break, the export is the byte-order mark, then the header line and one line per request in list order: n + 1 lines. |
| AppExport.CsvEmpty | App.tsx:184-186 | With no requests the export is the mark and the header line alone. |
| AppExport.HeaderColumns | App.tsx:184 | The header line has five comma-separated values. |
| AppExport.RowSpills | App.tsx:185-186 | Finding, as written: a request with two tags gives six comma-separated values under five headings. |
| AppExport.CsvRecords | App.tsx:184-186 | Finding, corrected: with every value quoted, the export is the mark and then n + 1 records, for any names and dates, line breaks included. Reading the document back gives the five headings and then exactly the five values of each request, in list order. |
| AppExport.LineRoundTrip | App.tsx:186 | A line of quoted values reads back as those values, whatever characters they hold. |
| AppExport.FieldsRoundTrip | App.tsx:186 | Reading quoted values off the front of a text gives back the values and leaves the rest of the text. |
| AppExport.RecordsRoundTrip | App.tsx:186 | A document of quoted lines joined by line breaks reads back as exactly its records, whatever the values hold, line breaks included. |
| AppExport.QuotedLayout | App.tsx:184-186 | When no name or date holds a line break, each record of the quoted export is also one physical line. |
| AppExport.CsvEmptyQuoted | App.tsx:184-186 | With no requests the quoted export is the mark and the header line alone. |

## Left out

- Transport: `callApi` (`fetch` and `google.script.run`) is not modelled. Its result is an input to each operation.
- The email-notify call and its `isNotifying` flag (components/CertificateTable.tsx:18,28-42) are left out, because they are I/O.
- The chat assistant (components/ChatBot.tsx, services/gemini.ts) is not part of this model. It wraps a remote text service.
- The focus listener, the 30-second polling timer and the board clock are left out. Their point is scheduling, not state.
- Concurrency is not modelled. A refresh is taken to settle before the next event, so two overlapping refreshes landing out of order are not captured.
- The delay between a handler and its fire-and-forget refresh is not modelled either; the refresh is applied at once.
- `localStorage` and `JSON.parse` are reduced to `Option` values: the cache is an `Option<seq<Request>>` and the stored profile an `Option<UserProfile>`. A cache that fails to parse is left out, and in the code it would throw inside the fallback.
- `new Date(...)` is left out. Dates are ordered through the `time` parameter; NaN dates and locale formatting are not modelled.
- The `lastUpdated` clock and the date in the export's file name are left out, because they read the clock.
- The Blob and download mechanics are left out; only the CSV text is modelled.
- `toLowerCase` is modelled for ASCII letters only. Unicode case folding is not modelled, but the Thai script has no case.
- Strings are sequences of Unicode characters, while JavaScript's `length`, `slice` and `substring` count UTF-16 code units. The two agree for Thai and all other text in the Basic Multilingual Plane. They differ for characters outside it, such as emoji, in the name mask and wherever else lengths or positions are used.
- UserProfileView.FoldTypes: the tag set is a Dafny `set`, so the insertion order in which components/UserProfile.tsx:141 lists the tags is not modelled.
- AppExport.CsvLayout: the as-written layout is stated only when no name or submission date holds a line break. Such a break splits its row over more lines, and the unquoted export has no way to tell it from a record separator.
- Rendering is left out: JSX, CSS classes other than the status styles, `getBankStyle`, `window.print`, `scrollTo` and the alerts' wording. An alert is a returned value.
- constants.ts is not part of this model. The status order (`STATUS_OPTIONS`) and the credentials (`ADMIN_CREDENTIALS`) are parameters.
- Ids are `int`. The comparator `b.id - a.id` is taken with exact arithmetic, without NaN or floating-point loss.
- The id, status and signature given to the write handlers go only to the server, so the model does not carry them into the state.
- App.SortByIdDescSpec: states that the result is sorted and is a permutation of the input. It does not state that the sort is stable. `InsertDesc` keeps equal ids in order, but only the sorted-input case is proved (`App.SortByIdDescSorted`).
- UserProfile.tsx's delete and send buttons only call their callbacks, so they are left out.
- The form's bank-style and certificate-group rendering (components/CertificateForm.tsx:39-94) is left out, because it is presentation.
- The shape of the record types (which fields are optional, and the profile's four fields being request fields) holds by the datatype declarations in `Types`; there is no lemma for it.

## Findings

| source | as written | input that shows it | evidently intended | confidence | as-written member | corrected member |
|---|---|---|---|---|---|---|
| App.tsx:135-144 | After a match, `navigateTo('list')` runs in the same closure and still sees `isAdmin == false`, so the gate reopens the login dialog and the view stays | correct username and password while logged out | the dialog closes and the register is shown | high; not executed | App.LoginAsWrittenReopens | App.LoginSpec |
| components/StatusBoard.tsx:129 | the processing badge counts every unsigned request that is not finished, including those back from the international office, which the ready column shows | one unsigned request with status "back from the international office": badge 1, processing column empty | the badge counts what the processing filter accepts | medium; not executed | StatusBoard.BadgeCountsReadyRequest | StatusBoard.IntendedBadgePartition |
| App.tsx:185-186 | values are joined with bare commas, while the tag cell itself joins its tags with ", " | a request with two tags: its line has six comma-separated values under five headings | values quoted as in section 2 of RFC 4180, so each record reads back as its five values | medium; not executed | AppExport.RowSpills | AppExport.CsvRecords |
