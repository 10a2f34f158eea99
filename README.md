# CloudLynq Contact — a verified model of the CRM core

This project models the core of the CloudLynq contact manager, a Next.js CRM
in which signed-in users import company contacts from CSV files, browse
and select them in a filterable table, log calls against them, and see
per-status tallies on the dashboard and reports pages. The model covers:

- the CSV importer (`POST /api/contacts/import`). It has a hand-written,
  quote-aware field splitter, and it splits a file into lines, looks up
  the header columns, silently skips short rows, builds each contact and
  makes one bulk insert;
- the contacts table (search, status filter, stable sort, selection,
  select-all, the sort-header state machine);
- the contacts page's normalisation of stored documents and its status
  counts;
- the zero-initialised status-count fold of the dashboard and reports pages,
  their zero-guarded rates, and the call tallies;
- the small formatters: minute/second durations, relative times, status
  colours and labels, the contact name, and the avatar initials;
- three route handlers that change the store: bulk delete, the settings
  read and update, and registration. Each is modelled over in-memory tables.

Strings are sequences of Unicode scalar values, timestamps are integers in
milliseconds, and the current time is a parameter. Password hashing, token
signing and the id the store assigns are parameters too. The store's
queries (`find`, `sort`, `limit`, `$group`, `$lookup`) are modelled by
their results, which the model takes as input sequences.

Files, one module each: `text.dfy` (JavaScript string operations),
`models.dfy` (shared records), `tally.dfy`, `csv_import.dfy`,
`contacts_table.dfy`, `contacts_page.dfy`, `status_counts.dfy`,
`reports.dfy`, `durations.dfy`, `call_logs.dfy`, `call_history.dfy`,
`contact_detail.dfy`, `dashboard_header.dfy`, `bulk_delete.dfy`,
`settings.dfy`, `register.dfy`.

## Model

| member | source | states |
|---|---|---|
| Text.Trim | app/api/contacts/import/route.ts:44 | The result has no whitespace at either end. It is the slice of the input between a whitespace-only prefix and a whitespace-only suffix. |
| Text.TrimEmptyIffBlank | app/api/contacts/import/route.ts:37 | `line.trim()` is empty exactly when the line is whitespace only. |
| Text.TrimBetween | components/contact-detail.tsx:307 | Trimming keeps exactly the slice between a whitespace prefix and a whitespace suffix when that slice has no whitespace at its ends. |
| Text.Lower | components/contacts-table.tsx:56-59 | `toLowerCase` keeps the length and lower-cases each character. |
| Text.Capitalize | components/call-history.tsx:59 | `charAt(0).toUpperCase() + slice(1)` keeps the length, upper-cases the first character and keeps the rest. |
| Text.SplitOnSpec | components/dashboard-header.tsx:52 | `split` on one character gives one more piece than there are separators; no piece contains the separator; joining the pieces gives back the input. |
| Text.SplitOnWithout | components/dashboard-header.tsx:52 | A string without the separator splits into itself alone. |
| Text.NatToString | app/api/contacts/import/route.ts:100 | A number in a template literal is a non-empty run of digits with no leading zero. |
| Text.NatToStringValue | app/api/contacts/import/route.ts:100 | Reading the rendered digits back gives the number. |
| Text.NatToStringInjective | app/api/contacts/import/route.ts:100 | Distinct numbers render differently. |
| CsvImport.ParseCsvLine | app/api/contacts/import/route.ts:112-133 | The character loop equals the scan specification `Fields` (invariant: the loop state is the scan of the prefix read so far). |
| CsvImport.RunCounts | app/api/contacts/import/route.ts:117-128 | After any prefix, quoted mode is on exactly when an odd number of `"` has been read. One field has been finished per comma outside quotes. |
| CsvImport.Fields | app/api/contacts/import/route.ts:112-133 | A line yields exactly one more field than it has commas outside quotes, so never an empty list. |
| CsvImport.FieldsHaveNoQuotes | app/api/contacts/import/route.ts:120-121 | No `"` appears in any field. |
| CsvImport.FieldsAreTrimmed | app/api/contacts/import/route.ts:123-131 | Every field has no whitespace at either end. |
| CsvImport.QuoteFreeIsPlainSplit | app/api/contacts/import/route.ts:112-133 | On a line with no `"`, the fields are a plain split on commas with each piece trimmed. |
| CsvImport.QuotedFieldKeepsCommas | app/api/contacts/import/route.ts:120-126 | A comma inside quotes is data: `"a",b` gives the fields `a` and `b`, trimmed. |
| CsvImport.DoubledQuoteVanishes | app/api/contacts/import/route.ts:120-121 | A doubled `""` contributes nothing; it is not read as an escaped quote. |
| CsvImport.DropCarriageReturn | app/api/contacts/import/route.ts:37 | One trailing carriage return is removed, and only when the piece ends with one; otherwise the piece is unchanged. |
| CsvImport.LinePiecesSpec | app/api/contacts/import/route.ts:37 | The `/\r?\n/` split gives one piece per line feed plus one, none containing a line feed. Every piece but the last is the text between line feeds less one trailing carriage return when it has one (`DropCarriageReturn`); the last piece keeps its carriage return. |
| CsvImport.LinePieces | app/api/contacts/import/route.ts:37 | One piece per piece of the split on line feeds, in order. |
| CsvImport.NonBlank | app/api/contacts/import/route.ts:37 | `filter(line => line.trim())` keeps no more pieces than it is given. |
| CsvImport.NonBlankAppend | app/api/contacts/import/route.ts:37 | Filtering a concatenation is the concatenation of the filtered parts, so the kept pieces stay in file order. |
| CsvImport.NonBlankCounts | app/api/contacts/import/route.ts:37 | A non-blank piece is kept exactly as often as it occurs, and a blank one never. |
| CsvImport.NonBlankMembers | app/api/contacts/import/route.ts:37 | A piece is kept exactly when it occurs in the input and is not blank. |
| CsvImport.NonBlankHeader | app/api/contacts/import/route.ts:37-44 | The first kept line, the header, is the first non-blank piece, and the data rows are the non-blank pieces after it, in order. |
| CsvImport.Lines | app/api/contacts/import/route.ts:37 | There are at most as many kept lines as line feeds plus one. |
| CsvImport.LinesAreNonBlank | app/api/contacts/import/route.ts:37 | No kept line is empty or whitespace only. |
| CsvImport.HeaderCells | app/api/contacts/import/route.ts:44 | The header has one cell per comma plus one, with no quote handling. |
| CsvImport.FindIndex | app/api/contacts/import/route.ts:47-50 | The result is -1 exactly when no header equals the name. Otherwise it is the first header that equals it exactly. |
| CsvImport.ColumnsOf | app/api/contacts/import/route.ts:47-55 | No columns exactly when there is no `company_name` header. Otherwise each of the four indexes is the first header exactly equal to its column name (case-sensitive), or -1 exactly when no header is, and every index lies within the header. |
| CsvImport.MakeContactFields | app/api/contacts/import/route.ts:66-86 | Person fields are "", status is "new" and notes are empty, and both timestamps are now. The company name is the row's cell; the address, phone and website are the row's cells when their column exists and "" otherwise. The contact phone is the company phone. |
| CsvImport.BuildContacts | app/api/contacts/import/route.ts:58-87 | The row loop equals the specification `Contacts`: rows with too few fields are skipped and the rest are built in file order. |
| CsvImport.Contacts | app/api/contacts/import/route.ts:58-87 | At most one contact per data row. |
| CsvImport.ContactsOf | app/api/contacts/import/route.ts:58-87 | At most one contact per parsed row. |
| CsvImport.ContactsShape | app/api/contacts/import/route.ts:59-86 | Every contact has the fixed defaults and is built from some parsed row at least as wide as the header. |
| CsvImport.ContactsAppend | app/api/contacts/import/route.ts:58-87 | The contacts of two consecutive runs of rows are the contacts of the first run followed by those of the second. |
| CsvImport.ContactsSkipShortRows | app/api/contacts/import/route.ts:58-87 | There is one contact per row at least as wide as the header. The contact built from the k-th wide row is at position k, so short rows are skipped and file order is kept. |
| CsvImport.ContactsExtremes | app/api/contacts/import/route.ts:62-64 | When every row is wide enough, every row gives a contact; when none is, there are none. |
| CsvImport.StatusOf | app/api/contacts/import/route.ts:13-55 | A rejection has status 401 exactly when the caller is not signed in; every other rejection has 400. |
| CsvImport.ImportGuards | app/api/contacts/import/route.ts:13-41 | 401 exactly when the caller is unauthenticated. No file, a name not ending in ".csv", or (for a ".csv" name) fewer than two non-blank lines give their own 400 rejection. |
| CsvImport.ImportNeedsCompanyName | app/api/contacts/import/route.ts:52-55 | A header without an exact `company_name` cell gives 400 with that message and writes nothing. |
| CsvImport.Import | app/api/contacts/import/route.ts:10-109 | A rejection inserts nothing, and a success reports exactly the number of contacts inserted. |
| CsvImport.ImportSuccess | app/api/contacts/import/route.ts:93-101 | The message reports exactly the number written, which is at most the number of data lines. Every contact written is "new" with no first name. |
| CsvImport.ImportNothingSurvives | app/api/contacts/import/route.ts:97-101 | When every row is skipped the result is still success, with "Imported 0 contacts". |
| CsvImport.Post | app/api/contacts/import/route.ts:10-109 | The response is the handler's. The collection grows by exactly the contacts built, in one write, made only when at least one contact was built. |
| ContactsTable.FilterCounts | components/contacts-table.tsx:53-65 | The filtered list holds each contact that passes both tests exactly as often as the input does, and no other contact. |
| ContactsTable.FilterMembers | components/contacts-table.tsx:54-65 | A contact is listed exactly when it is in the input and passes both the search and the status test. |
| ContactsTable.MatchesSearch | components/contacts-table.tsx:55-60 | An empty query matches every contact. |
| ContactsTable.Filter | components/contacts-table.tsx:53-65 | The filter never lengthens the list, and with an empty query and status "all" it returns its input. |
| ContactsTable.LexCompare | components/contacts-table.tsx:76-77 | The string order standing in for `localeCompare` returns -1, 0 or 1, with 0 exactly for equal strings. |
| ContactsTable.LexCompareAntisymmetric | components/contacts-table.tsx:76-77 | Swapping the operands negates the comparison. |
| ContactsTable.LexCompareTransitive | components/contacts-table.tsx:76-77 | The order is transitive. |
| ContactsTable.Compare | components/contacts-table.tsx:66-78 | The comparator is 0 exactly when the sort keys are equal. On the date column, "asc" puts the earlier contact first and "desc" the later one. |
| ContactsTable.CompareOrder | components/contacts-table.tsx:66-78 | The comparator is a total preorder: antisymmetric and transitive for every column and direction. |
| ContactsTable.InsertPermutes | components/contacts-table.tsx:66 | Inserting adds exactly one element. |
| ContactsTable.InsertSorted | components/contacts-table.tsx:66 | Inserting into a sorted list keeps it sorted. |
| ContactsTable.SortContacts | components/contacts-table.tsx:66-78 | The sort returns a permutation of its input. |
| ContactsTable.SortSorted | components/contacts-table.tsx:66-78 | The sort orders its result by the comparator. |
| ContactsTable.CompanySortKeepsOrder | components/contacts-table.tsx:73-77 | Sorting on the company column keeps the filtered order, because every key is the same. |
| ContactsTable.VisibleContacts | components/contacts-table.tsx:52-79 | Every contact that passes both tests appears as often as in the input, and no other contact appears. |
| ContactsTable.VisibleContactsSorted | components/contacts-table.tsx:52-79 | The visible list is ordered by the comparator. |
| ContactsTable.DateSortOrdersTimestamps | components/contacts-table.tsx:67-71 | On the date column, "asc" gives non-decreasing timestamps and "desc" non-increasing ones. |
| ContactsTable.Toggle | components/contacts-table.tsx:89-97 | Membership of the given id flips; every other id is unchanged. |
| ContactsTable.ToggleTwice | components/contacts-table.tsx:89-97 | Toggling the same id twice restores the selection. |
| ContactsTable.SelectAllResult | components/contacts-table.tsx:81-87 | Equal sizes clear the selection. Otherwise it becomes the ids of the visible contacts. |
| ContactsTable.SelectAllComparesSizesOnly | components/contacts-table.tsx:82 | A selection of the same size but with different ids is cleared, not completed. |
| ContactsTable.NextSort | components/contacts-table.tsx:175-182 | The clicked column becomes the sort column. The same column flips the direction; another column starts ascending. |
| ContactsTable.SortTwiceRestores | components/contacts-table.tsx:175-182 | Clicking the current column twice restores the sort. |
| ContactsTable.TableState.constructor | components/contacts-table.tsx:40-44 | The initial state is an empty query, status "all", newest first and nothing selected. |
| ContactsTable.TableState.SelectContact | components/contacts-table.tsx:89-97 | The selection becomes the toggle of the old one; nothing else changes. |
| ContactsTable.TableState.SelectAll | components/contacts-table.tsx:81-87 | The selection becomes the select-all result for the visible list; nothing else changes. |
| ContactsTable.TableState.Sort | components/contacts-table.tsx:175-182 | The sort column and direction take the state machine's next state; nothing else changes. |
| ContactsPage.Normalize | app/dashboard/contacts/page.tsx:26-43 | Truthy fields are kept. Falsy text becomes "", a falsy status "new", missing notes [], a falsy owner the current user, and missing timestamps now. The company's name, address, phone and website are each kept when truthy and "" otherwise, and a missing company gives four "". The status is never empty. |
| ContactsPage.NormalizeAll | app/dashboard/contacts/page.tsx:26 | One contact per document, in order. |
| ContactsPage.CompleteDocumentKept | app/dashboard/contacts/page.tsx:27-42 | A document whose fields are all present and truthy comes through unchanged. |
| ContactsPage.PageStatsBounded | app/dashboard/contacts/page.tsx:46-49 | Each card counts exact status matches. Each count and their sum are at most the total. |
| Text.Occurrences | app/dashboard/contacts/page.tsx:47 | A `filter(...).length` count is at most the length. |
| Tally.ThreeCountsBounded | app/dashboard/call-logs/page.tsx:39-41 | Counts of three distinct statuses sum to at most the length. |
| Tally.CountIsPositions | app/dashboard/call-logs/page.tsx:39 | A count is the number of positions holding the status. |
| Tally.GuardedRate | app/dashboard/page.tsx:88-90 | The rate is zero exactly when the total is 0. Otherwise it is the count over the positive total. |
| Tally.CallCountsBounded | app/dashboard/call-logs/page.tsx:38-41 | totalCalls is the number of logs. Each tally counts exact status matches, and their sum is at most the total. |
| StatusCounts.Initial | app/dashboard/page.tsx:51-57 | The five statuses start at 0 and there are no other keys. |
| StatusCounts.BuildStatusCounts | app/dashboard/page.tsx:58-62 | The `forEach` loop equals the fold specification `Fold`. |
| StatusCounts.FoldKeys | app/dashboard/page.tsx:27 | The keys are the five statuses plus every truthy group id; an unknown status is added, not rejected. |
| StatusCounts.FoldValue | app/dashboard/page.tsx:58-62 | A status takes the count of the last group that names it. A known status no group names stays 0, and a falsy id is ignored. |
| StatusCounts.EmptyIdIgnored | app/dashboard/page.tsx:59 | A group with an empty id never adds a key. |
| StatusCounts.RateOf | app/dashboard/page.tsx:88-90 | The conversion rate is zero exactly when there are no contacts. Otherwise it is the status count over the total. |
| Reports.Limit | app/dashboard/reports/page.tsx:49-53 | `limit(30)` keeps a prefix of at most 30 entries, all of them when there are fewer. |
| Reports.ReportFigures | app/dashboard/reports/page.tsx:35-63 | Both rates are zero exactly when the total is 0, and otherwise use the folded counts. The "Recent Calls" figure is at most 30. The three call tallies sum to at most it. |
| Durations.Minutes | app/dashboard/call-logs/page.tsx:58 | `Math.floor(s / 60)`: m·60 ≤ s < m·60 + 60. |
| Durations.Seconds | app/dashboard/call-logs/page.tsx:59 | `s % 60` is below 60, and minutes·60 + seconds = s. |
| Durations.MinSecText | app/dashboard/call-logs/page.tsx:60 | The "<m>m <s>s" text starts with a digit, ends with "s" and has at least four characters. |
| Durations.MinSecTextInjective | app/dashboard/call-logs/page.tsx:60 | Distinct durations render as distinct "<m>m <s>s" texts. |
| CallLogsPage.FormatDuration | app/dashboard/call-logs/page.tsx:56-61 | "N/A" exactly when the duration is absent or 0. Otherwise it is always "<m>m <s>s". |
| CallLogsPage.FormatDurationFaithful | app/dashboard/call-logs/page.tsx:56-61 | Two cells are equal exactly when both show "N/A" or both have the same duration. |
| CallLogsPage.FormatDurationUnderAMinute | app/dashboard/call-logs/page.tsx:58-60 | Below a minute the text still has the "0m" part, as in "0m 45s". |
| CallLogsPage.NotesCell | app/dashboard/call-logs/page.tsx:161 | Truthy notes are shown as is; absent or empty notes show "No notes". |
| CallHistory.FormatDuration | components/call-history.tsx:93-102 | Below 60 seconds it is "<s>s" with no minutes part; otherwise "<m>m <s>s". |
| CallHistory.FormatDurationInjective | components/call-history.tsx:93-102 | Distinct durations render differently. |
| CallHistory.StatusColor | components/call-history.tsx:72-83 | Completed, missed and scheduled map to green, red and blue, and only those; every other status maps to gray. |
| CallHistory.CallerName | components/call-history.tsx:53 | The mapped name when present and non-empty, otherwise "Unknown user". |
| CallHistory.StatusLine | components/call-history.tsx:59-60 | The line starts with the capitalised status and " call". The duration suffix appears exactly when the duration is non-zero, and is then the formatted duration in parentheses. |
| ContactDetail.FloorCascade | components/contact-detail.tsx:82-85 | The cascaded floors equal a single floor by a minute, an hour and a day. |
| ContactDetail.Ago | components/contact-detail.tsx:88-92 | The text is "<n> <unit>", then "s" exactly when n > 1, then " ago", with exactly those characters. |
| ContactDetail.FormatTimeAgo | components/contact-detail.tsx:77-96 | "just now" exactly when less than a minute has passed, including future dates; any other text ends in " ago". |
| ContactDetail.FormatTimeAgoBuckets | components/contact-detail.tsx:77-96 | At least a day shows ⌊d/86400000⌋ days. Otherwise at least an hour shows hours and at least a minute shows minutes. Under a minute, and for future dates, it shows "just now". |
| ContactDetail.CallStatusColor | components/contact-detail.tsx:98-109 | The three known statuses map to green, red and blue, and only those; every other status maps to gray. |
| ContactDetail.DurationLineAsWritten | components/contact-detail.tsx:250-253 | As written, the line is empty exactly when there is no duration; a zero duration renders "0", and a positive one agrees with the intended line. |
| ContactDetail.ZeroDurationShowsZero | components/contact-detail.tsx:250-253 | As written, a zero duration renders the text "0", unlike the intended line. |
| ContactDetail.DurationLine | components/contact-detail.tsx:250-253 | Empty exactly when the duration is absent or 0. Otherwise "Duration: <m>m <s>s". |
| ContactDetail.DurationLineFaithful | components/contact-detail.tsx:250-253 | Two duration lines are equal exactly when neither shows a duration or both have the same duration. |
| ContactDetail.CallUserName | components/contact-detail.tsx:244 | A truthy user name is shown; otherwise "Unknown user". |
| ContactDetail.ContactName | components/contact-detail.tsx:307 | The dialog name has no whitespace at either end. |
| ContactDetail.ContactNameOfTrimmedParts | components/contact-detail.tsx:307 | For trimmed parts the name is "first last", or the one part present. |
| DashboardHeader.FirstChars | components/dashboard-header.tsx:52 | At most one initial per segment. |
| DashboardHeader.InitialsAreWordStarts | components/dashboard-header.tsx:52 | The initials are exactly the characters that start a space-separated word, in order. Empty segments contribute nothing. |
| DashboardHeader.Initials | components/dashboard-header.tsx:52 | There are at most as many initials as spaces plus one. |
| DashboardHeader.InitialsOfOneWord | components/dashboard-header.tsx:52 | A name without a space gives its first character, and an empty name gives "". Only a space separates words. |
| BulkDelete.StatusCode | app/api/contacts/bulk-delete/route.ts:9-46 | The status is 200 exactly for the success response (401, 400 and 500 otherwise). |
| BulkDelete.ObjectIds | app/api/contacts/bulk-delete/route.ts:22 | Every listed id, in canonical lower-case form, is in the set, and nothing else is. |
| BulkDelete.RemoveContacts | app/api/contacts/bulk-delete/route.ts:27-30 | The deletion loop equals the specification `RemainingContacts`. The deleted count is the number removed. |
| BulkDelete.RemoveCallLogs | app/api/contacts/bulk-delete/route.ts:33-35 | The deletion loop equals the specification `RemainingLogs`. |
| BulkDelete.RemainingContactsCounts | app/api/contacts/bulk-delete/route.ts:27-30 | Exactly the caller's contacts whose id is listed are removed. Every other contact stays, as often as it was there. |
| BulkDelete.RemainingLogsCounts | app/api/contacts/bulk-delete/route.ts:33-35 | Every log whose contactId is listed is removed, whoever owns it. Every other log stays. |
| BulkDelete.DeletedAreDistinct | app/api/contacts/bulk-delete/route.ts:27-39 | With unique stored ids, the deleted count is the number of distinct ids removed. |
| BulkDelete.DeletedCountBound | app/api/contacts/bulk-delete/route.ts:37-40 | With unique stored ids, deletedCount is at most the number of distinct ids in the request. |
| BulkDelete.Post | app/api/contacts/bulk-delete/route.ts:6-48 | Unauthenticated gives 401. Missing, non-array or empty ids give 400. A malformed body or any malformed id gives 500. None of these changes either table. On success both tables are filtered as specified and deletedCount is the number removed. |
| Settings.DefaultSettings | app/api/settings/route.ts:16-20 | maintenanceMode false, registrationDisabled false and systemNotice "", and no other key. |
| Settings.Get | app/api/settings/route.ts:8-29 | 401 exactly when unauthenticated. Otherwise it returns the stored document, or the defaults when there is none, with isAdmin exactly when the email equals the admin address. |
| Settings.Upsert | app/api/settings/route.ts:43-54 | Supplied keys take their values, and keys not supplied keep theirs. The type is forced to "system", updatedBy is the caller, and a missing document is created. |
| Settings.IndexOfUser | app/api/settings/route.ts:64 | The first user with the id, or -1 when there is none. |
| Settings.UpdateProfile | app/api/settings/route.ts:62-73 | Only the caller's name, email and updatedAt change. Every other user is untouched. |
| Settings.ProfileUpdateCanDuplicateEmail | app/api/settings/route.ts:62-73 | The profile update does not check email uniqueness: two users can end up sharing an address. |
| Settings.Patch | app/api/settings/route.ts:31-80 | Unauthenticated gives 401 and changes nothing. An admin's systemSettings is upserted, the users are untouched, and the profile is ignored. For anyone else, systemSettings is ignored with success and the profile updates only the caller. |
| Register.InsertKeepsEmailsUnique | app/api/auth/register/route.ts:16-33 | Adding a user whose email is not taken keeps email addresses unique. |
| Register.Post | app/api/auth/register/route.ts:5-50 | A falsy field gives 400 and an exactly matching email gives 409, with no insert. Success appends exactly one user with the hashed password and createdAt = updatedAt. The response is id, name and email, and the cookie holds the signed token. Email uniqueness is preserved. |

## Left out

- The store engine: the queries (`find`, `countDocuments`, `aggregate`
  with `$match`, `$group` and `$lookup`, `sort`, `limit`) are represented
  by their results, passed in as sequences. This covers the caller filter
  of the routes and pages that have one, and the newest-first order. The
  contacts page queries `find({})` with no owner filter
  (app/dashboard/contacts/page.tsx:20-23), so every user's contacts are
  listed; the model passes that whole collection to
  `ContactsPage.NormalizeAll`.
- Infrastructure failures: a store call that throws after validation
  (500 on every route) is not modelled. In particular, a bulk delete that
  fails between its two `deleteMany` calls is not modelled.
- lib/auth.ts is not part of this model. Session resolution yields an
  optional caller, password hashing and token signing are function
  parameters, and the cookie is the token value returned by
  `Register.Post`.
- Floating-point percentages, `toFixed` and the bar widths: only the
  zero-total branch of each rate is modelled (`Tally.Rate`). The call-logs
  page's own rates (app/dashboard/call-logs/page.tsx:91, 104) have no zero
  guard and produce NaN, which is not modelled.
- Dates: `new Date()`, `toISOString` and date-fns `formatDistanceToNow`
  (components/call-history.tsx:85-91, app/dashboard/call-logs/page.tsx:165)
  are not modelled. Timestamps are integers and "now" is a parameter.
- ContactsTable.LexCompare: `localeCompare` is replaced by the
  lexicographic order on characters, which is also a total order.
  Locale collation is not modelled.
- Characters above U+FFFF: JavaScript stores them as two UTF-16 code
  units, the model as one character. For such text, `charAt(0)`
  (`Text.Capitalize`), `n[0]` (`DashboardHeader.Initials`), string lengths
  and `ContactsTable.LexCompare` order differ from the code; text up to
  U+FFFF behaves the same.
- Text.Lower, Text.Capitalize: `toLowerCase`/`toUpperCase` are modelled on
  ASCII letters only; other letters are left unchanged.
- CsvImport.Post: the upload's bytes are taken as already-decoded text; the
  UTF-8 decoding of `Buffer.toString` is not modelled. A form value that
  is a string rather than a file is not modelled either.
- CsvImport: the imported contacts carry no owner (`userId`), as in the
  code, so they do not show up in the per-user dashboard counts. The
  model records this and does not change it.
- JSON bodies whose members have unexpected types (a number as a name, a
  non-string id in `contactIds`, a string as `systemSettings`) are not
  modelled. Members are either absent, falsy, or of the expected type.
- Settings.Upsert: nested or dotted `$set` keys and an `_id` inside
  `systemSettings` are not modelled; the settings document is a flat map
  of scalar values.
- BulkDelete.ValidObjectId: only the 24-hex-digit form of an ObjectId
  string is accepted. The 12-byte string form and non-string ids are not
  modelled.
- Register.Post and Settings.Patch: concurrent requests are not
  modelled. Email uniqueness is proved for requests processed one at a
  time.
- The duration formatters take non-negative durations; JavaScript's
  truncating `%` on negative numbers is not modelled.
- Durations are numbers of seconds. The call-log dialog posts the text
  of its input (components/CallLogDialog.tsx:33, 63) and the call-log
  route stores it as given (app/api/contacts/[id]/calls/route.ts:37),
  so stored durations can be strings. Those are not modelled: a stored
  "0" is truthy and shows "0m 0s", " (0s)" or "Duration: 0m 0s"
  where the model's numeric 0 shows "N/A" or nothing, and a non-numeric
  string shows "NaNm NaNs".
- A concrete row such as `"Acme, Inc",555-1111` is not stated on its own;
  it is an instance of the general `CsvImport.QuotedFieldKeepsCommas`.

## Findings

| source | as written | input that shows it | evidently intended | confidence | as-written member | corrected member |
|---|---|---|---|---|---|---|
| components/contact-detail.tsx:250-253 | `{call.duration && (<p>…</p>)}` renders the number itself when the duration is 0, so the card shows a stray "0" | a call log whose stored duration is the number 0. The call-log route stores `data.duration \|\| undefined` (app/api/contacts/[id]/calls/route.ts:37), so it never writes a numeric 0; the call-log dialog sends the string "0" (components/CallLogDialog.tsx:63), which is truthy and renders "Duration: 0m 0s", not a stray "0". The numeric 0 comes only from a document written by other means | nothing is shown for a zero duration, as for an absent one | not executed | ContactDetail.ZeroDurationShowsZero | ContactDetail.DurationLine |
