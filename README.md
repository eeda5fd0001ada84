# Workspace dashboard: task widget and page logic, modelled in Dafny

The dashboard puts a user's calendar, task lists and Drive files in one
page. Almost all of it is markup and embedded iframes. This model covers the
parts that make decisions:

- **The task list widget** (`TasksWidget`). It keeps a local cache of the
  undone tasks of the user's first task list, sorted by due date. It creates
  a task together with a companion all-day calendar event, and it completes a
  task optimistically, reloading the cache when the remote update fails.
  Inside the free-text notes it carries a priority tag written as
  `Priority: <p>`; the tag decides the badge text and the badge colour.
- **The application shell** (`App`).
  - The gate shows a loading view until the session is loaded, then a setup
    view while no OAuth client id is set, and otherwise the routes.
  - The calendar page picks which calendars to embed and builds the embed
    query as an ordered list of key/value pairs.
  - The attendance page finds the folder named 勤務表 ("attendance sheet")
    and then its latest PDF.

Each remote call (task lists, tasks, calendar list, events, Drive listings)
is a method argument of type `Reply<T>`: either `Ok(payload)` or
`Failed(message)`. A listing whose `items` array is absent is `Ok([])`,
because every code path treats absent and empty alike. Each handler returns
the requests it issued, in order, so "no remote call" reads `sent == []`.
The request values carry the parameters the code passes: `maxResults`,
`showCompleted`, the inserted resources, and for the Drive listings the
clauses of the search query `q` with `orderBy` and `pageSize`.
Each handler runs to completion.

Files:
- `wrappers.dfy`: `Option` and `Reply`.
- `text.dfy`: the JavaScript string operations the widget uses: `includes`,
  `trim`, and the piece `split(sep)[1]`.
- `tasks_widget.dfy`: module `Tasks`, with the pure helpers and the class
  `TasksWidget`.
- `app.dfy`: module `App`, with the gate, `CalendarPage`, the embed query and
  `AttendancePage`.

Some behaviours of the code are easy to misread, and the model follows
the code in each:
- **Load with no task list.** Load leaves the cache as it was; it does not
  empty it (`src/components/TasksWidget.tsx:30-47`).
- **The create guard.** Besides a blank title and a missing date, the guard
  also refuses while a create is in flight (`isAdding`), with the same prompt.
- **When a complete reloads.** A failed task-list lookup also triggers a
  reload, and in that case the task is never removed. A failed status patch
  reloads after the removal.
- **The title sent.** The title is sent as typed, untrimmed; only the guard
  trims it.

## Model

| member | source | states |
|---|---|---|
| `Text.Contains` | src/components/TasksWidget.tsx:130-131 | `includes` holds exactly when the pattern occurs at some index |
| `Text.Trim` | src/components/TasksWidget.tsx:57 | the result is a slice of the input with only ECMAScript white space before and after it, starts and ends with no white space, and is empty exactly when every character of the input is white space |
| `Text.TrimmedUnique` | src/components/TasksWidget.tsx:57 | at most one non-empty slice has blank margins and non-blank ends, so the contract of `Trim` fixes its result |
| `Text.SplitSecond` | src/components/TasksWidget.tsx:238 | `split(sep)[1]` is undefined exactly when `sep` does not occur; otherwise it starts right after the first occurrence, no occurrence of `sep` starts inside it, and it is followed by `sep` or by the end |
| `Text.SecondPieceUnique` | src/components/TasksWidget.tsx:238 | that description admits one piece only: the text up to the next occurrence of `sep` or to the end, even when `sep` overlaps itself |
| `Tasks.Compare` | src/components/TasksWidget.tsx:40-44 | an undated left task compares greater; a dated left task compares smaller than an undated right one; two dated tasks compare by the sign of their due difference |
| `Tasks.SortByDue` | src/components/TasksWidget.tsx:40-44 | sorting in place with the source's comparator leaves a permutation of the fetched tasks in due order |
| `Tasks.DueOrderedMeaning` | src/components/TasksWidget.tsx:39-44 | due order means no dated task follows an undated one and dated tasks are non-decreasing by due; no order among undated tasks is claimed |
| `Tasks.CompareDecidesOrder` | src/components/TasksWidget.tsx:40-44 | a positive comparator result lets the right task precede, a non-positive one lets the left task precede |
| `Tasks.CompareUndatedBothGreater` | src/components/TasksWidget.tsx:41 | the comparator calls each of two undated tasks greater than the other, so it fixes no order among them |
| `Tasks.DueOrderDetermined` | src/components/TasksWidget.tsx:37-46 | any two due-ordered permutations of the same tasks have the same due value at every position |
| `Tasks.ReloadDuesAgree` | src/components/TasksWidget.tsx:22-53 | two successful loads of the same remote state give caches with equal due values position by position, whatever the caches held before |
| `Tasks.RemoveId` | src/components/TasksWidget.tsx:114 | the filter drops every task with the given id and keeps every other task as often as it occurred |
| `Tasks.RemoveIdAppend` | src/components/TasksWidget.tsx:114 | filtering distributes over concatenation, so the kept tasks stay in their original order |
| `Tasks.RemoveIdIdempotent` | src/components/TasksWidget.tsx:114 | filtering by the same id twice is the same as once |
| `Tasks.ShowsTag` | src/components/TasksWidget.tsx:236 | the badge is shown exactly when there are notes and `Priority:` occurs in them; the non-empty test adds nothing |
| `Tasks.TagText` | src/components/TasksWidget.tsx:238 | the badge text is absent exactly when `Priority: ` does not occur; otherwise it is the text after the first occurrence up to the next one or the end |
| `Tasks.PriorityNotes` | src/components/TasksWidget.tsx:76 | the notes are `Priority: ` followed by exactly the priority |
| `Tasks.TagTextIsShown` | src/components/TasksWidget.tsx:236-238 | whenever the split yields a tag, the `includes('Priority:')` test passes and the badge is shown |
| `Tasks.PriorityRoundTrip` | src/components/TasksWidget.tsx:236-238 | the notes `Priority: p` written at line 76 show the badge and decode to exactly `p`, for any `p` without the prefix in it |
| `Tasks.TagKeepsTrailingText` | src/components/TasksWidget.tsx:238 | the notes `Priority: Low extra text` decode to `Low extra text` |
| `Tasks.OptionRoundTrip` | src/components/TasksWidget.tsx:184-186 | each of the options High, Medium and Low decodes back to itself |
| `Tasks.PriorityColor` | src/components/TasksWidget.tsx:129-133 | red exactly when the notes contain `Priority: High`; amber exactly when they do not but contain `Priority: Medium`; blue otherwise, including absent notes |
| `Tasks.DistinctInitialsExclusive` | src/components/TasksWidget.tsx:76 | notes written for a priority without a `P` never contain the notes of a priority with another first letter |
| `Tasks.OptionNotesExclusive` | src/components/TasksWidget.tsx:76 | the notes written for one priority option never contain the tag of another |
| `Tasks.PriorityColorOfOption` | src/components/TasksWidget.tsx:129-133 | a task created with High is red, with Medium amber and with Low blue; absent notes are blue |
| `Tasks.NewTaskResource` | src/components/TasksWidget.tsx:71-79 | the inserted task has the untrimmed title, due at the start of the chosen date, status `needsAction`, and notes exactly `Priority: ` followed by the priority, which show the badge and decode back to the priority |
| `Tasks.CompanionEvent` | src/components/TasksWidget.tsx:86-94 | an all-day event on the chosen date (start and end); the summary is ten characters longer than title and priority together, the description 27 longer than the priority |
| `Tasks.CompanionSummaryLayout` | src/components/TasksWidget.tsx:89 | the summary is `[Task] `, the title, ` (`, the priority and `)`, each at its position |
| `Tasks.CompanionDescriptionLayout` | src/components/TasksWidget.tsx:90 | the description is `Synced task with `, the priority and ` priority.`, each at its position |
| `Tasks.CompanionEventMentions` | src/components/TasksWidget.tsx:86-94 | the summary contains the title and the priority, and the description contains the priority |
| `Tasks.AddAllowed` | src/components/TasksWidget.tsx:57 | a create may go ahead exactly when the trimmed title is non-empty, a date is chosen and no create is in flight |
| `Tasks.TasksWidget.constructor` | src/components/TasksWidget.tsx:8-14 | empty cache, not loading, empty draft with priority Medium, no create in flight, form closed |
| `Tasks.TasksWidget.OpenForm` | src/components/TasksWidget.tsx:147 | the form is shown |
| `Tasks.TasksWidget.CancelForm` | src/components/TasksWidget.tsx:202 | the form is hidden and the draft is kept |
| `Tasks.TasksWidget.EditTitle` | src/components/TasksWidget.tsx:160 | the draft title becomes the typed value |
| `Tasks.TasksWidget.EditDate` | src/components/TasksWidget.tsx:173 | the draft date becomes the picked value |
| `Tasks.TasksWidget.SelectPriority` | src/components/TasksWidget.tsx:181 | the draft priority becomes the selected value |
| `Tasks.TasksWidget.Load` | src/components/TasksWidget.tsx:22-53 | lists up to 10 task lists, then fetches up to 50 undone tasks of the first; only with a list and a successful fetch is the cache replaced, by a due-ordered permutation of the fetched tasks; otherwise it is kept; `loading` ends false; nothing else changes |
| `Tasks.TasksWidget.SubmitDraft` | src/components/TasksWidget.tsx:63-100 | resolve the first list, then insert the untrimmed title with due at the start of the date, notes `Priority: p` and status `needsAction`, then insert the event `[Task] title (p)` on `primary`. Only after both inserts succeed are the draft reset to empty/empty/Medium and the form closed, followed by a reload. A missing list or a failed insert stops the sequence at that step and keeps the draft, the form, the cache and the loading flag |
| `Tasks.TasksWidget.AddTask` | src/components/TasksWidget.tsx:55-107 | a blank title, a missing date or a create in flight means no request and no state change. Otherwise the create above runs with `isAdding` raised, and `isAdding` ends false whatever the outcome |
| `Tasks.TasksWidget.CompleteTask` | src/components/TasksWidget.tsx:109-127 | resolves the first list and only then drops the tasks with that id from the cache (others in order), and patches the status to `completed`. If the lookup or the patch fails, a reload follows, starting from the cache as it was at that point |
| `App.RouteFor` | src/App.tsx:50-60 | a shown page is mounted at the requested path; the router redirects exactly when no page is mounted there, and it redirects to the overview's path |
| `App.RouteRoundTrip` | src/App.tsx:50-60 | every page is routed from its own path, and a redirect lands on the overview |
| `App.IsTruthy` | src/App.tsx:25 | the client id counts as set exactly when it is neither absent nor the empty string |
| `App.IsIpAccess` | src/App.tsx:26 | the page counts as reached by IP exactly when the host name is neither `localhost` nor `127.0.0.1` |
| `App.Gate` | src/App.tsx:16-60 | loading view exactly when not loaded. Setup view exactly when loaded without a truthy client id; its IP warning is on exactly when the host name is neither `localhost` nor `127.0.0.1`. Otherwise the routes for the path |
| `App.SelectedIds` | src/App.tsx:310-312 | every id kept belongs to a selected item; the result is empty exactly when no item is selected |
| `App.SelectedIdsAppend` | src/App.tsx:310-312 | selection distributes over concatenation, so ids stay in input order |
| `App.EmbedQuery` | src/App.tsx:329-341 | one `src` pair per id in id order, then `ctz=Asia/Tokyo`, `showTitle=0`, `showNav=1`, `showPrint=0`, `showTabs=1`, `showCalendars=1` |
| `App.EmbedParams` | src/App.tsx:329-341 | the list built by the `forEach` of appends and the six fixed appends is exactly the embed query |
| `App.CalendarUrl` | src/App.tsx:343 | there is no address exactly when there are no calendar ids; otherwise it is the embed base with the embed query |
| `App.CalendarPage.constructor` | src/App.tsx:295-296 | no calendar ids, not syncing |
| `App.CalendarPage.FetchCalendarList` | src/App.tsx:304-326 | one `calendarList.list()` call. The ids are the selected ids when some item is selected. With none selected they are the user's address, or empty without a user. After a failed listing they are the user's address, or unchanged without a user. `isSyncing` ends false |
| `App.ErrorText` | src/App.tsx:113 | the shown error is the error's own message when it has one, else `Failed to load the attendance sheet.`; never empty |
| `App.FolderNamed` | src/App.tsx:85-88 | the folder listing asks for non-trashed items of the folder MIME type with exactly the given name, in any parent, with no ordering and no page size |
| `App.LatestPdfIn` | src/App.tsx:98-103 | the PDF listing asks for non-trashed `application/pdf` items inside the given folder, ordered by `modifiedTime desc`, one result |
| `App.AttendancePage.constructor` | src/App.tsx:70-72 | no file, not loading, no error |
| `App.AttendancePage.FetchLatestAttendancePdf` | src/App.tsx:80-117 | lists the 勤務表 folders, then the newest PDF (one result) in the first folder found. No folder: error "Folder '勤務表' not found in your Google Drive.". No PDF: error "No PDF files found in the '勤務表' folder.". A failed listing: its message or the fallback. Every error keeps the previous file id. Otherwise the file id is the first file's id and the error is cleared. `loading` ends false |

## Left out

- Rendering: JSX, CSS class strings (the colour is the `Color` datatype, not the class string), icons, iframes, `ModuleCard`, and the pages' view choices (spinner / error / iframe / prompt). These are presentation.
- The Google API client: every remote call is an argument. Task-store and calendar-store semantics are not modelled, so neither is what a later reload returns after a create or a complete. The limits the requests carry (`maxResults`, `pageSize`) and the Drive ordering (`orderBy`) are not enforced on the replies, and the `fields` projections of the Drive listings are not modelled. The Drive search query `q` is kept as its clauses (parent folder, name, MIME type, `trashed = false`), not rendered as query-language text.
- Date handling: `new Date(...)`, `getTime`, `toISOString`, `setHours` and `toLocaleDateString` are library calls. A fetched task's due is the integer instant `getTime()` gives; an unparseable due (NaN) is not modelled. The inserted due is the opaque `StartOfDay(date)`; a `toISOString` failure on an invalid date is not modelled, since the date input only yields valid dates or ''. `calendarEnd` (src/components/TasksWidget.tsx:82-84) is computed and never used.
- `URLSearchParams.toString` percent-encoding: the query stays a list of pairs.
- `alert` and `console.error`: side-channel output.
- Async interleaving, React state batching and stale closures. Each handler runs to completion; the reload after a failed complete, which the source does not await, is taken to finish within the handler.
- The `useEffect` triggers that load on sign-in, and `AuthContext`, `DashboardLayout`, `CalendarWidget` and `DriveWidget`. src/contexts/AuthContext and those components are not part of this model. The signed-in user appears only as an optional e-mail address.
- Route matching: paths are compared exactly. The router's case-insensitive matching and trailing-slash handling are not modelled.
- Strings are sequences of Unicode scalar values, not UTF-16 code units. Every literal and every white-space character involved lies in the Basic Multilingual Plane.
- `Tasks.SortByDue`: it is straight insertion with the source's comparator, not the engine's sort. V8 sorts arrays shorter than 64 elements (here at most 50) by binary insertion. The contract states only due order and permutation, which is all the comparator fixes. The relative order of undated tasks, and of tasks with equal due, is left open: this insertion reverses undated tasks where V8 keeps them in order.
- `Tasks.TasksWidget.Load`: does not promise that two loads of the same remote state give identical caches. The sort fixes only the due value at each position (`Tasks.ReloadDuesAgree`), not which of several tasks with the same due (or of the undated tasks) comes first.
