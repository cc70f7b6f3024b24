# Job tracker — a verified model

This project models a personal job-application tracker. It has three parts:

- An Express server over a SQLite file. It holds jobs, their contacts, their interview rounds, and a bank of interview-prep questions, and it answers a statistics query.
- A React web client: a dashboard, the job list, the job page, the job form and the prep page, which are the pages the router mounts (client/src/App.jsx:15-18). The client also contains an analytics page, a Kanban board and a dark-mode provider. Nothing imports them, and the dashboard's links to `/analytics` and `/jobs?view=kanban` lead to no route. They are modelled as written.
- A React Native mobile app: a dashboard, a flash-card prep deck and a status badge.

The model is written in Dafny and has these parts:

- **Store**
  - The server's four tables live in `Store.Database`, a class with one `tables` field. Each table is a sequence of rows in rowid order, with an AUTOINCREMENT counter.
  - Every route handler is a method on that class.
  - NOT NULL and FOREIGN KEY violations are `Err` results that leave the tables unchanged.
  - `ON DELETE CASCADE` is written out in `DeleteJob`.
  - Every handler preserves the store invariant: rowid order, counters above every id, and both foreign keys pointing at existing jobs.
- **Stats and list queries**
  - `Stats.GetStats` models the statistics route. `Store.ListJobs`, `Store.ListPrep` and `Store.GetJob` model the list and detail queries.
  - These are pure functions of the tables, plus the current date and time, which are passed in as parameters.
  - `ORDER BY` is a stable insertion sort; its contracts state sortedness and a permutation.
  - `LIKE` is a case-insensitive substring test.
- **Pages**
  - Each page and component is a module.
  - Pure rendering rules (fallback texts, labels, KPI arithmetic, the salary line, tag formatting) are functions with lemmas.
  - Screens that keep state are classes whose methods mirror the event handlers: the Kanban drag state, the prep page's seeding load, the job list, the form, the mobile deck, the mobile dashboard and the theme provider.
- **JavaScript semantics**
  - Truthiness, `||` versus `??`, `Math.round` and `String.prototype.replace` (first occurrence only) are modelled explicitly.
  - A failed insert answers with an HTML error page, so the client's `res.json()` rejects. The page state then stays as it was.

## Model

| member | source | states |
|---|---|---|
| Schema.OrZero | client/src/pages/JobDetail.jsx:153 | `x \|\| 0`: a null or zero amount reads 0, any other amount itself |
| Schema.SalaryOrNull | server/index.js:48 | `salary \|\| null` into an INTEGER column: null, the number 0 and a cleared input are stored as NULL; any other amount is stored, and a 0 is stored exactly when it was typed as the text "0" |
| Schema.Flag | server/index.js:48 | `remote ? 1 : 0` stores 1 exactly for a truthy value, 0 otherwise |
| Schema.NewerFirstTotalPreorder | server/index.js:28 | ORDER BY created_at DESC is a total preorder, so the sort is well defined |
| Schema.EarlierDeadlineTotalPreorder | server/index.js:165 | ORDER BY deadline ASC (NULL first) is a total preorder |
| Schema.EarlierRoundTotalPreorder | server/index.js:37-38 | ORDER BY scheduled_date is a total preorder |
| Schema.PrepOrderTotalPreorder | server/index.js:131 | ORDER BY category, created_at DESC is a total preorder |
| Store.NewJob | server/index.js:43-49 | the inserted job row: company and position as sent, remote 1 iff truthy, status as sent when truthy else 'applied', salaries through SalaryOrNull, both timestamps now |
| Store.RevisedJob | server/index.js:52-58 | the updated job row: every editable column overwritten (status without a default), id and created_at kept, updated_at now |
| Store.RevisedJobIdempotent | server/index.js:52-58 | the same PUT twice leaves the row as after the first |
| Store.NewContact | server/index.js:69-73 | the inserted contact carries the job id of the route and the body's fields |
| Store.RevisedContact | server/index.js:77-80 | an updated contact keeps its id and job; other columns as sent |
| Store.NewRound | server/index.js:91-96 | the inserted round carries the route's job id, the body's fields and created_at now |
| Store.RevisedRound | server/index.js:100-105 | an updated round keeps id, job and created_at; other columns as sent |
| Store.NewPrep | server/index.js:136-140 | the inserted question: difficulty as sent when truthy else 'medium', practiced 0 whatever the body says |
| Store.RevisedPrep | server/index.js:144-148 | an updated question: difficulty stored as sent with no default, practiced 1 iff truthy |
| Store.MatchingJobs | server/index.js:19-27 | a job is kept iff each truthy parameter matches: status equal, search LIKE company or position |
| Store.ListJobs | server/index.js:13-30 | the list holds exactly the matching jobs, each as often as stored, ordered newest first |
| Store.ListJobsUnfiltered | server/index.js:19-27 | with no truthy filter the list is a permutation of the whole table |
| Store.ListJobsIgnoresSearchCase | server/index.js:24-25 | LIKE ignores case: a lower-cased search returns the same list |
| Store.GetJob | server/index.js:33-40 | None (the 404) iff no job has the id; otherwise that job, its contacts in table order, and exactly its rounds sorted by scheduled date |
| Store.MatchingPrep | server/index.js:122-130 | a question is kept iff its category matches a truthy non-'all' category and the search hits question, answer or tags |
| Store.ListPrep | server/index.js:116-133 | the list holds exactly the matching questions, each as often as stored, ordered by category then newest first |
| Store.ListPrepAllIsUnfiltered | server/index.js:122 | category 'all' returns the same list as no category |
| Store.RefersToMoreJobs | server/db.js:35 | a foreign key stays valid while no job id disappears |
| Store.CascadeRefersTo | server/db.js:35 | ON DELETE CASCADE: dropping a job and its dependent rows leaves every remaining reference valid |
| Store.EmptyValid | server/db.js:9-61 | a freshly created file satisfies the store invariant |
| Store.AppendJobValid | server/index.js:43-49 | an insert of a job at the counter keeps the invariant |
| Store.ReplaceJobValid | server/index.js:52-58 | rewriting a job under its id keeps the invariant |
| Store.CascadeValid | server/index.js:62-64 | deleting a job with its contacts and rounds keeps the invariant |
| Store.AppendContactValid | server/index.js:69-74 | a contact insert that passed the foreign key check keeps the invariant |
| Store.ReplaceContactValid | server/index.js:77-81 | rewriting a contact under the same id and job keeps the invariant |
| Store.DeleteContactValid | server/index.js:84-86 | deleting contacts keeps the invariant |
| Store.AppendRoundValid | server/index.js:91-97 | a round insert that passed the foreign key check keeps the invariant |
| Store.ReplaceRoundValid | server/index.js:100-106 | rewriting a round under the same id and job keeps the invariant |
| Store.DeleteRoundValid | server/index.js:109-111 | deleting rounds keeps the invariant |
| Store.AppendPrepValid | server/index.js:136-141 | a question insert at the counter keeps the invariant |
| Store.ReplacePrepValid | server/index.js:144-149 | rewriting a question under its id keeps the invariant |
| Store.DeletePrepValid | server/index.js:152-154 | deleting questions keeps the invariant |
| Store.NoReferenceToCounter | server/db.js:11 | no contact or round points at the id the next job will get |
| Store.CreatedJobDetail | server/index.js:43-49 | creating a job and then fetching its id returns the new row with no contacts and no interviews |
| Store.DeletedJobGone | server/index.js:62-64 | after a delete the job is a 404 and no contact or round refers to it |
| Store.Database.constructor | server/db.js:9-61 | the file starts with four empty tables and the invariant holds |
| Store.Database.HasJob | server/db.js:35 | the foreign key check: true iff a job with that id exists |
| Store.Database.CreateJob | server/index.js:43-49 | a missing company or position is a NOT NULL error that changes nothing; otherwise NewJob is appended at the counter and the counter moves on |
| Store.Database.UpdateJob | server/index.js:52-59 | an unknown id answers empty and changes nothing; a missing company or position is an error; otherwise the row becomes RevisedJob in place and reads back |
| Store.Database.DeleteJob | server/index.js:62-64 | the job and, by cascade, its contacts and rounds are removed; an unknown id changes nothing |
| Store.Database.CreateContact | server/index.js:69-74 | a missing name or an unknown job is refused without change; otherwise NewContact is appended |
| Store.Database.UpdateContact | server/index.js:77-81 | an unknown id answers empty; a missing name is an error; otherwise RevisedContact in place |
| Store.Database.DeleteContact | server/index.js:84-86 | exactly the contacts with that id go |
| Store.Database.CreateRound | server/index.js:91-97 | a missing round type or an unknown job is refused without change; otherwise NewRound is appended |
| Store.Database.UpdateRound | server/index.js:100-106 | an unknown id answers empty; a missing round type is an error; otherwise RevisedRound in place |
| Store.Database.DeleteRound | server/index.js:109-111 | exactly the rounds with that id go |
| Store.Database.CreatePrep | server/index.js:136-141 | a missing category or question is refused without change; otherwise NewPrep is appended |
| Store.Database.UpdatePrep | server/index.js:144-149 | an unknown id answers empty; a missing category or question is an error; otherwise RevisedPrep in place |
| Store.Database.DeletePrep | server/index.js:152-154 | exactly the questions with that id go |
| Stats.StatusesOf | server/index.js:161 | the status column, row by row |
| Stats.ByStatus | server/index.js:161 | GROUP BY status: one group per distinct status (NULL included), each counting the rows that carry it |
| Stats.ByStatusCountsPositive | server/index.js:161 | no group has a zero count |
| Stats.GroupTotal | server/index.js:161 | the counts over the distinct statuses add up to the number of rows |
| Stats.ByStatusSumsToTotal | server/index.js:160-161 | byStatus accounts for every job exactly once: its counts sum to total |
| Stats.Upcoming | server/index.js:162-166 | min(5, candidates) jobs, each a job with a deadline from today on and a status not offer, rejected or withdrawn, each listed no more often than it is stored, by deadline; with five or fewer candidates all are listed, otherwise none left out is due earlier than any listed |
| Stats.JoinJob | server/index.js:168-169 | a round joins iff its job exists, and carries that job's company and position |
| Stats.JoinJobs | server/index.js:168-169 | the inner join holds exactly the rounds whose job exists |
| Stats.EarlierScheduledTotalPreorder | server/index.js:171 | ORDER BY ir.scheduled_date is a total preorder |
| Stats.UpcomingInterviews | server/index.js:167-172 | min(5, candidates) joined rounds scheduled from now on, drawn from the joined rows without repetition beyond theirs, by date; with five or fewer all are listed, otherwise none left out is earlier than any listed |
| Stats.JoinedRowNamesItsJob | server/index.js:168-169 | a joined row names the company and position of its round's own job |
| Stats.GetStats | server/index.js:159-173 | the payload is the job count, the status grouping (which sums to the count) and the two five-row lists, each part as specified by ByStatus, Upcoming and UpcomingInterviews |
| Stats.DeadlineAhead | server/index.js:164 | a selected job has a deadline and a status, and the status is not offer, rejected or withdrawn (NULL fails the filter); an applied job due today is selected |
| Stats.SameDayIsUpcoming | server/index.js:170 | a round stored as "YYYY-MM-DDTHH:MM" compares after any "YYYY-MM-DD HH:MM:SS" of the same day, so it counts as upcoming all that day |
| StatusMap.KeyOf | client/src/pages/Analytics.jsx:183 | Object.fromEntries key: a NULL status is stored as "null" |
| StatusMap.CountOf | client/src/pages/Analytics.jsx:185 | `sm[k] \|\| 0`: the count of the entry stored under k, 0 when there is none |
| StatusMap.SumOverAppend | client/src/pages/Dashboard.jsx:28 | summing over two key lists is the sum of the two sums |
| StatusMap.SumOver | client/src/pages/Dashboard.jsx:28 | `keys.reduce((sum, k) => sum + (sm[k] \|\| 0), 0)`: the sum is at least the count of each key summed over |
| StatusMap.CountOfEntry | client/src/pages/Analytics.jsx:183 | with one entry per status, `sm[k]` is that entry's count |
| StatusMap.CountOfByStatus | client/src/pages/Dashboard.jsx:27 | on the server's grouping, `sm[k]` is the number of jobs with status k |
| StatusMap.SumOverByStatus | client/src/pages/Dashboard.jsx:28 | on the server's grouping, a sum over distinct statuses is the number of jobs in one of them |
| Analytics.Divisor | client/src/pages/Analytics.jsx:184 | `total \|\| 1`: at least 1, and the total itself when positive |
| Analytics.KpisOf | client/src/pages/Analytics.jsx:183-197 | the KPI cards: responded, active, offers and rejected are read from the status map, and each rate is Math.round(count / (total \|\| 1) * 100), in 0..100 whenever its count is at most the total |
| Analytics.Responded | client/src/pages/Analytics.jsx:186 | the sum of the counts of every group whose status is not 'applied' never exceeds the sum of all counts |
| Analytics.RespondedPlusApplied | client/src/pages/Analytics.jsx:186 | with one entry per status, responded plus the 'applied' count is the sum of all counts |
| Analytics.RespondedByStatus | client/src/pages/Analytics.jsx:186 | on the server's grouping, responded is the number of jobs not in 'applied' |
| Analytics.KpisOfServerStats | client/src/pages/Analytics.jsx:183-197 | on the server's payload each card counts the jobs in its statuses, and every rate is that count as a rounded percentage of the number of jobs (of 1 when there are none), in 0..100 |
| Analytics.ActiveByStatus | client/src/pages/Analytics.jsx:189 | the active pipeline is the number of jobs in phone_screen, oa, technical or onsite |
| Analytics.KpisOfEmptyStore | client/src/pages/Analytics.jsx:184-188 | with no jobs every count and rate is 0, never a division by zero |
| Analytics.BarMax | client/src/pages/Analytics.jsx:24 | the bar scale is at least 1, bounds every count, and is 1 or one of the counts |
| Analytics.WeekLabelWithoutMarker | client/src/pages/Analytics.jsx:106 | a week key without "-W" is shown unchanged |
| Analytics.WeekLabelOfIsoWeek | client/src/pages/Analytics.jsx:106 | "YYYY-Www" is labelled "Www" |
| Analytics.WeekLabel | client/src/pages/Analytics.jsx:106 | a missing week stays missing; a label that differs from the key starts with 'W' |
| Analytics.Donut | client/src/pages/Analytics.jsx:115-159 | "No data" iff the counts sum to 0; otherwise one slice per entry with its percentage rounded to the nearest whole, in 0..100 |
| Analytics.CountsBelowTotal | client/src/pages/Analytics.jsx:117 | every count is at most the donut's total |
| Analytics.DonutOfServerStats | client/src/pages/Analytics.jsx:116-118 | on the server's grouping the donut shows "No data" iff there are no jobs |
| Dashboard.CardsOf | client/src/pages/Dashboard.jsx:27-35 | the four cards; In Progress is the 'applied' count plus the active pipeline |
| Dashboard.CardsOfServerStats | client/src/pages/Dashboard.jsx:27-35 | on the server's payload each card counts its jobs and In Progress never exceeds Total Applied |
| Dashboard.ShowsPipelineIffJobs | client/src/pages/Dashboard.jsx:62 | the breakdown panel is shown iff some job exists |
| Dashboard.RoundLabel | client/src/pages/Dashboard.jsx:5-9 | `ROUND_LABELS[t] ?? t`: the table's label when it has one, the raw type otherwise |
| Dashboard.ScheduledText | client/src/pages/Dashboard.jsx:109 | `replace('T', ' ')` changes only the first 'T' to a space and keeps every other character; a null date shows nothing |
| Dashboard.ScheduledTextOfLocalDateTime | client/src/pages/Dashboard.jsx:109 | "YYYY-MM-DDTHH:MM" is shown as "YYYY-MM-DD HH:MM" |
| Dashboard.DeadlineLines | client/src/pages/Dashboard.jsx:80-91 | the empty text iff no job is upcoming; otherwise one "company — position" line per job, linking to it, with its deadline |
| Dashboard.InterviewLines | client/src/pages/Dashboard.jsx:98-113 | the empty text iff no interview is upcoming; otherwise one line per round linking to its job, with its label and shown date |
| StatusBadge.StyleOf | client/src/components/StatusBadge.jsx:1-25 | `STYLES[status] ?? gray`: the table's style for a known status, gray otherwise |
| StatusBadge.LabelOf | client/src/components/StatusBadge.jsx:12-26 | `STATUS_LABELS[status] ?? status`: the label for a known status, the raw value otherwise |
| StatusBadge.TablesCoverStatuses | client/src/components/StatusBadge.jsx:1-21 | both tables are keyed by exactly the eight job statuses |
| StatusBadge.LabelsDistinct | client/src/components/StatusBadge.jsx:12-21 | no two statuses share a label |
| StatusBadge.KnownStatusLabelled | client/src/components/StatusBadge.jsx:26 | every job status is shown by its label, not its raw value |
| MobileStatusBadge.StyleOf | job-tracker-mobile/components/StatusBadge.js:30 | `STYLES[status] \|\| gray`: the table's style for a known status, gray otherwise |
| MobileStatusBadge.ClassesOf | job-tracker-mobile/components/StatusBadge.js:31-32 | `split(' ')[0]` and `[1]`: neither class holds a space |
| MobileStatusBadge.LabelOf | job-tracker-mobile/components/StatusBadge.js:37 | `STATUS_LABELS[status] \|\| status`: the label for a known status, the raw value otherwise |
| MobileStatusBadge.StyleClassesHaveNoSpace | job-tracker-mobile/components/StatusBadge.js:7-16 | no class name in the style table contains a space |
| MobileStatusBadge.ClassesDefined | job-tracker-mobile/components/StatusBadge.js:30-32 | every style string splits into exactly two space-free classes, so the text class is never undefined |
| MobileStatusBadge.TablesCoverStatuses | job-tracker-mobile/components/StatusBadge.js:7-27 | both tables are keyed by exactly the eight job statuses |
| Kanban.ColumnsAreStatuses | client/src/components/KanbanBoard.jsx:4-13 | the columns are the eight statuses, each once, in pipeline order |
| Kanban.PartitionColumns | client/src/components/KanbanBoard.jsx:75-78 | one entry per column, holding exactly the jobs with that status in input order |
| Kanban.ColumnJobs | client/src/components/KanbanBoard.jsx:111 | `byStatus[col.status] \|\| []`: the column's jobs, empty for a missing entry |
| Kanban.BadgeTotalCounts | client/src/components/KanbanBoard.jsx:128-130 | the badges of distinct columns add up to the jobs in one of those statuses |
| Kanban.BoardAccountsForJobs | client/src/components/KanbanBoard.jsx:75-78 | the eight badges add up to the jobs with a column status and never exceed the number of jobs |
| Kanban.JobInOwnColumnOnly | client/src/components/KanbanBoard.jsx:77 | a job appears in a column iff the column is its own status |
| Kanban.DropChange | client/src/components/KanbanBoard.jsx:91-98 | a change is requested iff a card is dragged, a job with its id exists and the first such job has a different status |
| Kanban.DropOnOwnColumn | client/src/components/KanbanBoard.jsx:95 | dropping a card on its own column requests nothing |
| Kanban.DragState.constructor | client/src/components/KanbanBoard.jsx:72-73 | nothing dragged and no column highlighted |
| Kanban.DragState.DragStart | client/src/components/KanbanBoard.jsx:80-83 | the card becomes the dragged one, the highlight is kept |
| Kanban.DragState.DragOver | client/src/components/KanbanBoard.jsx:85-89 | exactly the hovered column is highlighted |
| Kanban.DragState.DragLeave | client/src/components/KanbanBoard.jsx:121-123 | the highlight goes only when the pointer left the column |
| Kanban.DragState.Drop | client/src/components/KanbanBoard.jsx:91-101 | returns DropChange for the dragged card and clears both fields |
| Kanban.DragState.DragEnd | client/src/components/KanbanBoard.jsx:103-106 | clears both fields |
| Kanban.DragAndDrop | client/src/components/KanbanBoard.jsx:80-101 | dragging a card to another status's column requests exactly that job's change |
| Kanban.SalaryStr | client/src/components/KanbanBoard.jsx:17-19 | no line iff neither bound is truthy; the line starts with '$' and ends with '+' iff there is no maximum (the amounts: SalaryStrShowsMinimum, SalaryStrShowsMaximum) |
| Kanban.SalaryStrShowsMinimum | client/src/components/KanbanBoard.jsx:18 | the first amount is a decimal numeral that reads back as the minimum (0 when unset) to the nearest thousand |
| Kanban.SalaryStrStartsWithMinimum | client/src/components/KanbanBoard.jsx:18 | the line's first amount sits right after the '$' |
| Kanban.SalaryStrShowsMaximum | client/src/components/KanbanBoard.jsx:18 | with a maximum the line ends in " – $Yk", and Y reads back as the maximum to the nearest thousand |
| JobsPage.Params | client/src/pages/Jobs.jsx:16-18 | status is set iff it is not 'all', search iff it is non-empty, and no other parameter |
| JobsPage.Fetch | client/src/pages/Jobs.jsx:15-19 | the answer to the page's parameters is newest first and takes each row at most as often as it is stored |
| JobsPage.FetchOfParams | client/src/pages/Jobs.jsx:15-20 | with the parameters `load` builds, the answer is the list query for the current filters, and a job is in it iff its status and the search match |
| Wrappers.Lookup | server/index.js:14 | reading `req.query[key]` (and `localStorage.getItem` in ThemeContext.jsx:7): a value iff the key is present, and it is the stored one |
| JobsPage.FetchShows | client/src/pages/Jobs.jsx:15-20 | a job is listed iff it exists, the 'all' button or its own status is selected, and the search (if any) matches company or position |
| JobsPage.FetchAllIsEveryJob | client/src/pages/Jobs.jsx:16-20 | with 'all' and no search the list is a permutation of every job |
| JobsPage.FilterLabel | client/src/pages/Jobs.jsx:57 | 'All' for the all button, the status label otherwise |
| JobsPage.FilterLabelsDistinct | client/src/pages/Jobs.jsx:52-57 | no two filter buttons carry the same label |
| JobsPage.AppliedCell | client/src/pages/Jobs.jsx:87 | the applied date when truthy, a dash otherwise |
| JobsPage.DeadlineCellOf | client/src/pages/Jobs.jsx:89-91 | the deadline when truthy, the dash cell otherwise |
| JobsPage.LocationCell | client/src/pages/Jobs.jsx:94 | the location when truthy, else 'Remote' for a remote job, else a dash |
| JobsPage.LocationCellNeverBlank | client/src/pages/Jobs.jsx:94 | the location cell is never empty |
| JobsPage.JobsScreen.constructor | client/src/pages/Jobs.jsx:9-12 | empty list, 'all', no search, form closed |
| JobsPage.JobsScreen.Load | client/src/pages/Jobs.jsx:15-21 | the list becomes the server's answer to the current filters: exactly the jobs they select; filters unchanged |
| JobsPage.JobsScreen.SelectStatus | client/src/pages/Jobs.jsx:53 | only the selected status changes |
| JobsPage.JobsScreen.Create | client/src/pages/Jobs.jsx:25-34 | a valid job is appended under the next id (every other table unchanged), the form closes and the page goes to that id; a refused insert changes nothing |
| JobForm.StatusOptionsAreStatuses | client/src/components/JobForm.jsx:4 | the options are the eight statuses, each with a label |
| JobForm.Today | client/src/components/JobForm.jsx:7 | the text before the first 'T'; the whole text when there is none |
| JobForm.TodayOfIsoInstant | client/src/components/JobForm.jsx:7 | an ISO instant gives its date part |
| JobForm.TextOr | client/src/components/JobForm.jsx:9-19 | `job?.x ?? d` for a text column: the value when not null, the default otherwise |
| JobForm.NumberOrBlank | client/src/components/JobForm.jsx:17-18 | `job?.x ?? ''` for a number column |
| JobForm.InitialForm | client/src/components/JobForm.jsx:8-20 | the eleven fields; a new job gets the blank form with status 'applied' and today's date; an edited job gives every field its column's value, or that field's default when the column is null |
| JobForm.InitialFormFromJob | client/src/components/JobForm.jsx:14-18 | a field shows its default iff the column is null or already equal to that default |
| JobForm.NewFormStartsApplied | client/src/components/JobForm.jsx:14-15 | a new job starts as applied today |
| JobForm.Title | client/src/components/JobForm.jsx:31 | 'Edit Job' iff a job is given, 'Add New Job' otherwise |
| JobForm.SubmitLabel | client/src/components/JobForm.jsx:111 | 'Save Changes' iff a job is given, 'Add Job' otherwise |
| JobForm.EventValue | client/src/components/JobForm.jsx:23-24 | a checkbox writes its checked state, anything else its value |
| JobForm.JobFormState.constructor | client/src/components/JobForm.jsx:8-20 | the state starts as InitialForm |
| JobForm.JobFormState.Set | client/src/components/JobForm.jsx:22-25 | only the named field changes, and the form keeps its eleven fields |
| JobForm.JobFormState.Submit | client/src/components/JobForm.jsx:35 | the whole form is handed over |
| JobForm.EditAndUndo | client/src/components/JobForm.jsx:22-25 | typing a field's old text back restores the form |
| JobDetail.StarClick | client/src/pages/JobDetail.jsx:46 | clicking the current rating clears it to 0; any other star sets it |
| JobDetail.StarClickTwice | client/src/pages/JobDetail.jsx:46 | a second click on a star restores the rating when it was that star, else clears it |
| JobDetail.LitIsPrefix | client/src/pages/JobDetail.jsx:51 | lit stars form a prefix |
| JobDetail.LitCountClamps | client/src/pages/JobDetail.jsx:51 | the number of lit stars is the hovered star, else the rating, clamped to 0..5 |
| JobDetail.ResentInput | client/src/pages/JobDetail.jsx:94-97 | `{ ...job, priority }` as the PUT handler reads it: every stored column sent back, the salaries as JSON numbers |
| JobDetail.Resent | client/src/pages/JobDetail.jsx:97 | a stored salary goes back as null or as the same JSON number |
| JobDetail.ZeroCleared | server/index.js:58 | `salary \|\| null` on a resent number: NULL exactly for null or 0, otherwise the same salary |
| JobDetail.PriorityChangeKeepsRow | client/src/pages/JobDetail.jsx:94-99 | a priority change leaves the stored row as it was except updated_at and a salary stored as 0, which becomes NULL |
| JobDetail.TypedZeroClearedByPriorityChange | client/src/components/JobForm.jsx:22-24 | a minimum salary typed as "0" in the form is stored as 0, and the next priority change clears it to NULL |
| JobDetail.ActivityIcon | client/src/pages/JobDetail.jsx:16-30 | the type's icon, the default icon for an unknown or missing type |
| JobDetail.Timestamp | client/src/pages/JobDetail.jsx:33 | the first 'T' becomes a space and the text is cut to 16 characters |
| JobDetail.TimestampOfIsoInstant | client/src/pages/JobDetail.jsx:33 | an ISO instant is shown as "YYYY-MM-DD HH:MM" |
| JobDetail.TimestampWithoutT | client/src/pages/JobDetail.jsx:33 | a text without 'T' is only cut to 16 characters |
| JobDetail.NoteRequest | client/src/pages/JobDetail.jsx:132-138 | nothing is sent iff the note is blank; otherwise a 'note' with the trimmed text |
| JobDetail.NoteRequestIsTrimmedSlice | client/src/pages/JobDetail.jsx:134-137 | a sent note is non-empty, has no space at either end, and is a slice of what was typed with only spaces cut off |
| JobDetail.NoteBox.constructor | client/src/pages/JobDetail.jsx:69 | the box starts empty |
| JobDetail.NoteBox.Type | client/src/pages/JobDetail.jsx:420 | the box holds what was typed |
| JobDetail.NoteBox.Submit | client/src/pages/JobDetail.jsx:132-141 | sends NoteRequest of the text; the box is cleared after a send and kept after a blank note |
| JobDetail.SalaryText | client/src/pages/JobDetail.jsx:152-154 | no line iff neither bound is truthy |
| JobDetail.SalaryTextReadsBack | client/src/pages/JobDetail.jsx:153 | both amounts read back from the line, each 0 when unset |
| JobDetail.RoundLabel | client/src/pages/JobDetail.jsx:320 | the page's label for a known round type, the raw type otherwise |
| JobDetail.RoundTypesLabelled | client/src/pages/JobDetail.jsx:6-11 | the offered round types are exactly the labelled ones |
| PrepPage.QueryOf | client/src/pages/Prep.jsx:44-46 | category is sent iff it is not 'all', search iff it is non-empty |
| PrepPage.FetchAllIsWholeBank | client/src/pages/Prep.jsx:44-48 | with 'all' and no search the page receives every question, so an empty answer means an empty bank |
| PrepPage.Fetch | client/src/pages/Prep.jsx:44-48 | a question is received iff it is stored and matches the category and search |
| PrepPage.ShouldSeed | client/src/pages/Prep.jsx:50 | seeding is asked for only after an empty answer to the unfiltered view, and never once the flag is set |
| PrepPage.SeedRows | client/src/pages/Prep.jsx:52-56 | the seeding loop's rows: one NewPrep per seed, in order, ids counted up |
| PrepPage.CountByCategory | client/src/pages/Prep.jsx:88-91 | a count for each of the five categories and no other key, each the number of loaded questions in it |
| PrepPage.CountShown | client/src/pages/Prep.jsx:118 | `counts[c] \|\| 0` |
| PrepPage.CardTotalCounts | client/src/pages/Prep.jsx:112-121 | the cards of distinct categories add up to the questions in one of them |
| PrepPage.CardTotalBounded | client/src/pages/Prep.jsx:112-121 | the five cards never add up to more than the loaded questions |
| PrepPage.PracticedCount | client/src/pages/Prep.jsx:92 | the number of practiced questions, at most the number loaded |
| PrepPage.ToggleInput | client/src/pages/Prep.jsx:78 | `{ ...q, practiced: !q.practiced }` as the PUT handler reads it |
| PrepPage.ToggleFlipsOnlyPracticed | client/src/pages/Prep.jsx:75-79 | the toggle flips practiced and leaves every other column as it was |
| PrepPage.ToggleTwice | client/src/pages/Prep.jsx:75-79 | toggling twice restores the question |
| PrepPage.ToggleMovesPracticedCount | client/src/pages/Prep.jsx:75-92 | one toggle moves the practiced count by exactly one, up or down |
| PrepPage.ExpandClick | client/src/pages/Prep.jsx:198 | a click opens a closed question and closes an open one |
| PrepPage.ExpandClickTwice | client/src/pages/Prep.jsx:198 | two clicks leave a question as it was; at most one is open |
| PrepPage.HashTrimIsTag | client/src/pages/Prep.jsx:211 | a trimmed non-blank part with '#' in front is a tag |
| PrepPage.TagList | client/src/pages/Prep.jsx:211 | no more tags than parts, and every tag is '#' followed by text without white space at either end |
| PrepPage.TagListIsPipeline | client/src/pages/Prep.jsx:211 | the tags are exactly `map(trim).filter(Boolean).map(t => '#' + t)` of the parts: one per non-blank part, in order, '#' plus the trimmed part |
| PrepPage.FormatTags | client/src/pages/Prep.jsx:211 | the tag line is the tags of the comma parts joined by single spaces, and is empty iff no part is non-blank |
| PrepPage.TagListOfBlankParts | client/src/pages/Prep.jsx:211 | commas and spaces alone show no tag |
| PrepPage.TagListOfTwo | client/src/pages/Prep.jsx:211 | two non-blank parts give two tags |
| PrepPage.JoinTwoTags | client/src/pages/Prep.jsx:211 | two tags are joined by one space |
| PrepPage.FormatTagsOfTwo | client/src/pages/Prep.jsx:211 | "a, b" shows "#a #b" with each part trimmed |
| PrepPage.PrepScreen.constructor | client/src/pages/Prep.jsx:35-41 | no questions, 'all', no search, not seeded, none open |
| PrepPage.PrepScreen.Load | client/src/pages/Prep.jsx:43-61 | an empty unfiltered first load posts every seed, marks the page seeded and shows the seeded bank; otherwise the tables are untouched and the answer is shown |
| PrepPage.PrepScreen.ClickQuestion | client/src/pages/Prep.jsx:198 | only the open question changes, by ExpandClick |
| PrepPage.PostSeeds | client/src/pages/Prep.jsx:52-56 | one insert per seed: the bank gains exactly SeedRows and the counter moves by the number of seeds |
| PrepPage.LoadTwice | client/src/pages/Prep.jsx:50-57 | seeding happens at most once: two loads leave the bank unchanged or with the seeds added once |
| MobileDashboard.ScreenOf | job-tracker-mobile/app/index.js:36-87 | spinner iff loading, the failure text iff loaded without stats; otherwise the cards and the deadline list (empty text iff none) |
| MobileDashboard.BoardOfServerStats | job-tracker-mobile/app/index.js:52-70 | on the server's payload the cards count their jobs, as on the web dashboard |
| MobileDashboard.DashboardScreen.constructor | job-tracker-mobile/app/index.js:11-13 | no stats, loading, not refreshing |
| MobileDashboard.DashboardScreen.Current | job-tracker-mobile/app/index.js:36-50 | the screen is ScreenOf of the state |
| MobileDashboard.DashboardScreen.FetchStats | job-tracker-mobile/app/index.js:15-24 | a response replaces the stats, a failure keeps them; loading ends either way |
| MobileDashboard.DashboardScreen.Refresh | job-tracker-mobile/app/index.js:30-34 | a failed refresh keeps the board on screen; the indicator is lowered |
| MobileDashboard.Mount | job-tracker-mobile/app/index.js:26-28 | a failing first request shows the failure text, a successful one the board |
| MobilePrep.Deck.constructor | job-tracker-mobile/app/prep.js:11-14 | empty deck at index 0, answer hidden, loading |
| MobilePrep.Deck.Current | job-tracker-mobile/app/prep.js:47-68 | spinner iff loading, the notice iff the deck is empty; otherwise card number index + 1 of the deck's size |
| MobilePrep.Deck.FetchPrep | job-tracker-mobile/app/prep.js:16-30 | a response replaces the deck, resets to the first card and hides the answer; a failure keeps the deck; loading ends either way |
| MobilePrep.Deck.Flip | job-tracker-mobile/app/prep.js:74 | only the answer's visibility flips |
| MobilePrep.Deck.HandleNext | job-tracker-mobile/app/prep.js:36-45 | before the last card, go to the next one with the answer hidden; on the last card, reload the deck |
| MobilePrep.KnowLikeSkip | job-tracker-mobile/app/prep.js:108-122 | 'Got It' and 'Skip' have the same effect |
| MobilePrep.WalkDeck | job-tracker-mobile/app/prep.js:36-45 | n - 1 nexts on a loaded deck show every card in order and end on the last |
| Theme.Encode | client/src/contexts/ThemeContext.jsx:18 | 'dark' iff the flag is set, never empty |
| Theme.InitialDark | client/src/contexts/ThemeContext.jsx:6-9 | a truthy saved value decides (dark iff 'dark'); otherwise the system preference |
| Theme.InitialDarkEncode | client/src/contexts/ThemeContext.jsx:6-18 | what the effect saves reads back as the same flag |
| Theme.InitialDarkWithoutSaved | client/src/contexts/ThemeContext.jsx:7-8 | a missing or empty saved value falls back to the system preference |
| Theme.ThemeProvider.constructor | client/src/contexts/ThemeContext.jsx:5-19 | the initial flag, then the effect: root and storage agree with it, no other class or key changes |
| Theme.ThemeProvider.ApplyTheme | client/src/contexts/ThemeContext.jsx:11-19 | the root carries 'dark' iff the flag is set and the storage holds its encoding; nothing else changes |
| Theme.ThemeProvider.Toggle | client/src/contexts/ThemeContext.jsx:21 | the flag flips and the effect keeps root and storage in step |
| Theme.ToggleSurvivesReload | client/src/contexts/ThemeContext.jsx:6-21 | after a toggle a reload restores the toggled flag, whatever the system preference |
| Rounding.RoundDiv | client/src/pages/Analytics.jsx:159 | `Math.round(n / d)`: the nearest integer, halves rounded up |
| Rounding.RoundDivMonotone | client/src/pages/Analytics.jsx:187-188 | the rounded rate does not fall as the count grows |
| Rounding.Percent | client/src/pages/Analytics.jsx:187 | `Math.round(n / d * 100)`: the nearest whole percentage |
| Rounding.PercentBounds | client/src/pages/Analytics.jsx:187-188 | a count between 0 and the total gives a percentage in 0..100 |
| Rounding.Thousands | client/src/components/KanbanBoard.jsx:18 | `Math.round(x / 1000)`: x to the nearest thousand |
| Strings.LikeIgnoresPatternCase | server/index.js:24-25 | LIKE compares without regard to ASCII case |
| Strings.LikeIffOccurs | server/index.js:24-25 | `x LIKE '%s%'` holds iff x is not NULL and the lowered pattern occurs at some position of the lowered value |
| Strings.ReplaceFirst | client/src/pages/Dashboard.jsx:109 | only the first occurrence of the character is replaced |
| Strings.Trim | client/src/pages/JobDetail.jsx:134 | `trim()`: empty iff all white space, no white space at either end, and a slice of the input with only white space cut off |
| Strings.JoinSplit | client/src/pages/Prep.jsx:211 | joining the parts of a split with the separator gives the text back |
| Strings.Split | client/src/pages/Prep.jsx:211 | `split(sep)`: at least one part, and no part contains the separator |
| Strings.SplitFirstPiece | client/src/components/JobForm.jsx:7 | `split(c)[0]` is the text before the first c, or all of it when there is none |
| Seqs.SortBySorted | server/index.js:28 | the insertion sort standing for ORDER BY gives a sorted sequence under any total preorder |
| Seqs.TopBy | server/index.js:162-166 | `WHERE p ORDER BY le LIMIT n`: exactly min(n, matches) rows, each a match and each at most as often as it matches, sorted; all matches when there are at most n, and any match left out sorts after every row returned |
| Seqs.LimitOmitsOnlyLater | server/index.js:165 | after ORDER BY, every row LIMIT 5 keeps sorts no later than any row it drops |

## Left out

- HTTP, express routing, CORS, JSON encoding and React rendering are not modelled. Each handler is a method and each view is a value.
- Clocks are parameters: `datetime('now')`, `date('now')`, `new Date()` and `Date.now()`.
- `Math.random`, used by the mobile shuffle, is not modelled. `MobilePrep.Deck.FetchPrep` takes the shuffled deck as given.
- Floating point is not modelled.
  - Rates and percentages are exact integer ratios rounded half up, as `Math.round` rounds them; the rounding error of the double division is not modelled.
  - The Analytics line chart's geometry is not modelled, nor the bar widths.
- JobDetail.SalaryText: `toLocaleString` is not modelled; the amounts are shown as plain decimals rather than with locale grouping.
- The Kanban card's "days ago" and "urgent" badges (KanbanBoard.jsx:21-25) depend on the clock and on `Date` parsing. They are not modelled.
- The Analytics page's weekly and by-source charts are not modelled. The server's statistics route sends neither `weeklyApps` nor `bySource`, so the page has nothing to draw. Only the week label rule (`Analytics.WeekLabel`) is kept.
- The job page's activity timeline and note box post to `/api/jobs/:id/activity`, a route the server does not define. The timeline always shows "No activity yet.". `JobDetail.NoteBox.Submit` models only the request body.
- The server has no `priority` column. `JobDetail.PriorityChangeKeepsRow` shows the rating change being dropped, and the rating is always read as 0.
- The job page's add/delete handlers for contacts and interviews, its edit and delete buttons, and the Prep page's `handleSubmit` and `del` are not modelled as page state. Each only calls the matching `Store.Database` method and then reloads, and those methods are modelled.
- LIKE wildcards inside the search text (`%` and `_`) are not modelled. The search is treated as a literal substring.
- SQLite type affinity is modelled for the salary columns only. The form sends a salary as the text of a number input, and `Schema.Amount` keeps that text as the whole number it spells; a fraction or an exponent, which SQLite would store as REAL, is not modelled. Every other column is stored as the JSON body gives it.
- The difference between `undefined` and `null` is not modelled. Both are `None`.
- The order of rows with equal `ORDER BY` keys is the model's choice. SQLite does not promise one, and ties are real: created_at has one-second granularity, and deadlines and scheduled dates can be equal. The stable insertion sort keeps them in rowid order, so `JobsPage.JobsScreen.Load`, `PrepPage.PrepScreen.Load` and `Stats.GetStats` state one of the orders SQLite may return; the sortedness and permutation facts hold for every order.
- GROUP BY order is not modelled. SQLite promises no order, so the model uses first appearance, and every property proved is independent of order.
- Object keys that clash with JavaScript's prototype (e.g. a status named `constructor`) are not modelled.
- `PrepPage.PrepScreen.Load`: the page's `seeded` flag is read from the closure of the current render. A second load starting before the state update would not see it. The model runs loads one after another. It requires a non-empty seed list, as the page's list of seeds is.
- `MobileDashboard.DashboardScreen.Refresh` and `MobilePrep.Deck.FetchPrep`: the requests are awaited in order. Interleaving of overlapping requests is not modelled.
- The interview `scheduled_date` comparison is kept as the server writes it: text against `datetime('now')`. `Stats.SameDayIsUpcoming` shows that a round stored with a 'T' separator counts as upcoming for the whole of its day.
