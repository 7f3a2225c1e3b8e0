# MG Portal — a verified model of the cell-group administration core

MG Portal is a single-page administration app for a church's cell groups ("MG", 小組).
Leaders form a lineage tree: each leader has an MG code, and a disciple's code extends its parent's.
A tribe is the lineage under a two-character code.
Leaders run cell groups of four categories (pre, open, relationship, disciple).
They log gathering reports per group and keep member rosters.
Administrators see statistics over the lineage.

This project models that core in Dafny and proves what its code promises.
Each module follows one source file:

- `Domain` — the records: leader, group, report, member, the three history records and follow-ups.
  It also holds the lineage and group-report helpers that several pages share.
- `Store` (`App.tsx`) — the application state and every mutation the pages call back into.
  This covers:
  - report add, update and delete on the signed-in leader's groups;
  - group create, edit and soft delete;
  - member add, update and delete;
  - directory save and delete;
  - the bulk upsert used by the CSV import;
  - the "has descendants" test.
- `LeaderManagement` and `LeaderCsv` (`components/LeaderManagement.tsx`) — role toggling and parent change on the edit draft.
  Also status updates, transfers and the save guard.
  `LeaderCsv` is the 13-column CSV export and the import that matches, merges and reports row errors.
  `LeaderCsvRoundTrip` proves that importing an exported file restores every row.
- `LeaderDetail` and `AttendanceTracker` — which categories a leader may open, and the check-in roster.
  Also the suggested next gathering date, quick group creation, the report ledger form and the attendance checklist.
- `GroupSettings`, `GroupSelector` — the group form and its category-driven defaults, and the group picker list.
- `AdminDashboard` — ISO weeks, weekly buckets of gatherings and attendance, the display window and the leadership network.
- `ReportingStatus`, `PastoralEvaluation`, `TribeStatistics`, `LineagePhotoView` — derived views.
  These cover the delinquent leaders, AGM maturity, per-tribe statistics with the CSV export, and the lineage listing.
- `LeaderList`, `FilterDrawer`, `MemberManagement`, `MemberSelfRegistration`, `ProfileSettings`, `Login` — the remaining pages.
  These cover the directory filters, the member roster, self-registration, profile and password changes, and sign-in with password reset.
- `Dates`, `Text`, `Seqs`, `Orders` — calendar days, the string functions the pages rely on, sequence helpers and orderings.
  The string functions are trim, case folding (`toLowerCase`) for the capitals of ASCII, Latin-1, Latin Extended-A, modern Greek (U+0386 to U+03AB), Cyrillic (U+0400 to U+04FF) and the fullwidth Latin forms, UTF-16 `length`, `includes`, `startsWith`, split, join, `parseInt` and zero padding.

Stateful pages are classes whose fields mirror the component's state.
Their methods state the whole new state.
The computations behind them are functions with lemmas.

## Model

| member | source | states |
|---|---|---|
| Store.HasDescendants | App.tsx:53-59 | false with nobody signed in; otherwise true exactly when some leader's MG code strictly extends the signed-in leader's code |
| Store.AnyStrictDescendant | App.tsx:55-58 | `leaders.some(...)`: true exactly when some position holds a strict descendant code |
| Store.FindLeader | App.tsx:159 | the first leader with the id, absent exactly when no leader has the id |
| Store.ReplaceLeader | App.tsx:109 | same ids in the same order; records with the id become the new record, all others are unchanged |
| Store.ReplaceLeaderNeverInserts | App.tsx:276 | saving a directory leader whose id is not in the list leaves the list as it was (never an insert) |
| Store.FindAfterReplace | App.tsx:276 | after a replacement the id finds the new record exactly when the id was present before |
| Store.RemoveLeader | App.tsx:278 | the id is gone and exactly the leaders with other ids remain |
| Store.AddMember | App.tsx:139-141 | the member is first and the old list follows unchanged |
| Store.UpdateMember | App.tsx:143-145 | same ids; the member with the id is replaced, every other member is unchanged |
| Store.DeleteMember | App.tsx:147-149 | the id is gone and exactly the members with other ids remain |
| Store.AddThenDeleteMember | App.tsx:139-149 | deleting a member just added with a fresh id gives back the old list |
| Store.MapReportsOf | App.tsx:117-119 | group ids unchanged; only groups with the target id have their reports rewritten, other fields kept |
| Store.AddReportSpec | App.tsx:115-121 | the report is first in the target group, that group's older reports follow in order, all other groups are unchanged |
| Store.UpdateReportSpec | App.tsx:123-129 | report ids are kept; only reports with the id in the target group change; other groups are unchanged |
| Store.AddThenDeleteReport | App.tsx:115-137 | deleting a report just added with a fresh id restores the groups |
| Store.AppendGroup | App.tsx:294-295 | the old groups are kept in order and the new group is last |
| Store.ReplaceGroup | App.tsx:296 | same ids; the group with the id is replaced, others unchanged |
| Store.SoftDeleteGroup | App.tsx:301 | group ids and order are kept |
| Store.SoftDeleteSpec | App.tsx:300-303 | every group keeps its reports; exactly the target (and already deleted groups) are marked deleted; the target leaves the live listing |
| Store.SetAllKeys | App.tsx:153-154 | the `Map` keys are the ids in order of first appearance, each key with a value |
| Store.SetAllVals | App.tsx:153-154 | each key holds the last record given for that id |
| Store.FillMap | App.tsx:153-154 | the loop filling the `Map` ends in the state that setting every record in order gives |
| Store.ReadInOrder | App.tsx:155 | the values are read in key order, one per key |
| Store.MergeLeaders | App.tsx:152-155 | the merged list is one record per id in first-appearance order, the last record given for each |
| Store.BulkMergeUpsert | App.tsx:151-165 | with distinct old ids: old records keep their positions and take the last update for their id; unseen ids follow in order of first appearance |
| Store.BulkMergeLastWins | App.tsx:154 | the last record of the update for any id is in the merge |
| Store.AppState.constructor | App.tsx:29-34 | starts with the given leaders and members and nobody signed in |
| Store.AppState.UpdateAllState | App.tsx:107-113 | the signed-in slot holds the new record, the leaders list has it replaced by id, members untouched |
| Store.AppState.HandleAddReport | App.tsx:115-121 | nothing changes with nobody signed in; otherwise the signed-in leader with the report added is written to both places |
| Store.AppState.HandleUpdateReport | App.tsx:123-129 | as above with the report replaced by id in the target group |
| Store.AppState.HandleDeleteReport | App.tsx:131-137 | as above with the reports of that id removed from the target group |
| Store.AppState.HandleSaveGroup | App.tsx:293-299 | the group is appended when creating and replaced by id when editing, and the leader is written back |
| Store.AppState.HandleDeleteGroup | App.tsx:300-304 | the group is soft-deleted and the leader written back |
| Store.AppState.HandleAddMember | App.tsx:139-141 | members become the prepended list; leaders and the signed-in leader are unchanged |
| Store.AppState.HandleUpdateMember | App.tsx:143-145 | members become the list with the member replaced by id; nothing else changes |
| Store.AppState.HandleDeleteMember | App.tsx:147-149 | members become the list without the id; nothing else changes |
| Store.AppState.SaveDirectoryLeader | App.tsx:276 | leaders become the list with the record replaced by id (never inserted) |
| Store.AppState.DeleteDirectoryLeader | App.tsx:278 | leaders become the list without the id |
| Store.AppState.BulkUpdateLeaders | App.tsx:151-165 | leaders become the id-keyed merge; the signed-in leader becomes the first update with its id when there is one |
| Store.LastLeader | App.tsx:153-154 | the leader a map keyed by id keeps for an id is the last one with that id, and there is none exactly when no leader has it |
| Store.FindGroup | components/LeaderDetail.tsx:130 | there is no group exactly when no group has the id, and otherwise a group found has that id |
| Store.AppState.SetOwnGroups | App.tsx:117-120 | the signed-in leader gets the new groups, the same leader is replaced in the directory and the members are untouched |
| Store.AddReport | App.tsx:115-121 | definition: the report put in front of the target group's reports; AddReportSpec and AddThenDeleteReport state its effect |
| Store.UpdateReport | App.tsx:123-129 | definition: the reports with the id replaced in the target group; UpdateReportSpec states its effect |
| Store.DeleteReport | App.tsx:131-137 | definition: the reports with the id removed from the target group; AddThenDeleteReport states it undoes an add |
| Store.BulkMerge | App.tsx:151-165 | definition: one record per id in first-appearance order, holding the last one given; MergeLeaders, BulkMergeUpsert and BulkMergeLastWins state this |
| LeaderManagement.FilteredLeadersSpec | components/LeaderManagement.tsx:69-76 | exactly the leaders whose six-field search text contains the query (case-insensitive), as often as in the directory, in MG-code order, equal codes in directory order |
| LeaderManagement.EmptySearchListsAll | components/LeaderManagement.tsx:69-76 | an empty search lists the whole directory |
| LeaderManagement.WithRoleToggled | components/LeaderManagement.tsx:281-296 | one role flips: a held role is removed and the other roles keep their order, a new role is appended; without '小組長' afterwards the MG code, generation and ordination date are cleared, otherwise kept; nothing else changes |
| LeaderManagement.ToggleRoleTwice | components/LeaderManagement.tsx:281-296 | toggling twice restores role membership, and the whole record when the cell-leader role is kept throughout |
| LeaderManagement.CellLeaderToggleLosesFields | components/LeaderManagement.tsx:288-295 | toggling '小組長' off and on leaves the leadership fields cleared |
| LeaderManagement.WithParent | components/LeaderManagement.tsx:303-319 | empty id: root at generation 1; a known id: linked below that parent with its tribe and generation + 1; an unknown id: no change; only hierarchy fields change |
| LeaderManagement.WithParentIdempotent | components/LeaderManagement.tsx:303-319 | choosing the same parent twice equals choosing it once |
| LeaderManagement.WithStatus | components/LeaderManagement.tsx:321-343 | status becomes the target; a record (old status, target, reason, actor) is prepended to the unchanged older history; nothing else changes |
| LeaderManagement.StatusUpdateKeepsChain | components/LeaderManagement.tsx:324-338 | a history that chains old/new statuses keeps chaining after a status change |
| LeaderManagement.Transferred | components/LeaderManagement.tsx:393-420 | linked below the found parent, or a root whose tribe is its own MG code; the record (from, to, 'Root' when none, reason) is prepended; nothing else changes |
| LeaderManagement.TransferKeepsChain | components/LeaderManagement.tsx:398-418 | a transfer history that chains from/to parents keeps chaining after a transfer |
| LeaderManagement.TransferSavesOnlyMoved | components/LeaderManagement.tsx:420 | saving the moved leader leaves every other leader, its children included, unchanged |
| LeaderManagement.NewLeader | components/LeaderManagement.tsx:358-379 | a new draft is active, generation 1, no roles, not admin, no email and empty lists |
| LeaderManagement.NewLeaderDraft | components/LeaderManagement.tsx:381-386 | a fresh draft cannot be saved, and its `l-` id never unlocks the parent selector (line 916) |
| LeaderManagement.NewestFirstPreorder | components/LeaderManagement.tsx:278 | the newest-date-first comparison is a total preorder |
| LeaderManagement.TimelineLength | components/LeaderManagement.tsx:214-279 | one event per ordination (when set), transfer, status change and follow-up, and nothing else |
| LeaderManagement.TimelineOrder | components/LeaderManagement.tsx:278 | events run newest date first; events with equal dates keep their gathering order |
| LeaderManagement.LeaderEditor.constructor | components/LeaderManagement.tsx:46-65 | no draft, form closed, no pending status change or transfer, empty reasons |
| LeaderManagement.LeaderEditor.Edit | components/LeaderManagement.tsx:353-356 | the leader becomes the draft and the form opens; the dialogs are untouched |
| LeaderManagement.LeaderEditor.AddNew | components/LeaderManagement.tsx:358-379 | the new-leader draft is opened |
| LeaderManagement.LeaderEditor.ToggleRole | components/LeaderManagement.tsx:281-296 | no draft: nothing; otherwise the draft gets the role toggled |
| LeaderManagement.LeaderEditor.ChangeParent | components/LeaderManagement.tsx:303-319 | no draft: nothing; otherwise the draft gets the parent choice applied |
| LeaderManagement.LeaderEditor.RequestStatus | components/LeaderManagement.tsx:881-887 | a confirmation is requested only when the draft's status differs from the target |
| LeaderManagement.LeaderEditor.SetStatusReason | components/LeaderManagement.tsx:634 | the reason input holds the typed text |
| LeaderManagement.LeaderEditor.ConfirmStatus | components/LeaderManagement.tsx:639-640 | a blank reason or a missing request or draft changes nothing; otherwise the status change is applied and the request and reason cleared |
| LeaderManagement.LeaderEditor.OpenTransfer | components/LeaderManagement.tsx:906 | the transfer dialog opens for the leader being edited |
| LeaderManagement.LeaderEditor.SetTransfer | components/LeaderManagement.tsx:691-708 | the dialog holds the chosen parent id and reason |
| LeaderManagement.LeaderEditor.ConfirmTransfer | components/LeaderManagement.tsx:393-429 | a blank reason changes nothing; otherwise the moved leader is saved, replaces the draft only when it is the same leader, and the dialog resets |
| LeaderManagement.LeaderEditor.Save | components/LeaderManagement.tsx:381-391 | refused (nothing changes) without an email or first name; otherwise the draft is handed to the save and the form closes |
| LeaderManagement.FilteredLeaders | components/LeaderManagement.tsx:69-76 | definition: the leaders matching the query, stably sorted by MG code; FilteredLeadersSpec states membership, permutation and order |
| LeaderManagement.Timeline | components/LeaderManagement.tsx:214-279 | definition: the ordination, transfer, status and follow-up events, newest first; TimelineLength and TimelineOrder state its size and order |
| LeaderManagement.CanSave | components/LeaderManagement.tsx:383 | definition: a leader can be saved exactly when the email is non-empty and the first name is truthy; NewLeaderDraft states that a fresh draft cannot be saved |
| LeaderManagement.ParentSelectable | components/LeaderManagement.tsx:916 | definition: the parent selector is enabled exactly for an id that starts with "new-"; NewLeaderDraft states that a fresh draft never enables it |
| LeaderManagement.StatusRecord | components/LeaderManagement.tsx:323-331 | definition: the record "sc-" and the stamp, the old and the new status, today's date, the actor's display name and id, and the reason; WithStatus states that it heads the new history |
| LeaderManagement.TransferRecord | components/LeaderManagement.tsx:396-410 | definition: "tr-" and the stamp, the leader's old parent id and name, the found parent's id and name, or no id and "Root" when no leader has the chosen id, today's date, the actor and the reason; Transferred states that it heads the new transfer history |
| LeaderManagement.Events | components/LeaderManagement.tsx:214-277 | definition: the ordination event when the ordination date is truthy, then one event per transfer, status change and follow-up, each in stored order; TimelineLength and TimelineOrder state that the timeline is these events sorted newest first |
| LeaderCsv.ExportRow | components/LeaderManagement.tsx:86-100 | one value per header column |
| LeaderCsv.QuoteAll | components/LeaderManagement.tsx:104 | every value wrapped in double quotes, in order |
| LeaderCsv.LeaderLines | components/LeaderManagement.tsx:102-105 | one line per leader, in list order, each the quoted row joined by commas |
| LeaderCsv.DropQuoteChars | components/LeaderManagement.tsx:151 | the result holds no double quote |
| LeaderCsv.ParseHeaders | components/LeaderManagement.tsx:151 | a header line always yields at least one header |
| LeaderCsv.Scan | components/LeaderManagement.tsx:160 | every match of the CSV value pattern, a quoted run or a run of non-commas, is non-empty |
| LeaderCsv.StripQuotes | components/LeaderManagement.tsx:160 | stripping the edge quotes never lengthens a value |
| LeaderCsv.ParseValues | components/LeaderManagement.tsx:160 | one value per match |
| LeaderCsv.RowOf | components/LeaderManagement.tsx:164-167 | the row has exactly the header names as keys |
| LeaderCsv.FindExisting | components/LeaderManagement.tsx:175 | a match is a directory leader with the email, or a non-empty equal member id; none means no leader matches either way |
| LeaderCsv.ParseRoles | components/LeaderManagement.tsx:190 | every role read is non-empty and free of ';' |
| LeaderCsv.BuildLeader | components/LeaderManagement.tsx:180-202 | email from the row, generation never 0; a matched leader's groups and histories are kept, a new one's are empty; admin flag, parent id, gender and profile are not carried over |
| LeaderCsv.ImportCounts | components/LeaderManagement.tsx:177-178 | new + updated equals the number of imported rows; no row is both imported and an error |
| LeaderCsv.Outcomes | components/LeaderManagement.tsx:157-204 | one outcome per data line |
| LeaderCsv.ImportCsv | components/LeaderManagement.tsx:143-207 | aborts exactly when fewer than two non-blank lines remain; otherwise the summary is the outcomes' imported rows, errors and counts, with new + updated = imported |
| LeaderCsv.ImportRows | components/LeaderManagement.tsx:157-204 | the loop's lists and counters equal the tallies of the per-line outcomes |
| LeaderCsv.ImportedRowsWellFormed | components/LeaderManagement.tsx:169-193 | an imported row has an email, a first name and a non-zero generation |
| LeaderCsv.GenerationZeroReadAsOne | components/LeaderManagement.tsx:193 | an exported generation 0 is read back as generation 1, because parseInt of "0" is falsy and the default 1 applies |
| LeaderCsv.MatchedRowKeepsIdentity | components/LeaderManagement.tsx:180-202 | a matched row keeps id, person id, password, groups and the three histories, and drops the fields outside the columns |
| LeaderCsvRoundTrip.ScanLine | components/LeaderManagement.tsx:160 | the value pattern finds exactly the quoted values of an exported line |
| LeaderCsvRoundTrip.ParseLine | components/LeaderManagement.tsx:160 | an exported line parses back to its values, trimmed |
| LeaderCsvRoundTrip.ParseLeaderLine | components/LeaderManagement.tsx:104 | an exportable leader's line parses back to its exported row |
| LeaderCsvRoundTrip.ParseNamesLine | components/LeaderManagement.tsx:151 | a header line of plain names behind the byte-order mark gives the names back |
| LeaderCsvRoundTrip.ParseHeaderLine | components/LeaderManagement.tsx:151 | the exported header line behind its byte-order mark gives the 13 headers back |
| LeaderCsvRoundTrip.FileLines | components/LeaderManagement.tsx:102-107 | the exported file is the header line followed by one line per leader |
| LeaderCsvRoundTrip.ImportLinesOf | components/LeaderManagement.tsx:144 | lines without line breaks that are not blank are exactly what the importer's split returns |
| LeaderCsvRoundTrip.ImportLinesOfExport | components/LeaderManagement.tsx:144 | the importer's line list of an exported file is the list of lines the export wrote |
| LeaderCsvRoundTrip.RowOfDistinct | components/LeaderManagement.tsx:165-167 | with distinct headers each header names its own value |
| LeaderCsvRoundTrip.ExportedRow | components/LeaderManagement.tsx:86-100 | the row built from a leader's exported values holds each column |
| LeaderCsvRoundTrip.GenerationRoundTrip | components/LeaderManagement.tsx:193 | a printed non-negative generation reads back as itself, 0 as 1 |
| LeaderCsvRoundTrip.RolesRoundTrip | components/LeaderManagement.tsx:190 | non-empty roles without ';' survive the join and the split |
| LeaderCsvRoundTrip.BuildRestores | components/LeaderManagement.tsx:180-202 | a leader rebuilt from its exported row restores every exported column |
| LeaderCsvRoundTrip.ExportedLineOutcome | components/LeaderManagement.tsx:175-203 | a directory leader's exported line is re-imported as an update restoring every column |
| LeaderCsvRoundTrip.AllReimportedCounts | components/LeaderManagement.tsx:177-178 | when every line is such an update: no new rows, all updated, no errors |
| LeaderCsvRoundTrip.TextOutcomesOfExport | components/LeaderManagement.tsx:143-157 | the import reads an exported file as the leader lines against the 13 headers |
| LeaderCsvRoundTrip.ReimportedAt | components/LeaderManagement.tsx:157-204 | line k of the export comes back as leader k |
| LeaderCsvRoundTrip.ExportImportRoundTrip | components/LeaderManagement.tsx:79-207 | importing the directory's own export against it: one outcome per leader, each an update restoring every exported column, zero new, zero errors |
| LeaderCsv.ExportCsv | components/LeaderManagement.tsx:80-105 | definition: the header line and one quoted line per leader, joined by newlines; ExportImportRoundTrip states the import reads it back |
| LeaderCsv.Outcome | components/LeaderManagement.tsx:175-202 | definition: what the import does with one data line (skip, reject with a message, or import as new or matched); Outcomes and ImportRows state the loop over all lines |
| LeaderCsv.Quote | components/LeaderManagement.tsx:104 | definition: the value between two double quotes, with quotes inside it left as they are; the LeaderCsvRoundTrip lemmas read it back when the value holds no quote |
| LeaderCsv.CsvLine | components/LeaderManagement.tsx:104 | definition: each value quoted, joined by commas; LeaderCsvRoundTrip.ScanLine, LeaderCsvRoundTrip.ParseLine and LeaderCsvRoundTrip.ParseLeaderLine state that the importer reads the values back |
| LeaderCsv.SplitLines | components/LeaderManagement.tsx:144 | definition: `split(/\r?\n/)`, the parts between line feeds with a carriage return right before a line feed dropped; LeaderCsvRoundTrip.ImportLinesOf states that it gives back the lines of a joined text |
| Domain.LiveGroups | components/LeaderDetail.tsx:71 | exactly the groups not soft-deleted |
| Domain.GroupReports | components/AdminDashboard.tsx:75 | exactly the reports of the given groups |
| LeaderDetail.AvailableCategories | components/LeaderDetail.tsx:74-82 | no duplicates; disciple cell and relationship exactly for '小組長' or '族長'; open and pre cell also for '關懷小組長'; none without a leader |
| LeaderDetail.QuickGroup | components/LeaderDetail.tsx:148-171 | id `q-<category>-<stamp>`, name "<mgCode> - <label>", the leader's tribe, the chosen category, no reports, not deleted |
| LeaderDetail.AsMembers | components/LeaderDetail.tsx:86 | every member as a plain (non-leader) entry, in order |
| LeaderDetail.EffectiveMembersSpec | components/LeaderDetail.tsx:84-112 | no live selected group: every member; otherwise exactly the group's members as plain entries, plus, for a disciple cell only, one leader entry per direct disciple with '小組長' or '同工' whose id is not a member's |
| LeaderDetail.AsMembersHas | components/LeaderDetail.tsx:86 | the plain entries are exactly the members and none is a leader |
| LeaderDetail.ExtraLeadersSpec | components/LeaderDetail.tsx:91-108 | the added entries are leaders with non-member ids, one for each qualifying disciple |
| LeaderDetail.Tagged | components/LeaderDetail.tsx:116 | each report of the group tagged with the group's id and category, in order |
| LeaderDetail.AllTaggedSpec | components/LeaderDetail.tsx:116 | the 'all' tab holds every report of every group once, each tagged with a listed group |
| LeaderDetail.ListedNewestFirstPreorder | components/LeaderDetail.tsx:119 | newest-date-first is a total preorder |
| LeaderDetail.DisplayedReportsSpec | components/LeaderDetail.tsx:114-120 | the tab's reports (all live groups, or the tab's group) newest date first, equal dates in stored order |
| LeaderDetail.AllTabShowsLiveGroups | components/LeaderDetail.tsx:71-116 | the 'all' tab lists every live group's reports and only those |
| LeaderDetail.CheckedTab | components/LeaderDetail.tsx:122-126 | a tab is kept or reset to 'all', and the result is 'all' or a live group |
| LeaderDetail.ReportNewestFirstPreorder | components/LeaderDetail.tsx:132 | newest-date-first on reports is a total preorder |
| LeaderDetail.LatestReportSpec | components/LeaderDetail.tsx:132-133 | none exactly for no reports; otherwise a report no other report is dated after, and of several reports on that date the first one stored, because the sort is stable |
| LeaderDetail.FirstStoredOfLatest | components/LeaderDetail.tsx:132-133 | the report the stable newest-first sort puts first is stored before every other report of its date |
| LeaderDetail.SuggestionIsIntervalAfterLatest | components/LeaderDetail.tsx:134-139 | the suggested date reads back as the day 7 (weekly) or 14 days after the latest gathering, and the suggested time is that gathering's time when it has one, else the group's |
| LeaderDetail.AddDaysForward | components/LeaderDetail.tsx:137 | moving forward never lands in an earlier year |
| LeaderDetail.SuggestionWithoutReports | components/LeaderDetail.tsx:140-143 | a group with no report suggests today at the group's time |
| LeaderDetail.NotesRoundTrip | components/LeaderDetail.tsx:191-207 | an empty note is stored as '-' and '-' loads back as empty; other notes are unchanged both ways |
| LeaderDetail.ReportOf | components/LeaderDetail.tsx:200-210 | the saved report takes the group's category at save time, no new visitors, a non-empty note and the count read as a number or 0 |
| LeaderDetail.EditSaveRoundTrip | components/LeaderDetail.tsx:184-213 | a report loaded into the form and saved unchanged comes back, except for the group's current category and zero new visitors |
| LeaderDetail.TrackedCountSaved | components/LeaderDetail.tsx:217-222 | the count written after check-in is saved as members + guests + 1 |
| LeaderDetail.CountSaved | components/LeaderDetail.tsx:204 | a positive count typed into the form is saved as that number |
| LeaderDetail.ReportForm.constructor | components/LeaderDetail.tsx:57-67 | a closed, empty form |
| LeaderDetail.ReportForm.Open | components/LeaderDetail.tsx:173-182 | opens for the group with no edited report and emptied count, notes, ids and guests; date and time kept |
| LeaderDetail.ReportForm.Suggest | components/LeaderDetail.tsx:128-146 | while a new report is open for a live group the date and time take the suggestion; otherwise unchanged |
| LeaderDetail.ReportForm.EditReport | components/LeaderDetail.tsx:184-195 | without edit rights nothing changes; otherwise the form holds the report's fields, time '19:30' when absent, the note as loaded |
| LeaderDetail.ReportForm.TrackComplete | components/LeaderDetail.tsx:217-222 | ids and guests taken; the count reads as members + guests + 1 |
| LeaderDetail.ReportForm.Save | components/LeaderDetail.tsx:197-215 | no live group: nothing; otherwise an update of the edited id or an add of the built report, and the form closes |
| LeaderDetail.EffectiveMembers | components/LeaderDetail.tsx:84-112 | definition: every member when no live group is selected, else the group's members, followed for a disciple cell by its disciples who are not already members; EffectiveMembersSpec and ExtraLeadersSpec state who appears |
| LeaderDetail.DisplayedReports | components/LeaderDetail.tsx:114-126 | definition: the tab's tagged reports, newest first; DisplayedReportsSpec states its contents and order |
| LeaderDetail.SuggestedDateTime | components/LeaderDetail.tsx:128-146 | definition: the next date and time of a gathering; SuggestionIsIntervalAfterLatest and SuggestionWithoutReports state both cases |
| LeaderDetail.Interval | components/LeaderDetail.tsx:137 | definition: 7 days for a weekly group and 14 for any other frequency; SuggestionIsIntervalAfterLatest states that the suggested date lies that many days after the latest report |
| Domain.InLineage | components/AdminDashboard.tsx:48 | definition: the MG code starts with the ancestor's code, the ancestor itself included; SelfInLineage, TribeLineage and ScopeLeaders state the selections built on it |
| Domain.IsTribeRoot | components/LineagePhotoView.tsx:21 | definition: the MG code has exactly two characters, which also makes it non-empty as the `l.mgCode &&` test asks; RootLeadersSpec states the roots listed |
| Domain.IsLeadingRole | components/PastoralEvaluation.tsx:49 | definition: the leader holds the role '小組長' or '族長'; ReportingStatus.Candidate and PastoralEvaluation.Evaluated select by it |
| AttendanceTracker.FilteredMembers | components/AttendanceTracker.tsx:35-40 | exactly the members whose Chinese name, or non-empty English name, contains the query ignoring case |
| AttendanceTracker.EmptySearchShowsAll | components/AttendanceTracker.tsx:35-40 | an empty search hides nobody |
| AttendanceTracker.SelectAllSpec | components/AttendanceTracker.tsx:48-51 | select-all holds exactly the checked and the visible ids, none twice |
| AttendanceTracker.SelectAllIdempotent | components/AttendanceTracker.tsx:48-51 | selecting all twice equals selecting all once |
| AttendanceTracker.DeselectAllSpec | components/AttendanceTracker.tsx:53-56 | exactly the visible ids are unchecked, the others keep their order |
| AttendanceTracker.QuickMember | components/AttendanceTracker.tsx:62-69 | the trimmed name, the trimmed phone or 'N/A', active, in this group only |
| AttendanceTracker.Tracker.constructor | components/AttendanceTracker.tsx:25-33 | starts from the given ids and guests with empty inputs |
| AttendanceTracker.Tracker.SetSearch | components/AttendanceTracker.tsx:25 | the query holds the typed text |
| AttendanceTracker.Tracker.ToggleMember | components/AttendanceTracker.tsx:42-46 | the id is added when absent, every copy removed when present |
| AttendanceTracker.Tracker.SelectAll | components/AttendanceTracker.tsx:48-51 | the checked ids become the duplicate-free union with the visible ids |
| AttendanceTracker.Tracker.DeselectAll | components/AttendanceTracker.tsx:53-56 | the visible ids are removed from the checked ids |
| AttendanceTracker.Tracker.SetNewMember | components/AttendanceTracker.tsx:31-33 | the quick-add inputs hold the typed name and phone and the form is open |
| AttendanceTracker.Tracker.QuickAddMember | components/AttendanceTracker.tsx:58-78 | a blank trimmed name (or no creation callback) changes nothing; otherwise the member is handed on, its id appended to the checked ids, and the inputs reset |
| AttendanceTracker.Tracker.SetNewGuestName | components/AttendanceTracker.tsx:28 | the guest input holds the typed name |
| AttendanceTracker.Tracker.AddGuest | components/AttendanceTracker.tsx:80-85 | a blank name is ignored; otherwise a guest with the trimmed name is appended and the input cleared |
| AttendanceTracker.Tracker.RemoveGuest | components/AttendanceTracker.tsx:87-89 | exactly the guests with other ids remain |
| AttendanceTracker.Tracker.Done | components/AttendanceTracker.tsx:104-108 | hands back the checked ids and guests; their counts plus one is the shown count |
| Seqs.Filter | components/AttendanceTracker.tsx:36-39 | never longer; keeps exactly the elements that pass |
| Seqs.FilterAll | components/AttendanceTracker.tsx:36-39 | a filter every element passes keeps the list |
| Seqs.Without | components/AttendanceTracker.tsx:44 | the value is gone and every other value stays |
| Seqs.Toggled | components/AttendanceTracker.tsx:42-46 | the value's membership flips and every other value's is unchanged |
| Seqs.ToggledTwice | components/AttendanceTracker.tsx:42-46 | toggling twice restores membership |
| Seqs.WithoutDistinct | components/AttendanceTracker.tsx:44 | removing a present value from a list without repeats shortens it by one |
| Seqs.ToggleCount | components/AttendanceTracker.tsx:42-46 | toggling a list without repeats keeps it so and changes its length by one |
| Seqs.RemoveAll | components/AttendanceTracker.tsx:54-55 | keeps exactly the values not dropped |
| Seqs.RemoveAllAppend | components/AttendanceTracker.tsx:55 | removal keeps the relative order of what stays |
| Seqs.AppendNew | components/AttendanceTracker.tsx:50 | holds exactly the old and the new values, the old ones first and unchanged |
| Seqs.AppendNewNoDup | components/AttendanceTracker.tsx:50 | a duplicate-free start stays duplicate-free |
| Seqs.AppendNewPresent | components/AttendanceTracker.tsx:50 | adding values already present changes nothing |
| Seqs.AppendNewStep | components/AttendanceTracker.tsx:50 | adding the values from position i on is adding the value at i, when new, and then the rest |
| Seqs.DedupOf | components/AttendanceTracker.tsx:50 | one pass that keeps each value the first time it is met yields the values of the list in first-occurrence order without repeats (Dedup) |
| Seqs.ReplaceByKey | App.tsx:126 | same length; exactly the elements with the key are replaced |
| Seqs.RemoveByKey | App.tsx:134 | keeps exactly the elements with other keys |
| Seqs.RemoveByKeyAbsent | App.tsx:134 | removing a key no element carries changes nothing |
| Seqs.Insert | components/LeaderManagement.tsx:75 | the element is added to the multiset |
| Seqs.SortBy | components/LeaderManagement.tsx:75 | a permutation of the input |
| Seqs.SortBySorted | components/LeaderManagement.tsx:75 | under a total preorder the result is sorted |
| Seqs.SortByMembers | components/LeaderManagement.tsx:75 | same length and same elements as the input |
| Seqs.SortByStable | components/PastoralEvaluation.tsx:59-65 | elements that tie keep their input order (as `Array.prototype.sort` is stable) |
| Seqs.Bump | components/TribeStatistics.tsx:38-39 | one more occurrence of a key: the key's count goes up by one, other counts unchanged |
| Seqs.MapSumBump | components/TribeStatistics.tsx:38-39 | one bump adds one to the total of the counts |
| AttendanceTracker.SelectAllIds | components/AttendanceTracker.tsx:48-51 | definition: the checked ids followed by the visible ones not yet checked; SelectAllSpec and SelectAllIdempotent state it |
| AdminDashboard.NewYearKey | components/AdminDashboard.tsx:78 | the bucket key takes the calendar year of the date and the ISO week of its week: 1 January 2021 falls in bucket 2021-W53 |
| AdminDashboard.KeyJoinsTwoWeeks | components/AdminDashboard.tsx:78 | 1 January 2022 and 28 December 2022 lie in different weeks yet share bucket 2022-W52 |
| AdminDashboard.SameWeekSameBucket | components/AdminDashboard.tsx:23-38 | from the year 100 on, the seven days from a Monday that stay in its calendar year share one bucket key and one week range |
| AdminDashboard.EarlyYearSplitsWeek | components/AdminDashboard.tsx:23-29 | in years 0 to 99 the week is counted on the date 1900 years later: 0001-01-01 and 0001-01-07 are the Monday and Sunday of one week yet get the keys "1-W01" and "1-W02" |
| AdminDashboard.YearOneWeekMonday | components/AdminDashboard.tsx:33-34 | the Monday of the week of 0001-01-07 is 0001-01-01 |
| AdminDashboard.FirstOfYearOneKey | components/AdminDashboard.tsx:78 | 0001-01-01 falls in bucket "1-W01" |
| AdminDashboard.SeventhOfYearOneKey | components/AdminDashboard.tsx:78 | 0001-01-07 falls in bucket "1-W02" |
| AdminDashboard.FirstOfYearOneWeek | components/AdminDashboard.tsx:23-29 | 0001-01-01 is counted as 1901-01-01, a Tuesday of week 1 |
| AdminDashboard.SeventhOfYearOneWeek | components/AdminDashboard.tsx:23-29 | 0001-01-07 is counted as 1901-01-07, the Monday of week 2 |
| AdminDashboard.Year100Week | components/AdminDashboard.tsx:23-29 | 0100-01-01 is a Friday whose Thursday lies in the year 99, whose 1 January `Date.UTC` puts in 1999, so its week number is -99085 |
| AdminDashboard.ZeroPad | components/AdminDashboard.tsx:36 | the number's decimal digits at the end, preceded by exactly as many zeros as the width still asks for |
| AdminDashboard.YearTenThousand | components/AdminDashboard.tsx:36 | the year 10000 is written "+010000", a sign and six digits, as `toISOString` writes it |
| AdminDashboard.YearMinusOne | components/AdminDashboard.tsx:36 | the year -1 is written "-000001" |
| AdminDashboard.WeekRangeSpan | components/AdminDashboard.tsx:31-38 | the week range starts on the Monday on or before the date and ends six days later on a Sunday, and the date lies between them |
| AdminDashboard.DayTextIsIso | components/AdminDashboard.tsx:37 | each end of the range is the ISO yyyy-mm-dd text of the day, which reads back as that day |
| AdminDashboard.ScopeLeaders | components/AdminDashboard.tsx:46-51 | church scope keeps every leader; lineage scope keeps exactly the leaders whose code starts with the user's code |
| AdminDashboard.NetworkLeaders | components/AdminDashboard.tsx:54-57 | church scope keeps every leader; lineage scope keeps exactly the leaders whose code strictly extends the user's code |
| AdminDashboard.LineageScopes | components/AdminDashboard.tsx:46-57 | the user is inside their own lineage scope for the rollup but outside it for the leadership network |
| AdminDashboard.ScopeReports | components/AdminDashboard.tsx:74-76 | a report is walked exactly when it belongs to a group that is not deleted of a leader in scope |
| AdminDashboard.ReadAllSpec | components/AdminDashboard.tsx:76-78 | reading the report dates fails exactly when some date is unreadable, and otherwise yields one reading per report, in order |
| AdminDashboard.Rollup | components/AdminDashboard.tsx:72-99 | the rollup's list of keys and its map of buckets hold the same keys |
| AdminDashboard.RollupSpec | components/AdminDashboard.tsx:72-99 | there is a bucket for exactly the keys that occur, keys are listed once each, and each bucket holds the week range of the first report with its key and counts that key's gatherings and attendance, split into open cells and the rest |
| AdminDashboard.FirstRangeIsFirst | components/AdminDashboard.tsx:79-81 | the range kept for a key is the week range of the first reading with that key, so when two weeks share a key the earlier reading's week is shown |
| AdminDashboard.BucketValues | components/AdminDashboard.tsx:100 | the values are the buckets in key order, one per key |
| AdminDashboard.NewestWeekFirstPreorder | components/AdminDashboard.tsx:100 | comparing week keys in reverse is a total preorder, so sorting by it is well defined |
| AdminDashboard.WeeklyListTallies | components/AdminDashboard.tsx:79-96 | every listed week occurs among the reports, shows the range of the first report with its key, and tallies exactly that key's reports |
| AdminDashboard.WeeklyListComplete | components/AdminDashboard.tsx:72-101 | every week key that occurs among the reports is listed |
| AdminDashboard.WeeklyListOrder | components/AdminDashboard.tsx:100 | the list runs from the newest week key to the oldest |
| AdminDashboard.CollectBuckets | components/AdminDashboard.tsx:73-99 | the loop over the reports fails exactly when some date cannot be read and otherwise builds the rollup of all readings |
| AdminDashboard.AllWeeklyStats | components/AdminDashboard.tsx:72-101 | the method yields the weekly list of the reports |
| AdminDashboard.Displayed | components/AdminDashboard.tsx:103-106 | the window is a prefix of the weekly list, 12, 26 or 52 weeks long or the whole list, and never longer than the list |
| AdminDashboard.DisplayedNewest | components/AdminDashboard.tsx:103-106 | on a newest-first list every shown week is at least as new as every hidden one, and a narrower window is a prefix of a wider one |
| AdminDashboard.Bump | components/AdminDashboard.tsx:59-62 | counting one more leader keeps the histogram non-empty and its first generation is the new one or the old first |
| AdminDashboard.BumpSpec | components/AdminDashboard.tsx:59-67 | on an ascending histogram of positive counts one more leader of a generation keeps it ascending and positive, adds one to the total and one to that generation's count only |
| AdminDashboard.HistogramSpec | components/AdminDashboard.tsx:59-68 | the histogram lists each generation once in ascending order with a positive count equal to the number of leaders of that generation, and the counts sum to the number of leaders |
| AdminDashboard.LeadershipNetwork | components/AdminDashboard.tsx:54-69 | the loop yields the number of network leaders and their generation histogram |
| AdminDashboard.BucketKey | components/AdminDashboard.tsx:78 | definition: the date's own calendar year, "-W" and the week number `getISOWeek` computes, padded to two digits; NewYearKey and KeyJoinsTwoWeeks state what that gives at the turn of the year, EarlyYearSplitsWeek and Year100Week what it gives in and next to years 0 to 99 |
| AdminDashboard.WeekText | components/AdminDashboard.tsx:78 | definition: `toString().padStart(2, '0')` of the week number, so a negative number keeps its sign and is not padded |
| AdminDashboard.ReadingOf | components/AdminDashboard.tsx:76-81 | definition: a report with a readable date paired with its key and week range, nothing for an unreadable date; ReadAllSpec states the whole reading |
| AdminDashboard.IsoYear | components/AdminDashboard.tsx:36 | definition: four digits for years 0 to 9999, else a sign and six digits; YearTenThousand and YearMinusOne state both outer cases |
| AdminDashboard.DayText | components/AdminDashboard.tsx:36 | definition: the day as `toISOString` writes its date part; DayTextIsIso states it is the ISO date text |
| AdminDashboard.WeekRange | components/AdminDashboard.tsx:31-38 | definition: the Monday of the week, " to ", the Sunday; WeekRangeSpan and SameWeekSameBucket state its days |
| AdminDashboard.WeeklyList | components/AdminDashboard.tsx:72-100 | definition: the rollup's buckets sorted newest key first; WeeklyListTallies, WeeklyListComplete and WeeklyListOrder state its contents and order |
| AdminDashboard.WeeklyStats | components/AdminDashboard.tsx:72-101 | definition: `allWeeklyStats`, nothing when some report date cannot be read, otherwise the weekly list of the readings; WeeklyListTallies, WeeklyListComplete and WeeklyListOrder state its contents and order, and AllWeeklyStats computes it with the loop |
| AdminDashboard.ScopeWeeklyStats | components/AdminDashboard.tsx:46-101 | definition: the weekly statistics of the reports of the groups that are not deleted of the leaders in the chosen scope; ScopeLeaders and ScopeReports state which reports those are |
| Dates.DaysInMonth | components/AdminDashboard.tsx:24 | every month of the Gregorian calendar has 28 to 31 days |
| Dates.DaysBeforeMonth | components/AdminDashboard.tsx:27-28 | the days of a year before a month's first day number 0 to 335 |
| Dates.DayOfYear | components/AdminDashboard.tsx:27-28 | the ordinal of a valid date within its year lies in 1 to 366 |
| Dates.NextDay | components/LeaderDetail.tsx:137 | the day after a valid date is a valid date |
| Dates.PrevDay | components/ReportingStatus.tsx:32 | the day before a valid date is a valid date |
| Dates.NextPrevInverse | components/LeaderDetail.tsx:137 | stepping a day forward and a day back, in either order, returns the same date |
| Dates.YearLength | components/AdminDashboard.tsx:27-28 | a year has 366 days when it is a leap year and 365 otherwise |
| Dates.NextDayNumber | components/LeaderDetail.tsx:137 | the day after a date has the next day number |
| Dates.AddDays | components/LeaderDetail.tsx:137 | moving a valid date by any number of days gives a valid date |
| Dates.AddDaysNumber | components/LeaderDetail.tsx:137 | moving a date by k days adds exactly k to its day number, as `setDate(getDate() + k)` does with its overflow into the next month or year |
| Dates.AddDaysNext | components/LeaderDetail.tsx:137 | moving the next day by j days is moving the date by j + 1 days |
| Dates.AddDaysPrev | components/ReportingStatus.tsx:32 | moving the previous day by j days is moving the date by j - 1 days |
| Dates.AddDaysAdd | components/AdminDashboard.tsx:33-36 | two moves compose into one move by the sum of the offsets |
| Dates.IsoWeekday | components/AdminDashboard.tsx:25 | the weekday, with Sunday read as 7, lies in 1 to 7 |
| Dates.WeekThursday | components/AdminDashboard.tsx:26 | the Thursday of a date's week is a valid date |
| Dates.WeekMonday | components/AdminDashboard.tsx:33-34 | the Monday of a date's week is a valid date |
| Dates.IsoWeekRange | components/AdminDashboard.tsx:23-29 | the ISO week number lies in 1 to 53 |
| Dates.UtcYear | components/AdminDashboard.tsx:24 | definition: the year `Date.UTC` builds, 1900 to 1999 for the years 0 to 99 and the year itself otherwise |
| Dates.UtcDay | components/AdminDashboard.tsx:24 | the day `Date.UTC(getFullYear(), getMonth(), getDate())` builds is a valid date; it is defined as the day of the month counted from the first of that month 1900 years later in years 0 to 99, and as the date itself otherwise, and EarlyYearUtcWeek states the day it gives |
| Dates.WeekOfThursday | components/AdminDashboard.tsx:27-28 | definition: the days from 1 January of the Thursday's year, as `Date.UTC` builds that year, plus 7, divided by 7 and rounded down, which is the code's ceiling of (days + 1) / 7 |
| Dates.UtcWeek | components/AdminDashboard.tsx:23-29 | definition: `getISOWeek`, the week of the Thursday of the day `Date.UTC` builds; UtcWeekIsIsoWeek, EarlyYearUtcWeek and Year100Week state its values |
| Dates.WeekOfThursdayIso | components/AdminDashboard.tsx:27-28 | outside years 0 to 99 the count from 1 January is the Thursday's day of the year, so the week is the ceiling of that day over 7 |
| Dates.UtcWeekIsIsoWeek | components/AdminDashboard.tsx:23-29 | when neither the date nor its Thursday lies in years 0 to 99, the dashboard's week is the ISO 8601 week number |
| Dates.EarlyYearUtcWeek | components/AdminDashboard.tsx:23-29 | in years 0 to 99 the dashboard's week is the ISO 8601 week of the same day 1900 years later |
| Dates.ThursdayYear | components/AdminDashboard.tsx:26 | the Thursday of a date's week lies at most three years before the date's year, as it is at most three days back |
| Dates.AddDaysInMonth | components/AdminDashboard.tsx:26 | a move that stays inside the month changes only the day of the month, by the offset |
| Dates.AddDaysYearMono | components/AdminDashboard.tsx:26 | moving a date forward never lowers its year |
| Dates.AddDaysYearBack | components/AdminDashboard.tsx:26 | moving a date back k days lowers its year by at most k |
| Dates.WeekdayAfter | components/AdminDashboard.tsx:25 | moving a date by k days moves its weekday by k modulo 7 |
| Dates.MondayIsMonday | components/AdminDashboard.tsx:33-34 | the Monday of a date's week falls on weekday 1 |
| Dates.SameWeek | components/AdminDashboard.tsx:23-34 | the seven days from a Monday share their Thursday, their Monday and their ISO week number |
| Dates.ParseDate | components/AdminDashboard.tsx:77 | a date string that reads at all reads as a valid date with a four-digit year |
| Dates.Pad2Value | components/AdminDashboard.tsx:78 | a number below 100 padded to two characters is two digits that read back as the number |
| Dates.Pad4Value | components/AdminDashboard.tsx:37 | a number below 10000 padded to four characters is four digits that read back as the number |
| Dates.IsoDateRoundTrip | components/AdminDashboard.tsx:37 | a valid date written as yyyy-mm-dd reads back as the same date |
| Dates.FormatYmdIsIso | components/LeaderDetail.tsx:138 | for a four-digit year the suggestion's hand-built date text is the same yyyy-mm-dd text |
| Text.DigitValue | components/LeaderManagement.tsx:193 | a digit character stands for a value below ten |
| Text.DigitChar | components/AdminDashboard.tsx:78 | the character written for a value below ten is a digit that reads back as that value |
| Text.Lower | components/LeaderList.tsx:37-40 | `toLowerCase` on one character: A to Z, U+00C0 to U+00DE other than ×, Greek U+0391 to U+03AB other than U+03A2 and capital sigma, Cyrillic А to Я and fullwidth Ａ to Ｚ move 32 code points on; Ѐ to Џ move 80; the capitals of the case pairs of Latin Extended-A (U+0100 to U+017D, other than İ) and of Cyrillic U+0460 to U+04FF move one on; Ÿ, Ά, Έ, Ή, Ί, Ό, Ύ, Ώ and Ӏ go to their own small letters; every other character is kept |
| Text.LowerExamples | components/LeaderList.tsx:37-40 | "É" lowers to "é", "Д" to "д", "A" to "a", "Ϋ" to "ϋ", "Ό" to "ό", "Ґ" to "ґ", "Ā" to "ā", "Ÿ" to "ÿ" and "Ｑ" to "ｑ", while "ς" and "1" are kept |
| Text.ToLower | components/LeaderList.tsx:37-40 | lower-casing keeps the length and lower-cases each character in place |
| Text.EmptyIsContained | components/AttendanceTracker.tsx:37 | `includes("")` holds of every string, so an empty search matches everything |
| Text.StartsWithTransitive | components/AdminDashboard.tsx:48 | a string that starts with b, where b starts with c, starts with c |
| Text.LexLeTotal | components/LeaderList.tsx:54 | any two codes are ordered one way or the other |
| Text.LexLeTransitive | components/LeaderList.tsx:54 | the code order is transitive |
| Text.LexLeAntisymmetric | components/ReportingStatus.tsx:94 | two strings ordered both ways are equal |
| Text.PrefixLexLe | components/LeaderList.tsx:54 | a prefix sorts no later than the strings it starts |
| Text.BetweenSharesPrefix | components/PastoralEvaluation.tsx:24-27 | a string between p followed by a and p followed by b starts with p |
| Text.TrimStart | components/AttendanceTracker.tsx:60 | trimming the start removes exactly the leading white space and keeps a suffix |
| Text.TrimEnd | components/AttendanceTracker.tsx:60 | trimming the end removes exactly the trailing white space and keeps a prefix |
| Text.TrimSpec | components/AttendanceTracker.tsx:60 | a trimmed string is a slice of the original with no white space at either edge, and a string with none is kept as it is |
| Text.TrimIdempotent | components/AttendanceTracker.tsx:60-64 | trimming twice is trimming once |
| Text.TrimAfterWhite | components/LeaderManagement.tsx:151 | a leading white-space character disappears under trimming |
| Text.BlankIffTrimEmpty | components/AttendanceTracker.tsx:60 | a string trims to nothing exactly when all of it is white space |
| Text.IndexOf | components/LeaderManagement.tsx:160 | the first position of a character, or the length when it does not occur |
| Text.Split | components/LeaderManagement.tsx:190 | splitting yields at least one part and no part holds the separator |
| Text.JoinSplit | components/LeaderManagement.tsx:94 | joining the parts of a split with the separator gives back the string |
| Text.SplitJoin | components/LeaderManagement.tsx:190 | splitting a join of separator-free parts gives back the parts |
| Text.JoinPrefix | components/LeaderManagement.tsx:102-105 | text put before a join lands on the first part |
| Text.JoinWithout | components/LeaderManagement.tsx:104-105 | a join has no character that neither the parts nor the separator have |
| Text.JoinEnds | components/LeaderManagement.tsx:104 | a join starts as its first part starts and ends as its last part ends |
| Text.IndexOfAfter | components/LeaderManagement.tsx:160 | the first occurrence of a character is right after a prefix free of it |
| Text.NatToString | components/AdminDashboard.tsx:78 | a number is written as at least one digit and only digits |
| Text.DigitsOfNat | components/AdminDashboard.tsx:66 | the digits written for a number read back as that number |
| Text.DigitPrefix | components/LeaderManagement.tsx:193 | the longest run of leading digits, stopping at the first non-digit |
| Text.DigitPrefixOfDigits | components/LeaderManagement.tsx:193 | a string of digits is its own leading run |
| Text.ParseIntNatToString | components/AdminDashboard.tsx:66 | `parseInt` of a written number gives the number |
| Text.ParseIntOr | components/LeaderDetail.tsx:204 | `parseInt(s) or d`: the default when nothing reads, the number read (decimal, or hexadecimal after "0x") when it is not zero |
| Text.ParseIntHex | components/LeaderDetail.tsx:204 | without a radix "0x1A" reads as 26 |
| Text.Utf16Length | components/ProfileSettings.tsx:112 | `length` counts between one and two code units per character, and exactly one each when every character lies in the Basic Multilingual Plane |
| Text.EmojiPair | components/ProfileSettings.tsx:112 | two emoji are two characters but four code units |
| Text.ParseIntOrPositive | components/LeaderManagement.tsx:193 | a written positive number reads back as itself and not as the default |
| Text.Trim | components/AttendanceTracker.tsx:60 | definition: white space removed from both ends; TrimSpec, TrimIdempotent and BlankIffTrimEmpty state it |
| Text.ParseInt | components/LeaderDetail.tsx:204 | definition: `parseInt` without a radix; ParseIntNatToString, ParseIntHex and ParseIntOr state what it reads |
| Text.ContainsIgnoreCase | components/LeaderList.tsx:37-40 | definition: the lowered query occurs in the lowered text; EmptySearchListsAll and EmptySearchShowsAll state the empty query matches everything |
| Orders.AscendingPreorder | components/LineagePhotoView.tsx:37 | ascending string order is a total preorder, so a sort by it is well defined |
| Orders.DescendingPreorder | components/LeaderDetail.tsx:119 | the reversed comparison used for newest-first lists is a total preorder |
| Orders.ByMgCodePreorder | components/LeaderList.tsx:54 | ordering leaders by MG code is a total preorder |
| Domain.TribeLineage | components/TribeStatistics.tsx:29-31 | a leader belongs to a tribe's lineage exactly when their code equals or starts with the root's code |
| Domain.SelfInLineage | components/TribeStatistics.tsx:30 | every code lies in its own lineage, so a root counts itself |
| ReportingStatus.LatestDateSpec | components/ReportingStatus.tsx:68-79 | a leader without reports has no latest date; otherwise the latest date is the date of one of the reports and no report is later |
| ReportingStatus.LatestReportDate | components/ReportingStatus.tsx:83-90 | the loop over live groups and their reports yields the latest report date |
| ReportingStatus.DelinquentIff | components/ReportingStatus.tsx:68-79 | a leader is listed as inactive exactly when every report of a live group falls before the threshold, which includes never having reported |
| ReportingStatus.RowOf | components/ReportingStatus.tsx:81-92 | a row carries the leader and the latest report date, or Never Reported when there is none |
| ReportingStatus.RowsOf | components/ReportingStatus.tsx:81-93 | one row per leader, in the same order |
| ReportingStatus.ByCodePreorder | components/ReportingStatus.tsx:94 | ordering rows by MG code is a total preorder |
| ReportingStatus.InactiveLeadersComplete | components/ReportingStatus.tsx:46-95 | every leader in scope who is a cell or tribe leader, active, matches the search and is delinquent has a row |
| ReportingStatus.InactiveLeadersSound | components/ReportingStatus.tsx:46-95 | every row is the row of such a leader |
| ReportingStatus.InactiveLeadersOrder | components/ReportingStatus.tsx:94 | the rows are a permutation of the candidates' rows in stored order, sorted by MG code, with rows of equal codes kept in stored order |
| ReportingStatus.LatestFollowUp | components/ReportingStatus.tsx:224-226 | a row shows a follow-up exactly when the leader has one, and then the first |
| ReportingStatus.ReportingStatusPage.constructor | components/ReportingStatus.tsx:29-46 | the page opens on the lineage scope with an empty search, the threshold 14 days before today, nothing selected and the rows of that filter |
| ReportingStatus.ReportingStatusPage.SetFilters | components/ReportingStatus.tsx:46-95 | changing the threshold, search or scope recomputes the rows for the new filter |
| ReportingStatus.ReportingStatusPage.OpenFollowUp | components/ReportingStatus.tsx:278 | opening the follow-up panel selects that row |
| ReportingStatus.ReportingStatusPage.SetFollowUp | components/ReportingStatus.tsx:380-390 | the note's content and date are what was typed |
| ReportingStatus.ReportingStatusPage.AddFollowUp | components/ReportingStatus.tsx:108-126 | without a selection or with blank content nothing changes; otherwise the new note is put first on the selected row's leader, it becomes the row's latest follow-up, the other rows are untouched and the form clears to today |
| ReportingStatus.ReportingStatusPage.CloseFollowUp | components/ReportingStatus.tsx:340 | closing the panel clears the selection |
| ReportingStatus.Delinquent | components/ReportingStatus.tsx:68-79 | definition: no report at all, or a latest report dated before the threshold; DelinquentIff states it |
| ReportingStatus.Candidate | components/ReportingStatus.tsx:51-79 | definition: within the user's lineage when the scope asks for it, in a leading role, active, matching the search and delinquent; InactiveLeadersComplete and InactiveLeadersSound state the listing is exactly these |
| ReportingStatus.InactiveLeaders | components/ReportingStatus.tsx:46-95 | definition: the candidates' rows sorted by MG code; InactiveLeadersOrder states permutation and order |
| PastoralEvaluation.IsRecentWindow | components/PastoralEvaluation.tsx:24-27 | 1 January and 1 October of the current year are both recent, an absent or empty date never is, and a recent date starts with the year |
| PastoralEvaluation.IsRecentBetween | components/PastoralEvaluation.tsx:27 | a date string between two recent ones is recent |
| PastoralEvaluation.DirectDisciples | components/PastoralEvaluation.tsx:29 | the direct disciples are exactly the stored leaders whose parent is this leader and who hold the cell-leader role |
| PastoralEvaluation.AgmMatureIgnoresOtherStatus | components/PastoralEvaluation.tsx:34 | a status record that does not make the leader active never changes maturity |
| PastoralEvaluation.AgmMatureReinstated | components/PastoralEvaluation.tsx:34-35 | a reinstatement dated inside the window makes a disciple not mature |
| PastoralEvaluation.AgmDisciples | components/PastoralEvaluation.tsx:31-36 | the AGM disciples are exactly the direct disciples not recently ordained, transferred or reinstated |
| PastoralEvaluation.Lineage | components/PastoralEvaluation.tsx:38 | the lineage is exactly the stored leaders whose code starts with this leader's code |
| PastoralEvaluation.StatsOf | components/PastoralEvaluation.tsx:23-45 | the AGM count never exceeds the direct count, and a stored leader's lineage count is at least one |
| PastoralEvaluation.LineageHoldsSelf | components/PastoralEvaluation.tsx:38 | a stored leader is in their own lineage |
| PastoralEvaluation.AgmCountBound | components/PastoralEvaluation.tsx:29-42 | the AGM count never exceeds the direct count and equals it when every direct disciple is mature |
| PastoralEvaluation.RowsOf | components/PastoralEvaluation.tsx:50-54 | one row per evaluated leader, in the same order, carrying that leader's figures |
| PastoralEvaluation.RequestSortToggles | components/PastoralEvaluation.tsx:68-73 | a requested column becomes the sort key, a new column sorts ascending, and requesting the same column again flips the direction |
| PastoralEvaluation.KeyLeTotal | components/PastoralEvaluation.tsx:59-65 | on every column any two rows compare one way or the other |
| PastoralEvaluation.KeyLeTransitive | components/PastoralEvaluation.tsx:59-65 | the column comparison is transitive |
| PastoralEvaluation.RowOrderPreorder | components/PastoralEvaluation.tsx:59-65 | the comparator for any column and direction is a total preorder |
| PastoralEvaluation.RowsOfMembers | components/PastoralEvaluation.tsx:50-54 | a row is built exactly for a listed leader and is that leader's row |
| PastoralEvaluation.ProcessedMembers | components/PastoralEvaluation.tsx:47-58 | a row is shown exactly when its leader is stored, active, holds the cell-leader or tribe-chief role and matches the search |
| PastoralEvaluation.ProcessedOrder | components/PastoralEvaluation.tsx:59-65 | the rows are sorted by the chosen column and direction, and rows that tie keep the order of the stored leaders |
| PastoralEvaluation.FormatDateParts | components/PastoralEvaluation.tsx:75-79 | a year-month-day string is shown day/month/year, a date without hyphens as it is, and a missing or empty date as "--" |
| PastoralEvaluation.IsRecent | components/PastoralEvaluation.tsx:24-27 | definition: a present, non-empty date within the meeting window in string order; IsRecentWindow and IsRecentBetween state the window |
| PastoralEvaluation.AgmMature | components/PastoralEvaluation.tsx:31-36 | definition: no ordination, transfer or return to active within the window; AgmMatureIgnoresOtherStatus and AgmMatureReinstated state which changes count |
| PastoralEvaluation.RequestSort | components/PastoralEvaluation.tsx:68-73 | definition: flips an ascending sort on the same key, else sorts ascending by the new key; RequestSortToggles states both cases |
| PastoralEvaluation.RowOrder | components/PastoralEvaluation.tsx:59-65 | definition: the comparator of the chosen key and direction; RowOrderPreorder states it is a total preorder |
| PastoralEvaluation.Processed | components/PastoralEvaluation.tsx:47-66 | definition: the matching leaders' rows, stably sorted by the chosen order; ProcessedMembers and ProcessedOrder state its contents and order |
| PastoralEvaluation.FormatDate | components/PastoralEvaluation.tsx:75-79 | definition: "--", the three parts reversed with slashes, or the text itself; FormatDateParts states each case |
| PastoralEvaluation.Evaluated | components/PastoralEvaluation.tsx:49 | definition: an active leader with the role '小組長' or '族長'; ProcessedMembers states that exactly these leaders get a row |
| TribeStatistics.Roots | components/TribeStatistics.tsx:24 | the tribe roots are exactly the stored leaders with a two-character MG code |
| TribeStatistics.MaxGenSpec | components/TribeStatistics.tsx:34-40 | the deepest generation is at least the root's, no lineage member is deeper, and it is the root's or some member's generation |
| TribeStatistics.BreakdownSpec | components/TribeStatistics.tsx:33-39 | each generation's count in the breakdown is the number of lineage members of that generation, and the counts sum to the lineage size |
| TribeStatistics.BreakdownKeys | components/TribeStatistics.tsx:38-39 | the breakdown has an entry for exactly the generations present |
| TribeStatistics.GenderBound | components/TribeStatistics.tsx:43-44 | male and female leaders together number at most the lineage |
| TribeStatistics.TallyLineage | components/TribeStatistics.tsx:33-45 | the loop yields the generation breakdown, the deepest generation and the male and female counts |
| TribeStatistics.RowSpec | components/TribeStatistics.tsx:27-56 | a stored root's row counts the root, its breakdown adds up to the total, its deepest generation bounds every member, and the gender counts stay within the total |
| TribeStatistics.RowsOf | components/TribeStatistics.tsx:27 | one row per root, in the same order |
| TribeStatistics.RowsOfSnoc | components/TribeStatistics.tsx:27 | the rows of one more root are the earlier rows followed by that root's row |
| TribeStatistics.ByTribeCodePreorder | components/TribeStatistics.tsx:57 | ordering rows by tribe code is a total preorder |
| TribeStatistics.TribeDataSpec | components/TribeStatistics.tsx:22-60 | there is one row per root, a row is listed exactly when it is the row of a stored root, and the rows are in tribe-code order |
| TribeStatistics.ComputeTribeData | components/TribeStatistics.tsx:22-60 | the loop yields the tribe table |
| TribeStatistics.ExportCells | components/TribeStatistics.tsx:78-91 | twelve cells, one per header, the generation columns holding the counts of generations 1 to 6 as written |
| TribeStatistics.ExportLines | components/TribeStatistics.tsx:78-96 | one comma-joined line per row, in table order, from the cells as the screen writes them |
| TribeStatistics.ExportFileLines | components/TribeStatistics.tsx:93-96 | reading the file back line by line gives the header line and then one line per tribe in table order, as long as no name or code holds a line break |
| TribeStatistics.LinesAfterHeader | components/TribeStatistics.tsx:93-96 | under any header line without a line break, the joined file splits back into that header and one line per tribe |
| TribeStatistics.BodyNoNewline | components/TribeStatistics.tsx:95 | no tribe line holds a line break when no name or code does |
| TribeStatistics.HeaderAndLines | components/TribeStatistics.tsx:93-96 | a header and body lines without line breaks, joined with line feeds, split back into the same header and lines |
| TribeStatistics.LinesRoundTrip | components/TribeStatistics.tsx:93-96 | one or more lines without line breaks, joined with line feeds, split back into the same lines |
| TribeStatistics.ExportLinesFromSix | components/TribeStatistics.tsx:78-96 | one line per row with "Gen 6+" counting every generation from six on |
| TribeStatistics.GenColumnsFromSixCoverTribe | components/TribeStatistics.tsx:70-90 | with a "Gen 6+" column counting every generation from six on, the six generation columns add up to the whole tribe |
| TribeStatistics.GenColumnsMissDeepLeaders | components/TribeStatistics.tsx:90 | as written, a tribe holding a leader of generation 7 or deeper has generation columns that add up to less than the tribe |
| TribeStatistics.GenSixBelowFromSix | components/TribeStatistics.tsx:90 | with a leader of generation 7 or deeper, generation 6 alone counts fewer than generations 6 and up |
| TribeStatistics.GenSixAtMostFromSix | components/TribeStatistics.tsx:90 | generation 6 alone never counts more than generations 6 and up |
| TribeStatistics.ExportCellsFromSix | components/TribeStatistics.tsx:75-90 | the corrected cells agree with the written ones except that "Gen 6+" counts every lineage member of generation six or deeper |
| TribeStatistics.TribeData | components/TribeStatistics.tsx:22-60 | definition: one row per tribe root, sorted by tribe code; TribeDataSpec and ComputeTribeData state its rows |
| TribeStatistics.ExportText | components/TribeStatistics.tsx:93-96 | definition: the file as written, header then ExportLines, joined by newlines; ExportFileLines states it reads back line by line |
| TribeStatistics.ExportTextFromSix | components/TribeStatistics.tsx:93-96 | definition: the same file from the corrected lines of ExportLinesFromSix |
| LineagePhotoView.RootLeadersSpec | components/LineagePhotoView.tsx:20-24 | the root list is a permutation of the stored leaders with a two-character code, in MG code order, with equal codes in stored order |
| LineagePhotoView.DefaultRootId | components/LineagePhotoView.tsx:26 | the first root's id is selected at first, or the empty id when there is no root |
| LineagePhotoView.ByGenerationThenCodePreorder | components/LineagePhotoView.tsx:34-38 | ordering by generation and then by MG code is a total preorder |
| LineagePhotoView.CountGenerations | components/LineagePhotoView.tsx:40-45 | the loop yields the per-generation counts |
| LineagePhotoView.GenCountsSpec | components/LineagePhotoView.tsx:40-45 | a generation has an entry exactly when it is deeper than 1 and some tribe member has it, and its entry counts those members |
| LineagePhotoView.KeysBetween | components/LineagePhotoView.tsx:47 | the keys of the counts within a range, each once, in ascending order |
| LineagePhotoView.EntryTexts | components/LineagePhotoView.tsx:47-48 | one text per listed generation, giving the generation and its count |
| LineagePhotoView.EntriesSpec | components/LineagePhotoView.tsx:47-49 | the breakdown lists exactly the generations after the first that occur, each once, in ascending order, each with the number of its leaders |
| LineagePhotoView.ActiveLineage | components/LineagePhotoView.tsx:28-30 | there is nothing to show exactly when no stored leader has the selected id |
| LineagePhotoView.ActiveLineageSpec | components/LineagePhotoView.tsx:28-57 | the view of a known leader shows a permutation of that leader's stored tribe, the leader included, in generation-then-code order with ties in stored order, with its full count and its breakdown text |
| LineagePhotoView.DefaultRootShown | components/LineagePhotoView.tsx:26-30 | when a root exists the default selection always shows a tribe |
| LineagePhotoView.RootLeaders | components/LineagePhotoView.tsx:20-24 | definition: the leaders with a two-character code, sorted by MG code; RootLeadersSpec states permutation and order |
| LineagePhotoView.BreakdownText | components/LineagePhotoView.tsx:40-49 | definition: "Gn: count" for each generation above 1 that is present, in generation order; EntriesSpec and GenCountsSpec state its entries |
| LeaderList.FilteredLeadersSpec | components/LeaderList.tsx:28-55 | a leader is listed exactly when they are a stored strict descendant of the user who matches the search and passes every non-empty filter; the list is a permutation of those leaders in MG code order, equal codes in stored order, and never holds the user |
| LeaderList.NoFiltersListAll | components/LeaderList.tsx:30-43 | with no filters and an empty search every strict descendant is listed |
| LeaderList.DeletedGroupsCount | components/LeaderList.tsx:45-52 | a soft-deleted group still lets its leader through the zone and day filters |
| LeaderList.ActiveFilterCount | components/LeaderList.tsx:57 | the badge count is zero exactly when no filter is chosen |
| FilterDrawer.ToggleSpec | components/FilterDrawer.tsx:17-29 | toggling a value flips whether it is selected, leaves every other value's selection alone and leaves the other two lists untouched |
| FilterDrawer.ToggleTwice | components/FilterDrawer.tsx:23-26 | toggling the same value twice restores every selection |
| FilterDrawer.ToggleChosenCount | components/FilterDrawer.tsx:23-26 | on duplicate-free lists a toggle keeps them duplicate-free and moves the number of chosen values by one, down when it was selected and up otherwise |
| FilterDrawer.FilterPanel.constructor | App.tsx:46-50 | the drawer starts from the given filter state |
| FilterDrawer.FilterPanel.ToggleFilter | components/FilterDrawer.tsx:17-29 | the new state is the toggle of the old one |
| FilterDrawer.FilterPanel.Reset | components/FilterDrawer.tsx:116 | after a reset no filter is chosen |
| GroupSelector.ActiveFormalGroups | components/GroupSelector.tsx:15-17 | the listed groups are exactly the groups not deleted whose category is open cell or disciple cell |
| GroupSelector.ActiveFormalGroupsOrder | components/GroupSelector.tsx:15-17 | the listing keeps the stored order and keeps a list that needs no filtering as it is |
| GroupSelector.ShortCodesDistinct | components/GroupSelector.tsx:19-27 | two categories get the same short code exactly when they are the same category |
| GroupSelector.DisplayNameIsGroupName | components/GroupSelector.tsx:56 | the button shows the name the settings form generates for the group, with one trailing space when there is no suffix |
| LeaderList.FilteredLeaders | components/LeaderList.tsx:28-55 | definition: the listed descendants sorted by MG code; FilteredLeadersSpec states membership, permutation and order |
| GroupSelector.CategoryShortCode | components/GroupSelector.tsx:19-27 | definition: the short letter of each category; ShortCodesDistinct states no two categories share one |
| GroupSelector.DisplayName | components/GroupSelector.tsx:56 | definition: code, category label and optional suffix; DisplayNameIsGroupName states it is the automatic group name, with a trailing space when there is no suffix |
| GroupSettings.AudienceSettles | components/GroupSettings.tsx:76-82 | the zone effect settles after one run: there is no audience exactly in the CHI zone, and a chosen audience elsewhere is kept |
| GroupSettings.AutoGroupNameSuffixInjective | components/GroupSettings.tsx:74 | two groups of one leader and category get the same generated name only when they have the same suffix |
| GroupSettings.QuickGroupNameIsAutoName | components/LeaderDetail.tsx:148-171 | a group quick-added from the leader page is named as this form would name it with no suffix |
| GroupSettings.Base36 | components/GroupSettings.tsx:99 | a stamp in base 36 is at least one character, each a digit or a lower-case letter |
| GroupSettings.Base36RoundTrip | components/GroupSettings.tsx:99 | the base-36 text of a stamp reads back as the stamp, so distinct stamps give distinct new ids |
| GroupSettings.InitialDraft | components/GroupSettings.tsx:27-82 | a new group opens with the given or the open-cell category, no suffix, zone ADT, audience Mixed, Saturday at 14:00, Cantonese, the first service, 4-6 members and the frequency of its category; an existing group opens with its own fields; either way there is no audience exactly in the CHI zone |
| GroupSettings.GroupOf | components/GroupSettings.tsx:96-117 | the saved group has the generated name, the leader's tribe and the form's fields; it keeps the existing id, reports and member count and the capacity or 12, and a new group gets a "new-" id, no reports, no members and capacity 12 |
| GroupSettings.OpenSaveRoundTrip | components/GroupSettings.tsx:27-117 | opening an existing group and saving it untouched gives it back except for the generated name, the leader's tribe, the settled frequency and audience, a present suffix, and no code, address or deleted flag |
| GroupSettings.GroupSettingsForm.constructor | components/GroupSettings.tsx:23-82 | the form opens on the initial draft, which obeys the zone rule (Valid) |
| GroupSettings.GroupSettingsForm.SetCategory | components/GroupSettings.tsx:64-71 | choosing a different formal category sets it and resets the frequency to the category's default; choosing the same one leaves the frequency; the zone rule (Valid) is kept |
| GroupSettings.GroupSettingsForm.SetNameSuffix | components/GroupSettings.tsx:187 | the suffix is what was typed; the zone rule (Valid) is kept |
| GroupSettings.GroupSettingsForm.SetFrequency | components/GroupSettings.tsx:212 | the frequency is what was chosen; the zone rule (Valid) is kept |
| GroupSettings.GroupSettingsForm.SetZone | components/GroupSettings.tsx:76-82 | choosing a zone sets it and settles the audience for it, so the zone rule (Valid) holds afterwards |
| GroupSettings.GroupSettingsForm.SetAudience | components/GroupSettings.tsx:230 | outside the CHI zone the audience is what was chosen, so the zone rule (Valid) holds afterwards |
| GroupSettings.GroupSettingsForm.SetMeeting | components/GroupSettings.tsx:256-280 | day, time and location are what was entered; the zone rule (Valid) is kept |
| GroupSettings.GroupSettingsForm.SetService | components/GroupSettings.tsx:317-333 | service and member range are what was chosen; the zone rule (Valid) is kept |
| GroupSettings.GroupSettingsForm.ToggleLanguage | components/GroupSettings.tsx:84-88 | a language is selected afterwards exactly when it was not before; the zone rule (Valid) is kept |
| GroupSettings.GroupSettingsForm.ToggleAgeRange | components/GroupSettings.tsx:90-94 | an age range is selected afterwards exactly when it was not before; the zone rule (Valid) is kept |
| GroupSettings.GroupSettingsForm.Submit | components/GroupSettings.tsx:96-119 | the submitted group is the group of the current draft, under the generated name, and has no audience exactly when its zone is CHI |
| GroupSettings.GroupSettingsForm.Delete | components/GroupSettings.tsx:121-126 | a delete is passed on exactly for an existing group when deleting is offered, and then names that group |
| GroupSettings.AutoGroupName | components/GroupSettings.tsx:74 | definition: code, " - ", category label and an optional " - suffix"; AutoGroupNameSuffixInjective states distinct suffixes give distinct names |
| GroupSettings.FrequencyFor | components/GroupSettings.tsx:65-71 | definition: fortnightly for disciple cells, weekly for open cells, else unchanged; SetCategory states the form's new state |
| GroupSettings.AudienceFor | components/GroupSettings.tsx:76-82 | definition: no audience in the CHI zone, Mixed for none elsewhere, else unchanged; AudienceSettles states it is settled after one step |
| GroupSettings.GroupSettingsForm.Valid | components/GroupSettings.tsx:76-82 | definition: the zone rule the zone effect settles, no audience exactly in the CHI zone; the constructor and every action keep it |
| MemberManagement.ByChineseNamePreorder | components/MemberManagement.tsx:39 | ordering members by Chinese name under a total collation is a total preorder |
| MemberManagement.FilteredMembersSpec | components/MemberManagement.tsx:34-40 | a member is listed exactly when their Chinese name or English name contains the search ignoring case, or their phone number contains it; the list is in name order and members with equal names keep their stored order |
| MemberManagement.NewDraft | components/MemberManagement.tsx:47-58 | a new draft is an active member with no name and no phone, placed in the leader's first group when the leader has one |
| MemberManagement.SavedSpec | components/MemberManagement.tsx:64-68 | after a save the draft is in the list, no member with another id has come or gone, and the list grows by one exactly when the id was new |
| MemberManagement.MemberPage.constructor | components/MemberManagement.tsx:18-29 | the page opens on the application's members with no draft and the form closed |
| MemberManagement.MemberPage.Edit | components/MemberManagement.tsx:42-45 | editing opens the form on a copy of the member |
| MemberManagement.MemberPage.AddNew | components/MemberManagement.tsx:47-62 | adding opens the form on a new draft |
| MemberManagement.MemberPage.EditText | components/MemberManagement.tsx:251-267 | a keystroke changes that one field of the draft, and nothing without a draft |
| MemberManagement.MemberPage.ToggleGroupSelection | components/MemberManagement.tsx:73-80 | the draft's group ids have that one group toggled, and nothing happens without a draft |
| MemberManagement.MemberPage.Save | components/MemberManagement.tsx:64-71 | without a draft, a Chinese name or a phone number nothing changes; otherwise the member list becomes the list with the draft saved and the form closes |
| MemberManagement.MemberPage.Delete | components/MemberManagement.tsx:219 | the list loses exactly the members with that id |
| MemberSelfRegistration.Registered | components/MemberSelfRegistration.tsx:29-39 | the newcomer carries the five inputs, is active, is in no group, joined today and has a "reg-" id |
| MemberSelfRegistration.RegisteredIsSavable | components/MemberSelfRegistration.tsx:23 | the page accepts exactly the newcomers the roster's own form would save, and a newcomer's id never equals a roster draft's id |
| MemberSelfRegistration.RegistrationPage.constructor | components/MemberSelfRegistration.tsx:12-19 | the page opens on the form step with five empty inputs and nobody handed on |
| MemberSelfRegistration.RegistrationPage.Type | components/MemberSelfRegistration.tsx:70-109 | the form holds what was typed |
| MemberSelfRegistration.RegistrationPage.Submit | components/MemberSelfRegistration.tsx:21-42 | without a Chinese name or a phone number nothing happens; otherwise the page moves to its thanks and the newcomer built from the form is handed on |
| MemberManagement.FilteredMembers | components/MemberManagement.tsx:34-40 | definition: the members matching the query, stably sorted by Chinese name; FilteredMembersSpec states membership, permutation and order |
| MemberManagement.Saved | components/MemberManagement.tsx:64-71 | definition: an update for a known id, otherwise an addition in front; SavedSpec states both cases |
| MemberManagement.Matches | components/MemberManagement.tsx:35-38 | definition: the Chinese or the English name contains the query ignoring case, or the phone number contains it as typed; FilteredMembersSpec states that exactly the matching members are listed |
| ProfileSettings.WithFieldSpec | components/ProfileSettings.tsx:85-87 | an edit shows the typed value in its field, leaves every other field as it was, and touches nothing the form does not edit |
| ProfileSettings.CheckPasswordSpec | components/ProfileSettings.tsx:103-117 | the password is kept exactly when all three inputs are empty; it changes exactly when some input is filled, the current one is the stored password and the new ones agree and are at least four UTF-16 code units long; everything else is refused; a leader with no stored password cannot change it |
| ProfileSettings.TwoEmojiAccepted | components/ProfileSettings.tsx:112 | two emoji meet the four-unit minimum and the password changes |
| ProfileSettings.RefusalOrder | components/ProfileSettings.tsx:104-115 | the checks run in order, wrong current password, then mismatch, then too short, and the first that fails names the refusal |
| ProfileSettings.ChangedPasswordSignsIn | components/ProfileSettings.tsx:116 | after a change the leader signs in with the new password and no longer with a different old one |
| ProfileSettings.ProfileForm.constructor | components/ProfileSettings.tsx:65-77 | the form opens on a copy of the leader with empty password inputs, no error and nothing saved |
| ProfileSettings.ProfileForm.InputChange | components/ProfileSettings.tsx:85-87 | the draft becomes the old draft with that one field set |
| ProfileSettings.ProfileForm.TypePassword | components/ProfileSettings.tsx:286-310 | a keystroke sets the one password input it goes to |
| ProfileSettings.ProfileForm.Submit | components/ProfileSettings.tsx:98-127 | a refused change shows its message and saves nothing; otherwise the error clears and the draft, with the new password when one was accepted, is saved and success is shown |
| ProfileSettings.CheckPassword | components/ProfileSettings.tsx:103-117 | definition: the password checks in the order the form makes them; CheckPasswordSpec and RefusalOrder state the outcomes |
| Login.FindLogin | components/Login.tsx:51-56 | nobody signs in exactly when no leader's identifier and password both match; otherwise the leader signed in is the first that matches |
| Login.LoginImpliesAccount | components/Login.tsx:51-56 | whoever can sign in with an identifier also finds that account in the forgotten-password dialog |
| Login.NoPasswordNoLogin | components/Login.tsx:55 | a leader with no stored password can never sign in |
| Login.LoginPage.constructor | components/Login.tsx:22-43 | the page opens in e-mail mode with empty inputs, no error, nobody signed in, and the dialog closed at its first step |
| Login.LoginPage.SetAuthMode | components/Login.tsx:153-160 | switching between e-mail and phone clears the identifier and the error |
| Login.LoginPage.TypeIdentifier | components/Login.tsx:184-211 | the identifier is what was typed |
| Login.LoginPage.TypePassword | components/Login.tsx:233 | the password is what was typed |
| Login.LoginPage.Submit | components/Login.tsx:45-69 | the first matching leader is signed in; otherwise the error names the kind of identifier and loading stops |
| Login.LoginPage.OpenForgot | components/Login.tsx:261 | the link opens the dialog |
| Login.LoginPage.SetForgotMode | components/Login.tsx:343-349 | switching the dialog's mode clears its identifier and its error |
| Login.LoginPage.TypeForgotIdentifier | components/Login.tsx:361-375 | the dialog's identifier is what was typed |
| Login.LoginPage.TypeOtp | components/Login.tsx:414 | the code is what was typed |
| Login.LoginPage.TypeNewPasswords | components/Login.tsx:454-463 | the new password and its confirmation are what was typed |
| Login.LoginPage.SubmitIdentity | components/Login.tsx:71-91 | the dialog moves on to the code step exactly when an account has the identifier, and otherwise shows the no-account message |
| Login.LoginPage.SubmitOtp | components/Login.tsx:93-105 | a code shorter than four UTF-16 code units is refused; any other moves on to the reset step |
| Login.LoginPage.SubmitReset | components/Login.tsx:107-123 | a new password shorter than six UTF-16 code units is refused first, then one whose confirmation differs; otherwise the dialog reaches its last step, having established an account, a code and a confirmed password along the way |
| Login.LoginPage.CloseForgot | components/Login.tsx:125-133 | closing the dialog returns it to its first step with empty inputs and no error |
| Login.AccountExists | components/Login.tsx:77-81 | definition: some leader has the identifier in the chosen mode; SubmitIdentity states it decides the next step |
| Login.Credentials | components/Login.tsx:51-56 | definition: the email or the phone number, as the mode says, equals the typed identifier and the stored password equals the typed password; FindLogin states that the first leader meeting it signs in |
| Login.InvalidMessage | components/Login.tsx:65 | definition: "Invalid email or password." in email mode and "Invalid phone number or password." in phone mode; Login.LoginPage.Submit states that a failed sign-in shows it |

## Left out

- Rendering (JSX, styling, modals as visual elements), `components/Sidebar.tsx` and `components/GroupDetailModal.tsx`: presentation only.
- The clock, the time zone and `Date.now`: "today", the current year and fresh ids are parameters.
- JavaScript `Date` parsing is modelled as `Dates.ParseDate` on `YYYY-MM-DD` strings.
- `setTimeout` delays (login, reset and registration spinners) are not modelled; each such step is atomic.
- React effect scheduling is not modelled:
  - the `GroupSettings` effects are modelled as settled after each change;
  - the `ProfileSettings` draft re-sync when the user changes (`components/ProfileSettings.tsx:80-83`) is not modelled.
- `localStorage` persistence and "remember me" are not modelled: the store starts from the given data.
- The country-code selector on the phone login is not used by the code and is not modelled.
- File downloads (Blob, object URLs, the BOM written for spreadsheet programs), `FileReader`, `window.print` and the WhatsApp link are left out.
  The exported text itself is modelled; the import takes the file text as input.
- Floating-point arithmetic is left out: the growth percentage on the dashboard and the bar widths.
- Randomness: the default password on create and import, and the mock report generator, are left out.
  Where a random value becomes part of a record, it is a parameter.
- `localeCompare` collation:
  - on MG codes it is plain lexicographic order (`Orders.LexLe`);
  - on names the collation is a total preorder given by the caller.
- Login.LoginPage.SubmitReset: the reset reaches the success step but stores no new password, as in the code. Its minimum length is 6, while the profile page's is 4.
- AdminDashboard.BucketKey: nothing is left out. The bucket year is the calendar year of the date, not the ISO week-year, as in the code, and `AdminDashboard.KeyJoinsTwoWeeks` shows two different weeks sharing a key. The week is counted as `Date.UTC` counts it, with years 0 to 99 read as 1900 to 1999 (`AdminDashboard.EarlyYearSplitsWeek`, `AdminDashboard.Year100Week`).
- AdminDashboard.SameWeekSameBucket: holds from the year 100 on only, because in years 0 to 99 a week of the calendar is not a week of the count (`AdminDashboard.EarlyYearSplitsWeek`).
- PastoralEvaluation.RowOrder: an absent ordination date sorts as the empty string, which is a choice of the model. In JavaScript `undefined < x` and `undefined > x` are both false, so such a row ties with every row and the comparator is not consistent; the order the sort then gives depends on the engine.
- The pastoral evaluation export and the profile photo upload are left out (file output and file input).
- LeaderDetail.SuggestedDateTime: gives no suggestion when the latest report date is not a valid `YYYY-MM-DD` date, or its year is below 100. The code reads the date with `split('-').map(Number)` and `new Date(y, m - 1, d)` (`components/LeaderDetail.tsx:135-136`), which is more lenient:
  - it writes "NaN-NaN-NaN" for text that does not read as numbers;
  - it turns years 0 to 99 into 1900 to 1999;
  - it accepts "2024-1-5", and rolls "2024-02-30" over to 2024-03-01, suggesting a real date where the model suggests none.
- AdminDashboard.ReadingOf: a report whose date does not parse has no reading, and then `ReadAll` gives no rollup at all. That matches the code: such a date gets the key "NaN-WNaN", and creating its bucket calls `getWeekRange`, whose `toISOString` (`components/AdminDashboard.tsx:36`) throws a `RangeError`, so the whole weekly rollup fails. The model does not go on to render an error state.
- Text.Lower: `toLowerCase` is modelled for the capitals of ASCII, Latin-1 (U+00C0 to U+00DE), Latin Extended-A (U+0100 to U+017D), modern Greek (U+0386 to U+03AB), Cyrillic (U+0400 to U+04FF) and the fullwidth Latin letters (U+FF21 to U+FF3A). Capitals elsewhere are kept as they are: Latin Extended-B and later Latin blocks, the archaic Greek letters (U+0370 to U+0376, U+03CF to U+03FF), Greek Extended, the Cyrillic Supplement (U+0500 on), Armenian, Georgian, Cherokee, circled letters, Roman numerals and the scripts above U+FFFF. Capital sigma is kept too, because JavaScript lowers it to σ or, at the end of a word, to ς.
- Text.ToLower: keeps the length, which JavaScript does not for İ (U+0130): it lowers to two code points. İ is kept as it is here.
- Text.ContainsIgnoreCase: inherits the partial case folding of Text.Lower, so a search misses matches that differ only in a capital outside the ranges listed for Text.Lower.
- Text.ParseInt: models `parseInt` without a radix on decimal and "0x"/"0X" hexadecimal text. Numbers beyond the exactness of a double are read exactly.
- ReportingStatus.DelinquentIff: dates are compared as `YYYY-MM-DD` strings rather than as `Date` values. The two orders agree on well-formed dates.
- LeaderCsvRoundTrip: the round trip is proved for generations of zero or more. A negative generation is excluded.
- Domain.IsTribeRoot: counts the characters of the MG code, where JavaScript's `length` counts UTF-16 units. The two differ only for a code holding a character above U+FFFF, which then counts twice in JavaScript.
- LeaderCsv.BuildLeader: takes the first two characters of the MG code as the tribe code, where `slice(0, 2)` takes two UTF-16 units. The two differ only when one of the first two characters lies above U+FFFF.
- Member and leader lists held inside page classes stand for the props the page receives from the app.

## Findings

| source | as written | input that shows it | evidently intended | confidence | as-written member | corrected member |
|---|---|---|---|---|---|---|
| components/TribeStatistics.tsx:90 | the "Gen 6+" export column holds the count of generation 6 only, and so does the file ExportText builds from it | a tribe with a leader of generation 7: the six generation columns add up to less than the tribe total | the column counts every generation from six on, as its header says | not executed | TribeStatistics.GenColumnsMissDeepLeaders | TribeStatistics.GenColumnsFromSixCoverTribe |
