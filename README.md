# TaskAI reminders and urgency, modelled in Dafny

TaskAI tracks **commitments**: expirations, deadlines and open-ended tasks. Each one gets a **reminder ladder**, a fixed set of reminder dates set relative to its target date or, for an open-ended task, to its creation date. This project models the core of the app and proves properties of the model:

- **Ladder generator** (`src/domain/ladder.ts`): candidate offsets, dropping dates already past, ascending order, and the reminder records built from them.
- **Urgency scoring and the two list orders** (`src/domain/urgency.ts`), and the date helpers with their urgency bands (`src/utils/date.ts`).
- **In-memory repositories** for reminders and commitments (`src/data/mock/Mock*Repository.ts`). The commitments store's load and save go through device storage.
- **Redux slice** (`src/store/slices/commitmentsSlice.ts`): the thunks, which touch both repositories, and the reducers of the app-wide state.
- **Screen logic** that enforces the reminder rules:
  - the home screen's sections and urgency colours;
  - the detail screen's snooze limits and one-snooze-per-day rule, date edits and ladder regeneration;
  - the confirm screen's schedule of at most four dates, one per day;
  - the add/edit form's templates, target rule and schema;
  - the reminder date modal's parsing and checks.

How the model represents the app:
- **Time:** instants are integer milliseconds. The current time is always the parameter `now`.
- **Module-level stores:** the repositories are classes over `seq` fields, and their operations are methods.
- **Thunks:** methods over the slice state and both stores.
- **Pure logic:** functions, with their properties as lemmas.
- **React screens:** the value each handler computes, or the store change it makes.
- **Stable sort:** every JavaScript `.sort` in the core is one stable insertion sort by key (`Sorting.SortBy`).
- **Ids:** `generateId` hands out a string longer than every id in the store, so new ids are provably fresh.

Where the code and its documented behaviour differ, the model follows the code:
- **Score 800:** the "past target date" score of 800 can never be produced. A target in the past already scores 1000 (`Urgency.CalculateUrgencyScore`).
- **One-per-day rule on the detail screen:** only pending *snoozes* are kept to one per day there.
- **Ladder dates equal to now:** a ladder date equal to `now` is kept.
- **Open-ended with nothing to score:** it gets 10, not 0.

## Model

| member | source | states |
|---|---|---|
| Types.FreshId | src/data/mock/MockRemindersRepository.ts:43 | a generated id is non-empty, and differs from every id already in the store |
| Types.MergeReminderFields | src/data/mock/MockRemindersRepository.ts:56-59 | the `{...old, ...updates}` spread changes exactly the fields the patch names; an empty patch changes nothing |
| Types.Filter | src/data/mock/MockRemindersRepository.ts:36 | `filter` keeps exactly the elements that satisfy the predicate, and never grows the list |
| Types.FilterAppend | src/screens/CommitmentDetailScreen.tsx:68-72 | filtering distributes over concatenation, so counts over a grown list add up |
| Sorting.KeyLeTotal | src/domain/urgency.ts:108-114 | the sort-key order (finite numbers, then `Infinity`) is total and antisymmetric |
| Sorting.Insert | src/domain/urgency.ts:108-114 | inserting into a sorted list keeps it sorted and adds exactly that element |
| Sorting.SortBy | src/domain/urgency.ts:108-114 | `.sort` by a numeric key gives a sorted permutation of its input |
| Sorting.SortByStable | src/domain/urgency.ts:101 | the sort is stable: the elements with any given key keep their input order |
| Sorting.SortBySorted | src/domain/ladder.ts:42 | sorting an already-sorted list leaves it unchanged |
| Sorting.HeadIsFirstMinimum | src/domain/urgency.ts:41-43 | the first element after sorting is the first element of the input whose key is minimal |
| Sorting.FirstWithKey | src/domain/urgency.ts:101 | the first element with a key is the earliest input position that has that key |
| Dates.DifferenceInDays | src/domain/urgency.ts:47 | `differenceInDays` counts the whole days between two instants, truncated toward zero on both sides |
| Dates.DayOf | src/screens/CommitmentDetailScreen.tsx:80 | the calendar day of an instant contains that instant |
| Dates.DifferenceWithinADay | src/domain/urgency.ts:47-49 | a difference of less than one day either way truncates to zero days |
| Dates.DifferenceOfWholeDays | src/domain/ladder.ts:17-20 | moving `n` days is a difference of exactly `n` days |
| Dates.SpacedDistinctDays | src/screens/ConfirmCommitmentScreen.tsx:70-72 | ascending dates at least a day apart fall on distinct calendar days |
| Dates.DistinctDaysPermutation | src/screens/ConfirmCommitmentScreen.tsx:86-88 | reordering a list of dates on distinct days keeps them on distinct days |
| Dates.DistinctDaysRemoveAt | src/screens/ConfirmCommitmentScreen.tsx:120-128 | removing a date keeps the remaining dates on distinct days |
| Dates.MultisetRemoveAt | src/screens/ConfirmCommitmentScreen.tsx:125 | `splice(index, 1)` removes exactly the element at that index |
| Dates.FormatDate | src/utils/date.ts:4-12 | `formatDate` and `formatDateTime`: a missing date renders as "No date"; any other date goes through the renderer with that function's pattern |
| Dates.FormatRelative | src/utils/date.ts:14-17 | a missing date renders as "No date"; any other date goes through the distance renderer |
| Dates.IsDatePast | src/utils/date.ts:19-22 | true exactly when there is a date and it is before `now` |
| Dates.DaysUntil | src/utils/date.ts:24-27 | none exactly when there is no date; otherwise the truncated days to the date, never negative for a future date |
| Dates.GetUrgencyBand | src/utils/date.ts:32-37 | urgent exactly for none or at most 3 days; soon exactly for 4 to 29 days; ok exactly for 30 days or more |
| Dates.UrgencyBandMonotone | src/utils/date.ts:32-37 | as the day count grows, the band never moves back toward urgent |
| Ladder.Candidates | src/domain/ladder.ts:14-38 | the offsets pushed for each type are ascending and at least a day apart |
| Ladder.AtOrAfter | src/domain/ladder.ts:40-42 | the filter keeps exactly the dates not before `now`, and keeps order and spacing |
| Ladder.AtOrAfterAllKept | src/domain/ladder.ts:42 | when no date is past, the filter keeps all of them |
| Ladder.AtOrAfterNoneKept | src/domain/ladder.ts:42 | when every date is past, the filter keeps none |
| Ladder.AscendingIsSorted | src/domain/ladder.ts:42 | the filtered candidates are already in the order the final `.sort` produces |
| Ladder.GenerateReminderLadder | src/domain/ladder.ts:8-43 | the ladder is exactly the candidates from `now` on, strictly ascending and a day or more apart; at most 4 dates for an expiration, otherwise at most 3 |
| Ladder.ExpirationLadder | src/domain/ladder.ts:15-21 | an expiration ladder is 90, 30, 7 and 1 days before the target, from `now` on |
| Ladder.DeadlineLadder | src/domain/ladder.ts:23-28 | a deadline ladder is 14, 7 and 1 days before the target, from `now` on |
| Ladder.OpenLadder | src/domain/ladder.ts:30-37 | an open ladder is 14, 44 and 74 days after creation, whatever target date is passed |
| Ladder.LadderBoundary | src/domain/ladder.ts:42 | a rung that falls exactly on `now` is kept |
| Ladder.GetNextReviewDate | src/domain/ladder.ts:48-60 | none for a dated type; for an open one its `nextReviewAt`, or 14 days after creation |
| Ladder.ScheduledDates | src/domain/ladder.ts:89-94 | the scheduled dates of the records, one for each record, in order |
| Ladder.Anchor | src/domain/ladder.ts:72-83 | an open loop is always anchored, at its review date or 14 days after creation; any other commitment at its target, and not at all without one |
| Ladder.GenerateRemindersFromCommitment | src/domain/ladder.ts:65-95 | nothing for a done or expired commitment, or for a dated one without a target; otherwise one pending ladder record per ladder date of its anchor |
| Ladder.OpenAlwaysAnchored | src/domain/ladder.ts:74-79 | an active open commitment always gets its three creation-based dates, from `now` on |
| Ladder.SeedPassportLadder | src/domain/ladder.ts:65-95 | a passport that expires 45 days from now gets reminders 15, 38 and 44 days from now |
| Urgency.PendingOf | src/domain/urgency.ts:41-42 | exactly the commitment's pending reminders |
| Urgency.PendingOfIdempotent | src/domain/urgency.ts:41-42 | selecting the pending reminders twice is selecting them once |
| Urgency.NextPendingReminder | src/domain/urgency.ts:41-43 | none exactly when the commitment has no pending reminder; otherwise one of its pending reminders, with the earliest date |
| Urgency.NextPendingIsFirstEarliest | src/domain/urgency.ts:41-43 | with ties, `[0]` of the stable sort is the first of the earliest in input order |
| Urgency.NextPendingIgnoresOthers | src/domain/urgency.ts:42 | other commitments' reminders and non-pending reminders do not affect the choice |
| Urgency.CalculateUrgencyScore | src/domain/urgency.ts:13-91 | the score is between 0 and 1000 and is never 800 (the past-target fallback cannot be reached) |
| Urgency.DoneScoresZero | src/domain/urgency.ts:18-24 | a done commitment scores 0, "Completed" |
| Urgency.PastTargetScoresHighest | src/domain/urgency.ts:29-38 | a commitment that is not done and whose target is past scores 1000, "Expired"; no commitment scores higher |
| Urgency.ScoreIgnoresOtherReminders | src/domain/urgency.ts:41-43 | the score depends only on the commitment's own pending reminders |
| Urgency.ReminderScore | src/domain/urgency.ts:45-63 | a reminder a whole day or more overdue scores 900; otherwise `max(0, 100 - days)`, between 0 and 100 |
| Urgency.ScoreThroughNext | src/domain/urgency.ts:41-62 | two reminder lists that pick the same next pending reminder give the same score |
| Urgency.SlightlyOverdueReminder | src/domain/urgency.ts:47-62 | a reminder less than a day overdue still counts as 0 days and scores 100 |
| Urgency.TargetScore | src/domain/urgency.ts:66-83 | without a pending reminder, a future target scores `max(0, 50 - days / 10)`, between 0 and 50 |
| Urgency.OpenEndedScore | src/domain/urgency.ts:86-90 | with no target and no pending reminder, the score is 10, "Open-ended" |
| Urgency.SortByUrgency | src/domain/urgency.ts:96-103 | a permutation of the commitments, in non-increasing score order |
| Urgency.SortByUrgencyStable | src/domain/urgency.ts:101 | commitments with equal scores keep their input order |
| Urgency.SortByTargetDate | src/domain/urgency.ts:108-114 | a permutation with the dated commitments first, in ascending target order, and all undated ones after them |
| Urgency.SortByTargetDateStable | src/domain/urgency.ts:109-113 | commitments with equal targets, undated ones included, keep their input order |
| RemindersRepository.PushedShape | src/data/mock/MockRemindersRepository.ts:39-48 | `Pushed`, the store after a run of creates, appends one record per input, in order, carrying its fields, and keeps ids distinct |
| RemindersRepository.FreshPushKeepsUnique | src/data/mock/MockRemindersRepository.ts:41-46 | pushing a record with a generated id keeps the store's ids distinct |
| RemindersRepository.OfCommitment | src/data/mock/MockRemindersRepository.ts:34-37 | exactly the records of that commitment |
| RemindersRepository.WithoutCommitment | src/data/mock/MockRemindersRepository.ts:72-77 | exactly the records of other commitments |
| RemindersRepository.IndexOfId | src/data/mock/MockRemindersRepository.ts:52 | `findIndex`: the first position with that id, or none when no record has it |
| RemindersRepository.IndexOfUniqueId | src/data/mock/MockRemindersRepository.ts:52 | with distinct ids, `findIndex` finds a record at its own position |
| RemindersRepository.WithoutIds | src/data/mock/MockRemindersRepository.ts:64-70 | exactly the records whose id is not in the set |
| RemindersRepository.WithoutIdsTwice | src/screens/CommitmentDetailScreen.tsx:173-177 | deleting two id sets in turn is deleting their union |
| RemindersRepository.RemoveUniqueIsWithoutId | src/data/mock/MockRemindersRepository.ts:64-70 | with distinct ids, splicing out the found record is filtering its id out |
| RemindersRepository.WithoutCommitmentUnique | src/data/mock/MockRemindersRepository.ts:72-77 | deleting by commitment keeps ids distinct |
| RemindersRepository.RemoveAtUnique | src/data/mock/MockRemindersRepository.ts:68 | splicing out one record keeps ids distinct |
| RemindersRepository.SeedReminders | src/data/mock/MockRemindersRepository.ts:14-26 | the seeded store holds only pending ladder reminders of active seed commitments, with distinct ids |
| RemindersRepository.RemindersStore.constructor | src/data/mock/MockRemindersRepository.ts:9-26 | the store starts with every active seed commitment's ladder reminders, in seed order, with distinct ids |
| RemindersRepository.RemindersStore.GetAll | src/data/mock/MockRemindersRepository.ts:29-32 | a copy of every record |
| RemindersRepository.RemindersStore.GetByCommitmentId | src/data/mock/MockRemindersRepository.ts:34-37 | the commitment's records, in store order |
| RemindersRepository.RemindersStore.Create | src/data/mock/MockRemindersRepository.ts:39-48 | appends the record with a fresh id and creation time `now`, and returns it; ids stay distinct |
| RemindersRepository.RemindersStore.Update | src/data/mock/MockRemindersRepository.ts:50-62 | an unknown id fails with "Reminder with id … not found" and changes nothing; otherwise the record is replaced by its merge with the patch |
| RemindersRepository.RemindersStore.Delete | src/data/mock/MockRemindersRepository.ts:64-70 | removes the first record with the id, if any; with distinct ids this is filtering the id out |
| RemindersRepository.RemindersStore.DeleteByCommitmentId | src/data/mock/MockRemindersRepository.ts:72-77 | keeps exactly the other commitments' records, in order |
| CommitmentsRepository.Load | src/data/mock/MockCommitmentsRepository.ts:13-25 | the saved list when there is one, else the seed |
| CommitmentsRepository.Touched | src/data/mock/MockCommitmentsRepository.ts:82-86 | the spread of the patch, with `updatedAt` set to the time of the update last |
| CommitmentsRepository.IndexOfCommitment | src/data/mock/MockCommitmentsRepository.ts:78 | `findIndex`: the first position with that id, or none when no commitment has it |
| CommitmentsRepository.FindCommitment | src/data/mock/MockCommitmentsRepository.ts:57 | `find`: a commitment with that id, or none exactly when no commitment has it |
| CommitmentsRepository.FindAtIndex | src/store/slices/commitmentsSlice.ts:73-78 | `find` and `findIndex` agree: exactly one of them fails, and `find` returns the element `findIndex` points at |
| CommitmentsRepository.WithoutId | src/store/slices/commitmentsSlice.ts:169-171 | exactly the commitments with another id |
| CommitmentsRepository.RemoveUniqueIsFilter | src/data/mock/MockCommitmentsRepository.ts:95-97 | when an id occurs once, splicing it out is filtering it out |
| CommitmentsRepository.ReloadSeesSaved | src/data/mock/MockCommitmentsRepository.ts:15-18 | a store opened over a saved list starts from that list |
| CommitmentsRepository.CommitmentsStore.Current | src/data/mock/MockCommitmentsRepository.ts:40-45 | the list every operation sees: the in-memory one once initialized, otherwise what loading gives |
| CommitmentsRepository.CommitmentsStore.constructor | src/data/mock/MockCommitmentsRepository.ts:36-38 | an empty, uninitialized store over the given seed and storage |
| CommitmentsRepository.CommitmentsStore.EnsureInitialized | src/data/mock/MockCommitmentsRepository.ts:40-45 | loads once; after that the list is left alone |
| CommitmentsRepository.CommitmentsStore.GetAll | src/data/mock/MockCommitmentsRepository.ts:48-52 | the loaded list, with storage untouched |
| CommitmentsRepository.CommitmentsStore.GetById | src/data/mock/MockCommitmentsRepository.ts:54-58 | the first commitment with the id, or none |
| CommitmentsRepository.CommitmentsStore.Create | src/data/mock/MockCommitmentsRepository.ts:60-73 | appends the draft with a fresh id and both timestamps `now`, then saves |
| CommitmentsRepository.CommitmentsStore.Update | src/data/mock/MockCommitmentsRepository.ts:75-90 | an unknown id fails with "Commitment with id … not found" and changes and saves nothing; otherwise that commitment is replaced by its touched merge, then saved |
| CommitmentsRepository.CommitmentsStore.Delete | src/data/mock/MockCommitmentsRepository.ts:92-100 | removes the first commitment with the id and saves; an unknown id changes and saves nothing |
| CommitmentsSlice.Cancel | src/store/slices/commitmentsSlice.ts:55 | cancelling is the update whose patch sets only `status: cancelled` |
| CommitmentsSlice.CancelPending | src/store/slices/commitmentsSlice.ts:52-57 | every pending reminder of the commitment cancelled, every other record unchanged, in place |
| CommitmentsSlice.CancelPendingEffect | src/store/slices/commitmentsSlice.ts:80-86 | afterwards no pending reminder of the commitment is left; ids and other commitments' records are unchanged; cancelling again changes nothing |
| CommitmentsSlice.CancelPendingReminders | src/store/slices/commitmentsSlice.ts:81-86 | the loop over the fetched reminders leaves the store equal to `CancelPending` of the old store |
| CommitmentsSlice.CreateReminders | src/store/slices/commitmentsSlice.ts:36-38 | one create per record, in order; ids stay distinct |
| CommitmentsSlice.FetchCommitments | src/store/slices/commitmentsSlice.ts:15-17 | the repository's list |
| CommitmentsSlice.FetchCommitmentById | src/store/slices/commitmentsSlice.ts:19-24 | the repository's commitment with the id, or none |
| CommitmentsSlice.CreateCommitment | src/store/slices/commitmentsSlice.ts:28-43 | stores the stamped draft; an active one also gets its ladder reminders, an inactive one none |
| CommitmentsSlice.UpdateCommitment | src/store/slices/commitmentsSlice.ts:45-62 | an unknown id fails and cancels nothing; otherwise updates, and cancels the pending reminders exactly when the patch sets status to done |
| CommitmentsSlice.DeleteCommitment | src/store/slices/commitmentsSlice.ts:64-68 | deletes all the commitment's reminders, then the commitment, and yields the id |
| CommitmentsSlice.MarkCommitmentDone | src/store/slices/commitmentsSlice.ts:70-90 | an unknown id fails with "Commitment not found" and changes nothing; otherwise the status becomes done and the pending reminders are cancelled |
| CommitmentsSlice.ErrorText | src/store/slices/commitmentsSlice.ts:109 | `message \|\| fallback`: an absent or empty message gives the fallback |
| CommitmentsSlice.Upsert | src/store/slices/commitmentsSlice.ts:147-156 | replaces the first commitment with the same id, or appends when there is none |
| CommitmentsSlice.ReplaceExisting | src/store/slices/commitmentsSlice.ts:161-166 | replaces the first commitment with the same id, or changes nothing |
| CommitmentsSlice.UpsertContents | src/store/slices/commitmentsSlice.ts:114-124 | after an upsert the commitment is present, the list grew by at most one, nothing else was added, and every commitment with another id stayed |
| CommitmentsSlice.UpsertIdempotent | src/store/slices/commitmentsSlice.ts:147-156 | upserting the same commitment twice is upserting it once |
| CommitmentsSlice.ReplaceIsUpsertWhenPresent | src/store/slices/commitmentsSlice.ts:161-166 | the mark-done reducer agrees with the update reducer exactly when the commitment is in the list |
| CommitmentsSlice.CommitmentsState.constructor | src/store/slices/commitmentsSlice.ts:9-13 | the initial state: no commitments, not loading, no error |
| CommitmentsSlice.CommitmentsState.Pending | src/store/slices/commitmentsSlice.ts:99-102 | loading, error cleared, list unchanged |
| CommitmentsSlice.CommitmentsState.Rejected | src/store/slices/commitmentsSlice.ts:107-110 | not loading, with the error's message or the fallback, and the list unchanged |
| CommitmentsSlice.CommitmentsState.FetchAllFulfilled | src/store/slices/commitmentsSlice.ts:103-106 | the list replaced by the payload |
| CommitmentsSlice.CommitmentsState.FetchByIdFulfilled | src/store/slices/commitmentsSlice.ts:114-124 | a found commitment is upserted; none changes nothing |
| CommitmentsSlice.CommitmentsState.CreateFulfilled | src/store/slices/commitmentsSlice.ts:132-135 | the payload appended |
| CommitmentsSlice.CommitmentsState.UpdateFulfilled | src/store/slices/commitmentsSlice.ts:147-156 | the payload upserted |
| CommitmentsSlice.CommitmentsState.MarkDoneFulfilled | src/store/slices/commitmentsSlice.ts:161-166 | the payload replaces its commitment only when present |
| CommitmentsSlice.CommitmentsState.DeleteFulfilled | src/store/slices/commitmentsSlice.ts:169-171 | exactly the other ids kept |
| CommitmentsSlice.DispatchFetchCommitments | src/store/slices/commitmentsSlice.ts:99-106 | after the fetch the state holds the repository's list, not loading, with no error |
| CommitmentsSlice.DispatchFetchCommitmentById | src/store/slices/commitmentsSlice.ts:114-124 | the state upserts the repository's commitment, if found |
| CommitmentsSlice.DispatchCreateCommitment | src/store/slices/commitmentsSlice.ts:128-139 | the stored commitment is appended to the state and gets its initial reminders |
| CommitmentsSlice.DispatchUpdateCommitment | src/store/slices/commitmentsSlice.ts:143-160 | a failed update leaves the stores and the list alone and records its message; a successful one is upserted into the state |
| CommitmentsSlice.DispatchDeleteCommitment | src/store/slices/commitmentsSlice.ts:169-171 | reminders and commitment deleted; the state keeps exactly the other ids |
| CommitmentsSlice.DispatchMarkCommitmentDone | src/store/slices/commitmentsSlice.ts:161-166 | a missing id changes nothing; otherwise the commitment is done in the state, and its pending reminders are cancelled |
| HomeScreen.WithStatus | src/screens/HomeScreen.tsx:39-41 | exactly the commitments with that status |
| HomeScreen.SectionsPartition | src/screens/HomeScreen.tsx:39-41 | the active, done and expired sections split the list: together they hold every commitment exactly once |
| HomeScreen.SortedActive | src/screens/HomeScreen.tsx:42 | the active commitments, ordered by target, the undated ones last |
| HomeScreen.NextReminderDate | src/screens/HomeScreen.tsx:60-65 | none exactly when there is no pending reminder; otherwise the earliest pending date |
| HomeScreen.DaysUntilForUrgency | src/screens/HomeScreen.tsx:68-73 | days to the target when there is one, else to the next pending reminder, else none |
| HomeScreen.UrgencyColor | src/screens/HomeScreen.tsx:75-83 | ok, soon or urgent exactly as the open-ended override and the bands decide |
| HomeScreen.PastTargetIsUrgent | src/screens/HomeScreen.tsx:75-83 | a commitment whose target has passed is always shown urgent |
| HomeScreen.LastNonOpenEndedIndex | src/screens/HomeScreen.tsx:85-91 | -1 exactly when every commitment is open-ended; otherwise the last index that is not |
| DetailScreen.AddControlFor | src/screens/CommitmentDetailScreen.tsx:319-336 | the add button exactly when under 3 snoozes and under 4 pending; otherwise the hint of the limit reached |
| DetailScreen.HandleAddSnooze | src/screens/CommitmentDetailScreen.tsx:97-106 | opens the modal exactly when there is a commitment and both limits are unreached; an alert only ever says "Maximum 4 reminders allowed." |
| DetailScreen.AddButtonOpensModal | src/screens/CommitmentDetailScreen.tsx:97-106 | tapping a shown add button always opens the modal |
| DetailScreen.SnoozeSaveCheck | src/screens/CommitmentDetailScreen.tsx:108-111 | refused for 4 pending, or else for a pending snooze on the same day; no other error |
| DetailScreen.SnoozeSaveKeepsLimits | src/screens/CommitmentDetailScreen.tsx:108-117 | an accepted snooze keeps pending reminders at most 4, and pending snoozes one per day |
| DetailScreen.Reload | src/screens/CommitmentDetailScreen.tsx:62-66 | the shown list is the commitment's records |
| DetailScreen.HandleAddSnoozeSave | src/screens/CommitmentDetailScreen.tsx:108-123 | a refused save changes nothing; an accepted one appends a pending snooze record and reloads |
| DetailScreen.SnoozeCount | src/screens/CommitmentDetailScreen.tsx:68 | at most one per reminder shown; zero exactly when none of them is a snooze |
| DetailScreen.PendingCount | src/screens/CommitmentDetailScreen.tsx:70-71 | at most one per reminder shown; zero exactly when none of them is pending |
| DetailScreen.CountsAppend | src/screens/CommitmentDetailScreen.tsx:68-71 | a list grown by one reminder counts one more snooze, or one more pending reminder, exactly when it is one |
| DetailScreen.HasSnoozeOnSameDay | src/screens/CommitmentDetailScreen.tsx:74-81 | a same-day clash needs a snooze and a pending reminder among those shown |
| DetailScreen.SnoozeSameDayExcluding | src/screens/CommitmentDetailScreen.tsx:74-81 | excluding an id is the same as checking only the reminders with another id |
| DetailScreen.HasRemindersLaterThan | src/screens/CommitmentDetailScreen.tsx:165-168 | false exactly when the date is at or after every one of the other reminders |
| DetailScreen.OfCommitmentAppend | src/screens/CommitmentDetailScreen.tsx:112-118 | the reloaded list grows by the created record exactly when it is the commitment's |
| DetailScreen.SortedPendingReminders | src/screens/CommitmentDetailScreen.tsx:157-159 | the pending reminders, sorted by date |
| DetailScreen.OtherPendingReminders | src/screens/CommitmentDetailScreen.tsx:161-164 | exactly the pending reminders other than the selected one |
| DetailScreen.EditDecision | src/screens/CommitmentDetailScreen.tsx:187-210 | closes without a selection; a snooze on another pending snooze's day is refused; a date before another pending reminder offers regeneration; otherwise it saves |
| DetailScreen.Rescheduled | src/screens/CommitmentDetailScreen.tsx:211-213 | `update` with only `scheduledAt` moves that one record, or changes nothing |
| DetailScreen.EditSaveOutcome | src/screens/CommitmentDetailScreen.tsx:187-215 | the decision of the handler, except that a save of a reminder no longer in the store fails with `update`'s not-found error |
| DetailScreen.HandleReminderDateEditSave | src/screens/CommitmentDetailScreen.tsx:187-216 | only a save changes the store: it moves the selected reminder, updates the selection and reloads; when the reminder is gone, the handler stops at `update`'s error with the store, the list and the selection unchanged |
| DetailScreen.DeleteReminder | src/screens/CommitmentDetailScreen.tsx:138-145 | deletes the record with that id and reloads |
| DetailScreen.WithoutPendingOf | src/screens/CommitmentDetailScreen.tsx:173-177 | exactly the records that are not that commitment's pending ones |
| DetailScreen.PendingIdsSelectPending | src/screens/CommitmentDetailScreen.tsx:172-177 | deleting the ids of the fetched pending reminders deletes exactly that commitment's pending ones |
| DetailScreen.RegenerateReminders | src/screens/CommitmentDetailScreen.tsx:170-185 | the loop deletes the commitment's pending reminders and then adds its fresh ladder |
| DetailScreen.RegeneratedPendingIsLadder | src/screens/CommitmentDetailScreen.tsx:170-185 | after regeneration the commitment's pending reminders are exactly its new ladder, in order |
| FormSchema.SchemaIssues | src/utils/validation.ts:4-10 | no issues exactly when the title is 1 to 100 characters and the description at most 500; each limit has its own message |
| FormSchema.TitleAtLimitParses | src/utils/validation.ts:6 | a title of exactly 100 characters parses, though the message says "less than 100" |
| FormSchema.OneIssuePerField | src/utils/validation.ts:6-7 | at most one issue per field |
| CommitmentForm.FindTemplate | src/screens/AddEditCommitmentScreen.tsx:34-39 | one of the four templates with that id, or none exactly when no template has it |
| CommitmentForm.SelectTemplate | src/screens/AddEditCommitmentScreen.tsx:79-88 | a known template sets the selection and type, and (unless it is `custom`) the title; an unknown id changes nothing |
| CommitmentForm.TemplateEffects | src/screens/AddEditCommitmentScreen.tsx:34-39 | passport, insurance and warranty are expirations titled by name; custom is a deadline that keeps the title |
| CommitmentForm.SelectTemplateIdempotent | src/screens/AddEditCommitmentScreen.tsx:79-88 | choosing a template twice is choosing it once |
| CommitmentForm.DateInputChange | src/screens/AddEditCommitmentScreen.tsx:90-103 | the text is kept; a valid `yyyy-MM-dd` date sets the target and clears its error; an empty text clears the target; anything else leaves the target as it was |
| CommitmentForm.ClearingClearsTarget | src/screens/AddEditCommitmentScreen.tsx:100-101 | clearing the field always clears the target |
| CommitmentForm.TargetError | src/screens/AddEditCommitmentScreen.tsx:108-120 | required exactly for a dated type without a target; "must be in the future" exactly for a target on an earlier day than today |
| CommitmentForm.TodayIsAllowed | src/screens/AddEditCommitmentScreen.tsx:112-120 | a target on today's date passes, whatever its time |
| CommitmentForm.DescriptionValue | src/screens/AddEditCommitmentScreen.tsx:126 | `trim() \|\| null`: none exactly when the trimmed text is empty |
| CommitmentForm.NextData | src/screens/AddEditCommitmentScreen.tsx:147-153 | an open-ended type passes no target; the source is template exactly when one was chosen |
| CommitmentForm.LastIssueFor | src/screens/AddEditCommitmentScreen.tsx:135-137 | the position of the last issue about a field |
| CommitmentForm.OverlayLastWins | src/screens/AddEditCommitmentScreen.tsx:135-137 | a field ends up with its last issue's message, or keeps what it had |
| CommitmentForm.ApplyIssues | src/screens/AddEditCommitmentScreen.tsx:134-138 | the `forEach` loop writes each issue over the errors, a later issue winning |
| CommitmentForm.Validate | src/screens/AddEditCommitmentScreen.tsx:105-142 | valid exactly when the schema passes and the target rule holds; the target error survives the schema's issues |
| CommitmentForm.HandleNext | src/screens/AddEditCommitmentScreen.tsx:144-159 | passes data on exactly when the form validates; that data then has a 1 to 100 character title, a bounded description, and a target exactly for a dated type, not before today |
| Text.DigitIsNotSpace | src/components/ReminderDateModal.tsx:51-52 | a digit is neither white space nor a colon |
| Text.DigitsValue | src/components/ReminderDateModal.tsx:62-66 | the decimal value of a digit string |
| Text.TrimStart | src/components/ReminderDateModal.tsx:50 | the suffix after the leading white space |
| Text.TrimEnd | src/components/ReminderDateModal.tsx:50 | the prefix before the trailing white space |
| Text.Trim | src/components/ReminderDateModal.tsx:50 | `trim()`: the middle of the text, with only white space cut from either end |
| Text.TrimIsBothEnds | src/components/ReminderDateModal.tsx:50 | trimming both ends at once equals cutting the leading white space, then the trailing white space |
| Text.TrimmedIsFixed | src/components/ReminderDateModal.tsx:50 | text without white space at its ends is its own trim |
| Text.RemoveSpaces | src/components/ReminderDateModal.tsx:51-52 | `replace(/\s/g, '')` keeps exactly the characters that are not white space |
| Text.RemoveSpacesOfDigits | src/components/ReminderDateModal.tsx:51-52 | digits pass through unchanged |
| Text.PadStart2 | src/components/ReminderDateModal.tsx:51-52 | `padStart(2, '0')` pads short text with zeros in front and leaves longer text alone |
| Text.Split | src/components/ReminderDateModal.tsx:50 | `split(':')` gives at least one piece, and no piece holds the separator |
| Text.JoinSplit | src/components/ReminderDateModal.tsx:50 | joining the pieces gives back the text |
| Text.SplitJoin | src/components/ReminderDateModal.tsx:50 | pieces without the separator split back apart after joining |
| Calendar.DaysInMonth | src/components/ReminderDateModal.tsx:62-66 | 28 to 31 days; 29 exactly for February of a leap year |
| Calendar.CivilAnchors | src/components/ReminderDateModal.tsx:62-66 | the day count starts at 1970-01-01, and 2000-02-29 and 2000-03-01 are consecutive days |
| Calendar.NextDayInMonth | src/components/ReminderDateModal.tsx:62-66 | the next date of a month is the next day number |
| Calendar.CivilInstantDay | src/components/ReminderDateModal.tsx:62-66 | every clock time of a date lies on that date's calendar day |
| ReminderDateModal.HourText | src/components/ReminderDateModal.tsx:50-51 | the hour text has at least two characters, none of them white space or a colon, each from the first piece or a padding zero |
| ReminderDateModal.MinuteText | src/components/ReminderDateModal.tsx:50-52 | the same for the second piece; exactly "00" when the trimmed time has no colon |
| ReminderDateModal.TimeString | src/components/ReminderDateModal.tsx:53 | hour and minute text around one colon, with the `HH:mm` shape exactly when both are two digits |
| ReminderDateModal.RawTimeOk | src/components/ReminderDateModal.tsx:58 | a time the loose pattern accepts has 2 to 5 characters, starts with a digit and has its colon second or third |
| ReminderDateModal.PaddedTimeOk | src/components/ReminderDateModal.tsx:58 | every time of the strict shape also has the loose shape |
| ReminderDateModal.RawTimeImpliesPadded | src/components/ReminderDateModal.tsx:58 | any time the loose pattern accepts also passes the strict pattern once padded |
| ReminderDateModal.ExtraPiecesAccepted | src/components/ReminderDateModal.tsx:50-58 | "1:2:3" fails the loose pattern but passes once padded: pieces after the second are dropped |
| ReminderDateModal.SameDateSameDay | src/components/ReminderDateModal.tsx:62-66 | entries with the same date fall on the same calendar day, whatever their times |
| ReminderDateModal.CheckEntry | src/components/ReminderDateModal.tsx:48-78 | the checks in their order: date format, time format, invalid date, not in the future, after the target; each error is reported exactly when its check is the first to fail; an accepted instant is after `now` and not after the limit |
| ReminderDateModal.LimitItselfAccepted | src/components/ReminderDateModal.tsx:75-78 | an entry exactly at the target limit is accepted |
| ReminderDateModal.HandleSave | src/components/ReminderDateModal.tsx:48-86 | a failed check keeps the modal open with its message; otherwise a string from `onSave` is shown, an `onSave` that throws leaves it open with the error it cleared, and no reply closes it |
| ReminderDateModal.ModalReply | src/screens/CommitmentDetailScreen.tsx:187-216 | the edit handler rejects exactly when its save failed, returns a string exactly when it refused, and returns nothing otherwise |
| ReminderDateModal.EditModalOutcome | src/screens/CommitmentDetailScreen.tsx:187-216 | wired to the edit handler, the modal closes exactly when the edit is neither refused nor failed; a refused same-day snooze shows its message, a stale selection leaves it open with no message; the regeneration branch closes it without saving |
| ConfirmScreen.InitialSchedule | src/screens/ConfirmCommitmentScreen.tsx:55-72 | the draft's ladder anchored at its target or `now`, at most four dates, ascending, on distinct days |
| ConfirmScreen.OpenSchedule | src/screens/ConfirmCommitmentScreen.tsx:56-67 | an open-ended draft is scheduled 14, 44 and 74 days from now |
| ConfirmScreen.UntargetedSchedule | src/screens/ConfirmCommitmentScreen.tsx:66-67 | a dated draft without a target is anchored at `now`, so its schedule is empty |
| ConfirmScreen.SortedDates | src/screens/ConfirmCommitmentScreen.tsx:86-88 | the dates sorted ascending, as a permutation |
| ConfirmScreen.FakeCommitment | src/screens/ConfirmCommitmentScreen.tsx:56-65 | the draft as an active commitment created now, with no review date, so its ladder anchor is 14 days from now for an open loop and its target otherwise |
| ConfirmScreen.ExcludingNarrows | src/screens/ConfirmCommitmentScreen.tsx:130-133 | excluding a position only turns a clash off when that position is the one date on the day; a position past the end excludes nothing |
| ConfirmScreen.SameDayIsMembership | src/screens/ConfirmCommitmentScreen.tsx:130-133 | with no exclusion, the same-day check asks whether any date shares the day |
| ConfirmScreen.AddReminderSave | src/screens/ConfirmCommitmentScreen.tsx:135-146 | refused at four dates, and otherwise exactly when a date shares the day; a saved date is inserted in sorted order |
| ConfirmScreen.AddKeepsOnePerDay | src/screens/ConfirmCommitmentScreen.tsx:139-146 | adding keeps one date per day |
| ConfirmScreen.EditReminderSave | src/screens/ConfirmCommitmentScreen.tsx:153-167 | no selection does nothing; refused exactly when another row shares the day; otherwise the selected row of the sorted list becomes the new date and every other row keeps its date and position |
| ConfirmScreen.EditKeepsOnePerDay | src/screens/ConfirmCommitmentScreen.tsx:153-167 | editing swaps one date for the new one and keeps one date per day |
| ConfirmScreen.DeleteReminderAt | src/screens/ConfirmCommitmentScreen.tsx:120-128 | the row at the index of the sorted list is removed; an index past the end only sorts |
| ConfirmScreen.DeleteKeepsOnePerDay | src/screens/ConfirmCommitmentScreen.tsx:102-128 | deleting keeps one date per day |
| ConfirmScreen.StepRules | src/screens/ConfirmCommitmentScreen.tsx:102-167 | any one schedule action keeps at most four dates, one per day |
| ConfirmScreen.ScheduleRules | src/screens/ConfirmCommitmentScreen.tsx:102-167 | any sequence of actions keeps at most four dates, one per day |
| ConfirmScreen.ScreenScheduleRules | src/screens/ConfirmCommitmentScreen.tsx:69-167 | from the initial schedule, whatever the user does, the schedule holds at most four dates, no two on the same day |
| ConfirmScreen.LadderRecords | src/screens/ConfirmCommitmentScreen.tsx:183-190 | one pending ladder record per reviewed date, in order |
| ConfirmScreen.WithoutCommitmentPushed | src/screens/ConfirmCommitmentScreen.tsx:202-203 | the ladder reminders just created for a commitment vanish again when its reminders are deleted |
| ConfirmScreen.HandleConfirm | src/screens/ConfirmCommitmentScreen.tsx:169-215 | editing writes the fields back and replaces the reminders with the reviewed dates, even when the update fails; creating stores the commitment, whose reminders end up exactly the reviewed dates |

## Left out

- User interface: rendering, navigation, alerts, action sheets, and the visibility flags of modals and sheets.
- Delays and async interleaving: every `await` runs to completion before the next step, so concurrent handlers are not modelled.
- Device storage: it is a field holding the last saved list. A failing read or write, with its `console.error` fallback, is not modelled.
- Time zones and daylight saving:
  - Calendar days and the date parse are taken in UTC.
  - `setHours(0, 0, 0, 0)` and `isSameDay` use local time in the app.
- ISO strings: instants are integer milliseconds, so `formatISO` and `parseISO` are the identity. The text of `format` and `formatDistanceToNow` is a parameter.
- Several clock reads: the several `new Date()` calls of one operation are one `now` parameter.
- `new Date(text)` in the add/edit form: its validity depends on the JavaScript engine, so it is the parameter `jsDate`.
- `generateId`: `src/utils/id` is not part of this model. It is modelled by `Types.FreshId`.
- `Reminder.snoozedUntil`: dropped, because the core never reads or writes it.
- Patch keys set to `undefined`: a key present with the value `undefined` is not distinguished from an absent key.
- String lengths: a title or description length is counted in characters, not in UTF-16 code units.
- `useEffect` handlers: the resets of the form, the modal and the schedule are not modelled.
- `ReminderDateModal` `handleDelete`: it only forwards to the screen's delete handler and closes, and that handler is `DetailScreen.DeleteReminder`.
- ReminderDateModal.HandleSave: `onSave` is modelled as a pure function from the instant to its reply: resolved with a string or nothing, or rejected. The store change it makes is modelled by the screen handler it stands for. A rejection is an unhandled promise rejection in the app; the model records only that the modal stays open.
- `Reminder.source`: optional in the type, but every reminder the core writes carries one (the ladder records and the confirm screen set the ladder, the snooze dialog sets snooze, and the seed defaults it to the ladder), so the model makes it a required field.
- ConfirmScreen.EditReminderSave: requires a selected index inside the list. The screen only hands out indices of displayed rows, and a larger index would make a sparse array in JavaScript.
- Sign-in, onboarding, the expired screen and the authentication slice: they are outside the reminder and urgency core.
- Zod schema types: the enum and nullable-string checks always pass, because `FormData`'s types guarantee them.
