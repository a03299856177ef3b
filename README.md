# Daily journal: entry store and reminder scheduler

A Dafny model of the two stateful parts of a small journaling app (Expo / React Native):

- **The journal entry store** (`app/today.tsx`, `app/journal.tsx`). One entry `{date, answer}` is stored per UTC calendar day under `@journal_<day>`, and a day index is stored under `@journal_days`.
  - Saving rejects an answer that is blank after trimming. It then writes the entry, reads the index and appends the day if it is missing.
  - The history view walks the index. It skips days whose payload is missing, tags each entry with its `dateKey` and sorts the list newest first.
- **The daily reminder scheduler** (`utils/notifications.ts`).
  - `manageNotifications` cancels every scheduled notification. It then either stores `false`, or stores `true` and an unpadded `"h:m"` time and schedules one repeating daily trigger. The time defaults to 18:00.
  - `scheduleDailyNotification` cancels, schedules and stores the returned id.
  - A permission helper asks only when permission is not already granted.

How the model is built:

- AsyncStorage and the platform's notification queue are modelled as the fields of two classes, `JournalStore.Journal` and `Notifications.Scheduler`.
- Each awaited call is one step.
- The following are parameters: the current instant, the id the platform hands out, the user's answer to a permission prompt, and which calls throw. For `saveAnswer` this is a set of calls, because its index read is caught and the save goes on, so a failed read can be followed by a failed index write. For the notification functions it is one call, because every throw ends the call.
- Each method that changes state is proved equal to a specification function of the old state (`SaveEffect`, `Manage`, `ScheduleDaily`). The lemmas state what the source promises about those functions.
- The history listing (`JournalHistory.LoadEntries`) is a loop with invariants, followed by a stable newest-first sort.

Files:

- `optional.dfy`: the `Option` type.
- `js_text.dfy`: JavaScript's `trim` and decimal number text.
- `journal_store.dfy`: the day key, the storage, saving, lookup, and the `Journal` class.
- `journal_history.dfy`: the history listing.
- `notifications.dfy`: the scheduler and the permission decision.

Where the code and the written design of the app disagree, the model follows the code:

- The day key is the **UTC** date: the text before `T` in `toISOString()`. It is not the local date.
- `manageNotifications` never stores a notification id. Only `scheduleDailyNotification` does.
- At launch, `manageNotifications()` is called with no arguments. This always enables an 18:00 reminder; it does not re-read the stored setting.
- Every failure inside `manageNotifications` makes it return `null`. There is no separate "save failed" signal.
- If reading the index fails during a save, the index is rewritten as `[today]`. Every earlier day drops out of the history, although its entry is still stored. `IndexReadFailureDropsOtherDays` proves this. The store is therefore not merely "briefly lagging" in that case.

## Model

| member | source | states |
|---|---|---|
| `JsText.Trim` | app/today.tsx:53-64 | `answer.trim()` is no longer than the input and neither starts nor ends with JavaScript whitespace |
| `JsText.TrimIsSlice` | app/today.tsx:53-64 | `answer.trim()` is a slice of the input with only whitespace cut from each end |
| `JsText.TrimStartIsSuffix` | app/today.tsx:53-63 | removing leading whitespace leaves the longest suffix that does not start with whitespace, having cut only whitespace |
| `JsText.TrimEndIsPrefix` | app/today.tsx:53-63 | removing trailing whitespace leaves the longest prefix that does not end with whitespace, having cut only whitespace |
| `JsText.TrimBlankIff` | app/today.tsx:53 | the blank check `answer.trim() === ""` holds exactly when every character of the answer is JavaScript whitespace |
| `JsText.TrimIdempotent` | app/today.tsx:63 | trimming a stored (already trimmed) answer again changes nothing |
| `JsText.Decimal` | utils/notifications.ts:118 | `${n}` is a non-empty run of digits with no leading zero (single digit exactly below 10) |
| `JsText.DecimalRoundTrip` | utils/notifications.ts:118 | the decimal text of a number reads back as that number |
| `JournalStore.KeyTextsDistinct` | app/today.tsx:39-74 | `@journal_<day>` and `@journal_days` name different keys for every day except the text `days`, so entry and index storage are kept apart |
| `JournalStore.DayKey` | app/today.tsx:22-25 | `split('T')[0]` is the longest prefix without a `T`, followed by a `T` when shorter than the input |
| `JournalStore.DayKeyOfTimestamp` | app/today.tsx:24 | the day key of `"<date>T<time>"` is `<date>` |
| `JournalStore.ReadDays` | app/today.tsx:87-95 | the day index reads as `[]` when the key is absent or the read throws, and as the stored list otherwise |
| `JournalStore.LookupDay` | app/today.tsx:35-49 | a day's lookup yields its payload, no entry (null, not an error) when nothing is stored, and an error only when the read throws |
| `JournalStore.SaveRejectsBlank` | app/today.tsx:53-56 | a save is rejected exactly when the answer is blank after trimming, and then storage is unchanged and nothing is written |
| `JournalStore.SaveStoresTrimmedAnswer` | app/today.tsx:58-79 | a save succeeds exactly when the answer is not blank and no needed write throws; it stores `{now, answer.trim()}` under today's key and leaves today in the index |
| `JournalStore.SaveKeepsOtherDays` | app/today.tsx:66-75 | a save changes no other day's entry, and changes nothing at all if the entry write throws |
| `JournalStore.SaveWritesOnlyTodaysKeys` | app/today.tsx:66-75 | a save writes nothing, or today's entry key, or today's entry key then the index key; no other key |
| `JournalStore.SaveAppendsTodayOnce` | app/today.tsx:71-75 | the index is written only to append today to the list just read (today absent from it); a day already indexed is neither appended nor rewritten |
| `JournalStore.SaveKeepsNoDuplicates` | app/today.tsx:72-74 | a save never puts a day in the index twice |
| `JournalStore.SaveKeepsIndexed` | app/today.tsx:68-75 | if every stored entry is indexed, a save keeps it so unless its entry write succeeds and then either the index read throws or the index write throws for a day not yet indexed |
| `JournalStore.SaveIndexWriteFailureKeepsEntry` | app/today.tsx:68-82 | when the index write is reached and throws, the save reports failure but today's entry stays written, the index is unchanged, only the entry key was written, and a day not indexed before leaves a stored entry outside the index |
| `JournalStore.ReadAndWriteFailureFailsIndexedDay` | app/today.tsx:71-95 | a swallowed index-read failure followed by a throwing index write fails the save even for an already indexed day, with the entry written and the index untouched |
| `JournalStore.IndexReadFailureDropsOtherDays` | app/today.tsx:71-95 | when the index read throws during a save and the index write goes through, the index becomes `[today]` and every other stored day is no longer indexed |
| `JournalStore.SaveTwiceSameDay` | app/today.tsx:68-75 | saving twice on the same day leaves one entry for that day, holding the second answer and time; the index and written keys show no second element |
| `JournalStore.LookupAfterSave` | app/today.tsx:39-68 | after a successful save, looking up today's key finds the trimmed answer with the save's timestamp |
| `JournalStore.Journal.GetDaysWithEntries` | app/today.tsx:87-95 | reading the index from the store yields the stored list, or `[]` when it is absent or the read throws |
| `JournalStore.Journal.CheckTodaysEntry` | app/today.tsx:35-49 | the lookup of today's key in the store agrees with `LookupDay` |
| `JournalStore.Journal.SaveAnswer` | app/today.tsx:52-84 | the step-by-step save leaves the store, the result and the log of written keys as `SaveEffect` says, and keeps the index free of duplicates |
| `JournalHistory.Collect` | app/journal.tsx:43-51 | the loop collects at most one element per indexed day, each an indexed day with a payload, carrying that payload's date and answer tagged with the day |
| `JournalHistory.CollectFollowsPresentDays` | app/journal.tsx:43-51 | the collected list has exactly one element per indexed day with a payload, in index order, so exactly the days with a missing payload are skipped |
| `JournalHistory.CollectIsComplete` | app/journal.tsx:43-50 | every indexed day with a payload is collected |
| `JournalHistory.CollectKeysDistinct` | app/journal.tsx:43-50 | an index without duplicates yields a list in which no `dateKey` repeats |
| `JournalHistory.InsertByDate` | app/journal.tsx:54 | inserting after every element at least as new keeps a newest-first list so, adding exactly that element |
| `JournalHistory.SortNewestFirst` | app/journal.tsx:54 | the sort on `new Date(b.date) - new Date(a.date)` yields the same entries (a permutation) ordered by date, newest first |
| `JournalHistory.LoadEntries` | app/journal.tsx:37-60 | the listing fails exactly when an indexed payload read throws; otherwise it is the collected entries sorted newest first, no longer than the index, each with an indexed `dateKey` whose payload's date and answer it carries; an absent or empty index gives `[]`; when the store's index has no duplicates, no day is listed twice |
| `JournalHistory.ListingProperties` | app/journal.tsx:43-54 | the history holds one entry per indexed day with a payload, each carrying an indexed day's stored date and answer |
| `JournalHistory.ListsEveryStoredDay` | app/journal.tsx:40-54 | when every stored day is indexed, the history lists exactly the stored days |
| `JournalHistory.ListsEachDayOnce` | app/journal.tsx:40-54 | when the index has no duplicates, no day appears twice in the history |
| `Notifications.TimeStringRoundTrip` | utils/notifications.ts:114-118 | the stored `"h:m"` text reads back as the hour and minute it was made from |
| `Notifications.ManageDisabled` | utils/notifications.ts:91-101 | `manageNotifications(false)` returns null and leaves nothing scheduled, with `false` stored and time and id untouched, from any state, including an already disabled one |
| `Notifications.ManageEnabledSchedulesOne` | utils/notifications.ts:103-138 | for any `enabled` other than false, a call with no failure leaves exactly one repeating trigger at the valid Date's hour and minute or at 18:00, stores `true` then the unpadded `"h:m"`, and returns the id |
| `Notifications.ManageLeavesAtMostOne` | utils/notifications.ts:94-138 | once the cancel has run, at most one trigger remains, the one this call scheduled |
| `Notifications.ManagePartialFailure` | utils/notifications.ts:119-155 | for an enabling call, each throwing step keeps the steps before it and returns null: a failed time write leaves `true` beside the old time text; a failed listing leaves the reminder scheduled and both settings written |
| `Notifications.ManageFailureReturnsNull` | utils/notifications.ts:120-155 | the call returns an id exactly when enabled and nothing throws; a failing schedule leaves `true` and the time stored with nothing scheduled; the id setting is never written |
| `Notifications.ManageIdempotent` | utils/notifications.ts:91-138 | applying the same setting twice ends in the same state as applying it once |
| `Notifications.LaunchSchedulesSixPm` | app/_layout.tsx:24-27 | the launch call with no arguments schedules the 18:00 reminder and stores `"18:0"` |
| `Notifications.ScheduleDailyLeavesOne` | utils/notifications.ts:53-82 | `scheduleDailyNotification` with no failure leaves exactly one repeating trigger at the given hour and minute, stores and returns its id, and leaves the other settings alone |
| `Notifications.RegisterForPush` | utils/notifications.ts:29-42 | permission is asked for exactly when the existing status is not granted, and a token is returned exactly when the final status is granted |
| `Notifications.CheckNotificationPermissions` | utils/notifications.ts:159-167 | the check is true exactly when the status is granted, and false when the query throws |
| `Notifications.RegistrationAgreesWithCheck` | utils/notifications.ts:29-42 | a registration yields a token exactly when a check made right after it reports granted; once permission is granted, a later registration does not ask again |
| `Notifications.Scheduler.CancelAllScheduledNotifications` | utils/notifications.ts:85-87 | the platform queue is emptied and the settings are unchanged |
| `Notifications.Scheduler.ManageNotifications` | utils/notifications.ts:91-156 | the step-by-step call leaves the queue, the settings, the return value and the written keys as `Manage` says |
| `Notifications.Scheduler.ScheduleDailyNotification` | utils/notifications.ts:53-82 | the step-by-step call leaves the queue, the id setting and the return value as `ScheduleDaily` says |

## Left out

- The UI layer is not modelled: rendering, styles, React state, loading flags, `Alert` pop-ups and the edit toggle (`editEntry`).
- `app/settings.tsx` is not modelled. It only writes and reads `@notifications` and `@notificationsTime`, which nothing else reads, and it never calls the scheduler.
- From `app/_layout.tsx`, only the launch call `manageNotifications()` is modelled. Listener subscription and navigation are not.
- Foreign platform calls are not modelled: fetching the Expo push token (taken as a parameter of `RegisterForPush`), setting up the Android channel, and the foreground notification handler.
- The diagnostic listing of scheduled notifications is left out. Only the possibility that it throws (and so makes the call return null) is modelled.
- The clock, timezone and locale are inputs. An instant is the `toISOString` text paired with its millisecond value. `getHours`/`getMinutes` are given as an hour and a minute.
- `Journal.SaveAnswer`: `saveAnswer` reads the clock twice, once for the key and once for the timestamp. The model uses one instant for both, so a save straddling UTC midnight is not captured.
- `new Date(date)` on text it cannot parse (which makes the sort comparator NaN) is not modelled.
- Serialisation is not modelled. Stored values are records, and `JSON.parse(JSON.stringify(x)) = x` is assumed. Text that does not parse is covered only as a read that throws. An index holding something other than a list is not modelled.
- A stored payload that is the empty string (falsy in `if (entryJson)`) is not modelled, because payloads are JSON objects.
- Entries and the index are kept in separate fields. This relies on a day key never being the text `days` (see `KeyTextsDistinct`).
- `SortNewestFirst`: the engine's in-place `Array.prototype.sort` is modelled as a stable insertion sort over a sequence. Only the order and the permutation are proved, not stability.
- `Scheduler.ScheduleDailyNotification` takes a valid hour and minute. An invalid `Date` (NaN hours) is not modelled.
- Overlapping async calls are not modelled. Each awaited call is one sequential step, so interleaved saves or settings changes are out of scope.
