# VaccinationTracker in Dafny

This project models the core of VaccinationTracker, a web application in which
parents keep the vaccination records of their children. It covers:

- the recommended-dose table of ten vaccines;
- the schedule generator, which dates each dose for a child's birth date;
- the dose labels and the completion-percentage calculator;
- the due-status, relative-time and age texts;
- the in-memory store of users, children and vaccination records;
- the ownership guard chain of the REST handlers;
- the pure helpers of four pages: the upcoming/completed tabs, the ordinal
  suffix and age label, the recommendations, and the calendar filter.

Modules follow the source files:

| module | models |
|---|---|
| `Dates` | calendar dates with a zero-based month, JavaScript's `setMonth` rollover (`AddMonths`) and the day count behind `getTime()` (`DayNumber`) |
| `Text`, `Seqs`, `Sorting`, `Wrappers` | shared helpers: `${n}` rendering and pluralisation, ASCII `toLowerCase`, `filter`, `Array.prototype.sort` with a key-difference comparator (an in-place insertion sort on an array), `Option` |
| `VaccinationData` | `vaccination-data.ts` |
| `DateUtils` | `date-utils.ts` |
| `Schema` | the record shapes of `shared/schema.ts` and the shallow object merge of an update |
| `Storage` | `storage.ts`, as the class `MemStorage` with three `map` fields and three id counters |
| `Routes` | `routes.ts`: each handler as a method over a `MemStorage`, with its guard as a function |
| `VaccinationList`, `VaccineInfoPage`, `ChildDetailPage`, `CalendarPage` | the helpers of the four page and component files |

The wall clock is a parameter throughout. "Today" is a `Date`, "now" is an
instant in milliseconds, and the due-status and relative-time functions take
the whole-day difference their callers compute.

A JavaScript `Map` iterates in insertion order. The store inserts a new key
only under a counter that only grows, and `set` on a present key keeps the
key's place. So the store's queries list records in ascending id order, and
the model states each of them through `Storage.Collect`, which lists a map's
entries by ascending key.

Where the code and its documentation differ, the model follows the code:

- The doc comment of `formatChildAge` gives "15 months" as an example output.
  The code cannot produce it, because the month count after `calculateAge` is
  at most 11 (`DateUtils.CalculateAge`, `DateUtils.FormatChildAgeCases`).
- `calculateVaccinationProgress` is documented as returning 0-100 from the
  child's age. It returns 100, not 0, when nothing is due yet, which is the
  case for a birth date in a later month (`ProgressBeforeBirth`).
- The upcoming query's window starts at the current instant, while a
  scheduled date stands for midnight. A record scheduled for today is
  therefore not listed once the day has begun (`UpcomingSkipsToday`).

The two nested loops of `generateVaccinationSchedule` and of
`calculateVaccinationProgress` are modelled with their loops. Each loop walks a
table passed as a parameter (`TableEntries`, `CountDoses`), and the callers
pass the fixed table.

## Model

| member | source | states |
|---|---|---|
| Dates.DaysInMonth | VaccinationTracker/client/src/lib/date-utils.ts:17-18 | a month has 28 to 31 days, and 29 exactly for February of a Gregorian leap year |
| Dates.AddMonths | VaccinationTracker/client/src/lib/vaccination-data.ts:155-156 | `setMonth(getMonth() + k)` never raises the day of the month, and when it keeps the day it lands exactly k months later |
| Dates.AddMonthsZero | VaccinationTracker/client/src/lib/vaccination-data.ts:155-156 | a dose at 0 months is scheduled on the birth date itself |
| Dates.AddMonthsIsMakeDay | VaccinationTracker/client/src/lib/vaccination-data.ts:155-156 | the date reached is the first day of the target month plus the original day minus one, with any overflow spilling into the next month |
| Dates.MonthStartStep | VaccinationTracker/client/src/lib/vaccination-data.ts:155-156 | consecutive month starts lie exactly one month length apart |
| Dates.LeapDayCount | VaccinationTracker/client/src/lib/vaccination-data.ts:169 | the day count of a year is 366 for a leap year and 365 otherwise |
| Dates.MonthStartIncreasing | VaccinationTracker/client/src/lib/vaccination-data.ts:155-156 | each later month starts at least 28 days after an earlier one |
| Dates.AddMonthsMonotone | VaccinationTracker/client/src/lib/vaccination-data.ts:155-156 | adding more months never gives an earlier date |
| Text.NatToString | VaccinationTracker/client/src/lib/vaccination-data.ts:179 | `${n}` is a non-empty digit string without a leading zero, one digit exactly below 10 |
| Text.ParseNatToString | VaccinationTracker/client/src/lib/vaccination-data.ts:179 | reading the decimal text back gives the number |
| Text.NatToStringInjective | VaccinationTracker/client/src/lib/vaccination-data.ts:179 | distinct numbers render differently |
| Text.IntToStringInjective | VaccinationTracker/client/src/lib/vaccination-data.ts:179 | distinct integers, negative ones included, render differently |
| Text.PluralReadsBack | VaccinationTracker/client/src/lib/date-utils.ts:95-99 | a pluralised count reads as the number, a space and the unit |
| Text.PluralSingularIff | VaccinationTracker/client/src/lib/date-utils.ts:95-99 | the unit takes a trailing "s" exactly when the count is not 1 |
| Text.ToLower | VaccinationTracker/client/src/pages/child-detail-page.tsx:102 | lower-casing keeps the length, maps each letter A-Z to its own lowercase letter and leaves every other character unchanged |
| Text.ToLowerIdempotent | VaccinationTracker/client/src/pages/child-detail-page.tsx:102 | lower-casing twice is lower-casing once |
| Seqs.FilterMembership | VaccinationTracker/client/src/components/vaccination/vaccination-list.tsx:19-20 | `filter` keeps an element exactly when it is in the list and satisfies the predicate |
| Seqs.FilterIsSubsequence | VaccinationTracker/client/src/pages/calendar-page.tsx:49-58 | `filter` keeps the original order |
| Seqs.FilterPartition | VaccinationTracker/client/src/components/vaccination/vaccination-list.tsx:19-20 | filtering by a predicate and by its negation splits a list: lengths add up and the multisets add up to the whole |
| Seqs.FilterAppend | VaccinationTracker/client/src/lib/vaccination-data.ts:232-242 | filtering distributes over concatenation |
| Seqs.FilterSameMultiset | VaccinationTracker/client/src/pages/child-detail-page.tsx:97-104 | filtering a reordering of a list gives a reordering of the filtered list, multiplicities included |
| Sorting.SortInPlace | VaccinationTracker/client/src/lib/vaccination-data.ts:169 | the array ends non-decreasing by the key and holds the same multiset of elements |
| Sorting.SortedCopy | VaccinationTracker/client/src/components/vaccination/vaccination-list.tsx:23-32 | sorting a new array holding the list gives a sorted permutation of the list |
| Sorting.FilterSorted | VaccinationTracker/client/src/pages/child-detail-page.tsx:100 | removing elements from a sorted list leaves it sorted |
| VaccinationData.DosesOfMembers | VaccinationTracker/client/src/lib/vaccination-data.ts:154 | the inner loop visits a pair exactly when it is the vaccine with one of its own doses |
| VaccinationData.FlattenLength | VaccinationTracker/client/src/lib/vaccination-data.ts:153-154 | the nested walk visits as many pairs as the vaccines list doses |
| VaccinationData.TableDoseCount | VaccinationTracker/client/src/lib/vaccination-data.ts:16-137 | the table holds 30 doses |
| VaccinationData.FlattenAppend | VaccinationTracker/client/src/lib/vaccination-data.ts:153-154 | walking two tables one after the other visits the pairs of the first, then of the second |
| VaccinationData.FlattenDosesFrom | VaccinationTracker/client/src/lib/vaccination-data.ts:153-154 | if every dose of the vaccines is at m months or later, so is every visited pair |
| VaccinationData.DoseOrdinalShape | VaccinationTracker/client/src/lib/vaccination-data.ts:175-180 | every label is the number, a two-letter suffix and " dose" |
| VaccinationData.DoseOrdinalInjective | VaccinationTracker/client/src/lib/vaccination-data.ts:175-180 | distinct dose numbers get distinct labels |
| VaccinationData.DoseOrdinalEleven | VaccinationTracker/client/src/lib/vaccination-data.ts:179 | 11 gets "11th dose" |
| VaccinationData.DoseOrdinalTwentyFirst | VaccinationTracker/client/src/lib/vaccination-data.ts:179 | 21 and 22 get "21th dose" and "22th dose": only 1, 2 and 3 have their own suffix |
| VaccinationData.TableEntries | VaccinationTracker/client/src/lib/vaccination-data.ts:151-166 | the nested loops push exactly the entries of the visited pairs, in visiting order |
| VaccinationData.GenerateVaccinationSchedule | VaccinationTracker/client/src/lib/vaccination-data.ts:144-170 | exactly 30 entries, sorted by date, a permutation of the per-pair entries, each built from a table pair |
| VaccinationData.EntriesComeFromTable | VaccinationTracker/client/src/lib/vaccination-data.ts:158-164 | every entry of a permutation of the per-pair entries is built from some table pair |
| VaccinationData.AgeInMonths | VaccinationTracker/client/src/lib/vaccination-data.ts:217-223 | the age is 0 in the month of birth and negative exactly before it; the day of the month plays no part |
| VaccinationData.DueCount | VaccinationTracker/client/src/lib/vaccination-data.ts:197-198 | the number of due doses never exceeds the number of doses |
| VaccinationData.DoneAtMostDue | VaccinationTracker/client/src/lib/vaccination-data.ts:197-204 | completed doses are counted only among due doses |
| VaccinationData.CountSnoc | VaccinationTracker/client/src/lib/vaccination-data.ts:197-204 | one more visited dose adds at most one to each counter, exactly as the loop body does |
| VaccinationData.RoundRatio | VaccinationTracker/client/src/lib/vaccination-data.ts:211 | `Math.round` of a non-negative ratio is the nearest integer, halves rounded up |
| VaccinationData.RoundRatioPercent | VaccinationTracker/client/src/lib/vaccination-data.ts:211 | the rounded percentage lies in 0..100 when completed doses do not exceed due doses |
| VaccinationData.CountDoses | VaccinationTracker/client/src/lib/vaccination-data.ts:192-207 | the loops count the due doses and the due doses named in the completed list |
| VaccinationData.CalculateVaccinationProgress | VaccinationTracker/client/src/lib/vaccination-data.ts:188-212 | the result is 100 when nothing is due and otherwise the rounded percentage of completed among due doses, always in 0..100 |
| VaccinationData.DueCountAppend | VaccinationTracker/client/src/lib/vaccination-data.ts:195-198 | due doses of two tables add up |
| VaccinationData.DueCountNone | VaccinationTracker/client/src/lib/vaccination-data.ts:197 | no dose is due when all are later than the age |
| VaccinationData.DoneCountAll | VaccinationTracker/client/src/lib/vaccination-data.ts:201-204 | when every due dose is named as completed, the completed count equals the due count |
| VaccinationData.DoneCountNone | VaccinationTracker/client/src/lib/vaccination-data.ts:188-204 | with the default empty completed list nothing is counted as completed |
| VaccinationData.TableAgesNonNegative | VaccinationTracker/client/src/lib/vaccination-data.ts:16-137 | every dose of the table is given at birth or later |
| VaccinationData.ProgressBeforeBirth | VaccinationTracker/client/src/lib/vaccination-data.ts:209 | before the month of birth nothing is due and the progress is 100 |
| VaccinationData.HepBDueAtBirth | VaccinationTracker/client/src/lib/vaccination-data.ts:17-28 | of the HepB doses only the first is given in the month of birth |
| VaccinationData.OneDoseDueAtBirth | VaccinationTracker/client/src/lib/vaccination-data.ts:16-137 | in the month of birth exactly one dose of the table is due |
| VaccinationData.ProgressAtBirth | VaccinationTracker/client/src/lib/vaccination-data.ts:188-211 | a child in the month of birth with nothing completed is at 0 percent |
| VaccinationData.ProgressAllCompleted | VaccinationTracker/client/src/lib/vaccination-data.ts:195-211 | when every due dose is completed the progress is 100 |
| VaccinationData.RoundRatioWhole | VaccinationTracker/client/src/lib/vaccination-data.ts:211 | a ratio of 1 rounds to 100 percent |
| VaccinationData.ProgressNoneCompleted | VaccinationTracker/client/src/lib/vaccination-data.ts:195-211 | when doses are due and none is completed the progress is 0 |
| VaccinationData.RoundRatioZero | VaccinationTracker/client/src/lib/vaccination-data.ts:211 | a ratio of 0 rounds to 0 |
| VaccinationData.InfoCategoriesDisjoint | VaccinationTracker/client/src/lib/vaccination-data.ts:228-244 | no vaccine is listed under two categories |
| VaccinationData.InfoCategoriesContents | VaccinationTracker/client/src/lib/vaccination-data.ts:228-244 | with this table the infant group has seven vaccines, the toddler group three, and the school-age group is empty |
| DateUtils.VaccinationDueStatus | VaccinationTracker/client/src/lib/date-utils.ts:108-163 | overdue exactly for a negative difference, due exactly for 0..7 days, upcoming exactly beyond 7, each with its one colour |
| DateUtils.OverdueText | VaccinationTracker/client/src/lib/date-utils.ts:119-132 | overdue text counts whole days below 7, whole weeks below 30 and whole 30-day months beyond; the count is at least 1, and the unit is singular exactly at 1 |
| DateUtils.DueText | VaccinationTracker/client/src/lib/date-utils.ts:135-147 | "Due today", "Due tomorrow", then "Due in N days" up to 7 |
| DateUtils.UpcomingText | VaccinationTracker/client/src/lib/date-utils.ts:148-162 | exact days below 30, "about a month" below 60, and at least 2 whole 30-day months beyond |
| DateUtils.TextDeterminesStatus | VaccinationTracker/client/src/lib/date-utils.ts:119-162 | no text is shown for two different statuses |
| DateUtils.RelativeTimeNearby | VaccinationTracker/client/src/lib/date-utils.ts:57-62 | 0, 1 and -1 days read "Today", "Tomorrow" and "Yesterday" |
| DateUtils.RelativeTimeMirror | VaccinationTracker/client/src/lib/date-utils.ts:63-82 | n days ahead reads "In <distance>" and n days back "<Distance> ago" with the same distance: exact up to 30, about a month up to 60, whole 30-day months beyond |
| DateUtils.CalculateAge | VaccinationTracker/client/src/lib/date-utils.ts:6-28 | the months lie in 0..11, years and months together count the whole months elapsed, and the days are the day difference plus the previous month's length when a month was borrowed |
| DateUtils.AgeDaysCanStayNegative | VaccinationTracker/client/src/lib/date-utils.ts:14-19 | the borrow can leave a negative day count: 31 January to 1 March 2023 gives -2 days |
| DateUtils.FormatChildAgeCases | VaccinationTracker/client/src/lib/date-utils.ts:90-101 | months only under one year (at most 11), years only on whole years, both otherwise, each unit singular exactly at 1 |
| Schema.UserWithId | VaccinationTracker/server/storage.ts:74 | the stored user is the insert record with the new id added |
| Schema.ChildWithId | VaccinationTracker/server/storage.ts:92 | the stored child is the insert record with the new id added |
| Schema.VaccinationWithId | VaccinationTracker/server/storage.ts:123 | the stored vaccination is the insert record with the new id added |
| Schema.MergeChild | VaccinationTracker/server/storage.ts:101 | a shallow merge keeps the id |
| Schema.MergeVaccination | VaccinationTracker/server/storage.ts:132 | a shallow merge keeps the id |
| Schema.MergeChildFields | VaccinationTracker/server/storage.ts:101 | each supplied field takes the patch's value, and each absent one keeps the record's |
| Schema.MergeVaccinationFields | VaccinationTracker/server/storage.ts:132 | each supplied field takes the patch's value, and each absent one keeps the record's |
| Schema.MergeChildLaws | VaccinationTracker/server/storage.ts:101 | an empty patch changes nothing and the same patch twice equals it once |
| Schema.MergeVaccinationLaws | VaccinationTracker/server/storage.ts:132 | an empty patch changes nothing and the same patch twice equals it once |
| Storage.Collect | VaccinationTracker/server/storage.ts:81-83 | every listed record satisfies the filter |
| Storage.CollectMembership | VaccinationTracker/server/storage.ts:81-83 | a record is listed exactly when it is stored and satisfies the filter |
| Storage.CollectAscending | VaccinationTracker/server/storage.ts:67-115 | listed records are in strictly ascending id order |
| Storage.CollectFirst | VaccinationTracker/server/storage.ts:67-69 | `find` returns the satisfying record with the smallest id, and returns one exactly when some stored record satisfies the test |
| Storage.FindChild | VaccinationTracker/server/storage.ts:166 | a found child is in the list with that id, and nothing is found only when no child has it |
| Storage.MemStorage.constructor | VaccinationTracker/server/storage.ts:46-59 | three empty maps and three counters at 1 |
| Storage.MemStorage.GetUser | VaccinationTracker/server/storage.ts:62-64 | the stored user under the id, or nothing exactly when none is stored |
| Storage.MemStorage.GetUserByUsername | VaccinationTracker/server/storage.ts:66-70 | the walk over the users in id order returns the first one with the username |
| Storage.MemStorage.UserNamedFinds | VaccinationTracker/server/storage.ts:66-70 | a user is found exactly when one has the username, the one found is stored and has it, and no user with a smaller id has it |
| Storage.MemStorage.CreateUser | VaccinationTracker/server/storage.ts:72-77 | the user is stored under the old counter, which was free and above every id in use; the counter grows by one and nothing else changes |
| Storage.MemStorage.GetChildren | VaccinationTracker/server/storage.ts:80-84 | the walk over the children in id order lists those of the user |
| Storage.MemStorage.ChildrenOfExact | VaccinationTracker/server/storage.ts:80-84 | exactly the stored children of the user, ascending by id |
| Storage.MemStorage.ChildCountIsOwnedCount | VaccinationTracker/server/routes.ts:346 | the length of the user's list is the number of stored children the user owns |
| Storage.MemStorage.OwnedIdsListed | VaccinationTracker/server/storage.ts:80-84 | the ids of the listed children are the keys of the user's stored children |
| Storage.MemStorage.GetChild | VaccinationTracker/server/storage.ts:86-88 | the stored child under the id, or nothing exactly when none is stored |
| Storage.MemStorage.CreateChild | VaccinationTracker/server/storage.ts:90-95 | the child is stored under the old counter, which was free and above every id in use; the counter grows by one and nothing else changes |
| Storage.MemStorage.UpdateChild | VaccinationTracker/server/storage.ts:97-104 | an absent id gives nothing and changes nothing; a present one is replaced by the merge, which is returned, and no other entry or counter changes |
| Storage.MemStorage.DeleteChild | VaccinationTracker/server/storage.ts:106-108 | true exactly when the id was present; only that entry goes, and the child's vaccination records stay |
| Storage.MemStorage.GetVaccinations | VaccinationTracker/server/storage.ts:111-115 | the walk over the records in id order lists those of the child |
| Storage.MemStorage.VaccinationsOfExact | VaccinationTracker/server/storage.ts:111-115 | exactly the stored records of the child, ascending by id |
| Storage.MemStorage.GetVaccination | VaccinationTracker/server/storage.ts:117-119 | the stored record under the id, or nothing exactly when none is stored |
| Storage.MemStorage.CreateVaccination | VaccinationTracker/server/storage.ts:121-126 | the record is stored under the old counter, which was free and above every id in use; the counter grows by one and nothing else changes |
| Storage.MemStorage.UpdateVaccination | VaccinationTracker/server/storage.ts:128-135 | an absent id gives nothing and changes nothing; a present one is replaced by the merge, which is returned, and no other entry or counter changes |
| Storage.MemStorage.DeleteVaccination | VaccinationTracker/server/storage.ts:137-139 | true exactly when the id was present, and only that entry goes |
| Storage.MemStorage.VaccinationsWhere | VaccinationTracker/server/storage.ts:149-151 | walking all records in id order and keeping those that pass the filter gives exactly the records that pass it, ascending by id |
| Storage.MemStorage.GetUserUpcomingVaccinations | VaccinationTracker/server/storage.ts:142-170 | the filter walk over all records, then the child names, gives the upcoming join |
| Storage.MemStorage.ChildIdsOfUser | VaccinationTracker/server/storage.ts:143-154 | an id is among the user's child ids exactly when that child is stored and owned by the user |
| Storage.MemStorage.UpcomingOfExact | VaccinationTracker/server/storage.ts:152-162 | a record is listed exactly when it is stored, its child is stored and owned by the user, it is not administered and its date lies in [now, now + days]; the list ascends by id |
| Storage.MemStorage.UpcomingSkipsToday | VaccinationTracker/server/storage.ts:146-161 | a record whose scheduled midnight is already past is not listed, even when it is scheduled for today |
| Storage.MemStorage.UserUpcomingNames | VaccinationTracker/server/storage.ts:165-169 | every listed record carries "first last" of its own stored child; "Unknown Child" never appears |
| Storage.AscendingIdsCount | VaccinationTracker/server/routes.ts:346 | records with strictly ascending ids have as many distinct ids as records |
| Routes.ParseNewChild | VaccinationTracker/server/routes.ts:35-45 | the body is accepted exactly when both names are non-empty and the birth date parses; the owner is the session user whatever the body says |
| Routes.ParseChildPatch | VaccinationTracker/server/routes.ts:104-113 | accepted exactly when any given name is non-empty and any given birth date parses; the patch carries exactly the fields the body supplies, the birth date as the parsed date, and never sets the owner |
| Routes.ParseNewVaccination | VaccinationTracker/server/routes.ts:201-214 | accepted exactly when the name is non-empty, the scheduled date parses and any administered date is blank or parses; the child is the one of the path, and every field of the record is stated, a blank administered date giving none |
| Routes.ParseVaccinationPatch | VaccinationTracker/server/routes.ts:277-289 | accepted exactly when any given name is non-empty and any given dates are valid; the patch carries exactly the fields the body supplies, the dates parsed, and never sets the child |
| Routes.PatchesKeepOwnership | VaccinationTracker/server/routes.ts:104-114 | an update through the routes never changes a child's owner or a record's child |
| Routes.ChildPutWrites | VaccinationTracker/server/routes.ts:104-114 | a PUT with an accepted body gives the child each supplied field and keeps the id, the owner and every field left out |
| Routes.VaccinationPutWrites | VaccinationTracker/server/routes.ts:277-292 | a PUT with an accepted body gives the record each supplied field, a blank administered date clearing it, and keeps the id, the child and every field left out |
| Routes.ChildGuard | VaccinationTracker/server/routes.ts:57-75 | 401 without a session, then 400 for an id that does not parse, 404 for a missing child, 403 for another user's child; it lets the request through exactly when the session user owns the child |
| Routes.VaccinationGuard | VaccinationTracker/server/routes.ts:226-246 | 401, then 400, then 404 for a missing record, then 403 when the record's child is missing or another user's; through exactly when the session user owns the record's child |
| Routes.ListChildren | VaccinationTracker/server/routes.ts:20-28 | 401 without a session, else the session user's children |
| Routes.CreateChildRoute | VaccinationTracker/server/routes.ts:30-55 | 401, or 400 with nothing stored for an invalid body, or 201 with the new child, owned by the session user and stored under the next id |
| Routes.GetChildRoute | VaccinationTracker/server/routes.ts:57-81 | the guard's answer, or 200 with the owned child |
| Routes.UpdateChildRoute | VaccinationTracker/server/routes.ts:83-123 | the guard's answer or a 400 for the body, both changing nothing, or 200 with the merged child, still owned by the session user |
| Routes.DeleteChildRoute | VaccinationTracker/server/routes.ts:125-150 | the guard's answer changing nothing, or 204 with only that child removed |
| Routes.ListVaccinationsRoute | VaccinationTracker/server/routes.ts:153-178 | the guard's answer, or 200 with the child's records |
| Routes.CreateVaccinationRoute | VaccinationTracker/server/routes.ts:180-224 | the guard's answer or a 400 for the body, both changing nothing, or 201 with the new record of the path's child stored under the next id |
| Routes.GetVaccinationRoute | VaccinationTracker/server/routes.ts:226-252 | the guard's answer, or 200 with the record |
| Routes.UpdateVaccinationRoute | VaccinationTracker/server/routes.ts:254-299 | the guard's answer or a 400 for the body, both changing nothing, or 200 with the merged record, still of the same child |
| Routes.DeleteVaccinationRoute | VaccinationTracker/server/routes.ts:301-328 | the guard's answer changing nothing, or 204 with only that record removed |
| Routes.DashboardRoute | VaccinationTracker/server/routes.ts:331-352 | 401, or the user's names, the number of the user's children and the upcoming join over 30 days |
| VaccinationList.SplitAndSort | VaccinationTracker/client/src/components/vaccination/vaccination-list.tsx:19-32 | every record lands in exactly one tab (completed when administered is true, upcoming otherwise); upcoming ascends by scheduled date, completed descends by administered date falling back to the scheduled date; each tab is a permutation of its filter, and the input array is not modified |
| VaccinationList.SameMultisetAll | VaccinationTracker/client/src/components/vaccination/vaccination-list.tsx:23-32 | sorting a tab keeps it within its filter |
| VaccinationList.ActionsOnlyOnUpcoming | VaccinationTracker/client/src/components/vaccination/vaccination-list.tsx:52-77 | one card per record in tab order; every upcoming card offers exactly the callbacks the list was given, no completed card offers any, so an action is offered only on a record not administered |
| VaccineInfoPage.JsRem | VaccinationTracker/client/src/pages/vaccine-info-page.tsx:172-173 | JavaScript's `%` agrees with the mathematical remainder on non-negative numbers and stays strictly within the divisor |
| VaccineInfoPage.OrdinalSuffixRule | VaccinationTracker/client/src/pages/vaccine-info-page.tsx:171-185 | "st", "nd" and "rd" exactly for last digits 1, 2 and 3 outside 11, 12 and 13, "th" otherwise |
| VaccineInfoPage.OrdinalSuffixLastTwoDigits | VaccinationTracker/client/src/pages/vaccine-info-page.tsx:172-184 | the suffix depends only on the last two digits |
| VaccineInfoPage.OrdinalSuffixExamples | VaccinationTracker/client/src/pages/vaccine-info-page.tsx:171-185 | 1, 2, 3, 21, 22, 23 get st, nd, rd; 11, 12, 13 and 111 get th |
| VaccineInfoPage.OrdinalSuffixAgreesWithDoseOrdinal | VaccinationTracker/client/src/pages/vaccine-info-page.tsx:171-185 | the page's numbering agrees with the schedule's dose labels from 1 to 20 and differs from 21 to 23 |
| VaccineInfoPage.AgeLabelCases | VaccinationTracker/client/src/pages/vaccine-info-page.tsx:94-98 | "At birth" at 0, "1 year" at 12, "<n> months" below 24 otherwise (so "1 months" at 1), and at least 2 whole years from 24 |
| VaccineInfoPage.TableNumberedByPosition | VaccinationTracker/client/src/lib/vaccination-data.ts:16-137 | every vaccine of the table lists its doses numbered 1, 2, 3, ... in order |
| VaccineInfoPage.TableLinesShowDoseNumbers | VaccinationTracker/client/src/pages/vaccine-info-page.tsx:137-139 | for the table's vaccines, numbering by position shows each dose's own number |
| VaccineInfoPage.AccordionMatchesTable | VaccinationTracker/client/src/pages/vaccine-info-page.tsx:92-144 | for the table's vaccines, the accordion line and the table line of a dose show the same dose number and the same age label |
| ChildDetailPage.RecommendExact | VaccinationTracker/client/src/pages/child-detail-page.tsx:100-104 | recommendations keep the schedule's order, and an entry is dropped exactly when a stored record has its name ignoring case |
| ChildDetailPage.RecommendNothingStored | VaccinationTracker/client/src/pages/child-detail-page.tsx:100-104 | with nothing stored every entry is recommended |
| ChildDetailPage.GenerateRecommendedVaccinations | VaccinationTracker/client/src/pages/child-detail-page.tsx:93-105 | nothing without a child; otherwise a date-sorted list with the same entries, each as often, as the filter of the generated entries by "no stored record names it", all 30 when nothing is stored |
| ChildDetailPage.DraftFor | VaccinationTracker/client/src/pages/child-detail-page.tsx:231-236 | the draft takes the child id of the route, the recommendation's name and date, and is not administered |
| ChildDetailPage.StoredDraftLeavesRecommendations | VaccinationTracker/client/src/pages/child-detail-page.tsx:100-236 | once a record named after the draft is stored, that recommendation is no longer offered |
| CalendarPage.SelectedDateExact | VaccinationTracker/client/src/pages/calendar-page.tsx:49-58 | the day's list keeps, in order, exactly the records on that day, month and year |
| CalendarPage.HighlightedIffListed | VaccinationTracker/client/src/pages/calendar-page.tsx:49-70 | a day is highlighted exactly when its list is non-empty |
| CalendarPage.ChildNameLookup | VaccinationTracker/client/src/pages/calendar-page.tsx:73-76 | "first last" of the first child with the id, or "Unknown Child" when none has it |
| CalendarPage.FirstWithId | VaccinationTracker/client/src/pages/calendar-page.tsx:74 | `find` returns the first child with the id |

## Left out

- Rendering, navigation, dialogs, toasts and layout: they are presentation. The model keeps only the values the pages compute (recommendations, draft, tabs, cards, labels, day lists).
- `formatDate`, `toLocaleDateString`, `toISOString` and `toDateString`: locale and text formatting of dates. Dates are calendar triples; the calendar compares day, month and year directly, as its `toDateString` comparison does.
- Time zones and daylight saving: one fixed zone is assumed. A scheduled date stands for its midnight, `Instant` in milliseconds.
- `new Date()`: the clock is a parameter (`today`, `now`, or the day difference).
- DateUtils.VaccinationDueStatus: takes the rounded day difference as input; the floating-point division and `Math.round` of milliseconds that produce it are not modelled.
- DateUtils.RelativeTime: takes the day difference rounded up as input; `Math.ceil` of the millisecond ratio is not modelled.
- VaccinationData.RoundRatio: integer half-up rounding of 100·completed/total; the floating-point `(c / t) * 100` that `Math.round` receives can differ from the exact ratio in the last bit.
- Storage.MemStorage.GetUserUpcomingVaccinations: takes the end of the window as `now + days` whole days; `setDate` across a daylight-saving change is not modelled.
- Sorting.SortInPlace: proves a sorted permutation, not stability; `Array.prototype.sort` is stable, and the model does not claim which of two records with the same date comes first.
- VaccinationData.GenerateVaccinationSchedule: relies on Sorting.SortInPlace, so it does not promise that doses due at the same age stay in table order, as the stable `Array.prototype.sort` keeps them.
- VaccinationList.SplitAndSort: relies on Sorting.SortInPlace, so it does not promise the input order among records with the same date.
- Text.ToLower: ASCII letters only; Unicode case mapping is not modelled.
- Request validation: the zod rules are modelled for what the routes check (non-empty names, dates that parse, an optional blank administered date). The date parser is abstract (`DateText`: blank, malformed or a date), and `parseInt` is an `Option<int>` path parameter. Field types (a number where a string is expected) and extra body fields are not modelled.
- A blank administered date is stored as no date. The source stores the empty string, which every reader treats like no date.
- 500 responses: the storage model cannot fail, so the `catch` paths are unreachable in the model.
- Authentication, `setupAuth`, passport and the session store (`sessionStore`, `MemoryStore`): not part of this model; the session user is a parameter.
- `async`, `Promise` and `Promise.all`: storage calls are sequential method calls.
- The calendar's fetch of every child's records: the calendar helpers take the combined list as a parameter.
- Integer width: ids and counters are unbounded integers; JavaScript numbers lose precision above 2^53, which the store never reaches in practice.
