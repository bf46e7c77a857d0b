# Daily coding-challenge planner: state engine and statistics

This project models the logic core of a browser-based planner for daily
coding challenges. The planner has two parts.

- **The planner store** (`ChallengeContext` module, `challenge_context.dfy`).
  The state is a list of challenges and a list of categories.
  - `Reduce` folds seven commands over the state: add, update, delete and
    move a challenge; add, update and delete a category.
  - Deleting a category moves its challenges to the first remaining
    category, or to the empty id `""` when no category is left.
  - `FindByDate` is the first-match date lookup.
  - The class `ChallengeProvider` holds the current state and replaces it
    on every dispatch. Its add methods take the fresh id as a parameter.
- **The statistics view** (`Statistics` module, `statistics.dfy`). It
  computes these values from one state and a given "today":
  - the total and completed counts and the completion percentage;
  - the current streak and the longest streak of completed days, via the
    two loops of the planner in `CurrentStreak` and `LongestRun`;
  - the per-category distribution, stably sorted by descending count.

The records are in `types.dfy`. The generic list operations the reducer is
built from are in `lists.dfy`: `Without` is `filter` by key and `Replace`
is `map` by key.

Dates are whole day numbers counted from 1970-01-01 UTC. The planner stores
dates as `YYYY-MM-DD` strings, which are RFC 3339 section 5.6 `full-date`
values. For those strings, equality is day equality and lexicographic order
is chronological order. For dates at midnight UTC, the planner's
`Math.ceil(Math.abs(msDiff) / 86400000) === 1` test is exactly "one day
apart" (`OneDayApart`). `Math.round(x / t * 100)` becomes the integer
round-half-up `Percent(x, t)`.

Behaviour worth knowing, all modelled as the code does it:

- A repeated completed date is not skipped. Its difference to its neighbour
  is 0, so it ends a run (`RepeatedDateBreaksStreak`).
- `currentStreak` is 0 when the latest completed date is after today. Take
  completed days June 1, 2 and 4, seen on June 2: the current streak is 0
  and the longest is 2 (`ThreeDayExample`).
- Deleting a category id that no category has is a no-op exactly when no
  challenge names that id, or no category is left and the id is `""`
  (`DeleteUnknownCategoryNoOpExactly`, `UnknownIdIsNoOp`,
  `DeleteUnknownCategoryIsNoOp`). A challenge left with a dangling id,
  such as `""` after all categories were deleted, is moved to the first
  category (`DeleteDanglingCategoryIsNotNoOp`).
- Nothing stops two challenges from sharing a date. `FindByDate` returns
  the first one in list order.

## Model

| member | source | states |
|---|---|---|
| `ChallengeContext.Reduce` | src/context/ChallengeContext.tsx:105-167 | Challenge commands leave the categories unchanged. Adding or updating a category leaves the challenges unchanged. Only add and delete change the number of challenges. |
| `ChallengeContext.AddChallengeAppends` | src/context/ChallengeContext.tsx:107-111 | Adding a challenge makes it the last element. The list grows by one, the earlier elements are unchanged, and so are the categories. |
| `ChallengeContext.AddCategoryAppends` | src/context/ChallengeContext.tsx:133-137 | Adding a category makes it the last element. The list grows by one, the earlier elements are unchanged, and so are the challenges. |
| `ChallengeContext.UpdateChallengeReplaces` | src/context/ChallengeContext.tsx:112-118 | Exactly the challenges with the payload's id become the payload. The others keep their place and value, the length is kept, and an unknown id leaves the state unchanged. |
| `ChallengeContext.UpdateCategoryReplaces` | src/context/ChallengeContext.tsx:138-144 | Exactly the categories with the payload's id become the payload. The others keep their place and value, and an unknown id leaves the state unchanged. |
| `ChallengeContext.DeleteChallengeRemoves` | src/context/ChallengeContext.tsx:119-123 | The remaining challenges are exactly the old ones with a different id. Filtering distributes over any split of the list, so order is kept. An unknown id is a no-op, and the categories are untouched. |
| `ChallengeContext.MoveChallengeChangesOnlyDate` | src/context/ChallengeContext.tsx:124-132 | Challenges with the id get the new date and keep every other field. The other challenges and the categories are unchanged. Moving onto the date a challenge already has gives an identical state. |
| `ChallengeContext.FirstRemainingCategory` | src/context/ChallengeContext.tsx:146-150 | The fallback id is that of the first category in list order whose id differs from the deleted one, or `""` when there is none. |
| `ChallengeContext.FallbackSkipsDeletedHead` | src/context/ChallengeContext.tsx:146-150 | A deleted category at the head of the list does not change which category is the fallback. |
| `ChallengeContext.DeleteCategoryReassigns` | src/context/ChallengeContext.tsx:145-162 | No category keeps the deleted id, and the others keep their order. Each challenge of the deleted category changes only its `categoryId`, to the first remaining category's id or `""`. Every other challenge is unchanged. |
| `ChallengeContext.DeleteCategoryLeavesNoOrphan` | src/context/ChallengeContext.tsx:145-162 | After the deletion no challenge names the deleted id. The one exception is when no category remains and the deleted id was `""` itself. |
| `ChallengeContext.DeleteCategoryKeepsIntegrity` | src/context/ChallengeContext.tsx:145-162 | If every challenge named an existing category before, and some category survives, then every challenge names an existing category afterwards. |
| `ChallengeContext.ReduceKeepsIntegrity` | src/context/ChallengeContext.tsx:105-167 | Every command keeps referential integrity when its added or updated challenge names an existing category and a category deletion leaves some category. |
| `ChallengeContext.ReduceKeepsUniqueIds` | src/context/ChallengeContext.tsx:105-167 | Every command keeps challenge ids and category ids pairwise distinct when additions use ids not yet in use. |
| `ChallengeContext.UnknownIdIsNoOp` | src/context/ChallengeContext.tsx:112-163 | Update, delete and move on an unknown id return the same state. For a category deletion the lemma assumes that no challenge names that id. |
| `ChallengeContext.DeleteUnknownCategoryIsNoOp` | src/context/ChallengeContext.tsx:145-162 | Under referential integrity, deleting an unknown category id is a no-op. |
| `ChallengeContext.DeleteUnknownCategoryNoOpExactly` | src/context/ChallengeContext.tsx:145-162 | Deleting an unknown category id returns the same state if and only if no challenge names the id, or no category exists and the id is `""`. |
| `ChallengeContext.DeleteDanglingCategoryIsNotNoOp` | src/context/ChallengeContext.tsx:145-162 | Without integrity that no-op fails: a challenge naming a missing category is moved to the first category. |
| `ChallengeContext.InitialStateIsWellFormed` | src/context/ChallengeContext.tsx:5-94 | In the seed data, ids are unique and every seed challenge names a seed category. |
| `ChallengeContext.FindByDate` | src/context/ChallengeContext.tsx:223-225 | The result is none exactly when no challenge has the date. Otherwise it is the challenge at the first index with that date. |
| `ChallengeContext.ChallengeProvider.constructor` | src/context/ChallengeContext.tsx:184-187 | The provider starts from the saved state when there is one, and from the seed state otherwise. |
| `ChallengeContext.ChallengeProvider.Dispatch` | src/context/ChallengeContext.tsx:184-187 | The new state is the reducer applied to the old state and the command. |
| `ChallengeContext.ChallengeProvider.AddChallenge` | src/context/ChallengeContext.tsx:193-196 | With a fresh id, the new challenge is appended under that id. Unique ids stay unique, and integrity is kept when the draft's category exists. |
| `ChallengeContext.ChallengeProvider.UpdateChallenge` | src/context/ChallengeContext.tsx:198-200 | The state is reduced by the update. Unique ids stay unique, and an unknown id changes nothing. |
| `ChallengeContext.ChallengeProvider.DeleteChallenge` | src/context/ChallengeContext.tsx:202-204 | The state is reduced by the deletion. Unique ids and integrity are kept. |
| `ChallengeContext.ChallengeProvider.MoveChallenge` | src/context/ChallengeContext.tsx:206-208 | The state is reduced by the move. Unique ids and integrity are kept. |
| `ChallengeContext.ChallengeProvider.AddCategory` | src/context/ChallengeContext.tsx:210-213 | With a fresh id, the new category is appended under that id. Unique ids and integrity are kept. |
| `ChallengeContext.ChallengeProvider.UpdateCategory` | src/context/ChallengeContext.tsx:215-217 | The state is reduced by the update. Unique ids and integrity are kept. |
| `ChallengeContext.ChallengeProvider.DeleteCategory` | src/context/ChallengeContext.tsx:219-221 | The state is reduced by the deletion. Unique ids are kept, and integrity is kept when some category survives. |
| `ChallengeContext.ChallengeProvider.GetChallengeForDate` | src/context/ChallengeContext.tsx:223-225 | The result is none exactly when no current challenge has the date. Otherwise it is the current challenge at the first index with that date. |
| `Lists.Without` | src/context/ChallengeContext.tsx:119-123 | `filter` by key: the result holds exactly the elements whose key differs, no element with the key, and is no longer than the input. It is the input itself when nothing matches, and strictly shorter when something does. |
| `Lists.WithoutAppend` | src/context/ChallengeContext.tsx:119-123 | Filtering a concatenation is the concatenation of the filtered parts, so the kept elements keep their relative order. |
| `Lists.WithoutKeepsDistinct` | src/context/ChallengeContext.tsx:119-123 | Filtering keeps keys pairwise distinct. |
| `Lists.AppendFreshKeepsDistinct` | src/context/ChallengeContext.tsx:193-196 | Appending an element whose key is not in use keeps keys pairwise distinct. |
| `Lists.Replace` | src/context/ChallengeContext.tsx:112-118 | `map` by key: the length and every element's key are kept. Elements with the payload's key become the payload, and the rest are unchanged. |
| `Lists.ReplaceKeepsKeys` | src/context/ChallengeContext.tsx:112-118 | Replacing by key keeps the set of keys present and keeps distinct keys distinct. It is the identity when no element has the key. |
| `Statistics.Percent` | src/components/Stats/Statistics.tsx:11 | The result is 0 for an empty whole. Otherwise it is the integer nearest to 100·part/whole, with halves rounded up, and at most 100 when part ≤ whole. |
| `Statistics.PercentExamples` | src/components/Stats/Statistics.tsx:11 | 3 of 3 is 100, 2 of 3 is 67, 1 of 3 is 33, and 0 of 0 is 0. |
| `Statistics.CompletedOf` | src/components/Stats/Statistics.tsx:10 | The completed challenges: each completed challenge occurs as often as in the input, and no other challenge occurs. There are at most `total` of them, and none exactly when no challenge is completed. |
| `Statistics.InsertDay` | src/components/Stats/Statistics.tsx:21 | Insertion adds the day to the multiset of days and keeps a sorted list sorted. |
| `Statistics.SortDays` | src/components/Stats/Statistics.tsx:18-21 | The result is sorted ascending and is a permutation of the input. |
| `Statistics.CompletedDays` | src/components/Stats/Statistics.tsx:18-21 | `sortedDates` is sorted and is a permutation of the completed challenges' dates, one entry per completed challenge. |
| `Statistics.CurrentStreak` | src/components/Stats/Statistics.tsx:23-49 | The streak is 0 when there is no date, or when the last date is neither today nor yesterday. Otherwise it is the length of the maximal run of one-day steps ending at the last date. |
| `Statistics.ScanStep` | src/components/Stats/Statistics.tsx:52-66 | One scan step keeps the bound: no run within the dates scanned so far is longer than the best run or the current run. |
| `Statistics.LongestRun` | src/components/Stats/Statistics.tsx:51-68 | `Math.max(maxStreak, tempStreak)` is the length of a longest run of one-day steps in the list. |
| `Statistics.ComputeStreaks` | src/components/Stats/Statistics.tsx:13-69 | The current streak is as above and the longest streak is the longest run. Also current ≤ longest ≤ the number of dates, and longest ≥ 1 when there is a date. |
| `Statistics.SortedRunIsConsecutive` | src/components/Stats/Statistics.tsx:35-66 | On sorted dates, a run is exactly a stretch of consecutive calendar days, in both directions. |
| `Statistics.StreaksAreUnique` | src/components/Stats/Statistics.tsx:13-69 | The two streak specifications determine one value each. |
| `Statistics.ThreeDayExample` | src/components/Stats/Statistics.tsx:25-68 | For days June 1, 2 and 4, the longest streak is 2. The current streak is 0 when seen on June 2, because the latest date is in the future, and 1 when seen on June 5. |
| `Statistics.RepeatedDateBreaksStreak` | src/components/Stats/Statistics.tsx:52-68 | For days x, x+1, x+1, x+2 the longest streak is 2, because the repeated date breaks the run. |
| `Statistics.CountInCategory` | src/components/Stats/Statistics.tsx:73 | The count is the number of occurrences of the id among the challenges' category ids. It is at most `total`, 0 exactly when no challenge has the category, and `total` exactly when all do. |
| `Statistics.InsertByCount` | src/components/Stats/Statistics.tsx:79 | Insertion adds the entry to the multiset of entries. |
| `Statistics.InsertByCountKeepsOrder` | src/components/Stats/Statistics.tsx:79 | Insertion keeps a list ordered by non-increasing count. |
| `Statistics.InsertByCountStable` | src/components/Stats/Statistics.tsx:79 | Among the entries of any one count, the inserted entry comes first and the others keep their order. |
| `Statistics.SortByCountDescending` | src/components/Stats/Statistics.tsx:79 | The sort is a permutation ordered by non-increasing count. For every count, the entries with that count are in their original order, so the sort is stable. |
| `Statistics.EntriesDescribeCategories` | src/components/Stats/Statistics.tsx:72-78 | Each unsorted entry carries its category, the number of challenges in it, and that number's percentage of the total. |
| `Statistics.Distribution` | src/components/Stats/Statistics.tsx:72-79 | There is one entry per category, as a permutation of the per-category entries. Each entry's count is the category's challenge count and its percentage is the rounded share (at most 100). The order is non-increasing by count, with ties in category order. |
| `Statistics.DistributionCoversCategories` | src/components/Stats/Statistics.tsx:72-78 | Every category has an entry in the distribution, with its challenge count. |
| `Statistics.DeriveStatistics` | src/components/Stats/Statistics.tsx:8-89 | `total` is the number of challenges and `completed` ≤ `total`, with `completion` their rounded percentage. The streaks meet the streak specifications on the sorted completed dates, with current ≤ longest ≤ completed. Both are 0 with nothing completed, and longest ≥ 1 otherwise. The distribution is `Distribution`. |

## Left out

- Rendering: the JSX of the statistics panel, progress bars, modals, forms, calendar and layout. It is presentation only.
- Persistence: loading from and saving to `localStorage`, including the save effect on every state change and the "clear storage" action. The constructor receives the loaded state, if any, as a parameter, and saving is not modelled.
- `crypto.randomUUID()`: the add methods take the new id as a parameter and require it not to be in use.
- `getToday`/`formatDate`: "today" is a parameter, and "yesterday" is `today - 1`. The planner formats local midnight in UTC, so "today" can be a different calendar day depending on the time zone. Across a daylight-saving change, "yesterday" may also not be exactly one day earlier. Neither effect is modelled.
- `Statistics.Percent`: `Math.round` works on a floating-point quotient. The model rounds the exact rational value, so the two may differ when `100·x/t` is within rounding error of a half.
- `Statistics.SortDays`: the planner sorts date strings lexicographically. This agrees with numeric day order only for four-digit years, which are the only ones the date formatter produces here.
- `Types.DayOf`: it converts the seed data's calendar dates to day numbers. It carries no proof of its own.
- The reducer's `default` branch: the command union is closed, so the branch cannot be reached. `Reduce` matches all seven cases.
- React plumbing: the context object, `useChallenges` and its "outside a provider" error, and the `useMemo` dependencies.
- Caller-side guards: form validation of titles and categories, and the drag handler's "skip the move if the date is unchanged" check. They are not part of the store.
- The calendar grid helpers (`getCalendarDays`, day and month names). They are not part of this model.
