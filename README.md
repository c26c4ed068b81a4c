# HypeHUB points ledger in Dafny

HypeHUB is a React front end over a Supabase database. Users earn points by doing
social-media tasks posted by others. They spend points to post tasks of their own,
and they can buy points with a crypto wallet. This project models the part of the
pages that moves points, together with the small pure helpers around it:

- **Task creation with escrow** (`add_task.dfy`, module `AddTask`). This covers:
  - the platform/action catalog;
  - the form transitions;
  - the ordered submit checks;
  - the insert of a task with no completions, followed by a debit of `points - reward`;
  - the form reset.
- **Task completion ledger** (`earn_points.dfy`, module `EarnPoints`).
  - The task list in its requested order: official first, then reward, then creation time.
  - Platform icons, the tab list and the tab filter.
  - The guard chain of `handleCompleteTask`: missing user or id, already completed, own community task.
  - The insert into a completions table that refuses a pair it already holds. That is the `23505` conflict.
  - The credit of `points + reward` and the completion-counter increment.
  - The pure function `Step` states one attempt. The lemmas over runs of attempts prove that one user is credited for one task at most once.
- **Notifications** (`notifications.dfy`, module `Notifications`).
  - Mark one or all as read, keeping the unread counter equal to a recount.
  - The unread/read split, the icon and colour lookups, and the "time ago" buckets.
- **Point purchase** (`buy_points.dfy`, module `BuyPoints`).
  - The package table.
  - The credit of `points + bonus`.
  - The read-modify-write of the stored `totalPurchased` statistic.
  - The `finally` reset of `loading` and the selection.
- **Shared pieces**.
  - `backend.dfy` (module `Backend`): the database tables and the signed-in user as one `Store` object, plus `updateUserPoints` from the auth context.
  - `text.dfy` (module `Text`): ASCII lower-casing, decimal rendering, and JavaScript's `parseInt(s, 10)`.
  - `common.dfy` (module `Common`): an `Option` type.

Each page is a class whose fields are the page's state. Page classes share the
`Store` object, and their handler methods change both. Each handler's `ensures`
ties the new state to a pure function of the old one: `CheckSubmit`/`Published`
for submission, `Step` for completion, `MarkRead`/`MarkAllRead` for notifications,
`Purchase` for buying. The properties the pages promise are proved as lemmas
about those functions.

Database calls that can fail are boolean parameters: `insertOk`, `updateOk`, `reachable`,
`pointsSaved`, `counterBumped` and `ok`. The wallet check is a boolean parameter too. The clock is replaced by the elapsed time, an integer number of milliseconds.
The store holds a ghost log, `credited`, of the completions that led to a credit. Its
invariant says no pair is logged twice.

## Model

| member | source | states |
|---|---|---|
| Text.LowerChar | src/pages/EarnPoints.jsx:54 | an upper-case ASCII letter becomes its lower-case partner (code point + 32), and any other character is kept |
| Text.ToLower | src/pages/EarnPoints.jsx:54 | same length, each character lower-cased on its own |
| Text.ToLowerIdempotent | src/pages/EarnPoints.jsx:54 | lower-casing twice is lower-casing once |
| Text.NatToString | src/pages/Notifications.jsx:143-145 | a non-empty string of digits with no leading zero |
| Text.NatToStringValue | src/pages/Notifications.jsx:143-145 | the rendered digits read back as the number |
| Text.TrimStart | src/pages/AddTask.jsx:121 | a suffix of the input that does not start with white space; only white space was dropped |
| Text.DigitPrefix | src/pages/AddTask.jsx:121 | the longest prefix made of decimal digits |
| Text.ParseInt | src/pages/AddTask.jsx:121 | `parseInt(s, 10)` is `NaN` exactly when no digit follows the leading white space and an optional sign |
| Text.ParseIntOfIntToString | src/pages/AddTask.jsx:121 | parsing a rendered integer gives the integer back |
| Text.DigitPrefixOfDigits | src/pages/AddTask.jsx:121 | a string of digits is its own digit prefix |
| Text.DigitPrefixStopsAtSuffix | src/pages/AddTask.jsx:121 | the digit run of digits followed by a non-digit ends at that non-digit |
| Text.ParseIntOfNumberAndSuffix | src/pages/Notifications.jsx:143-145 | `parseInt` of a number's text followed by a non-digit suffix, such as `30m ago`, reads back the number |
| Backend.Store.constructor | src/contexts/AuthContext.jsx:16-28 | the signed-in user, whose cached balance is its profile's, over the given task table with no completions and an empty credit log |
| Backend.Bump | src/pages/EarnPoints.jsx:151 | `increment_task_completions`: the task with that id gets one more completion, and every other row is unchanged |
| Backend.Store.UpdateUserPoints | src/contexts/AuthContext.jsx:81-94 | with a user and a successful write, the profile and the cached user both get the new balance; otherwise nothing changes; the tables and the id counter are untouched |
| Backend.Store.InsertTask | src/pages/AddTask.jsx:158-173 | on success exactly one row is appended, with the next id, no `is_official` flag and the given fields; on failure nothing changes |
| Backend.Store.InsertCompletion | src/pages/EarnPoints.jsx:132-137 | an unreachable store fails; a pair already held fails with the unique violation; otherwise the pair is added |
| Backend.Store.IncrementTaskCompletions | src/pages/EarnPoints.jsx:151 | the task table becomes `Bump` of it when the call succeeds, and solvency is kept |
| AddTask.CatalogWellFormed | src/pages/AddTask.jsx:40-70 | platform ids are distinct; every platform has an action, so `actions[0]` exists; action ids are distinct; `10 <= minReward <= defaultReward` |
| AddTask.FindById | src/pages/AddTask.jsx:72 | `find` by id, used for platforms here and for actions at lines 85, 94 and 109: `None` exactly when no element has the id, otherwise the first one that has it |
| AddTask.CurrentActionDetails | src/pages/AddTask.jsx:85 | `None` exactly when the platform is unknown or has no action with that id; otherwise an action of that platform carrying that id |
| AddTask.KnownPlatformHasActions | src/pages/AddTask.jsx:95-96 | a catalog platform has a first action |
| AddTask.CurrentActionBounds | src/pages/AddTask.jsx:40-70 | a known action's minimum is at least 10 and at most its default, and its id is the one asked for |
| AddTask.DefaultFormIsValid | src/pages/AddTask.jsx:96-100 | a platform's reset form names that platform's first action, at a reward meeting its minimum |
| AddTask.NewReward | src/pages/AddTask.jsx:119-125 | the slider's first element (none for an empty array), or the typed text read by `parseInt` |
| AddTask.TypedRewardRoundTrip | src/pages/AddTask.jsx:121 | a reward typed as its decimal text is read back exactly |
| AddTask.CheckSubmit | src/pages/AddTask.jsx:131-155 | accepted exactly when there is a user, no empty field, a known action and `minReward <= reward <= points`; each rejection holds exactly when every earlier check passed and its own fails: no user, an empty field, an unknown action, a reward below the minimum (with that minimum), a reward above the balance |
| AddTask.AcceptedSubmitIsFunded | src/pages/AddTask.jsx:146-155 | an accepted form has reward >= 10, a balance that stays non-negative after the debit, and a known platform |
| AddTask.RewardBoundaries | src/pages/AddTask.jsx:146-155 | both bounds are inclusive: `minReward` and `points` pass, one below is "too low", one above is "insufficient" |
| AddTask.MaxReward | src/pages/AddTask.jsx:202 | `Math.max`: at least each of `minReward \|\| 10` and `points \|\| 10`, and equal to one of them |
| AddTask.MaxRewardCoversMinimum | src/pages/AddTask.jsx:202 | for a known action the maximum is at least the minimum |
| AddTask.AddTaskPage.constructor | src/pages/AddTask.jsx:30-38 | twitter is selected and the form holds the initial values |
| AddTask.AddTaskPage.HandleInputChange | src/pages/AddTask.jsx:87-89 | only the named field changes |
| AddTask.AddTaskPage.HandlePlatformChange | src/pages/AddTask.jsx:91-106 | the selection always moves; a known platform gives its blank form at the first action and its default reward; an unknown one keeps the form |
| AddTask.AddTaskPage.HandleActionChange | src/pages/AddTask.jsx:108-117 | an action of the current platform is set with its default reward; any other id changes nothing |
| AddTask.AddTaskPage.HandleRewardChange | src/pages/AddTask.jsx:119-125 | a readable value replaces the reward alone; `NaN` changes nothing |
| AddTask.AddTaskPage.HandleSubmit | src/pages/AddTask.jsx:128-200 | a rejection changes neither the store nor the form; an accepted form is `Published`; solvency is kept |
| AddTask.AddTaskPage.PublishTask | src/pages/AddTask.jsx:157-199 | a failed insert changes nothing and debits nothing; otherwise one row with 0 completions is added, the balance becomes `points - reward` when the write succeeds, and the form is reset |
| EarnPoints.IconTableInjective | src/pages/EarnPoints.jsx:34-44 | each icon is listed under exactly one key |
| EarnPoints.NormalizedPlatform | src/pages/EarnPoints.jsx:54 | the lower-cased platform, or `default` when it is missing or empty; never empty and never upper-case |
| EarnPoints.PlatformIcon | src/pages/EarnPoints.jsx:53-56 | the table's icon for the lower-cased platform; the star for a missing or unknown platform |
| EarnPoints.PlatformIconIgnoresCase | src/pages/EarnPoints.jsx:53-56 | the icon does not depend on letter case |
| EarnPoints.Process | src/pages/EarnPoints.jsx:71-76 | keeps the row, sets `dbId` to its id and the icon from its platform, and marks it official exactly when `is_official === true` |
| EarnPoints.OnlyTrueFlagIsOfficial | src/pages/EarnPoints.jsx:74 | a missing or false flag is not official |
| EarnPoints.ProcessAll | src/pages/EarnPoints.jsx:71-76 | `map`: same length, `Process` applied at each position |
| EarnPoints.ListedBefore | src/pages/EarnPoints.jsx:65-67 | `is_official` descending with nulls last (true, then false, then missing); with equal flags, the higher reward, then the later `created_at`, comes first |
| EarnPoints.ListedBeforeIsTotalPreorder | src/pages/EarnPoints.jsx:65-67 | the requested order compares any two rows and is transitive |
| EarnPoints.InsertListed | src/pages/EarnPoints.jsx:65-67 | inserting into an ordered list keeps it ordered and adds exactly that row |
| EarnPoints.SortForListing | src/pages/EarnPoints.jsx:62-67 | the rows in the requested order: official, then reward descending, then `created_at` descending; a permutation |
| EarnPoints.ListingKeepsRewards | src/pages/EarnPoints.jsx:62-78 | the listing has no negative reward if the table has none |
| EarnPoints.PlatformNames | src/pages/EarnPoints.jsx:164 | the lower-cased, non-empty platforms of the tasks (`filter(Boolean)`) |
| EarnPoints.Dedupe | src/pages/EarnPoints.jsx:164 | `new Set(...)`: the same elements, each once |
| EarnPoints.UniquePlatforms | src/pages/EarnPoints.jsx:164 | `'all'` first, then each lower-cased non-empty platform once, and nothing else |
| EarnPoints.FilteredTasks | src/pages/EarnPoints.jsx:166-168 | the `'all'` tab is every task; any other tab holds each task whose lower-cased platform equals it, as many times as the list does, and no other |
| EarnPoints.FilterOnTab | src/pages/EarnPoints.jsx:168 | each task on the tab with its multiplicity in the list, and nothing else |
| EarnPoints.FilterKeepsOrder | src/pages/EarnPoints.jsx:166-168 | `filter` keeps order: any relation between every earlier and every later task of the list also holds in the tab |
| EarnPoints.TabKeepsListingOrder | src/pages/EarnPoints.jsx:166-168 | a tab of a list in the requested order is in that order too |
| EarnPoints.EveryTaskHasATab | src/pages/EarnPoints.jsx:164-168 | a task with a platform has its tab listed, and that tab shows it |
| EarnPoints.Decide | src/pages/EarnPoints.jsx:110-144 | each outcome holds exactly when the earlier guards pass and its own condition holds, in the order no user or id, already completed, own community task, store not reached, pair already held; a credit is exactly a fresh pair past all of them, for the task's reward |
| EarnPoints.Step | src/pages/EarnPoints.jsx:109-162 | a 23505 conflict only marks the task completed; a fresh row adds exactly that pair and no other row, marks the task, and raises the balance by the reward when saved; every other outcome changes nothing |
| EarnPoints.TwoAttemptsCreditOnce | src/pages/EarnPoints.jsx:115 | of two attempts at one task, at most one is credited |
| EarnPoints.NoCreditAfterRow | src/pages/EarnPoints.jsx:132-142 | once the pair is in the table, no later attempt is credited and the balance stays put |
| EarnPoints.CreditedAtMostOnce | src/pages/EarnPoints.jsx:109-162 | over any run of attempts by one user at one task, at most one credit, and the balance rises by 0 or by the reward once |
| EarnPoints.DoTaskEnabled | src/pages/EarnPoints.jsx:273-283 | never enabled for a completed task, a task without an id, or the user's own community task; an official task is enabled whenever it has an id and is not completed |
| EarnPoints.DoTaskMatchesGuards | src/pages/EarnPoints.jsx:271-283 | the "Do Task" button is enabled exactly when an attempt passes the three local guards: a missing user or id, a task already completed, and the user's own community task |
| EarnPoints.CompletedIds | src/pages/EarnPoints.jsx:80-91 | each id belongs to a listed task and has a completion row for the user, and every listed task with such a row is included |
| EarnPoints.EarnPointsPage.constructor | src/pages/EarnPoints.jsx:48-51 | the initial state: no tasks, no completed ids, loading, the `'all'` tab |
| EarnPoints.EarnPointsPage.SetActiveTab | src/pages/EarnPoints.jsx:191 | only the tab changes, and the page then shows `FilteredTasks` of its list for that tab |
| EarnPoints.EarnPointsPage.FetchAllTasksAndCompletions | src/pages/EarnPoints.jsx:58-103 | without a user nothing changes; after a successful load the list is `SortForListing` of the table, processed, and the completed ids are the user's rows among them; a failure empties the list; loading ends |
| EarnPoints.EarnPointsPage.HandleCompleteTask | src/pages/EarnPoints.jsx:109-162 | the new ledger state and outcome are `Step` of the old; the store changes as `Effects` says; solvency and the page invariant are kept |
| EarnPoints.EarnPointsPage.VerifyCompletion | src/pages/EarnPoints.jsx:124-161 | the delayed part of the completion, with the same `Step` and `Effects` contract |
| EarnPoints.EarnPointsPage.AwardCredit | src/pages/EarnPoints.jsx:146-151 | the balance is `points + reward` when saved, the task is marked completed, and the counter is bumped when the call succeeds |
| EarnPoints.EarnPointsPage.CreditBalance | src/pages/EarnPoints.jsx:146-147 | writes `points + reward` and logs the pair as credited when saved; otherwise nothing changes |
| Notifications.Unread | src/pages/Notifications.jsx:148 | exactly the unread items |
| Notifications.Read | src/pages/Notifications.jsx:149 | exactly the read items |
| Notifications.ReadUnreadPartition | src/pages/Notifications.jsx:148-149 | the two lists partition the notifications: the lengths add up, the multisets add up, and no item is in both |
| Notifications.MarkRead | src/pages/Notifications.jsx:83-87 | every item with the id becomes read; the other items, the length and the order are unchanged |
| Notifications.MarkAllRead | src/pages/Notifications.jsx:94-97 | every item becomes read, with the order kept |
| Notifications.MarkReadIdempotent | src/pages/Notifications.jsx:83-87 | marking an id twice is marking it once |
| Notifications.MarkAllReadIdempotent | src/pages/Notifications.jsx:94-97 | marking all twice is marking all once |
| Notifications.UnreadWithId | src/pages/Notifications.jsx:89 | zero exactly when every item with the id is read, and never more than the unread count |
| Notifications.MarkReadUnreadCount | src/pages/Notifications.jsx:82-89 | the recount falls by exactly the number of unread items carrying the id |
| Notifications.MarkAllReadLeavesNoneUnread | src/pages/Notifications.jsx:93-99 | nothing is unread afterwards, so the counter's 0 agrees with a recount |
| Notifications.NotificationIcon | src/pages/Notifications.jsx:103-124 | a present platform decides alone, with a bell as fallback; otherwise the type decides, also with a bell as fallback |
| Notifications.PlatformOverridesKind | src/pages/Notifications.jsx:104-114 | with a platform the type is irrelevant |
| Notifications.UnknownKindShowsBell | src/pages/Notifications.jsx:116-123 | an unknown type without a platform shows the bell |
| Notifications.NotificationColor | src/pages/Notifications.jsx:126-135 | green for `task_completed`, yellow for `points_earned`, blue for `task_created`, purple for `milestone`, and `text-gray-400` for any other type |
| Notifications.TimeAgoOf | src/pages/Notifications.jsx:137-146 | "just now" exactly under one minute, negative times included; minutes 1-59; hours 1-23; days from 1 |
| Notifications.RenderTimeAgo | src/pages/Notifications.jsx:142-145 | `Just now` exactly for that bucket; otherwise the count's decimal text (no leading zero) followed by `m ago`, `h ago` or `d ago`, which `parseInt` reads back as the count |
| Notifications.FormatTimeAgo | src/pages/Notifications.jsx:137-146 | `Just now` exactly under a minute; below an hour the decimal text of the whole minutes followed by `m ago`, below a day that of the whole hours followed by `h ago`, and after that that of the whole days followed by `d ago` |
| Notifications.TimeAgoIntervals | src/pages/Notifications.jsx:140-145 | each bucket is exactly its interval of elapsed time, using floor division |
| Notifications.DemoNotifications | src/pages/Notifications.jsx:35-75 | four items with distinct ids, none dated after now, newest first |
| Notifications.DemoUnreadCount | src/pages/Notifications.jsx:35-77 | the demo list starts with two unread and two read items |
| Notifications.DemoAges | src/pages/Notifications.jsx:43-72 | the demo items read 30m, 2h, 6h and 1d ago |
| Notifications.NotificationsPage.constructor | src/pages/Notifications.jsx:26-80 | a stored list is shown as it is; otherwise the demo list is shown and stored; the counter agrees with a recount |
| Notifications.NotificationsPage.MarkAsRead | src/pages/Notifications.jsx:82-91 | the list becomes `MarkRead` of it, the counter falls by the unread items with that id, and the list is stored |
| Notifications.NotificationsPage.MarkAllAsRead | src/pages/Notifications.jsx:93-101 | the list becomes `MarkAllRead` of it, the counter becomes 0 and still agrees with a recount, and the list is stored |
| BuyPoints.PackageTable | src/pages/BuyPoints.jsx:22-67 | bonuses are non-negative; points and totals strictly increase; ids are distinct; only Growth is popular |
| BuyPoints.PackageTotalPositive | src/pages/BuyPoints.jsx:87 | every package credits a positive total |
| BuyPoints.AccumulatePurchase | src/pages/BuyPoints.jsx:96-101 | `totalPurchased` grows by exactly the total, with a missing value read as 0; every other field is kept |
| BuyPoints.AccumulateAdditive | src/pages/BuyPoints.jsx:96-101 | two purchases add up the same as one of their combined total |
| BuyPoints.Purchase | src/pages/BuyPoints.jsx:69-120 | no user or no wallet changes nothing; with a wallet the balance rises by `points + bonus` when saved, and the statistics grow by that total; unreadable statistics fail after the credit |
| BuyPoints.PurchaseNeverDebits | src/pages/BuyPoints.jsx:87-88 | a purchase never lowers the balance |
| BuyPoints.BuyPointsPage.constructor | src/pages/BuyPoints.jsx:19-20 | nothing is selected and nothing is loading |
| BuyPoints.BuyPointsPage.HandlePurchase | src/pages/BuyPoints.jsx:69-120 | balance, statistics and outcome as in `Purchase`; without a user the flags are untouched; otherwise `loading` is false and nothing is selected at the end; solvency is kept |
| BuyPoints.BuyPointsPage.Pay | src/pages/BuyPoints.jsx:75-115 | the `try` block: the credit, then the statistics update, as in `Purchase` |

## Left out

- Rendering, animation, toasts, `window.open` and `e.preventDefault` are not modelled. None of them moves points.
- Time and timers are not modelled. This covers `Date.now()`, `new Date(...)`, the 3-second `setTimeout` delays, and the ISO timestamp strings. The elapsed time is an integer number of milliseconds.
- Concurrency is not modelled. The pages' handlers run one at a time, to completion. React's batching and stale closures over `user` are not modelled. A second click during the 3-second delay, or a balance change in another tab, could otherwise interleave.
- The insert followed by the debit or credit is not atomic in the source. The model runs the two steps in order and lets each fail on its own. It does not model a crash between them.
- `localStorage` and JSON are not modelled as text. A stored value is an `Option` list or a `StatsSlot`, and text that does not parse is `Unreadable`.
- A stored notification list whose text does not parse is not modelled. The source throws on it.
- Prices, currencies and the ETH/USD display are left out. They are floating point, shown but not credited.
- The `useEffect` at src/pages/AddTask.jsx:74-83 is not modelled, because it is React scheduling. It depends on `currentPlatform`, which is a fresh object on every render, so the source re-applies the first action and its default reward after every render.
- The slider's own `min`/`max` bounds are not modelled (src/pages/AddTask.jsx:318-319); they are rendering. `maxReward` (line 202) is modelled although the source never uses it.
- Text.ToLower: lower-cases ASCII letters only. JavaScript's `toLowerCase` also maps non-ASCII letters.
- Text.TrimStart: the space separators are the category Zs characters of current Unicode, listed by code point. A future Unicode version that adds to Zs is not followed.
- EarnPoints.PlatformIcon: treats the icon table as a plain map. A platform naming an `Object.prototype` member such as `constructor` finds that member in the source.
- Notifications.NotificationIcon: same caveat about `Object.prototype` keys as `PlatformIcon`.
- Notifications.NotificationColor: same caveat about `Object.prototype` keys as `PlatformIcon`.
- EarnPoints.EarnPointsPage.HandleCompleteTask: does not model the un-awaited re-fetch after a 23505 conflict (src/pages/EarnPoints.jsx:140). Its effect is that of `FetchAllTasksAndCompletions`, which is modelled on its own.
- EarnPoints.EarnPointsPage.FetchAllTasksAndCompletions: one flag `ok` stands for both queries succeeding. A failure of either empties the list and keeps the completed set, as in the source.
- EarnPoints.EarnPointsPage.FetchAllTasksAndCompletions: rows that tie on all three sort keys are listed in one fixed order. The database may list them in any order.
- A task row inserted by the page gets no `is_official` flag, as the insert does not send one. The column's default is taken to be null; the database schema is not part of this model.
- JavaScript numbers are doubles, and the model's integers are unbounded. Rounding above 2^53 in `parseInt`, `points + reward` or `points + bonus` is not modelled, and neither is the exponent form `String(n)` takes from 1e21 up. The typed path of `handleRewardChange` is modelled although the page passes it only slider values (src/pages/AddTask.jsx:322).
- Task ids are natural numbers assigned from 1, and 0 stands for a missing id. Both are falsy in `!task.dbId`.
- `user.points` is read as a number, so `(points || 0)` is the balance itself. A `null` balance is not modelled separately.
- The completion counter of a task is not tied to the number of rows for it. The increment call can fail on its own after a credit.
- BuyPoints.AccumulatePurchase: assumes a numeric `totalPurchased`. A stored string would be concatenated by `+` in the source.
- BuyPoints.BuyPointsPage.HandlePurchase: a storage write that throws (a full quota) is not modelled. Only unreadable statistics lead to the failure branch.
- A task whose platform is the string `all` gets a second `all` tab, which shows every task, as in the source; the model states this and does not correct it.
