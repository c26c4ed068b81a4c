/**
 * The task list and the completion ledger. The list is the `tasks` table in
 * listing order, each row tagged with its icon and official flag, split into
 * tabs by platform. Completing a task passes a chain of guards, then inserts a
 * (task, user) row that the store refuses to hold twice. Only a fresh row leads
 * to a credit of the task's reward and an increment of the task's counter.
 */
module EarnPoints {
  import opened Common
  import opened Text
  import opened Backend

  // ---------------------------------------------------------------- icons

  datatype Icon = TwitterIcon | TelegramIcon | InstagramIcon | DiscordIcon | TikTokIcon
    | YoutubeIcon | DocsIcon | GithubIcon | StarIcon

  /** `PLATFORM_ICONS[key]`: the entry for a key, if the table has one. */
  function IconEntry(key: string): Option<Icon> {
    if key == "twitter" then Some(TwitterIcon)
    else if key == "telegram" then Some(TelegramIcon)
    else if key == "instagram" then Some(InstagramIcon)
    else if key == "discord" then Some(DiscordIcon)
    else if key == "tiktok" then Some(TikTokIcon)
    else if key == "youtube" then Some(YoutubeIcon)
    else if key == "docs" then Some(DocsIcon)
    else if key == "github" then Some(GithubIcon)
    else if key == "default" then Some(StarIcon)
    else None
  }

  /** The key under which `PLATFORM_ICONS` lists an icon. */
  function IconKey(icon: Icon): string {
    match icon
    case TwitterIcon => "twitter"
    case TelegramIcon => "telegram"
    case InstagramIcon => "instagram"
    case DiscordIcon => "discord"
    case TikTokIcon => "tiktok"
    case YoutubeIcon => "youtube"
    case DocsIcon => "docs"
    case GithubIcon => "github"
    case StarIcon => "default"
  }

  /** The icon table is one-to-one: every icon is found again under its own key. */
  lemma IconTableInjective(icon: Icon, key: string)
    ensures IconEntry(IconKey(icon)) == Some(icon)
    ensures IconEntry(key) == Some(icon) ==> key == IconKey(icon)
  {
  }

  /**
   * `platform?.toLowerCase() || 'default'`: the lower-cased platform, or `"default"`
   * when it is missing or empty; never empty and never upper-case.
   */
  function NormalizedPlatform(platform: Option<string>): (key: string)
    ensures platform.Some? && platform.value != "" ==> key == ToLower(platform.value)
    ensures platform.None? || platform.value == "" ==> key == "default"
    ensures key != "" && forall i | 0 <= i < |key| :: !IsUpper(key[i])
  {
    if platform.Some? && ToLower(platform.value) != "" then ToLower(platform.value) else "default"
  }

  /**
   * `getPlatformIcon`: the icon listed under the lower-cased platform, the star
   * when the platform is missing, empty or not in the table.
   */
  function PlatformIcon(platform: Option<string>): (icon: Icon)
    ensures icon != StarIcon ==> platform.Some? && ToLower(platform.value) == IconKey(icon)
    ensures platform.None? ==> icon == StarIcon
    ensures platform.Some? && IconEntry(ToLower(platform.value)).Some? ==>
      icon == IconEntry(ToLower(platform.value)).value
  {
    match IconEntry(NormalizedPlatform(platform))
    case Some(icon) => icon
    case None => StarIcon
  }

  /** The icon does not depend on the platform's letter case. */
  lemma PlatformIconIgnoresCase(platform: string)
    ensures PlatformIcon(Some(platform)) == PlatformIcon(Some(ToLower(platform)))
  {
    ToLowerIdempotent(platform);
  }

  // ---------------------------------------------------------------- the task list

  /** A row as the page holds it: the row, `dbId`, `isOfficial` and `icon`. */
  datatype ProcessedTask = ProcessedTask(row: TaskRow, dbId: nat, isOfficial: bool, icon: Icon)

  /** The `processedTasks` mapping of one row. */
  function Process(row: TaskRow): (t: ProcessedTask)
    ensures t.row == row && t.dbId == row.id && t.icon == PlatformIcon(row.platform)
    ensures t.isOfficial <==> row.isOfficial == Some(true)
  {
    ProcessedTask(row, row.id, row.isOfficial == Some(true), PlatformIcon(row.platform))
  }

  /** A missing or false `is_official` flag never makes a task official. */
  lemma OnlyTrueFlagIsOfficial(row: TaskRow)
    ensures row.isOfficial.None? ==> !Process(row).isOfficial
    ensures row.isOfficial == Some(false) ==> !Process(row).isOfficial
  {
  }

  function ProcessAll(rows: seq<TaskRow>): (r: seq<ProcessedTask>)
    ensures |r| == |rows|
    ensures forall i | 0 <= i < |rows| :: r[i] == Process(rows[i])
  {
    seq(|rows|, i requires 0 <= i < |rows| => Process(rows[i]))
  }

  /** `is_official` sorted descending with nulls last: true, then false, then missing. */
  function OfficialRank(flag: Option<bool>): nat {
    match flag
    case Some(b) => if b then 2 else 1
    case None => 0
  }

  /**
   * `a` may be listed before `b`: official first, then the larger reward, then the
   * later creation time.
   */
  function ListedBefore(a: TaskRow, b: TaskRow): (r: bool)
    ensures a.isOfficial == Some(true) && b.isOfficial != Some(true) ==> r
    ensures a.isOfficial == Some(false) && b.isOfficial.None? ==> r
    ensures b.isOfficial == Some(true) && a.isOfficial != Some(true) ==> !r
    ensures b.isOfficial == Some(false) && a.isOfficial.None? ==> !r
    ensures a.isOfficial == b.isOfficial ==>
      (r <==> a.reward > b.reward || (a.reward == b.reward && a.createdAt >= b.createdAt))
  {
    || OfficialRank(a.isOfficial) > OfficialRank(b.isOfficial)
    || (OfficialRank(a.isOfficial) == OfficialRank(b.isOfficial)
      && (a.reward > b.reward || (a.reward == b.reward && a.createdAt >= b.createdAt)))
  }

  /** The listing order is a total preorder: any two rows compare, and it chains. */
  lemma ListedBeforeIsTotalPreorder(a: TaskRow, b: TaskRow, c: TaskRow)
    ensures ListedBefore(a, b) || ListedBefore(b, a)
    ensures ListedBefore(a, b) && ListedBefore(b, c) ==> ListedBefore(a, c)
  {
  }

  predicate InListingOrder(rows: seq<TaskRow>) {
    forall i, j | 0 <= i < j < |rows| :: ListedBefore(rows[i], rows[j])
  }

  /** Insert `x` into a listing-ordered sequence, before the first row it may precede. */
  function InsertListed(x: TaskRow, rows: seq<TaskRow>): (r: seq<TaskRow>)
    requires InListingOrder(rows)
    ensures InListingOrder(r)
    ensures multiset(r) == multiset(rows) + multiset{x}
  {
    if rows == [] then [x]
    else if ListedBefore(x, rows[0]) then
      assert forall j | 0 <= j < |rows| :: ListedBefore(x, rows[j]) by {
        forall j | 0 <= j < |rows| ensures ListedBefore(x, rows[j]) {
          ListedBeforeIsTotalPreorder(x, rows[0], rows[j]);
        }
      }
      [x] + rows
    else
      var rest := InsertListed(x, rows[1..]);
      assert rows == [rows[0]] + rows[1..];
      assert ListedBefore(rows[0], x) by { ListedBeforeIsTotalPreorder(rows[0], x, x); }
      assert forall j | 0 <= j < |rest| :: ListedBefore(rows[0], rest[j]) by {
        forall j | 0 <= j < |rest| ensures ListedBefore(rows[0], rest[j]) {
          assert rest[j] in multiset(rest);
          if rest[j] != x {
            assert rest[j] in multiset(rows[1..]);
            var k :| 0 <= k < |rows[1..]| && rows[1..][k] == rest[j];
            assert rows[k + 1] == rest[j];
          }
        }
      }
      [rows[0]] + rest
  }

  /**
   * The order the task query asks for (`.order('is_official') .order('reward')
   * .order('created_at')`, all descending): a rearrangement of the rows in listing order.
   */
  function SortForListing(rows: seq<TaskRow>): (r: seq<TaskRow>)
    ensures InListingOrder(r)
    ensures multiset(r) == multiset(rows)
    ensures |r| == |rows|
  {
    if rows == [] then []
    else
      assert rows == [rows[0]] + rows[1..];
      InsertListed(rows[0], SortForListing(rows[1..]))
  }

  /** Sorting and processing never bring a negative reward into the listing. */
  lemma ListingKeepsRewards(rows: seq<TaskRow>)
    requires forall i | 0 <= i < |rows| :: rows[i].reward >= 0
    ensures forall i | 0 <= i < |rows| :: ProcessAll(SortForListing(rows))[i].row.reward >= 0
  {
    var sorted := SortForListing(rows);
    forall i | 0 <= i < |sorted|
      ensures sorted[i].reward >= 0
    {
      assert sorted[i] in multiset(rows);
      var j :| 0 <= j < |rows| && rows[j] == sorted[i];
    }
  }

  /** The lower-cased platform of a task (`task.platform?.toLowerCase()`). */
  function LowerPlatform(t: ProcessedTask): Option<string> {
    match t.row.platform
    case Some(p) => Some(ToLower(p))
    case None => None
  }

  /** A task that belongs under tab `tab`: its lower-cased platform is exactly `tab`. */
  predicate OnTab(t: ProcessedTask, tab: string) {
    LowerPlatform(t) == Some(tab)
  }

  /** Some task sits on tab `x`. */
  predicate Mentions(tasks: seq<ProcessedTask>, x: string) {
    exists i | 0 <= i < |tasks| :: OnTab(tasks[i], x)
  }

  /** The lower-cased, non-empty platforms of the tasks, in list order (`map` then `filter(Boolean)`). */
  function PlatformNames(tasks: seq<ProcessedTask>): (r: seq<string>)
    ensures forall x :: x in r <==> x != "" && Mentions(tasks, x)
  {
    if tasks == [] then []
    else
      var rest := PlatformNames(tasks[1..]);
      assert forall x :: Mentions(tasks, x) <==> OnTab(tasks[0], x) || Mentions(tasks[1..], x) by {
        forall x | Mentions(tasks, x) ensures OnTab(tasks[0], x) || Mentions(tasks[1..], x) {
          var i :| 0 <= i < |tasks| && OnTab(tasks[i], x);
          if i > 0 {
            assert tasks[1..][i - 1] == tasks[i];
          }
        }
        forall x | Mentions(tasks[1..], x) ensures Mentions(tasks, x) {
          var i :| 0 <= i < |tasks[1..]| && OnTab(tasks[1..][i], x);
          assert tasks[i + 1] == tasks[1..][i];
        }
      }
      match LowerPlatform(tasks[0])
      case Some(p) => if p != "" then [p] + rest else rest
      case None => rest
  }

  predicate NoDuplicates<T(==)>(s: seq<T>) {
    forall i, j | 0 <= i < j < |s| :: s[i] != s[j]
  }

  /** Each element once, at its first occurrence (the insertion order of a JavaScript `Set`). */
  function Dedupe(s: seq<string>): (r: seq<string>)
    ensures NoDuplicates(r)
    ensures forall x :: x in r <==> x in s
    ensures |r| <= |s|
  {
    if s == [] then []
    else
      var init := Dedupe(s[..|s| - 1]);
      assert s == s[..|s| - 1] + [s[|s| - 1]];
      if s[|s| - 1] in init then init else init + [s[|s| - 1]]
  }

  /**
   * `uniquePlatforms`: the tab list, `'all'` first and then every lower-cased,
   * non-empty platform of the tasks once, in order of first appearance.
   */
  function UniquePlatforms(tasks: seq<ProcessedTask>): (r: seq<string>)
    ensures |r| >= 1 && r[0] == "all"
    ensures NoDuplicates(r[1..])
    ensures forall x :: x in r[1..] <==> x != "" && Mentions(tasks, x)
  {
    var r := ["all"] + Dedupe(PlatformNames(tasks));
    assert r[1..] == Dedupe(PlatformNames(tasks));
    r
  }

  /** `filteredTasks`: every task on the `'all'` tab, otherwise the tasks on that tab, in list order. */
  function FilteredTasks(tasks: seq<ProcessedTask>, tab: string): (r: seq<ProcessedTask>)
    ensures tab == "all" ==> r == tasks
    ensures tab != "all" ==> forall t :: t in r <==> t in tasks && OnTab(t, tab)
    ensures tab != "all" ==> forall t :: multiset(r)[t] == if OnTab(t, tab) then multiset(tasks)[t] else 0
    ensures |r| <= |tasks|
  {
    if tab == "all" then tasks else FilterOnTab(tasks, tab)
  }

  /** `tasks.filter(t => t.platform?.toLowerCase() === tab)`: each task on the tab, as often as it is listed. */
  function FilterOnTab(tasks: seq<ProcessedTask>, tab: string): (r: seq<ProcessedTask>)
    ensures forall t :: t in r <==> t in tasks && OnTab(t, tab)
    ensures forall t :: multiset(r)[t] == if OnTab(t, tab) then multiset(tasks)[t] else 0
    ensures |r| <= |tasks|
  {
    if tasks == [] then []
    else
      var rest := FilterOnTab(tasks[1..], tab);
      assert tasks == [tasks[0]] + tasks[1..];
      assert forall t :: t in tasks <==> t == tasks[0] || t in tasks[1..];
      if OnTab(tasks[0], tab) then [tasks[0]] + rest else rest
  }

  /**
   * Filtering keeps the list's order: whatever relation held between every earlier
   * and every later task of the list still holds in the filtered list.
   */
  lemma {:induction false} FilterKeepsOrder(tasks: seq<ProcessedTask>, tab: string,
      before: (ProcessedTask, ProcessedTask) -> bool)
    requires forall i, j | 0 <= i < j < |tasks| :: before(tasks[i], tasks[j])
    ensures var r := FilteredTasks(tasks, tab);
      forall i, j | 0 <= i < j < |r| :: before(r[i], r[j])
  {
    if tab != "all" && tasks != [] {
      FilterKeepsOrder(tasks[1..], tab, before);
      var rest := FilteredTasks(tasks[1..], tab);
      forall j | 0 <= j < |rest|
        ensures before(tasks[0], rest[j])
      {
        assert rest[j] in tasks[1..];
        var k :| 0 <= k < |tasks[1..]| && tasks[1..][k] == rest[j];
        assert tasks[k + 1] == rest[j];
      }
    }
  }

  /** A tab of a listing in listing order is itself in listing order. */
  lemma TabKeepsListingOrder(rows: seq<TaskRow>, tab: string)
    requires InListingOrder(rows)
    ensures var r := FilteredTasks(ProcessAll(rows), tab);
      forall i, j | 0 <= i < j < |r| :: ListedBefore(r[i].row, r[j].row)
  {
    FilterKeepsOrder(ProcessAll(rows), tab, (a: ProcessedTask, b: ProcessedTask) => ListedBefore(a.row, b.row));
  }

  /** Every task with a platform is reachable: its tab is listed and shows it. */
  lemma {:induction false} EveryTaskHasATab(tasks: seq<ProcessedTask>, i: nat)
    requires i < |tasks|
    requires LowerPlatform(tasks[i]).Some? && LowerPlatform(tasks[i]).value != ""
    ensures LowerPlatform(tasks[i]).value in UniquePlatforms(tasks)
    ensures tasks[i] in FilteredTasks(tasks, LowerPlatform(tasks[i]).value)
  {
    var p := LowerPlatform(tasks[i]).value;
    var tabs := UniquePlatforms(tasks);
    assert OnTab(tasks[i], p);
    assert p in tabs[1..];
    if p != "all" {
      assert tasks[i] in tasks;
    }
  }

  // ---------------------------------------------------------------- the ledger

  /** What the store and the auth context say about one completion attempt. */
  datatype Env = Env(reachable: bool, pointsSaved: bool)

  /** The state one completion attempt reads and writes: the user and balance, the rows, the local set. */
  datatype LedgerState = LedgerState(user: Option<User>, rows: set<Completion>, completed: set<nat>)

  /** How a completion attempt ended. */
  datatype Outcome =
    | MissingUserOrTask
    | AlreadyCompleted
    | SelfCompletion
    | VerificationFailed
    | AlreadyAwarded
    | Credited(amount: int)

  /**
   * The attempt gets past the three guards that need neither the store nor the
   * delay: a user and an id, a task not already completed, and not a community
   * task of the user's own.
   */
  predicate PassesLocalGuards(s: LedgerState, task: ProcessedTask) {
    && s.user.Some? && task.dbId != 0 && task.dbId !in s.completed
    && (task.isOfficial || task.row.userId != Some(s.user.value.id))
  }

  /**
   * How `handleCompleteTask` decides, in the order its guards run: no user or no
   * id; already in the local completed set; a non-official task of the user's
   * own; the store not reached; the pair already in the table (code 23505). Only
   * a fresh pair reaches the credit.
   */
  function Decide(s: LedgerState, task: ProcessedTask, reachable: bool): (o: Outcome)
    ensures o == MissingUserOrTask <==> s.user.None? || task.dbId == 0
    ensures o == AlreadyCompleted <==> s.user.Some? && task.dbId != 0 && task.dbId in s.completed
    ensures o == SelfCompletion <==>
      && s.user.Some? && task.dbId != 0 && task.dbId !in s.completed
      && !task.isOfficial && task.row.userId == Some(s.user.value.id)
    ensures o == VerificationFailed <==> PassesLocalGuards(s, task) && !reachable
    ensures o == AlreadyAwarded <==>
      PassesLocalGuards(s, task) && reachable && Completion(task.dbId, s.user.value.id) in s.rows
    ensures o.Credited? <==>
      PassesLocalGuards(s, task) && reachable && Completion(task.dbId, s.user.value.id) !in s.rows
    ensures o.Credited? ==> o.amount == task.row.reward
  {
    if s.user.None? || task.dbId == 0 then MissingUserOrTask
    else if task.dbId in s.completed then AlreadyCompleted
    else if !task.isOfficial && task.row.userId == Some(s.user.value.id) then SelfCompletion
    else if !reachable then VerificationFailed
    else if Completion(task.dbId, s.user.value.id) in s.rows then AlreadyAwarded
    else Credited(task.row.reward)
  }

  /**
   * One completion attempt. A unique violation only marks the task completed
   * locally. A fresh pair adds the row, marks the task, and raises the balance by
   * the reward when that write is saved. Every other outcome changes nothing.
   */
  function Step(s: LedgerState, task: ProcessedTask, env: Env): (r: (LedgerState, Outcome))
    ensures r.1 == Decide(s, task, env.reachable)
    ensures r.0.user.Some? <==> s.user.Some?
    ensures r.1.AlreadyAwarded? || r.1.Credited? ==>
      && Completion(task.dbId, s.user.value.id) in r.0.rows
      && r.0.completed == s.completed + {task.dbId}
    ensures r.1.Credited? ==> r.0.rows == s.rows + {Completion(task.dbId, s.user.value.id)}
    ensures !r.1.Credited? ==> r.0.rows == s.rows && r.0.user == s.user
    ensures !r.1.Credited? && !r.1.AlreadyAwarded? ==> r.0 == s
    ensures s.user.Some? ==>
      && r.0.user.value.id == s.user.value.id
      && r.0.user.value.points == s.user.value.points
        + (if r.1.Credited? && env.pointsSaved then task.row.reward else 0)
  {
    var o := Decide(s, task, env.reachable);
    match o
    case AlreadyAwarded =>
      (s.(completed := s.completed + {task.dbId}), o)
    case Credited(amount) =>
      var user := s.user.value;
      var newPoints := user.points + amount;
      (LedgerState(
        if env.pointsSaved then Some(user.(points := newPoints)) else s.user,
        s.rows + {Completion(task.dbId, user.id)},
        s.completed + {task.dbId}), o)
    case _ => (s, o)
  }

  /** Of two attempts at the same task, at most one is credited. */
  lemma TwoAttemptsCreditOnce(s: LedgerState, task: ProcessedTask, first: Env, second: Env)
    ensures var (s1, o1) := Step(s, task, first);
      !(o1.Credited? && Step(s1, task, second).1.Credited?)
  {
  }

  /** The state after a run of attempts at the same task. */
  function Replay(s: LedgerState, task: ProcessedTask, envs: seq<Env>): LedgerState
    decreases |envs|
  {
    if envs == [] then s else Replay(Step(s, task, envs[0]).0, task, envs[1..])
  }

  /** How many attempts of the run were credited. */
  function CreditCount(s: LedgerState, task: ProcessedTask, envs: seq<Env>): nat
    decreases |envs|
  {
    if envs == [] then 0
    else
      var (s1, o) := Step(s, task, envs[0]);
      (if o.Credited? then 1 else 0) + CreditCount(s1, task, envs[1..])
  }

  /** Once the pair is in the table, no later attempt is credited and the balance stays put. */
  lemma {:induction false} NoCreditAfterRow(s: LedgerState, task: ProcessedTask, envs: seq<Env>)
    requires s.user.Some? && Completion(task.dbId, s.user.value.id) in s.rows
    ensures CreditCount(s, task, envs) == 0
    ensures Replay(s, task, envs).user == s.user
    decreases |envs|
  {
    if envs != [] {
      NoCreditAfterRow(Step(s, task, envs[0]).0, task, envs[1..]);
    }
  }

  /**
   * Credited at most once per (task, user): however many times one user attempts
   * one task, at most one attempt is credited, and the balance grows by the reward
   * at most once.
   */
  lemma {:induction false} CreditedAtMostOnce(s: LedgerState, task: ProcessedTask, envs: seq<Env>)
    requires s.user.Some?
    ensures CreditCount(s, task, envs) <= 1
    ensures Replay(s, task, envs).user.Some?
    ensures var gain := Replay(s, task, envs).user.value.points - s.user.value.points;
      gain == 0 || (gain == task.row.reward && CreditCount(s, task, envs) == 1)
    decreases |envs|
  {
    if envs != [] {
      var (s1, o) := Step(s, task, envs[0]);
      if o.Credited? {
        NoCreditAfterRow(s1, task, envs[1..]);
      } else {
        CreditedAtMostOnce(s1, task, envs[1..]);
      }
    }
  }

  /**
   * The "Do Task" button: shown for a task not yet completed, enabled when the task
   * has an id and is not the user's own community task.
   */
  function DoTaskEnabled(task: ProcessedTask, completed: set<nat>, userId: UserId): (enabled: bool)
    ensures enabled ==> task.dbId != 0 && task.dbId !in completed
    ensures task.isOfficial ==> (enabled <==> task.dbId != 0 && task.dbId !in completed)
    ensures task.row.userId == Some(userId) && !task.isOfficial ==> !enabled
  {
    task.dbId !in completed && !(task.dbId == 0 || (!task.isOfficial && task.row.userId == Some(userId)))
  }

  /** With a signed-in user, the button is enabled exactly when an attempt gets past every local guard. */
  lemma DoTaskMatchesGuards(s: LedgerState, task: ProcessedTask, reachable: bool)
    requires s.user.Some?
    ensures DoTaskEnabled(task, s.completed, s.user.value.id) <==>
      !(Decide(s, task, reachable).MissingUserOrTask? || Decide(s, task, reachable).AlreadyCompleted?
        || Decide(s, task, reachable).SelfCompletion?)
  {
  }

  /** The task ids the user has a completion row for, among the listed tasks. */
  function CompletedIds(rows: set<Completion>, userId: UserId, tasks: seq<ProcessedTask>): (ids: set<nat>)
    ensures forall id | id in ids :: Completion(id, userId) in rows
    ensures forall id | id in ids :: exists i | 0 <= i < |tasks| :: tasks[i].dbId == id
    ensures forall i | 0 <= i < |tasks| :: Completion(tasks[i].dbId, userId) in rows ==> tasks[i].dbId in ids
  {
    set c | c in rows && c.userId == userId && exists i | 0 <= i < |tasks| :: tasks[i].dbId == c.taskId :: c.taskId
  }

  // ---------------------------------------------------------------- the page

  class EarnPointsPage {
    const store: Store
    var allTasks: seq<ProcessedTask>
    var completedDbTaskIds: set<nat>
    var loadingStatus: bool
    var activeTab: string

    /** Every id the page believes completed has a completion row for the signed-in user. */
    ghost predicate Valid()
      reads this, store
    {
      && store.Valid()
      && (store.user.Some? ==>
        forall id | id in completedDbTaskIds :: Completion(id, store.user.value.id) in store.completions)
    }

    /** The store is solvent and no listed task promises a negative reward. */
    ghost predicate Solvent()
      reads this, store
    {
      store.Solvent() && forall i | 0 <= i < |allTasks| :: allTasks[i].row.reward >= 0
    }

    ghost function State(): LedgerState
      reads this, store
    {
      LedgerState(store.user, store.completions, completedDbTaskIds)
    }

    constructor (store: Store)
      requires store.Valid()
      ensures Valid() && this.store == store
      ensures allTasks == [] && completedDbTaskIds == {} && loadingStatus && activeTab == "all"
    {
      this.store := store;
      allTasks := [];
      completedDbTaskIds := {};
      loadingStatus := true;
      activeTab := "all";
    }

    /** The tasks the current tab shows. */
    function Visible(): seq<ProcessedTask>
      reads this
    {
      FilteredTasks(allTasks, activeTab)
    }

    /** The tab control's `onValueChange`. */
    method SetActiveTab(tab: string)
      modifies this
      ensures activeTab == tab && Visible() == FilteredTasks(allTasks, tab)
      ensures allTasks == old(allTasks) && completedDbTaskIds == old(completedDbTaskIds)
      ensures loadingStatus == old(loadingStatus)
    {
      activeTab := tab;
    }

    /**
     * `fetchAllTasksAndCompletions`: with a signed-in user, load every task in
     * listing order and the ids among them the user has completed. A failed query
     * empties the list and keeps the completed set.
     */
    method FetchAllTasksAndCompletions(ok: bool)
      requires Valid()
      modifies this
      ensures Valid()
      ensures old(Solvent()) ==> Solvent()
      ensures activeTab == old(activeTab)
      ensures store.user.None? ==>
        allTasks == old(allTasks) && completedDbTaskIds == old(completedDbTaskIds)
        && loadingStatus == old(loadingStatus)
      ensures store.user.Some? ==> !loadingStatus
      ensures store.user.Some? && !ok ==> allTasks == [] && completedDbTaskIds == old(completedDbTaskIds)
      ensures store.user.Some? && ok ==>
        && allTasks == ProcessAll(SortForListing(store.tasks))
        && completedDbTaskIds == CompletedIds(store.completions, store.user.value.id, allTasks)
    {
      if store.user.None? {
        return;
      }
      loadingStatus := true;
      if !ok {
        allTasks := [];
        loadingStatus := false;
        return;
      }
      var sorted := SortForListing(store.tasks);
      allTasks := ProcessAll(sorted);
      if |allTasks| > 0 {
        completedDbTaskIds := CompletedIds(store.completions, store.user.value.id, allTasks);
      } else {
        completedDbTaskIds := {};
        assert CompletedIds(store.completions, store.user.value.id, []) == {};
      }
      loadingStatus := false;
      if old(Solvent()) {
        ListingKeepsRewards(store.tasks);
      }
    }

    /**
     * `handleCompleteTask`: the ledger transition `Step`, carried out against the
     * store in the order written. The first two guards run at once; the rest runs in
     * the delayed callback `VerifyCompletion`.
     */
    method HandleCompleteTask(task: ProcessedTask, env: Env, counterBumped: bool) returns (outcome: Outcome)
      requires Valid()
      requires task in allTasks
      modifies this, store
      ensures Valid()
      ensures old(Solvent()) ==> Solvent()
      ensures (State(), outcome) == Step(old(State()), task, env)
      ensures allTasks == old(allTasks) && activeTab == old(activeTab) && loadingStatus == old(loadingStatus)
      ensures Effects(old(store.View()), task, env, counterBumped, outcome)
    {
      if store.user.None? || task.dbId == 0 {
        return MissingUserOrTask;
      }
      if task.dbId in completedDbTaskIds {
        return AlreadyCompleted;
      }
      outcome := VerifyCompletion(task, env, counterBumped);
    }

    /**
     * What an attempt leaves in the store besides `State()`: a credit written for
     * the pair raises that user's profile balance by the reward and is logged; the
     * task's counter is one higher when the increment went through; nothing else changes.
     */
    ghost predicate Effects(before: StoreView, task: ProcessedTask, env: Env, counterBumped: bool, outcome: Outcome)
      reads store
    {
      && store.nextId == before.nextId
      && (if outcome.Credited? && env.pointsSaved && before.user.Some?
        then store.profiles == before.profiles[before.user.value.id := before.user.value.points + task.row.reward]
          && store.credited == before.credited + [Completion(task.dbId, before.user.value.id)]
        else store.profiles == before.profiles && store.credited == before.credited)
      && store.tasks == if outcome.Credited? && counterBumped then Bump(before.tasks, task.dbId) else before.tasks
    }

    /**
     * The delayed part of `handleCompleteTask`: refuse a non-official task of the
     * user's own, then insert the pair; a unique violation only marks the task
     * completed, any other failure changes nothing, and a fresh row is credited by
     * `AwardCredit`.
     */
    method VerifyCompletion(task: ProcessedTask, env: Env, counterBumped: bool) returns (outcome: Outcome)
      requires Valid()
      requires task in allTasks
      requires store.user.Some? && task.dbId != 0 && task.dbId !in completedDbTaskIds
      modifies this, store
      ensures Valid()
      ensures old(Solvent()) ==> Solvent()
      ensures (State(), outcome) == Step(old(State()), task, env)
      ensures allTasks == old(allTasks) && activeTab == old(activeTab) && loadingStatus == old(loadingStatus)
      ensures Effects(old(store.View()), task, env, counterBumped, outcome)
    {
      var user := store.user.value;
      if !task.isOfficial && task.row.userId == Some(user.id) {
        return SelfCompletion;
      }
      var pair := Completion(task.dbId, user.id);
      var error := store.InsertCompletion(pair, env.reachable);
      if error == Some(UniqueViolation) {
        completedDbTaskIds := completedDbTaskIds + {task.dbId};
        return AlreadyAwarded;
      }
      if error.Some? {
        return VerificationFailed;
      }
      assert Decide(old(State()), task, env.reachable) == Credited(task.row.reward);
      AwardCredit(task, env.pointsSaved, counterBumped);
      outcome := Credited(task.row.reward);
    }

    /**
     * The success branch: the pair's row is freshly inserted. Write `points + reward`
     * as the balance, mark the task completed, and increment its counter.
     */
    method AwardCredit(task: ProcessedTask, pointsSaved: bool, counterBumped: bool)
      requires Valid()
      requires task in allTasks
      requires store.user.Some?
      requires Completion(task.dbId, store.user.value.id) in store.completions
      requires Completion(task.dbId, store.user.value.id) !in store.credited
      modifies this, store
      ensures Valid()
      ensures old(Solvent()) ==> Solvent()
      ensures store.user == if pointsSaved
        then Some(old(store.user).value.(points := old(store.user).value.points + task.row.reward))
        else old(store.user)
      ensures store.completions == old(store.completions)
      ensures completedDbTaskIds == old(completedDbTaskIds) + {task.dbId}
      ensures allTasks == old(allTasks) && activeTab == old(activeTab) && loadingStatus == old(loadingStatus)
      ensures store.nextId == old(store.nextId)
      ensures if pointsSaved
        then store.profiles == old(store.profiles)[old(store.user).value.id := old(store.user).value.points + task.row.reward]
          && store.credited == old(store.credited) + [Completion(task.dbId, old(store.user).value.id)]
        else store.profiles == old(store.profiles) && store.credited == old(store.credited)
      ensures store.tasks == if counterBumped then Bump(old(store.tasks), task.dbId) else old(store.tasks)
    {
      CreditBalance(task.dbId, task.row.reward, pointsSaved);
      completedDbTaskIds := completedDbTaskIds + {task.dbId};
      store.IncrementTaskCompletions(task.dbId, counterBumped);
    }

    /** The balance write of the success branch, and its entry in the credit log. */
    method CreditBalance(dbId: nat, reward: int, pointsSaved: bool)
      requires store.Valid()
      requires store.user.Some?
      requires Completion(dbId, store.user.value.id) in store.completions
      requires Completion(dbId, store.user.value.id) !in store.credited
      modifies store
      ensures store.Valid()
      ensures old(store.Solvent()) && reward >= 0 ==> store.Solvent()
      ensures store.tasks == old(store.tasks) && store.completions == old(store.completions)
      ensures store.nextId == old(store.nextId)
      ensures if pointsSaved
        then store.user == Some(old(store.user).value.(points := old(store.user).value.points + reward))
          && store.profiles == old(store.profiles)[old(store.user).value.id := old(store.user).value.points + reward]
          && store.credited == old(store.credited) + [Completion(dbId, old(store.user).value.id)]
        else (store.user == old(store.user) && store.profiles == old(store.profiles)
          && store.credited == old(store.credited))
    {
      var user := store.user.value;
      store.UpdateUserPoints(user.points + reward, pointsSaved);
      if pointsSaved {
        store.RecordCredit(Completion(dbId, user.id));
      }
    }
  }
}
