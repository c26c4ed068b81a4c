/**
 * The task-creation page: the static platform/action catalog, the form state and
 * its change handlers, and submission, which validates the form, inserts the task
 * and then debits its reward from the creator's balance.
 */
module AddTask {
  import opened Common
  import opened Text
  import opened Backend

  datatype ActionInfo = ActionInfo(id: string, name: string, minReward: int, defaultReward: int)

  datatype PlatformInfo = PlatformInfo(id: string, name: string, actions: seq<ActionInfo>)

  /** The platforms a task can target, each with the actions it offers and their reward bounds. */
  const Catalog: seq<PlatformInfo> := [
    PlatformInfo("twitter", "Twitter / X", [
      ActionInfo("follow", "Follow Account", 25, 50),
      ActionInfo("like", "Like Post", 10, 20),
      ActionInfo("retweet", "Retweet / Repost", 15, 30),
      ActionInfo("comment", "Comment", 20, 40)]),
    PlatformInfo("youtube", "YouTube", [
      ActionInfo("subscribe", "Subscribe to Channel", 50, 75),
      ActionInfo("like", "Like Video", 15, 25),
      ActionInfo("comment", "Comment on Video", 25, 50)]),
    PlatformInfo("instagram", "Instagram", [
      ActionInfo("follow", "Follow Account", 25, 50),
      ActionInfo("like", "Like Post", 10, 20),
      ActionInfo("comment", "Comment on Post", 20, 40)]),
    PlatformInfo("discord", "Discord", [
      ActionInfo("join", "Join Server", 75, 100)]),
    PlatformInfo("telegram", "Telegram", [
      ActionInfo("join", "Join Channel/Group", 50, 75)]),
    PlatformInfo("tiktok", "TikTok", [
      ActionInfo("follow", "Follow Account", 20, 40),
      ActionInfo("like", "Like Video", 10, 20)]),
    PlatformInfo("other", "Other URL", [
      ActionInfo("visit", "Visit Website / URL", 10, 20)])
  ]

  /** Every action's minimum is at least 10 and at most its default. */
  ghost predicate RewardBoundsHold(p: PlatformInfo) {
    forall k | 0 <= k < |p.actions| :: 10 <= p.actions[k].minReward <= p.actions[k].defaultReward
  }

  ghost predicate ActionIdsDistinct(p: PlatformInfo) {
    forall k, l | 0 <= k < l < |p.actions| :: p.actions[k].id != p.actions[l].id
  }

  /**
   * A well-formed catalog: platform ids are distinct, every platform has a first
   * action (so `actions[0]` is always defined), action ids are distinct within a
   * platform, and every minimum is at least 10 and at most the default.
   */
  ghost predicate WellFormed(catalog: seq<PlatformInfo>) {
    && (forall i, j | 0 <= i < j < |catalog| :: catalog[i].id != catalog[j].id)
    && (forall i | 0 <= i < |catalog| :: |catalog[i].actions| > 0)
    && (forall i | 0 <= i < |catalog| :: RewardBoundsHold(catalog[i]) && ActionIdsDistinct(catalog[i]))
  }

  lemma CatalogWellFormed()
    ensures WellFormed(Catalog)
  {
    var ids := ["twitter", "youtube", "instagram", "discord", "telegram", "tiktok", "other"];
    assert forall i | 0 <= i < |Catalog| :: Catalog[i].id == ids[i];
    assert forall i, j | 0 <= i < j < |ids| :: ids[i] != ids[j];
    forall i | 0 <= i < |Catalog|
      ensures |Catalog[i].actions| > 0 && RewardBoundsHold(Catalog[i]) && ActionIdsDistinct(Catalog[i])
    {
    }
  }

  /**
   * `xs.find(x => x.id === id)`, for the platforms and for a platform's actions:
   * the first element whose id (read by `idOf`) is `id`.
   */
  function FindById<T>(xs: seq<T>, idOf: T -> string, id: string): (r: Option<T>)
    ensures r.None? <==> forall k | 0 <= k < |xs| :: idOf(xs[k]) != id
    ensures r.Some? ==> exists k | 0 <= k < |xs| ::
      (xs[k] == r.value && idOf(r.value) == id && forall j | 0 <= j < k :: idOf(xs[j]) != id)
  {
    if xs == [] then None
    else if idOf(xs[0]) == id then Some(xs[0])
    else
      var r := FindById(xs[1..], idOf, id);
      assert r.Some? ==> exists k | 0 <= k < |xs[1..]| ::
        (xs[1..][k] == r.value && idOf(r.value) == id && forall j | 0 <= j < k :: idOf(xs[1..][j]) != id);
      r
  }

  /** `platforms.find(p => p.id === id)`. */
  function FindPlatform(ps: seq<PlatformInfo>, id: string): Option<PlatformInfo> {
    FindById(ps, (p: PlatformInfo) => p.id, id)
  }

  /** `actions.find(a => a.id === id)`. */
  function FindAction(actions: seq<ActionInfo>, id: string): Option<ActionInfo> {
    FindById(actions, (a: ActionInfo) => a.id, id)
  }

  /** `currentActionDetails`: the selected action of the selected platform, if both exist. */
  function CurrentActionDetails(catalog: seq<PlatformInfo>, platformId: string, action: string): (r: Option<ActionInfo>)
    ensures r.None? <==> (
      || FindPlatform(catalog, platformId).None?
      || forall k | 0 <= k < |FindPlatform(catalog, platformId).value.actions| ::
        FindPlatform(catalog, platformId).value.actions[k].id != action)
    ensures r.Some? ==> r.value.id == action && r.value in FindPlatform(catalog, platformId).value.actions
  {
    match FindPlatform(catalog, platformId)
    case None => None
    case Some(p) => FindAction(p.actions, action)
  }

  /** A platform a well-formed catalog knows has a first action. */
  lemma KnownPlatformHasActions(catalog: seq<PlatformInfo>, platformId: string)
    requires WellFormed(catalog)
    requires FindPlatform(catalog, platformId).Some?
    ensures |FindPlatform(catalog, platformId).value.actions| > 0
  {
  }

  /** A known action has a positive minimum that its default reward meets. */
  lemma CurrentActionBounds(catalog: seq<PlatformInfo>, platformId: string, action: string)
    requires WellFormed(catalog)
    requires CurrentActionDetails(catalog, platformId, action).Some?
    ensures 10 <= CurrentActionDetails(catalog, platformId, action).value.minReward
    ensures CurrentActionDetails(catalog, platformId, action).value.minReward
      <= CurrentActionDetails(catalog, platformId, action).value.defaultReward
    ensures CurrentActionDetails(catalog, platformId, action).value.id == action
  {
    var p := FindPlatform(catalog, platformId).value;
    assert RewardBoundsHold(p);
  }

  /** The form's fields (`taskData`). */
  datatype TaskData = TaskData(title: string, description: string, action: string, url: string, reward: int)

  const InitialTaskData := TaskData("", "", "follow", "", 50)

  /** The form for a platform with nothing typed: its first action at that action's default reward. */
  function DefaultForm(p: PlatformInfo): TaskData
    requires |p.actions| > 0
  {
    TaskData("", "", p.actions[0].id, "", p.actions[0].defaultReward)
  }

  /** A reset form for a catalog platform names a valid action whose reward meets its minimum. */
  lemma DefaultFormIsValid(catalog: seq<PlatformInfo>, i: nat)
    requires WellFormed(catalog)
    requires i < |catalog|
    ensures |catalog[i].actions| > 0
    ensures CurrentActionDetails(catalog, catalog[i].id, DefaultForm(catalog[i]).action) == Some(catalog[i].actions[0])
    ensures catalog[i].actions[0].minReward <= DefaultForm(catalog[i]).reward
  {
    var p := catalog[i];
    assert FindPlatform(catalog, p.id) == Some(p);
    assert RewardBoundsHold(p);
  }

  /** The value the reward control hands over: the slider's array, or the text of an input. */
  datatype RewardInput = SliderValue(values: seq<int>) | TypedValue(text: string)

  /**
   * The reward a change event carries: the slider's first element, or the typed
   * text read by `parseInt(text, 10)`; `None` when that is `NaN` (an empty slider
   * array gives `undefined`).
   */
  function NewReward(value: RewardInput): (r: Option<int>)
    ensures value.SliderValue? ==> (r.Some? <==> |value.values| > 0)
    ensures value.SliderValue? && r.Some? ==> r.value == value.values[0]
    ensures value.TypedValue? ==> r == ParseInt(value.text)
  {
    match value
    case SliderValue(vs) => if |vs| > 0 then Some(vs[0]) else None
    case TypedValue(text) => ParseInt(text)
  }

  /** A reward typed as its decimal text is read back exactly. */
  lemma TypedRewardRoundTrip(reward: int)
    ensures NewReward(TypedValue(IntToString(reward))) == Some(reward)
  {
    ParseIntOfIntToString(reward);
  }

  /** Why a submission is refused, in the order the checks run. */
  datatype Rejection = NotSignedIn | MissingInformation | InvalidAction | RewardTooLow(minReward: int) | InsufficientPoints

  /**
   * The submit checks, in order; `None` means the form may be submitted, which is
   * exactly when there is a signed-in user, no text field is empty, the action
   * belongs to the selected platform, and the reward lies between that action's
   * minimum and the user's balance, both ends included.
   */
  function CheckSubmit(catalog: seq<PlatformInfo>, user: Option<User>, platformId: string, data: TaskData): (r: Option<Rejection>)
    ensures r.None? <==>
      && user.Some?
      && data.title != "" && data.description != "" && data.url != ""
      && CurrentActionDetails(catalog, platformId, data.action).Some?
      && CurrentActionDetails(catalog, platformId, data.action).value.minReward <= data.reward <= user.value.points
    ensures r == Some(NotSignedIn) <==> user.None?
    ensures r == Some(MissingInformation) <==>
      user.Some? && (data.title == "" || data.description == "" || data.url == "")
    ensures r == Some(InvalidAction) <==>
      && user.Some? && data.title != "" && data.description != "" && data.url != ""
      && CurrentActionDetails(catalog, platformId, data.action).None?
    ensures (r.Some? && r.value.RewardTooLow?) <==>
      && user.Some? && data.title != "" && data.description != "" && data.url != ""
      && CurrentActionDetails(catalog, platformId, data.action).Some?
      && data.reward < CurrentActionDetails(catalog, platformId, data.action).value.minReward
    ensures r.Some? && r.value.RewardTooLow? ==>
      r.value.minReward == CurrentActionDetails(catalog, platformId, data.action).value.minReward
    ensures r == Some(InsufficientPoints) <==>
      && user.Some? && data.title != "" && data.description != "" && data.url != ""
      && CurrentActionDetails(catalog, platformId, data.action).Some?
      && CurrentActionDetails(catalog, platformId, data.action).value.minReward <= data.reward
      && data.reward > user.value.points
  {
    if user.None? then Some(NotSignedIn)
    else if data.title == "" || data.description == "" || data.url == "" then Some(MissingInformation)
    else match CurrentActionDetails(catalog, platformId, data.action)
      case None => Some(InvalidAction)
      case Some(details) =>
        if data.reward < details.minReward then Some(RewardTooLow(details.minReward))
        else if data.reward > user.value.points then Some(InsufficientPoints)
        else None
  }

  /**
   * An accepted form always escrows a positive reward the creator can afford: the
   * debited balance `points - reward` is never negative.
   */
  lemma AcceptedSubmitIsFunded(catalog: seq<PlatformInfo>, user: Option<User>, platformId: string, data: TaskData)
    requires WellFormed(catalog)
    requires CheckSubmit(catalog, user, platformId, data).None?
    ensures data.reward >= 10
    ensures user.value.points - data.reward >= 0
    ensures FindPlatform(catalog, platformId).Some?
  {
    CurrentActionBounds(catalog, platformId, data.action);
  }

  /**
   * The reward bounds are inclusive: at `minReward` and at the whole balance the form
   * passes, one below the minimum is "reward too low", one above the balance is
   * "insufficient points".
   */
  lemma RewardBoundaries(catalog: seq<PlatformInfo>, user: User, platformId: string, data: TaskData)
    requires data.title != "" && data.description != "" && data.url != ""
    requires CurrentActionDetails(catalog, platformId, data.action).Some?
    requires CurrentActionDetails(catalog, platformId, data.action).value.minReward <= user.points
    ensures var m := CurrentActionDetails(catalog, platformId, data.action).value.minReward;
      && CheckSubmit(catalog, Some(user), platformId, data.(reward := m)).None?
      && CheckSubmit(catalog, Some(user), platformId, data.(reward := user.points)).None?
      && CheckSubmit(catalog, Some(user), platformId, data.(reward := m - 1)) == Some(RewardTooLow(m))
      && CheckSubmit(catalog, Some(user), platformId, data.(reward := user.points + 1)) == Some(InsufficientPoints)
  {
  }

  /**
   * `maxReward`: the larger of the action's minimum and the balance, where each side
   * falls back to 10 when it is missing or zero (the `x || 10` idiom).
   */
  function MaxReward(details: Option<ActionInfo>, user: Option<User>): (r: int)
    ensures r >= OrTen(details.Some?, if details.Some? then details.value.minReward else 0)
    ensures r >= OrTen(user.Some?, if user.Some? then user.value.points else 0)
    ensures r == OrTen(details.Some?, if details.Some? then details.value.minReward else 0)
      || r == OrTen(user.Some?, if user.Some? then user.value.points else 0)
  {
    var low := OrTen(details.Some?, if details.Some? then details.value.minReward else 0);
    var high := OrTen(user.Some?, if user.Some? then user.value.points else 0);
    if low >= high then low else high
  }

  /** `x || 10` for a number `x` that may be absent. */
  function OrTen(present: bool, x: int): int {
    if present && x != 0 then x else 10
  }

  /** For a known action the bound is never below its minimum, so the reward range is never empty. */
  lemma MaxRewardCoversMinimum(catalog: seq<PlatformInfo>, platformId: string, action: string, user: Option<User>)
    requires WellFormed(catalog)
    requires CurrentActionDetails(catalog, platformId, action).Some?
    ensures MaxReward(CurrentActionDetails(catalog, platformId, action), user)
      >= CurrentActionDetails(catalog, platformId, action).value.minReward
  {
    CurrentActionBounds(catalog, platformId, action);
  }

  /** The text fields `handleInputChange` writes. */
  datatype TextField = Title | Description | Url

  /** What a submission ended in. */
  datatype SubmitOutcome = Rejected(why: Rejection) | DatabaseError | Created(task: TaskRow)

  class AddTaskPage {
    const store: Store
    /** The `platforms` table the page was built with. */
    const catalog: seq<PlatformInfo>
    var selectedPlatformId: string
    var taskData: TaskData

    ghost predicate Valid()
      reads this, store
    {
      store.Valid() && WellFormed(catalog)
    }

    constructor (store: Store)
      requires store.Valid()
      ensures Valid() && this.store == store && catalog == Catalog
      ensures selectedPlatformId == "twitter" && taskData == InitialTaskData
    {
      this.store := store;
      catalog := Catalog;
      selectedPlatformId := "twitter";
      taskData := InitialTaskData;
      CatalogWellFormed();
    }

    /** `handleInputChange(field, value)` for a text field: that field alone changes. */
    method HandleInputChange(field: TextField, value: string)
      modifies this
      ensures selectedPlatformId == old(selectedPlatformId)
      ensures taskData == match field
        case Title => old(taskData).(title := value)
        case Description => old(taskData).(description := value)
        case Url => old(taskData).(url := value)
    {
      match field
      case Title => taskData := taskData.(title := value);
      case Description => taskData := taskData.(description := value);
      case Url => taskData := taskData.(url := value);
    }

    /**
     * `handlePlatformChange`: the selection always moves to `platformId`; for a known
     * platform the form becomes that platform's blank form, otherwise it is kept.
     */
    method HandlePlatformChange(platformId: string)
      requires Valid()
      modifies this
      ensures Valid()
      ensures selectedPlatformId == platformId
      ensures match FindPlatform(catalog, platformId)
        case Some(p) => |p.actions| > 0 && taskData == DefaultForm(p)
        case None => taskData == old(taskData)
    {
      selectedPlatformId := platformId;
      var newPlatform := FindPlatform(catalog, platformId);
      if newPlatform.Some? {
        KnownPlatformHasActions(catalog, platformId);
      }
      if newPlatform.Some? && |newPlatform.value.actions| > 0 {
        taskData := DefaultForm(newPlatform.value);
      }
    }

    /**
     * `handleActionChange`: an action of the selected platform becomes the action at
     * its default reward; any other id leaves the form as it was.
     */
    method HandleActionChange(actionId: string)
      modifies this
      ensures selectedPlatformId == old(selectedPlatformId)
      ensures match CurrentActionDetails(catalog, selectedPlatformId, actionId)
        case Some(a) => taskData == old(taskData).(action := actionId, reward := a.defaultReward)
        case None => taskData == old(taskData)
    {
      var actionDetails := CurrentActionDetails(catalog, selectedPlatformId, actionId);
      if actionDetails.Some? {
        taskData := taskData.(action := actionId, reward := actionDetails.value.defaultReward);
      }
    }

    /** `handleRewardChange`: a readable value replaces the reward and nothing else. */
    method HandleRewardChange(value: RewardInput)
      modifies this
      ensures selectedPlatformId == old(selectedPlatformId)
      ensures match NewReward(value)
        case Some(reward) => taskData == old(taskData).(reward := reward)
        case None => taskData == old(taskData)
    {
      var newReward := NewReward(value);
      if newReward.Some? {
        taskData := taskData.(reward := newReward.value);
      }
    }

    /**
     * `handleSubmit`: the checks of `CheckSubmit` run first and a refusal changes
     * nothing; a form that passes them is published by `PublishTask`.
     */
    method HandleSubmit(now: int, insertOk: bool, updateOk: bool) returns (outcome: SubmitOutcome)
      requires Valid()
      modifies this, store
      ensures Valid()
      ensures selectedPlatformId == old(selectedPlatformId)
      ensures old(store.Solvent()) ==> store.Solvent()
      ensures CheckSubmit(catalog, old(store.user), old(selectedPlatformId), old(taskData)).Some? ==>
        && outcome == Rejected(CheckSubmit(catalog, old(store.user), old(selectedPlatformId), old(taskData)).value)
        && store.View() == old(store.View()) && taskData == old(taskData)
      ensures CheckSubmit(catalog, old(store.user), old(selectedPlatformId), old(taskData)).None? ==>
        Published(old(store.View()), old(taskData), now, insertOk, updateOk, outcome)
    {
      var rejection := CheckSubmit(catalog, store.user, selectedPlatformId, taskData);
      if rejection.Some? {
        return Rejected(rejection.value);
      }
      AcceptedSubmitIsFunded(catalog, store.user, selectedPlatformId, taskData);
      outcome := PublishTask(now, insertOk, updateOk);
    }

    /**
     * What publishing a checked form leaves behind. If the insert fails, nothing
     * changes. Otherwise the new task row holds the form with no completions, the
     * creator's balance becomes `points - reward` when that write succeeds (and stays
     * as it was when it fails), and the form is reset to the selected platform's
     * blank form.
     */
    ghost predicate Published(before: StoreView, form: TaskData, now: int, insertOk: bool, updateOk: bool,
      outcome: SubmitOutcome)
      requires before.user.Some?
      reads this, store
    {
      var creator := before.user.value;
      if !insertOk then
        outcome == DatabaseError && store.View() == before && taskData == form
      else
        && outcome == Created(TaskRow(before.nextId, Some(creator.id), form.title, form.description,
          Some(selectedPlatformId), form.action, form.url, form.reward, None, 0, now))
        && store.tasks == before.tasks + [outcome.task]
        && store.completions == before.completions && store.credited == before.credited
        && (if updateOk
          then store.profiles == before.profiles[creator.id := creator.points - form.reward]
            && store.user == Some(creator.(points := creator.points - form.reward))
          else store.profiles == before.profiles && store.user == before.user)
        && FindPlatform(catalog, selectedPlatformId).Some?
        && |FindPlatform(catalog, selectedPlatformId).value.actions| > 0
        && taskData == DefaultForm(FindPlatform(catalog, selectedPlatformId).value)
    }

    /**
     * The `try` block of `handleSubmit`: insert the task with no completions, then
     * write `points - reward` as the creator's balance, then reset the form. The
     * debit comes after the insert and only when the insert succeeded.
     */
    method PublishTask(now: int, insertOk: bool, updateOk: bool) returns (outcome: SubmitOutcome)
      requires Valid()
      requires store.user.Some? && 10 <= taskData.reward <= store.user.value.points
      requires FindPlatform(catalog, selectedPlatformId).Some?
      modifies this, store
      ensures Valid()
      ensures selectedPlatformId == old(selectedPlatformId)
      ensures old(store.Solvent()) ==> store.Solvent()
      ensures Published(old(store.View()), old(taskData), now, insertOk, updateOk, outcome)
    {
      var creator := store.user.value;
      var inserted := store.InsertTask(
        NewTask(creator.id, taskData.title, taskData.description, selectedPlatformId,
          taskData.action, taskData.url, taskData.reward, 0),
        now, insertOk);
      if inserted.None? {
        return DatabaseError;
      }
      var newPoints := creator.points - taskData.reward;
      store.UpdateUserPoints(newPoints, updateOk);
      KnownPlatformHasActions(catalog, selectedPlatformId);
      var currentPlatform := FindPlatform(catalog, selectedPlatformId).value;
      taskData := DefaultForm(currentPlatform);
      outcome := Created(inserted.value);
    }
  }
}
