/**
 * The persistent side the pages talk to, reduced to the state they read and write:
 * the signed-in user kept by the authentication context, the `profiles` balances,
 * the `tasks` table, and the `task_completions` table whose (task_id, user_id)
 * pair is unique. Every request that can fail takes its outcome as a boolean.
 */
module Backend {
  import opened Common

  type UserId = string

  /** The authentication context's `user`: identity and its cached `points`. */
  datatype User = User(id: UserId, points: int)

  /** A row of the `tasks` table; `id == 0` never occurs (ids are assigned from 1). */
  datatype TaskRow = TaskRow(
    id: nat,
    userId: Option<UserId>,
    title: string,
    description: string,
    platform: Option<string>,
    action: string,
    url: string,
    reward: int,
    isOfficial: Option<bool>,
    completions: nat,
    createdAt: int)

  /** The columns a client sends when it inserts a task. */
  datatype NewTask = NewTask(
    userId: UserId,
    title: string,
    description: string,
    platform: string,
    action: string,
    url: string,
    reward: int,
    completions: nat)

  /** A row of `task_completions`; the table holds each pair at most once. */
  datatype Completion = Completion(taskId: nat, userId: UserId)

  /** Why an insert into `task_completions` failed: the unique violation (code 23505) or anything else. */
  datatype InsertError = UniqueViolation | Unavailable

  /** The tasks table after `increment_task_completions(id)`: that task's counter is one higher. */
  function Bump(tasks: seq<TaskRow>, id: nat): (r: seq<TaskRow>)
    ensures |r| == |tasks|
    ensures forall i | 0 <= i < |tasks| ::
      r[i] == if tasks[i].id == id then tasks[i].(completions := tasks[i].completions + 1) else tasks[i]
  {
    seq(|tasks|, i requires 0 <= i < |tasks| =>
      if tasks[i].id == id then tasks[i].(completions := tasks[i].completions + 1) else tasks[i])
  }

  /** Everything a `Store` holds, as one value. */
  datatype StoreView = StoreView(
    user: Option<User>,
    profiles: map<UserId, int>,
    tasks: seq<TaskRow>,
    completions: set<Completion>,
    nextId: nat,
    credited: seq<Completion>)

  class Store {
    var user: Option<User>
    var profiles: map<UserId, int>
    var tasks: seq<TaskRow>
    var completions: set<Completion>
    var nextId: nat
    /** Every completion for which a credit was written, in order. */
    ghost var credited: seq<Completion>

    /**
     * The signed-in user's cached balance is its profile's balance, task ids are
     * unique and below `nextId`, and every credit was written for a distinct
     * completion row: no (task, user) pair has been credited twice.
     */
    ghost predicate Valid()
      reads this
    {
      && (user.Some? ==> user.value.id in profiles && profiles[user.value.id] == user.value.points)
      && nextId > 0
      && (forall i | 0 <= i < |tasks| :: 0 < tasks[i].id < nextId)
      && (forall i, j | 0 <= i < j < |tasks| :: tasks[i].id != tasks[j].id)
      && (forall k | 0 <= k < |credited| :: credited[k] in completions)
      && (forall k, l | 0 <= k < l < |credited| :: credited[k] != credited[l])
    }

    ghost function View(): StoreView
      reads this
    {
      StoreView(user, profiles, tasks, completions, nextId, credited)
    }

    /** No balance is negative and no task promises a negative reward. */
    ghost predicate Solvent()
      reads this
    {
      && (forall u | u in profiles :: profiles[u] >= 0)
      && (forall i | 0 <= i < |tasks| :: tasks[i].reward >= 0)
    }

    constructor (user: Option<User>, profiles: map<UserId, int>, seed: seq<TaskRow>, nextId: nat)
      requires user.Some? ==> user.value.id in profiles && profiles[user.value.id] == user.value.points
      requires nextId > 0
      requires forall i | 0 <= i < |seed| :: 0 < seed[i].id < nextId
      requires forall i, j | 0 <= i < j < |seed| :: seed[i].id != seed[j].id
      ensures Valid()
      ensures this.user == user && this.profiles == profiles && tasks == seed
      ensures completions == {} && credited == []
    {
      this.user := user;
      this.profiles := profiles;
      tasks := seed;
      completions := {};
      this.nextId := nextId;
      credited := [];
    }

    /**
     * `updateUserPoints(newPoints)`: with a signed-in user, write the balance to its
     * profile; when the write succeeds, the cached user takes the new balance too,
     * and when it fails nothing changes (the error only shows a toast).
     */
    method UpdateUserPoints(newPoints: int, saved: bool)
      requires Valid()
      modifies this
      ensures Valid()
      ensures tasks == old(tasks) && completions == old(completions) && nextId == old(nextId)
      ensures credited == old(credited)
      ensures old(Solvent()) && newPoints >= 0 ==> Solvent()
      ensures if old(user).Some? && saved
        then user == Some(old(user).value.(points := newPoints))
          && profiles == old(profiles)[old(user).value.id := newPoints]
        else user == old(user) && profiles == old(profiles)
    {
      if user.Some? && saved {
        profiles := profiles[user.value.id := newPoints];
        user := Some(user.value.(points := newPoints));
      }
    }

    /** Insert a task row; on success the store assigns the next id and `createdAt`. */
    method InsertTask(t: NewTask, now: int, ok: bool) returns (inserted: Option<TaskRow>)
      requires Valid()
      modifies this
      ensures Valid()
      ensures user == old(user) && profiles == old(profiles) && completions == old(completions)
      ensures credited == old(credited)
      ensures ok <==> inserted.Some?
      ensures old(Solvent()) && t.reward >= 0 ==> Solvent()
      ensures !ok ==> tasks == old(tasks) && nextId == old(nextId)
      ensures ok ==> inserted.value.id == old(nextId) && tasks == old(tasks) + [inserted.value]
      ensures ok ==> inserted.value == TaskRow(old(nextId), Some(t.userId), t.title, t.description,
        Some(t.platform), t.action, t.url, t.reward, None, t.completions, now)
    {
      if !ok {
        return None;
      }
      var row := TaskRow(nextId, Some(t.userId), t.title, t.description,
        Some(t.platform), t.action, t.url, t.reward, None, t.completions, now);
      tasks := tasks + [row];
      nextId := nextId + 1;
      inserted := Some(row);
    }

    /** Insert into `task_completions`, which refuses a pair it already holds. */
    method InsertCompletion(c: Completion, reachable: bool) returns (error: Option<InsertError>)
      requires Valid()
      modifies this
      ensures Valid()
      ensures user == old(user) && profiles == old(profiles) && tasks == old(tasks) && nextId == old(nextId)
      ensures credited == old(credited)
      ensures error == (if !reachable then Some(Unavailable)
        else if c in old(completions) then Some(UniqueViolation) else None)
      ensures completions == if error.None? then old(completions) + {c} else old(completions)
    {
      if !reachable {
        return Some(Unavailable);
      }
      if c in completions {
        return Some(UniqueViolation);
      }
      completions := completions + {c};
      error := None;
    }

    /** Log a stored completion as credited, for the proofs that no pair is paid twice. */
    ghost method RecordCredit(c: Completion)
      requires Valid()
      requires c in completions && c !in credited
      modifies this
      ensures Valid()
      ensures user == old(user) && profiles == old(profiles) && completions == old(completions)
      ensures tasks == old(tasks) && nextId == old(nextId)
      ensures credited == old(credited) + [c]
      ensures Solvent() == old(Solvent())
    {
      credited := credited + [c];
    }

    /** The `increment_task_completions` procedure: one more completion on the task with that id. */
    method IncrementTaskCompletions(id: nat, ok: bool)
      requires Valid()
      modifies this
      ensures Valid()
      ensures user == old(user) && profiles == old(profiles) && completions == old(completions)
      ensures nextId == old(nextId) && credited == old(credited)
      ensures tasks == if ok then Bump(old(tasks), id) else old(tasks)
      ensures old(Solvent()) ==> Solvent()
    {
      if ok {
        tasks := Bump(tasks, id);
      }
    }
  }
}
