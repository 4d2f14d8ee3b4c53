/** The task table: the `tasks` array, its owner-scoped lookups and the pure
    descriptions of what the task routes do to it. */
module Tasks {
  import opened Wrappers
  import opened Api

  /** `statut` holds one of two strings: "En cours" (EnCours) or "Terminé" (Termine). */
  datatype Status = EnCours | Termine

  /** One task record, with the field names the API sends back. */
  datatype Task = Task(id: int, userId: int, desc: string, deadline: string,
                       statut: Status, priority: string, notificationEnvoyee: bool)

  /** The lookup predicate of the done and delete routes:
      `t.id === id && t.userId === req.user.id`. The route parameter goes through
      `parseInt`; `id` is None when that gives NaN, which equals no task id. */
  predicate Matches(t: Task, id: Option<int>, uid: int)
    ensures id.None? ==> !Matches(t, id, uid)
    ensures Matches(t, id, uid) ==> t.userId == uid
  {
    id == Some(t.id) && t.userId == uid
  }

  /** `tasks.findIndex(...)` with the predicate above (`find` picks the same task). */
  function FindOwned(tasks: seq<Task>, id: Option<int>, uid: int): (r: Option<nat>)
    ensures r.Some? ==> r.value < |tasks| && Matches(tasks[r.value], id, uid)
    ensures r.Some? ==> forall j :: 0 <= j < r.value ==> !Matches(tasks[j], id, uid)
    ensures r.None? <==> forall j :: 0 <= j < |tasks| ==> !Matches(tasks[j], id, uid)
  {
    if tasks == [] then None
    else if Matches(tasks[0], id, uid) then Some(0)
    else match FindOwned(tasks[1..], id, uid)
      case None => None
      case Some(i) => Some(i + 1)
  }

  /** The list route: `tasks.filter(t => t.userId === uid)`. */
  function OwnedBy(tasks: seq<Task>, uid: int): (r: seq<Task>)
    ensures forall t :: t in r <==> t in tasks && t.userId == uid
    ensures forall t :: multiset(r)[t] == if t.userId == uid then multiset(tasks)[t] else 0
  {
    if tasks == [] then []
    else
      assert tasks == [tasks[0]] + tasks[1..];
      var rest := OwnedBy(tasks[1..], uid);
      if tasks[0].userId == uid then [tasks[0]] + rest else rest
  }

  /** The list keeps the table's order: listing a concatenation lists each part in turn. */
  lemma {:induction false} OwnedByAppend(a: seq<Task>, b: seq<Task>, uid: int)
    ensures OwnedBy(a + b, uid) == OwnedBy(a, uid) + OwnedBy(b, uid)
  {
    if a == [] {
      assert a + b == b;
    } else {
      assert (a + b)[1..] == a[1..] + b;
      OwnedByAppend(a[1..], b, uid);
    }
  }

  /** The record the create route appends: the next id from the length, the
      caller as owner, "En cours", priority "normal" unless one was given, and no
      notification sent. */
  function NewTask(tasks: seq<Task>, uid: int, desc: string, deadline: string, priority: Option<string>): (r: Task)
    ensures r.id >= 1 && r.priority != ""
    ensures OwnedBy(tasks + [r], uid) == OwnedBy(tasks, uid) + [r]
    ensures forall v :: v != uid ==> OwnedBy(tasks + [r], v) == OwnedBy(tasks, v)
  {
    var r := Task(|tasks| + 1, uid, desc, deadline, EnCours,
                  if Truthy(priority) then priority.value else "normal", false);
    OwnedByAppendOne(tasks, r);
    r
  }

  /** Appending one task adds it to the end of its owner's list and to no other list. */
  lemma OwnedByAppendOne(tasks: seq<Task>, t: Task)
    ensures forall v :: OwnedBy(tasks + [t], v) == OwnedBy(tasks, v) + (if t.userId == v then [t] else [])
  {
    forall v ensures OwnedBy(tasks + [t], v) == OwnedBy(tasks, v) + (if t.userId == v then [t] else []) {
      OwnedByAppend(tasks, [t], v);
      assert OwnedBy([t], v) == if t.userId == v then [t] else [];
    }
  }

  /** The task table after the done route: the first task of `uid` with the id
      is finished and its notification flag cleared; nothing else moves. */
  function Completed(tasks: seq<Task>, id: Option<int>, uid: int): (r: seq<Task>)
    ensures |r| == |tasks|
    ensures FindOwned(tasks, id, uid).None? ==> r == tasks
    ensures FindOwned(tasks, id, uid).Some? ==>
              var i := FindOwned(tasks, id, uid).value;
              && r[i].statut == Termine && !r[i].notificationEnvoyee
              && r[i] == tasks[i].(statut := r[i].statut, notificationEnvoyee := r[i].notificationEnvoyee)
              && forall j :: 0 <= j < |r| && j != i ==> r[j] == tasks[j]
  {
    match FindOwned(tasks, id, uid)
    case None => tasks
    case Some(i) => tasks[i := tasks[i].(statut := Termine, notificationEnvoyee := false)]
  }

  /** The task table after the delete route (`tasks.splice(idx, 1)`): the first
      task of `uid` with the id is gone and the others keep their order. */
  function Removed(tasks: seq<Task>, id: Option<int>, uid: int): (r: seq<Task>)
    ensures FindOwned(tasks, id, uid).None? ==> r == tasks
    ensures FindOwned(tasks, id, uid).Some? ==>
              var i := FindOwned(tasks, id, uid).value;
              && |r| == |tasks| - 1
              && multiset(r) == multiset(tasks) - multiset{tasks[i]}
              && (forall j :: 0 <= j < i ==> r[j] == tasks[j])
              && (forall j :: i <= j < |r| ==> r[j] == tasks[j + 1])
  {
    match FindOwned(tasks, id, uid)
    case None => tasks
    case Some(i) =>
      assert tasks == tasks[..i] + [tasks[i]] + tasks[i + 1..];
      tasks[..i] + tasks[i + 1..]
  }

  /** What every create keeps true of the stored tasks: a positive id and the
      non-empty desc, deadline and priority the create route insists on. */
  ghost predicate Stored(tasks: seq<Task>) {
    forall t :: t in tasks ==> t.id >= 1 && t.desc != "" && t.deadline != "" && t.priority != ""
  }

  /** Every task a user lists was stored by the create route, so it has a
      positive id and a non-empty desc, deadline and priority. */
  lemma StoredListing(tasks: seq<Task>, uid: int)
    requires Stored(tasks)
    ensures Stored(OwnedBy(tasks, uid))
  {
  }

  /** Replacing a task that neither before nor after belongs to `v` leaves `v`'s list alone. */
  lemma OwnedByUpdateOther(s: seq<Task>, i: nat, x: Task, v: int)
    requires i < |s| && s[i].userId != v && x.userId != v
    ensures OwnedBy(s[i := x], v) == OwnedBy(s, v)
  {
    assert s == s[..i] + ([s[i]] + s[i + 1..]);
    assert s[i := x] == s[..i] + ([x] + s[i + 1..]);
    OwnedByAppend(s[..i], [s[i]] + s[i + 1..], v);
    OwnedByAppend([s[i]], s[i + 1..], v);
    OwnedByAppend(s[..i], [x] + s[i + 1..], v);
    OwnedByAppend([x], s[i + 1..], v);
  }

  /** Removing a task that does not belong to `v` leaves `v`'s list alone. */
  lemma OwnedByRemoveOther(s: seq<Task>, i: nat, v: int)
    requires i < |s| && s[i].userId != v
    ensures OwnedBy(s[..i] + s[i + 1..], v) == OwnedBy(s, v)
  {
    assert s == s[..i] + ([s[i]] + s[i + 1..]);
    OwnedByAppend(s[..i], [s[i]] + s[i + 1..], v);
    OwnedByAppend([s[i]], s[i + 1..], v);
    OwnedByAppend(s[..i], s[i + 1..], v);
  }

  /** Completing a task never changes what another user sees. */
  lemma CompletedIsolation(s: seq<Task>, id: Option<int>, uid: int, v: int)
    requires v != uid
    ensures OwnedBy(Completed(s, id, uid), v) == OwnedBy(s, v)
  {
    match FindOwned(s, id, uid)
    case None =>
    case Some(i) =>
      OwnedByUpdateOther(s, i, s[i].(statut := Termine, notificationEnvoyee := false), v);
  }

  /** Deleting a task never changes what another user sees. */
  lemma RemovedIsolation(s: seq<Task>, id: Option<int>, uid: int, v: int)
    requires v != uid
    ensures OwnedBy(Removed(s, id, uid), v) == OwnedBy(s, v)
  {
    match FindOwned(s, id, uid)
    case None =>
    case Some(i) => OwnedByRemoveOther(s, i, v);
  }

  /** Marking done twice is marking done once: the second call finds the same
      task (so it succeeds too) and leaves the table as the first call left it. */
  lemma CompletedIdempotent(s: seq<Task>, id: Option<int>, uid: int)
    ensures FindOwned(Completed(s, id, uid), id, uid) == FindOwned(s, id, uid)
    ensures Completed(Completed(s, id, uid), id, uid) == Completed(s, id, uid)
  {
    var once := Completed(s, id, uid);
    assert |once| == |s|;
    assert forall j :: 0 <= j < |s| ==> (Matches(once[j], id, uid) <==> Matches(s[j], id, uid));
  }

  /** How many tasks of `uid` carry the id: ids repeat, so this can exceed one. */
  function CountMatching(tasks: seq<Task>, id: Option<int>, uid: int): (n: nat)
    ensures n <= |tasks|
    ensures n == 0 <==> FindOwned(tasks, id, uid).None?
  {
    if tasks == [] then 0
    else (if Matches(tasks[0], id, uid) then 1 else 0) + CountMatching(tasks[1..], id, uid)
  }

  /** Counting distributes over concatenation. */
  lemma {:induction false} CountMatchingAppend(a: seq<Task>, b: seq<Task>, id: Option<int>, uid: int)
    ensures CountMatching(a + b, id, uid) == CountMatching(a, id, uid) + CountMatching(b, id, uid)
  {
    if a == [] {
      assert a + b == b;
    } else {
      assert (a + b)[1..] == a[1..] + b;
      CountMatchingAppend(a[1..], b, id, uid);
    }
  }

  /** A successful delete removes exactly one of the caller's tasks with that
      id, shortens the caller's list by one, and a later lookup of the same id
      fails exactly when that task was the only one with the id. */
  lemma RemovedDropsOne(s: seq<Task>, id: Option<int>, uid: int)
    requires FindOwned(s, id, uid).Some?
    ensures |Removed(s, id, uid)| == |s| - 1
    ensures CountMatching(Removed(s, id, uid), id, uid) == CountMatching(s, id, uid) - 1
    ensures |OwnedBy(Removed(s, id, uid), uid)| == |OwnedBy(s, uid)| - 1
    ensures FindOwned(Removed(s, id, uid), id, uid).None? <==> CountMatching(s, id, uid) == 1
  {
    var i := FindOwned(s, id, uid).value;
    assert s == s[..i] + ([s[i]] + s[i + 1..]);
    CountMatchingAppend(s[..i], [s[i]] + s[i + 1..], id, uid);
    CountMatchingAppend([s[i]], s[i + 1..], id, uid);
    CountMatchingAppend(s[..i], s[i + 1..], id, uid);
    assert CountMatching([s[i]], id, uid) == 1;
    OwnedByAppend(s[..i], [s[i]] + s[i + 1..], uid);
    OwnedByAppend([s[i]], s[i + 1..], uid);
    OwnedByAppend(s[..i], s[i + 1..], uid);
  }

  /** Ids are not unique: when the table's last task has id `|s|` (as it does
      after uninterrupted creations) and a delete removes an earlier task, the
      next created task gets the same id as that last task. */
  lemma IdReusedAfterDelete(s: seq<Task>, id: Option<int>, uid: int,
                            owner: int, desc: string, deadline: string, priority: Option<string>)
    requires FindOwned(s, id, uid).Some? && FindOwned(s, id, uid).value < |s| - 1
    requires s[|s| - 1].id == |s|
    ensures var after := Removed(s, id, uid);
            |after| > 0 && NewTask(after, owner, desc, deadline, priority).id == after[|after| - 1].id
  {
    var after := Removed(s, id, uid);
    assert after[|after| - 1] == s[|s| - 1];
  }
}
