/** The in-memory store behind the routes: the two module-level arrays and
    the four handlers that change them. Each handler runs to completion. */
module Server {
  import opened Wrappers
  import opened Api
  import opened Auth
  import opened Users
  import opened Tasks

  class Store {
    /** `const users = []`: accounts in registration order. */
    var users: seq<User>
    /** `const tasks = []`: tasks of all users in creation order. */
    var tasks: seq<Task>

    ghost predicate Valid()
      reads this
    {
      Registry(users) && Stored(tasks)
    }

    /** The server starts with both arrays empty. */
    constructor ()
      ensures Valid() && users == [] && tasks == []
    {
      users := [];
      tasks := [];
    }

    /** POST /api/register. `passwordHash` is what the hashing library returned
        for `password`; the route answers 201 on `Pass`. */
    method Register(username: Option<string>, password: Option<string>, passwordHash: string)
      returns (r: Outcome<ApiError>)
      requires Valid()
      modifies this
      ensures Valid()
      ensures tasks == old(tasks)
      ensures !Truthy(username) || !Truthy(password) ==> r == Fail(MissingFields) && users == old(users)
      ensures Truthy(username) && Truthy(password) && FindUser(old(users), username.value).Some? ==>
                r == Fail(DuplicateUsername) && users == old(users)
      ensures Truthy(username) && Truthy(password) && FindUser(old(users), username.value).None? ==>
                r == Pass && users == old(users) + [User(|old(users)| + 1, username.value, passwordHash)]
      ensures r == Pass ==> FindUser(users, username.value) == Some(|old(users)|)
    {
      if !Truthy(username) || !Truthy(password) {
        return Fail(MissingFields);
      }
      if FindUser(users, username.value).Some? {
        return Fail(DuplicateUsername);
      }
      RegistryAppend(users, username.value, passwordHash);
      FindUserAppend(users, User(|users| + 1, username.value, passwordHash), username.value);
      users := users + [User(|users| + 1, username.value, passwordHash)];
      r := Pass;
    }

    /** POST /api/tasks for the authenticated caller `uid`. */
    method CreateTask(uid: int, desc: Option<string>, deadline: Option<string>, priority: Option<string>)
      returns (r: Result<Task, ApiError>)
      requires Valid()
      modifies this
      ensures Valid()
      ensures users == old(users)
      ensures !Truthy(desc) || !Truthy(deadline) ==> r == Failure(MissingFields) && tasks == old(tasks)
      ensures Truthy(desc) && Truthy(deadline) ==> r.Success? && tasks == old(tasks) + [r.value]
      ensures r.Success? ==>
                && r.value.id == |old(tasks)| + 1
                && r.value.userId == uid
                && r.value.desc == desc.value
                && r.value.deadline == deadline.value
                && r.value.statut == EnCours
                && r.value.priority == (if Truthy(priority) then priority.value else "normal")
                && !r.value.notificationEnvoyee
      ensures r.Success? ==> OwnedBy(tasks, uid) == OwnedBy(old(tasks), uid) + [r.value]
      ensures forall v :: v != uid ==> OwnedBy(tasks, v) == OwnedBy(old(tasks), v)
    {
      if !Truthy(desc) || !Truthy(deadline) {
        return Failure(MissingFields);
      }
      var task := NewTask(tasks, uid, desc.value, deadline.value, priority);
      tasks := tasks + [task];
      r := Success(task);
    }

    /** POST /api/tasks/:id/done for the caller `uid`; `id` is the parsed route
        parameter. Only the first task matching both id and owner changes. */
    method MarkDone(uid: int, id: Option<int>) returns (r: Outcome<ApiError>)
      requires Valid()
      modifies this
      ensures Valid()
      ensures users == old(users)
      ensures tasks == Completed(old(tasks), id, uid)
      ensures FindOwned(old(tasks), id, uid).None? ==> r == Fail(NotFound) && tasks == old(tasks)
      ensures FindOwned(old(tasks), id, uid).Some? ==>
                var i := FindOwned(old(tasks), id, uid).value;
                && r == Pass
                && |tasks| == |old(tasks)|
                && tasks[i] == old(tasks)[i].(statut := Termine, notificationEnvoyee := false)
                && forall j :: 0 <= j < |tasks| && j != i ==> tasks[j] == old(tasks)[j]
      ensures forall v :: v != uid ==> OwnedBy(tasks, v) == OwnedBy(old(tasks), v)
    {
      forall v | v != uid
        ensures OwnedBy(Completed(tasks, id, uid), v) == OwnedBy(tasks, v)
      {
        CompletedIsolation(tasks, id, uid, v);
      }
      var found := FindOwned(tasks, id, uid);
      if found.None? {
        return Fail(NotFound);
      }
      var i := found.value;
      tasks := tasks[i := tasks[i].(statut := Termine, notificationEnvoyee := false)];
      r := Pass;
    }

    /** DELETE /api/tasks/:id for the caller `uid`: splices out the first task
        matching both id and owner. */
    method DeleteTask(uid: int, id: Option<int>) returns (r: Outcome<ApiError>)
      requires Valid()
      modifies this
      ensures Valid()
      ensures users == old(users)
      ensures tasks == Removed(old(tasks), id, uid)
      ensures FindOwned(old(tasks), id, uid).None? ==> r == Fail(NotFound) && tasks == old(tasks)
      ensures FindOwned(old(tasks), id, uid).Some? ==>
                var i := FindOwned(old(tasks), id, uid).value;
                r == Pass && tasks == old(tasks)[..i] + old(tasks)[i + 1..]
      ensures forall v :: v != uid ==> OwnedBy(tasks, v) == OwnedBy(old(tasks), v)
    {
      forall v | v != uid
        ensures OwnedBy(Removed(tasks, id, uid), v) == OwnedBy(tasks, v)
      {
        RemovedIsolation(tasks, id, uid, v);
      }
      var found := FindOwned(tasks, id, uid);
      if found.None? {
        return Fail(NotFound);
      }
      var i := found.value;
      assert forall t :: t in tasks[..i] + tasks[i + 1..] ==> t in tasks;
      tasks := tasks[..i] + tasks[i + 1..];
      r := Pass;
    }
  }

  /** A client session up to authentication: register alice, fail to
      register her twice, log in, and present the issued token to the gate.
      `compare` and `verify` stand for the hashing and token libraries,
      constrained only by what this session relies on. */
  method AccountSession(passwordHash: string, compare: (string, string) -> bool,
                        token: string, verify: string -> Option<Identity>)
    requires compare("pw123", passwordHash)
    requires token != "" && verify(token) == Some(Identity(1, "alice"))
  {
    var store := new Store();
    var registered := store.Register(Some("alice"), Some("pw123"), passwordHash);
    assert registered == Pass;
    var twice := store.Register(Some("alice"), Some("other"), passwordHash);
    assert twice == Fail(DuplicateUsername);

    RegisterThenLogin([], "alice", "pw123", passwordHash, compare);
    var login := Login(store.users, Some("alice"), Some("pw123"), compare);
    assert login == Success(Identity(1, "alice"));

    IssuedTokenAuthenticates(token, login.value, verify);
    var caller := Authenticate(Some(Prefix + token), verify);
    assert caller == Success(Identity(1, "alice"));
  }

  /** A client session on the task routes for an authenticated caller `uid`:
      create, list, complete and delete one task; another user's delete of it
      finds nothing. */
  method TaskSession(uid: int)
  {
    assert Truthy(Some("buy milk")) && Truthy(Some("2024-01-01")) && !Truthy(None);
    var store := new Store();
    var created := store.CreateTask(uid, Some("buy milk"), Some("2024-01-01"), None);
    assert created.Success? && created.value.id == 1 && created.value.statut == EnCours;
    assert created.value.priority == "normal";
    var listed := OwnedBy(store.tasks, uid);
    assert listed == [created.value];

    var foreignDelete := store.DeleteTask(uid + 1, Some(1));
    assert foreignDelete == Fail(NotFound) && store.tasks == [created.value];

    var done := store.MarkDone(uid, Some(1));
    assert done == Pass && store.tasks[0].statut == Termine;
    var deleted := store.DeleteTask(uid, Some(1));
    assert deleted == Pass && store.tasks == [];
    assert OwnedBy(store.tasks, uid) == [];
  }
}
