/** The user registry: the `users` array and the lookups of the register and login routes. */
module Users {
  import opened Wrappers
  import opened Api

  /** One registered account; `passwordHash` is the salted hash, never the password. */
  datatype User = User(id: int, username: string, passwordHash: string)

  /** `users.find(u => u.username === name)`, as the index of the first such record. */
  function FindUser(users: seq<User>, name: string): (r: Option<nat>)
    ensures r.Some? ==> r.value < |users| && users[r.value].username == name
    ensures r.Some? ==> forall j :: 0 <= j < r.value ==> users[j].username != name
    ensures r.None? <==> forall j :: 0 <= j < |users| ==> users[j].username != name
  {
    if users == [] then None
    else if users[0].username == name then Some(0)
    else match FindUser(users[1..], name)
      case None => None
      case Some(i) => Some(i + 1)
  }

  /** What registration keeps true of the registry: record `i` has id `i + 1`
      (ids come from the length and no user is ever removed), every username is
      non-empty and no two records share a username. */
  ghost predicate Registry(users: seq<User>)
    ensures Registry(users) ==> forall i :: 0 <= i < |users| ==> FindUser(users, users[i].username) == Some(i)
  {
    && (forall i :: 0 <= i < |users| ==> users[i].id == i + 1 && users[i].username != "")
    && (forall i, j :: 0 <= i < j < |users| ==> users[i].username != users[j].username)
  }

  /** Appending a record leaves earlier lookups alone and makes its own name found
      at the end when it was not taken. */
  lemma {:induction false} FindUserAppend(users: seq<User>, u: User, name: string)
    ensures FindUser(users + [u], name) ==
              if FindUser(users, name).Some? then FindUser(users, name)
              else if u.username == name then Some(|users|)
              else None
  {
    if users != [] {
      assert (users + [u])[1..] == users[1..] + [u];
      FindUserAppend(users[1..], u, name);
    }
  }

  /** Registering a name that is free and non-empty keeps the registry invariant. */
  lemma RegistryAppend(users: seq<User>, name: string, passwordHash: string)
    requires Registry(users)
    requires name != "" && FindUser(users, name).None?
    ensures Registry(users + [User(|users| + 1, name, passwordHash)])
  {
  }

  /** The login route without its I/O. `compare` stands for the password-hash
      check of the hashing library; the issued token's claims are the result. */
  function Login(users: seq<User>, username: Option<string>, password: Option<string>,
                 compare: (string, string) -> bool): (r: Result<Identity, ApiError>)
    ensures r == Failure(MissingFields) <==> !Truthy(username) || !Truthy(password)
    ensures r.Failure? ==> r.error == MissingFields || r.error == InvalidCredentials
    ensures r.Success? ==> exists i :: 0 <= i < |users| && users[i].username == username.value &&
                                       compare(password.value, users[i].passwordHash) &&
                                       r.value == Identity(users[i].id, users[i].username)
    ensures FindUser(users, username.GetOr("")).None? ==> r.Failure?
  {
    if !Truthy(username) || !Truthy(password) then
      Failure(MissingFields)
    else
      match FindUser(users, username.value)
      case None => Failure(InvalidCredentials)
      case Some(i) =>
        if compare(password.value, users[i].passwordHash) then
          Success(Identity(users[i].id, users[i].username))
        else
          Failure(InvalidCredentials)
  }

  /** In a registry the stored account of the name decides login: it succeeds
      exactly when the password matches that account's hash, and the claims are
      that account's id (its position plus one) and name. */
  lemma LoginDecidedByAccount(users: seq<User>, i: nat, password: string, compare: (string, string) -> bool)
    requires Registry(users)
    requires i < |users| && password != ""
    ensures var r := Login(users, Some(users[i].username), Some(password), compare);
            r == if compare(password, users[i].passwordHash)
                 then Success(Identity(i + 1, users[i].username))
                 else Failure(InvalidCredentials)
  {
    var name := users[i].username;
    var k := FindUser(users, name);
    assert k.Some?;
    assert k.value == i;
  }

  /** Registering and then logging in with the same password succeeds and
      yields the new account's claims; any password the hash rejects fails. */
  lemma RegisterThenLogin(users: seq<User>, name: string, password: string, passwordHash: string,
                          compare: (string, string) -> bool)
    requires Registry(users)
    requires name != "" && password != "" && FindUser(users, name).None?
    ensures var after := users + [User(|users| + 1, name, passwordHash)];
            Login(after, Some(name), Some(password), compare) ==
              if compare(password, passwordHash) then Success(Identity(|users| + 1, name))
              else Failure(InvalidCredentials)
  {
    var after := users + [User(|users| + 1, name, passwordHash)];
    RegistryAppend(users, name, passwordHash);
    LoginDecidedByAccount(after, |users|, password, compare);
  }
}
