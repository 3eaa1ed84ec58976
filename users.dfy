/** The user table and the four operations of the users service on it. */
module Users {
  import opened Common

  type UserId = string

  /** A row of the user table. `lastLoginAt` is None until the service first writes it. */
  datatype User = User(
    id: UserId,
    email: string,
    displayName: string,
    avatarUrl: Option<string>,
    lastLoginAt: Option<nat>)

  /** The store's unique constraints on the user table: one row per id and per email. */
  ghost predicate ValidUsers(users: seq<User>) {
    forall i, j :: 0 <= i < j < |users| ==> users[i].id != users[j].id && users[i].email != users[j].email
  }

  /** The id the store assigns to a new user is not used yet. */
  ghost predicate FreshUserId(users: seq<User>, id: UserId) {
    forall u :: u in users ==> u.id != id
  }

  /** Index of the first user with id `id`, or |users| when there is none. */
  function IndexOfId(users: seq<User>, id: UserId): nat {
    FirstWhere(users, (u: User) => u.id == id)
  }

  /** Index of the first user with email `email`, or |users| when there is none. */
  function IndexOfEmail(users: seq<User>, email: string): nat {
    FirstWhere(users, (u: User) => u.email == email)
  }

  /** findById: the user with that id, or none. */
  function FindById(users: seq<User>, id: UserId): (r: Option<User>)
    ensures r.Some? ==> r.value in users && r.value.id == id
    ensures r.None? <==> forall u :: u in users ==> u.id != id
    ensures ValidUsers(users) ==> forall u :: u in users && u.id == id ==> r == Some(u)
  {
    var k := IndexOfId(users, id);
    if k < |users| then Some(users[k]) else None
  }

  /** findByEmail: the user with that email, or none. */
  function FindByEmail(users: seq<User>, email: string): (r: Option<User>)
    ensures r.Some? ==> r.value in users && r.value.email == email
    ensures r.None? <==> forall u :: u in users ==> u.email != email
    ensures ValidUsers(users) ==> forall u :: u in users && u.email == email ==> r == Some(u)
  {
    var k := IndexOfEmail(users, email);
    if k < |users| then Some(users[k]) else None
  }

  /** createUser: insert a user with the given email, display name and avatar (none when
      not given); the store refuses an email that is already taken. */
  function CreateUserStep(users: seq<User>, email: string, displayName: string,
                          avatarUrl: Option<string>, newId: UserId): (r: Outcome<User, seq<User>>)
    requires FreshUserId(users, newId)
    ensures r.result.Ok? <==> forall u :: u in users ==> u.email != email
    ensures r.result.Err? ==> r == Outcome(Err(StoreError(UniqueViolation)), users)
    ensures r.result.Ok? ==>
      && r.result.value == User(newId, email, displayName, avatarUrl, None)
      && r.table == users + [r.result.value]
    ensures ValidUsers(users) ==> ValidUsers(r.table)
  {
    if FindByEmail(users, email).Some? then
      Outcome(Err(StoreError(UniqueViolation)), users)
    else
      var user := User(newId, email, displayName, avatarUrl, None);
      Outcome(Ok(user), users + [user])
  }

  /** updateLastLogin: set `lastLoginAt` of the user with that id to `now`; the store
      fails when no such user exists. */
  function UpdateLastLoginStep(users: seq<User>, id: UserId, now: nat): (r: Outcome<User, seq<User>>)
    ensures r.result.Ok? <==> exists u :: u in users && u.id == id
    ensures r.result.Err? ==> r == Outcome(Err(StoreError(RecordNotFound)), users)
    ensures r.result.Ok? ==>
      && |r.table| == |users|
      && exists k :: 0 <= k < |users| && users[k].id == id
           && r.result.value == users[k].(lastLoginAt := Some(now))
           && r.table == users[k := r.result.value]
    ensures ValidUsers(users) ==> ValidUsers(r.table)
  {
    var k := IndexOfId(users, id);
    if k == |users| then
      Outcome(Err(StoreError(RecordNotFound)), users)
    else
      var updated := users[k].(lastLoginAt := Some(now));
      Outcome(Ok(updated), users[k := updated])
  }

  /** After createUser, findByEmail and findById both return the created user. */
  lemma CreateThenFind(users: seq<User>, email: string, displayName: string,
                       avatarUrl: Option<string>, newId: UserId)
    requires ValidUsers(users) && FreshUserId(users, newId)
    requires CreateUserStep(users, email, displayName, avatarUrl, newId).result.Ok?
    ensures var r := CreateUserStep(users, email, displayName, avatarUrl, newId);
      && FindByEmail(r.table, email) == Some(r.result.value)
      && FindById(r.table, newId) == Some(r.result.value)
  {
  }

  /** Number of users with email `email`. */
  function CountEmail(users: seq<User>, email: string): (n: nat)
    ensures n <= |users|
    ensures n == 0 <==> forall u :: u in users ==> u.email != email
    decreases |users|
  {
    if |users| == 0 then 0
    else
      assert forall u :: u in users <==> u == users[0] || u in users[1..];
      (if users[0].email == email then 1 else 0) + CountEmail(users[1..], email)
  }

  /** Under the unique-email constraint, an email in use belongs to exactly one user. */
  lemma {:induction false} UniqueEmailCount(users: seq<User>, email: string)
    requires ValidUsers(users)
    requires exists u :: u in users && u.email == email
    ensures CountEmail(users, email) == 1
    decreases |users|
  {
    var tail := users[1..];
    assert ValidUsers(tail) by {
      forall i, j | 0 <= i < j < |tail| ensures tail[i].id != tail[j].id && tail[i].email != tail[j].email {
        assert tail[i] == users[i + 1] && tail[j] == users[j + 1];
      }
    }
    if users[0].email == email {
      forall u | u in tail ensures u.email != email {
        var j :| 0 <= j < |tail| && tail[j] == u;
        assert users[j + 1] == u;
      }
    } else {
      var u :| u in users && u.email == email;
      assert u in tail;
      UniqueEmailCount(tail, email);
    }
  }

  /** The user table of the users service. */
  class UsersService {
    var users: seq<User>

    ghost predicate Valid()
      reads this
    {
      ValidUsers(users)
    }

    constructor (initial: seq<User>)
      requires ValidUsers(initial)
      ensures Valid() && users == initial
    {
      users := initial;
    }

    method CreateUser(email: string, displayName: string, avatarUrl: Option<string>, newId: UserId)
      returns (r: Result<User>)
      requires Valid() && FreshUserId(users, newId)
      modifies this
      ensures Valid()
      ensures Outcome(r, users) == CreateUserStep(old(users), email, displayName, avatarUrl, newId)
    {
      if FindByEmail(users, email).Some? {
        r := Err(StoreError(UniqueViolation));
        return;
      }
      var user := User(newId, email, displayName, avatarUrl, None);
      users := users + [user];
      r := Ok(user);
    }

    method UpdateLastLogin(id: UserId, now: nat) returns (r: Result<User>)
      requires Valid()
      modifies this
      ensures Valid()
      ensures Outcome(r, users) == UpdateLastLoginStep(old(users), id, now)
    {
      var k := IndexOfId(users, id);
      if k == |users| {
        r := Err(StoreError(RecordNotFound));
        return;
      }
      var updated := users[k].(lastLoginAt := Some(now));
      users := users[k := updated];
      r := Ok(updated);
    }
  }
}
