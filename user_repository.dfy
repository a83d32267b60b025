/** The user store (src/repositories/user.ts): lookups by username and by id,
    and registration, over the `user` table of the shared database. */
module UserRepository {
  import opened Common
  import opened Errors
  import opened Database
  import opened UserModels

  /** Some user already has this username. */
  ghost predicate UsernameTaken(users: map<nat, UserRow>, username: string)
  {
    exists id | id in users :: users[id].username == username
  }

  /** The entity a `user` row is selected as. */
  function Entity(id: nat, row: UserRow): UserEntity
  {
    UserEntity(id, row.firstName, row.lastName, row.username, row.passwordHash)
  }

  /** The `findByUsername` query over the ids below `bound`: the full entity of
      a user with that username, or nothing when no user below the bound has it. */
  function FindByName(users: map<nat, UserRow>, username: string, bound: nat): (r: Option<UserEntity>)
    ensures r.Some? ==>
      && r.value.id in users && r.value.id < bound
      && users[r.value.id].username == username
      && r.value == Entity(r.value.id, users[r.value.id])
    ensures r.None? ==> forall id | id in users && id < bound :: users[id].username != username
    decreases bound
  {
    if bound == 0 then None
    else if bound - 1 in users && users[bound - 1].username == username then Some(Entity(bound - 1, users[bound - 1]))
    else FindByName(users, username, bound - 1)
  }

  /** The `findOneUser` query: first name, last name and username of the user
      with that id. */
  function FindInfo(users: map<nat, UserRow>, id: nat): (r: Option<UserInfo>)
    ensures r.Some? <==> id in users
    ensures r.Some? ==> r.value.firstName == users[id].firstName && r.value.lastName == users[id].lastName
                        && r.value.username == users[id].username
  {
    if id in users then Some(UserInfo(users[id].firstName, users[id].lastName, users[id].username)) else None
  }

  /** Under the constraints the lookup over every issued id is exact: it finds
      a user precisely when the username is taken, and then the only one. */
  lemma FindByNameUnderConstraints(users: map<nat, UserRow>, userSeq: nat, username: string)
    ensures IdsIssued(users, userSeq) && UniqueUsernames(users) ==>
      && (FindByName(users, username, userSeq + 1).Some? <==> UsernameTaken(users, username))
      && (forall id | id in users && users[id].username == username ::
            FindByName(users, username, userSeq + 1) == Some(Entity(id, users[id])))
  {
    if IdsIssued(users, userSeq) && UniqueUsernames(users) && UsernameTaken(users, username) {
      var id :| id in users && users[id].username == username;
      assert id < userSeq + 1;
    }
  }

  /** After registering a username nobody had, at the next id: the constraints
      still hold, the lookup by username finds exactly the new user with the
      stored hash, the lookup by id returns its names, and every other user
      reads as before. */
  lemma RegisteredUserIsFound(
    users: map<nat, UserRow>, userSeq: nat, reviews: map<nat, ReviewRow>, reviewSeq: nat,
    likes: set<Like>, row: UserRow)
    requires Consistent(users, userSeq, reviews, reviewSeq, likes)
    requires !UsernameTaken(users, row.username)
    ensures var id := userSeq + 1;
      && id !in users
      && Consistent(users[id := row], id, reviews, reviewSeq, likes)
      && FindByName(users[id := row], row.username, id + 1) == Some(Entity(id, row))
      && FindInfo(users[id := row], id) == Some(UserInfo(row.firstName, row.lastName, row.username))
      && (forall k | k != id :: FindInfo(users[id := row], k) == FindInfo(users, k))
  {
    var id := userSeq + 1;
    var users' := users[id := row];
    assert UniqueUsernames(users') by {
      forall a | a in users && a != id ensures users[a].username != row.username {
        assert !(users[a].username == row.username && a in users);
      }
    }
  }

  class SqliteUserRepository {
    const db: Db

    constructor (db: Db)
      ensures this.db == db
    {
      this.db := db;
    }

    /** `findByUsername` over the current table: any result is the full entity,
        hash included, of a user with that username, and under the constraints
        there is one exactly when the username is taken. */
    function FindByUsername(username: string): (r: Option<UserEntity>)
      reads db
      ensures r.Some? ==>
        && r.value.id in db.users && db.users[r.value.id].username == username
        && r.value == Entity(r.value.id, db.users[r.value.id]) && r.value.username == username
        && r.value.firstName == db.users[r.value.id].firstName
        && r.value.lastName == db.users[r.value.id].lastName
        && r.value.passwordHash == db.users[r.value.id].passwordHash
      ensures db.Valid() ==> (r.Some? <==> UsernameTaken(db.users, username))
    {
      FindByNameUnderConstraints(db.users, db.userSeq, username);
      FindByName(db.users, username, db.userSeq + 1)
    }

    /** `findOneUser` over the current table: the user's three names, never the
        hash, and nothing exactly when the id is absent. */
    function FindOneUser(id: nat): (r: Option<UserInfo>)
      reads db
      ensures r.Some? <==> id in db.users
      ensures r.Some? ==> r.value == UserInfo(db.users[id].firstName, db.users[id].lastName, db.users[id].username)
    {
      FindInfo(db.users, id)
    }

    /** `insert into user ... returning lastInsertRowid`. `payload.password` is
        stored as `password_hash` as it is. A taken username is rejected by
        the UNIQUE constraint and nothing changes; otherwise the row gets the
        next AUTOINCREMENT id. */
    method InsertUser(payload: UserPayload) returns (r: Result<nat, Violation>)
      requires db.Valid()
      modifies db
      ensures db.Valid()
      ensures r.Err? <==> UsernameTaken(old(db.users), payload.username)
      ensures r.Err? ==> r.error == UniqueViolation && unchanged(db)
      ensures r.Ok? ==>
        && r.value == old(db.userSeq) + 1
        && (forall k | k in old(db.users) :: k < r.value)
        && db.users == old(db.users)[r.value := UserRow(payload.firstName, payload.lastName,
                                                         payload.username, payload.password)]
        && db.userSeq == r.value
        && db.reviews == old(db.reviews) && db.reviewSeq == old(db.reviewSeq) && db.likes == old(db.likes)
        && FindByUsername(payload.username)
           == Some(UserEntity(r.value, payload.firstName, payload.lastName, payload.username, payload.password))
    {
      FindByNameUnderConstraints(db.users, db.userSeq, payload.username);
      if FindByName(db.users, payload.username, db.userSeq + 1).Some? {
        return Err(UniqueViolation);
      }
      var row := UserRow(payload.firstName, payload.lastName, payload.username, payload.password);
      RegisteredUserIsFound(db.users, db.userSeq, db.reviews, db.reviewSeq, db.likes, row);
      var id := db.userSeq + 1;
      db.users := db.users[id := row];
      db.userSeq := id;
      r := Ok(id);
    }
  }
}
