/** The user service (src/services/user.ts): login, profile lookup and
    registration. bcrypt and jsonwebtoken are foreign libraries, so their
    functions are parameters of the model. */
module UserService {
  import opened Common
  import opened Errors
  import opened Database
  import opened UserModels
  import opened UserRepository

  /** The claims a login token carries: the user's id and nothing else. */
  datatype TokenClaims = TokenClaims(id: nat)

  /** The library calls the service makes, left uninterpreted:
      `hash(plaintext, cost, salt)` is bcrypt's hash with the salt it draws,
      `compare(plaintext, hash)` is bcrypt's check, and
      `sign(claims, expiresIn)` is jsonwebtoken's signature with the server's
      secret key. */
  datatype Crypto = Crypto(
    hash: (string, nat, string) -> string,
    compare: (string, string) -> bool,
    sign: (TokenClaims, string) -> string)

  /** The bcrypt work factor used at registration. */
  const HashCost: nat := 10
  /** The lifetime every login token is signed with. */
  const TokenLifetime := "1h"

  /** The login decision on the user found by username: one and the same
      failure for an unknown username and for a wrong password, and a token
      signed for exactly that user's id, with the one-hour lifetime, only when
      the user exists and the password matches its hash. */
  function Login(found: Option<UserEntity>, password: string, crypto: Crypto): (r: Result<string, DomainError>)
    ensures r.Err? ==> r.error == BadCredentials
    ensures r.Ok? <==> found.Some? && crypto.compare(password, found.value.passwordHash)
    ensures r.Ok? ==> r.value == crypto.sign(TokenClaims(found.value.id), TokenLifetime)
  {
    match found
    case None => Err(BadCredentials)
    case Some(user) =>
      if !crypto.compare(password, user.passwordHash) then Err(BadCredentials)
      else Ok(crypto.sign(TokenClaims(user.id), TokenLifetime))
  }

  /** Registering a fresh username and then logging in with the same password
      yields a token for the new id, provided bcrypt's compare accepts the
      hash it produced for that password. */
  lemma RegisteredUserCanLogIn(
    users: map<nat, UserRow>, userSeq: nat, reviews: map<nat, ReviewRow>, reviewSeq: nat,
    likes: set<Like>, firstName: string, lastName: string, username: string, password: string,
    salt: string, crypto: Crypto)
    requires Consistent(users, userSeq, reviews, reviewSeq, likes)
    requires !UsernameTaken(users, username)
    requires crypto.compare(password, crypto.hash(password, HashCost, salt))
    ensures var row := UserRow(firstName, lastName, username, crypto.hash(password, HashCost, salt));
      Login(FindByName(users[userSeq + 1 := row], username, userSeq + 2), password, crypto)
      == Ok(crypto.sign(TokenClaims(userSeq + 1), TokenLifetime))
  {
    var row := UserRow(firstName, lastName, username, crypto.hash(password, HashCost, salt));
    RegisteredUserIsFound(users, userSeq, reviews, reviewSeq, likes, row);
  }

  class DefaultUserService {
    const repo: SqliteUserRepository
    const crypto: Crypto

    constructor (repo: SqliteUserRepository, crypto: Crypto)
      ensures this.repo == repo && this.crypto == crypto
    {
      this.repo := repo;
      this.crypto := crypto;
    }

    /** `loginUser` on the current table: it succeeds exactly when some user
        has the username and the password matches that user's hash, and the
        token is then signed for that user's id; every failure is the same. */
    function LoginUser(credentials: UserCredentials): (r: Result<string, DomainError>)
      reads repo.db
      requires repo.db.Valid()
      ensures r.Err? ==> r.error == BadCredentials
      ensures r.Ok? <==> exists id | id in repo.db.users ::
        repo.db.users[id].username == credentials.username
        && crypto.compare(credentials.password, repo.db.users[id].passwordHash)
      ensures forall id | id in repo.db.users && repo.db.users[id].username == credentials.username ::
        r.Ok? ==> r.value == crypto.sign(TokenClaims(id), TokenLifetime)
    {
      FindByNameUnderConstraints(repo.db.users, repo.db.userSeq, credentials.username);
      Login(repo.FindByUsername(credentials.username), credentials.password, crypto)
    }

    /** `getUser`: the lookup by id, or "User not found" exactly when it is empty. */
    function GetUser(id: nat): (r: Result<UserInfo, DomainError>)
      reads repo.db
      ensures r.Err? <==> id !in repo.db.users
      ensures r.Err? ==> r.error == UserNotFound
      ensures r.Ok? ==> repo.FindOneUser(id) == Some(r.value) && r.value.username == repo.db.users[id].username
    {
      match repo.FindOneUser(id)
      case None => Err(UserNotFound)
      case Some(user) => Ok(user)
    }

    /** `insertUser`: "User already exists", with the table and the payload
        untouched, when the username is taken. Otherwise the payload's password
        is overwritten in place with its hash, the repository stores that hash
        (never the plaintext), and its new id is returned. */
    method InsertUser(payload: UserPayload, salt: string) returns (r: Result<nat, Fault>)
      requires repo.db.Valid()
      modifies payload, repo.db
      ensures repo.db.Valid()
      ensures r.Err? <==> UsernameTaken(old(repo.db.users), old(payload.username))
      ensures r.Err? ==> r.error == Domain(UserAlreadyExists) && unchanged(repo.db) && unchanged(payload)
      ensures payload.firstName == old(payload.firstName) && payload.lastName == old(payload.lastName)
      ensures payload.username == old(payload.username)
      ensures r.Ok? ==>
        && payload.password == crypto.hash(old(payload.password), HashCost, salt)
        && r.value == old(repo.db.userSeq) + 1
        && repo.db.userSeq == r.value && repo.db.reviewSeq == old(repo.db.reviewSeq)
        && repo.db.users == old(repo.db.users)[r.value := UserRow(payload.firstName, payload.lastName,
                                                                   payload.username, payload.password)]
        && repo.db.reviews == old(repo.db.reviews) && repo.db.likes == old(repo.db.likes)
        && repo.FindByUsername(payload.username)
           == Some(UserEntity(r.value, payload.firstName, payload.lastName, payload.username, payload.password))
    {
      FindByNameUnderConstraints(repo.db.users, repo.db.userSeq, payload.username);
      var user := repo.FindByUsername(payload.username);
      if user.Some? {
        return Err(Domain(UserAlreadyExists));
      }
      payload.password := crypto.hash(payload.password, HashCost, salt);
      var id := repo.InsertUser(payload);
      match id
      case Ok(v) => r := Ok(v);
      case Err(e) => r := Err(Store(e));
    }
  }
}
