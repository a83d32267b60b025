/** The SQLite store shared by both repositories: the `user`, `review` and
    `review_like` tables, the AUTOINCREMENT counters, and the constraints the
    schema declares, kept as the object invariant. Foreign keys are enforced,
    because every connection switches them on. */
module Database {

  /** A row of `user`; its id is the key under which it is stored. */
  datatype UserRow = UserRow(firstName: string, lastName: string, username: string, passwordHash: string)

  /** A row of `review`; its id is the key under which it is stored.
      `createdAt` is the opaque timestamp the column default supplies. */
  datatype ReviewRow = ReviewRow(
    userId: nat,
    tmdbMovieId: string,
    title: string,
    reviewText: string,
    rating: int,
    createdAt: string)

  /** A row of `review_like`; the pair is the table's whole primary key. */
  datatype Like = Like(userId: nat, reviewId: nat)

  /** Every id in the table was issued by the AUTOINCREMENT counter, which
      remembers the largest id ever handed out. */
  ghost predicate IdsIssued<R>(table: map<nat, R>, lastId: nat)
  {
    forall id | id in table :: 1 <= id <= lastId
  }

  /** `username TEXT NOT NULL UNIQUE`. */
  ghost predicate UniqueUsernames(users: map<nat, UserRow>)
  {
    forall a, b | a in users && b in users && users[a].username == users[b].username :: a == b
  }

  /** `FOREIGN KEY (user_id) REFERENCES user(id)` on `review`. */
  ghost predicate ReviewOwnersExist(users: map<nat, UserRow>, reviews: map<nat, ReviewRow>)
  {
    forall id | id in reviews :: reviews[id].userId in users
  }

  /** Both foreign keys of `review_like`. */
  ghost predicate LikesReferToRows(users: map<nat, UserRow>, reviews: map<nat, ReviewRow>, likes: set<Like>)
  {
    forall l | l in likes :: l.userId in users && l.reviewId in reviews
  }

  /** All the schema's constraints at once. */
  ghost predicate Consistent(
    users: map<nat, UserRow>, userSeq: nat,
    reviews: map<nat, ReviewRow>, reviewSeq: nat,
    likes: set<Like>)
  {
    && IdsIssued(users, userSeq)
    && UniqueUsernames(users)
    && IdsIssued(reviews, reviewSeq)
    && ReviewOwnersExist(users, reviews)
    && LikesReferToRows(users, reviews, likes)
  }

  class Db {
    var users: map<nat, UserRow>
    /** Largest user id ever issued (the `sqlite_sequence` entry of `user`). */
    var userSeq: nat
    var reviews: map<nat, ReviewRow>
    /** Largest review id ever issued (the `sqlite_sequence` entry of `review`). */
    var reviewSeq: nat
    var likes: set<Like>

    ghost predicate Valid()
      reads this
    {
      Consistent(users, userSeq, reviews, reviewSeq, likes)
    }

    /** A freshly installed, empty database. */
    constructor ()
      ensures Valid()
      ensures users == map[] && userSeq == 0
      ensures reviews == map[] && reviewSeq == 0
      ensures likes == {}
    {
      users, userSeq := map[], 0;
      reviews, reviewSeq := map[], 0;
      likes := {};
    }
  }
}
