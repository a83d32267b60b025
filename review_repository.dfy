/** The review store and like ledger (src/repositories/review.ts): each
    repository method is one SQL statement over the shared database. The
    queries are functions of the table contents, so that what a write does to
    later reads can be stated as lemmas. */
module ReviewRepository {
  import opened Common
  import opened Errors
  import opened Database
  import opened ReviewModels

  /** The like rows that name a review: what the `count(*)` sub-select counts. */
  function LikesOf(likes: set<Like>, reviewId: nat): set<Like>
  {
    set l | l in likes && l.reviewId == reviewId
  }

  /** One result row of the review queries. */
  function Joined(id: nat, row: ReviewRow, username: string, likes: set<Like>): ReviewResponse
  {
    ReviewResponse(id, row.userId, row.tmdbMovieId, row.title, row.reviewText, row.rating,
                   row.createdAt, username, |LikesOf(likes, id)|)
  }

  /** The `findOneReview` query: the review with that id, inner-joined with its
      author's row; no row when either side is missing. */
  function FindOne(users: map<nat, UserRow>, reviews: map<nat, ReviewRow>, likes: set<Like>, reviewId: nat)
    : (r: Option<ReviewResponse>)
    ensures r.Some? <==> reviewId in reviews && reviews[reviewId].userId in users
    ensures r.Some? ==>
      && r.value.id == reviewId && r.value.userId == reviews[reviewId].userId
      && r.value.tmdbMovieId == reviews[reviewId].tmdbMovieId && r.value.title == reviews[reviewId].title
      && r.value.reviewText == reviews[reviewId].reviewText && r.value.rating == reviews[reviewId].rating
      && r.value.createdAt == reviews[reviewId].createdAt
      && r.value.username == users[r.value.userId].username
      && r.value.likes == |LikesOf(likes, reviewId)|
  {
    if reviewId in reviews && reviews[reviewId].userId in users
    then Some(Joined(reviewId, reviews[reviewId], users[reviews[reviewId].userId].username, likes))
    else None
  }

  /** The ids of a list of results. */
  function Ids(rs: seq<ReviewResponse>): set<nat>
  {
    set v | v in rs :: v.id
  }

  /** The ids of the reviews below `bound` that the join keeps for `userId`. */
  function OwnedBelow(users: map<nat, UserRow>, reviews: map<nat, ReviewRow>, userId: nat, bound: nat): set<nat>
  {
    set id | id in reviews && id < bound && reviews[id].userId == userId && userId in users
  }

  /** The `findUserReviews` query over the ids below `bound`, `order by r.id ASC`:
      exactly the user's reviews, each as `FindOne` returns it, in strictly
      ascending id order. */
  function SelectByUser(
    users: map<nat, UserRow>, reviews: map<nat, ReviewRow>, likes: set<Like>, userId: nat, bound: nat)
    : (r: seq<ReviewResponse>)
    ensures forall i, j | 0 <= i < j < |r| :: r[i].id < r[j].id
    ensures forall i | 0 <= i < |r| ::
      r[i].id < bound && r[i].userId == userId && FindOne(users, reviews, likes, r[i].id) == Some(r[i])
    ensures Ids(r) == OwnedBelow(users, reviews, userId, bound)
    decreases bound
  {
    if bound == 0 then []
    else
      var earlier := SelectByUser(users, reviews, likes, userId, bound - 1);
      var id := bound - 1;
      if id in reviews && reviews[id].userId == userId && userId in users then
        var r := earlier + [Joined(id, reviews[id], users[userId].username, likes)];
        assert Ids(r) == Ids(earlier) + {id};
        assert OwnedBelow(users, reviews, userId, bound) == OwnedBelow(users, reviews, userId, bound - 1) + {id};
        r
      else
        assert OwnedBelow(users, reviews, userId, bound) == OwnedBelow(users, reviews, userId, bound - 1);
        earlier
  }

  /** The row `insertReview` stores: `tmdbMovieTitle` is not a column. */
  function NewRow(userId: nat, payload: ReviewCreatePayload, now: string): ReviewRow
  {
    ReviewRow(userId, payload.tmdbMovieId, payload.title, payload.reviewText, payload.rating, now)
  }

  /** The row after `updateReview`: only the three editable columns change. */
  function Revised(row: ReviewRow, payload: ReviewUpdatePayload): ReviewRow
  {
    row.(title := payload.title, reviewText := payload.reviewText, rating := payload.rating)
  }

  /** Under the schema's constraints the join never drops a review: a review is
      found exactly when its id is in the table, with its author's username and
      as many likes as there are like rows naming it. */
  lemma FindOneUnderConstraints(
    users: map<nat, UserRow>, userSeq: nat, reviews: map<nat, ReviewRow>, reviewSeq: nat,
    likes: set<Like>, reviewId: nat)
    requires Consistent(users, userSeq, reviews, reviewSeq, likes)
    ensures FindOne(users, reviews, likes, reviewId).Some? <==> reviewId in reviews
    ensures reviewId in reviews ==>
      var v := FindOne(users, reviews, likes, reviewId).value;
      && v.id == reviewId && v.userId == reviews[reviewId].userId
      && v.username == users[v.userId].username
      && v.likes == |set l | l in likes && l.reviewId == reviewId|
  {
  }

  /** Under the constraints `findUserReviews` returns every review of the user
      and nothing else. */
  lemma {:induction false} UserReviewsExact(
    users: map<nat, UserRow>, userSeq: nat, reviews: map<nat, ReviewRow>, reviewSeq: nat,
    likes: set<Like>, userId: nat)
    ensures Consistent(users, userSeq, reviews, reviewSeq, likes) ==>
      Ids(SelectByUser(users, reviews, likes, userId, reviewSeq + 1))
      == set id | id in reviews && reviews[id].userId == userId
  {
    if Consistent(users, userSeq, reviews, reviewSeq, likes) {
      var owned := OwnedBelow(users, reviews, userId, reviewSeq + 1);
      forall id | id in reviews && reviews[id].userId == userId
        ensures id in owned
      {
        assert id <= reviewSeq;
      }
    }
  }

  /** Reading back a review right after `insertReview` stored it: the new id is
      above every id in the table, the row reads back with the payload's
      fields, the author's username and no likes, every other lookup is as
      before, and the constraints still hold. */
  lemma InsertedReviewReadsBack(
    users: map<nat, UserRow>, userSeq: nat, reviews: map<nat, ReviewRow>, reviewSeq: nat,
    likes: set<Like>, userId: nat, payload: ReviewCreatePayload, now: string)
    requires Consistent(users, userSeq, reviews, reviewSeq, likes)
    requires userId in users
    ensures var id := reviewSeq + 1;
      && id !in reviews
      && (forall k | k in reviews :: k < id)
      && Consistent(users, userSeq, reviews[id := NewRow(userId, payload, now)], id, likes)
      && FindOne(users, reviews[id := NewRow(userId, payload, now)], likes, id)
         == Some(ReviewResponse(id, userId, payload.tmdbMovieId, payload.title, payload.reviewText,
                                payload.rating, now, users[userId].username, 0))
      && (forall k | k != id ::
            FindOne(users, reviews[id := NewRow(userId, payload, now)], likes, k)
            == FindOne(users, reviews, likes, k))
  {
    var id := reviewSeq + 1;
    assert LikesOf(likes, id) == {} by {
      forall l | l in likes ensures l.reviewId != id {
        assert l.reviewId in reviews;
      }
    }
  }

  /** Reading back a review after `updateReview`: the title, text and rating are
      the payload's; id, author, movie, creation time and likes are kept; every
      other review reads as before. */
  lemma UpdatedReviewReadsBack(
    users: map<nat, UserRow>, reviews: map<nat, ReviewRow>, likes: set<Like>,
    reviewId: nat, payload: ReviewUpdatePayload)
    requires FindOne(users, reviews, likes, reviewId).Some?
    ensures var before := FindOne(users, reviews, likes, reviewId).value;
      FindOne(users, reviews[reviewId := Revised(reviews[reviewId], payload)], likes, reviewId)
      == Some(before.(title := payload.title, reviewText := payload.reviewText, rating := payload.rating))
    ensures forall k | k != reviewId ::
      FindOne(users, reviews[reviewId := Revised(reviews[reviewId], payload)], likes, k)
      == FindOne(users, reviews, likes, k)
  {
  }

  /** After `deleteReview` removed a review that no like names, the review is
      not found, the others read as before and the constraints still hold. */
  lemma DeletedReviewIsGone(
    users: map<nat, UserRow>, userSeq: nat, reviews: map<nat, ReviewRow>, reviewSeq: nat,
    likes: set<Like>, reviewId: nat)
    requires Consistent(users, userSeq, reviews, reviewSeq, likes)
    requires LikesOf(likes, reviewId) == {}
    ensures Consistent(users, userSeq, reviews - {reviewId}, reviewSeq, likes)
    ensures FindOne(users, reviews - {reviewId}, likes, reviewId).None?
    ensures forall k | k != reviewId ::
      FindOne(users, reviews - {reviewId}, likes, k) == FindOne(users, reviews, likes, k)
  {
    forall l | l in likes ensures l.reviewId != reviewId {
      assert l.reviewId == reviewId ==> l in LikesOf(likes, reviewId);
    }
  }

  /** Adding an absent like raises the liked review's count by exactly one and
      leaves every other review's count alone. */
  lemma {:induction false} LikeAddsOne(likes: set<Like>, like: Like)
    requires like !in likes
    ensures |LikesOf(likes + {like}, like.reviewId)| == |LikesOf(likes, like.reviewId)| + 1
    ensures forall r | r != like.reviewId :: LikesOf(likes + {like}, r) == LikesOf(likes, r)
  {
    assert LikesOf(likes + {like}, like.reviewId) == LikesOf(likes, like.reviewId) + {like};
  }

  /** Removing a present like lowers the review's count by exactly one and
      leaves every other review's count alone. */
  lemma {:induction false} UnlikeRemovesOne(likes: set<Like>, like: Like)
    requires like in likes
    ensures |LikesOf(likes - {like}, like.reviewId)| == |LikesOf(likes, like.reviewId)| - 1
    ensures forall r | r != like.reviewId :: LikesOf(likes - {like}, r) == LikesOf(likes, r)
  {
    assert LikesOf(likes - {like}, like.reviewId) == LikesOf(likes, like.reviewId) - {like};
  }

  /** The like ledger is a set: liking twice is liking once, and liking then
      unliking a pair that was absent restores the ledger exactly. */
  lemma LikeLedgerAlgebra(likes: set<Like>, like: Like)
    ensures (likes + {like}) + {like} == likes + {like}
    ensures like !in likes ==> (likes + {like}) - {like} == likes
    ensures like !in likes - {like}
  {
  }

  /** Two different users liking the same, previously unliked review leave it
      with two likes. */
  lemma TwoUsersLikeOnce(likes: set<Like>, reviewId: nat, u1: nat, u2: nat)
    requires LikesOf(likes, reviewId) == {}
    requires u1 != u2
    ensures |LikesOf(likes + {Like(u1, reviewId)} + {Like(u2, reviewId)}, reviewId)| == 2
  {
    assert Like(u1, reviewId) !in LikesOf(likes, reviewId);
    assert Like(u2, reviewId) !in LikesOf(likes, reviewId);
    LikeAddsOne(likes, Like(u1, reviewId));
    LikeAddsOne(likes + {Like(u1, reviewId)}, Like(u2, reviewId));
  }

  class SqliteReviewRepository {
    const db: Db

    constructor (db: Db)
      ensures this.db == db
    {
      this.db := db;
    }

    /** `findOneReview` over the current tables: under the constraints a row
        exists exactly when the review does, and it carries the review's own
        columns and its like count. */
    function FindOneReview(reviewId: nat): (r: Option<ReviewResponse>)
      reads db
      ensures db.Valid() ==> (r.Some? <==> reviewId in db.reviews)
      ensures r.Some? ==>
        && reviewId in db.reviews
        && r.value.id == reviewId && r.value.userId == db.reviews[reviewId].userId
        && r.value.tmdbMovieId == db.reviews[reviewId].tmdbMovieId
        && r.value.title == db.reviews[reviewId].title && r.value.reviewText == db.reviews[reviewId].reviewText
        && r.value.rating == db.reviews[reviewId].rating && r.value.createdAt == db.reviews[reviewId].createdAt
        && r.value.userId in db.users && r.value.username == db.users[r.value.userId].username
        && r.value.likes == |LikesOf(db.likes, reviewId)|
    {
      FindOne(db.users, db.reviews, db.likes, reviewId)
    }

    /** `findUserReviews` over the current tables: ascending ids, each entry
        the user's review as `findOneReview` returns it, and under the
        constraints every review of the user. */
    function FindUserReviews(userId: nat): (r: seq<ReviewResponse>)
      reads db
      ensures forall i, j | 0 <= i < j < |r| :: r[i].id < r[j].id
      ensures forall i | 0 <= i < |r| :: r[i].userId == userId && FindOneReview(r[i].id) == Some(r[i])
      ensures db.Valid() ==> Ids(r) == set id | id in db.reviews && db.reviews[id].userId == userId
    {
      UserReviewsExact(db.users, db.userSeq, db.reviews, db.reviewSeq, db.likes, userId);
      SelectByUser(db.users, db.reviews, db.likes, userId, db.reviewSeq + 1)
    }

    /** `insert into review ...` returning `lastInsertRowid`. The foreign key on
        `user_id` rejects an unknown author; otherwise the row gets the next
        AUTOINCREMENT id and nothing else changes. */
    method InsertReview(userId: nat, payload: ReviewCreatePayload, now: string)
      returns (r: Result<nat, Violation>)
      requires db.Valid()
      modifies db
      ensures db.Valid()
      ensures userId !in old(db.users) ==> r == Err(ForeignKeyViolation) && unchanged(db)
      ensures userId in old(db.users) ==>
        && r == Ok(old(db.reviewSeq) + 1)
        && (forall k | k in old(db.reviews) :: k < r.value)
        && db.reviews == old(db.reviews)[r.value := NewRow(userId, payload, now)]
        && db.reviewSeq == r.value
        && db.users == old(db.users) && db.userSeq == old(db.userSeq)
        && db.likes == old(db.likes)
    {
      if userId !in db.users {
        return Err(ForeignKeyViolation);
      }
      InsertedReviewReadsBack(db.users, db.userSeq, db.reviews, db.reviewSeq, db.likes, userId, payload, now);
      var id := db.reviewSeq + 1;
      db.reviews := db.reviews[id := NewRow(userId, payload, now)];
      db.reviewSeq := id;
      r := Ok(id);
    }

    /** `update review set title, review_text, rating where id = ...` returning
        `changes`: 1 and the three columns replaced when the id exists, 0 and
        no change otherwise. */
    method UpdateReview(reviewId: nat, payload: ReviewUpdatePayload) returns (changes: nat)
      requires db.Valid()
      modifies db
      ensures db.Valid()
      ensures changes == if reviewId in old(db.reviews) then 1 else 0
      ensures changes == 0 ==> unchanged(db)
      ensures db.reviews == if reviewId in old(db.reviews)
                            then old(db.reviews)[reviewId := Revised(old(db.reviews)[reviewId], payload)]
                            else old(db.reviews)
      ensures db.users == old(db.users) && db.userSeq == old(db.userSeq)
      ensures db.reviewSeq == old(db.reviewSeq) && db.likes == old(db.likes)
    {
      if reviewId in db.reviews {
        db.reviews := db.reviews[reviewId := Revised(db.reviews[reviewId], payload)];
        changes := 1;
      } else {
        changes := 0;
      }
    }

    /** `delete from review where id = ...` returning `changes`. A review that
        some like still names cannot go: the foreign key of `review_like` has
        no ON DELETE clause, so the store rejects the statement. */
    method DeleteReview(reviewId: nat) returns (r: Result<nat, Violation>)
      requires db.Valid()
      modifies db
      ensures db.Valid()
      ensures reviewId !in old(db.reviews) ==> r == Ok(0) && unchanged(db)
      ensures reviewId in old(db.reviews) && LikesOf(old(db.likes), reviewId) != {} ==>
        r == Err(ForeignKeyViolation) && unchanged(db)
      ensures reviewId in old(db.reviews) && LikesOf(old(db.likes), reviewId) == {} ==>
        && r == Ok(1)
        && db.reviews == old(db.reviews) - {reviewId}
        && db.users == old(db.users) && db.userSeq == old(db.userSeq)
        && db.reviewSeq == old(db.reviewSeq) && db.likes == old(db.likes)
    {
      if reviewId !in db.reviews {
        return Ok(0);
      }
      if LikesOf(db.likes, reviewId) != {} {
        return Err(ForeignKeyViolation);
      }
      DeletedReviewIsGone(db.users, db.userSeq, db.reviews, db.reviewSeq, db.likes, reviewId);
      db.reviews := db.reviews - {reviewId};
      r := Ok(1);
    }

    /** `insert or ignore into review_like`: a pair already present is ignored
        by the primary key; an absent pair naming an unknown user or review is
        still rejected, because OR IGNORE does not cover foreign keys. */
    method InsertReviewLike(reviewId: nat, userId: nat) returns (r: Result<(), Violation>)
      requires db.Valid()
      modifies db
      ensures db.Valid()
      ensures r.Ok? <==> Like(userId, reviewId) in old(db.likes)
                         || (userId in old(db.users) && reviewId in old(db.reviews))
      ensures r.Ok? ==> db.likes == old(db.likes) + {Like(userId, reviewId)}
      ensures r.Err? ==> r.error == ForeignKeyViolation && unchanged(db)
      ensures db.users == old(db.users) && db.userSeq == old(db.userSeq)
      ensures db.reviews == old(db.reviews) && db.reviewSeq == old(db.reviewSeq)
    {
      var like := Like(userId, reviewId);
      if like in db.likes {
        return Ok(());
      }
      if userId !in db.users || reviewId !in db.reviews {
        return Err(ForeignKeyViolation);
      }
      db.likes := db.likes + {like};
      r := Ok(());
    }

    /** `delete from review_like where ...`: removes the pair if present and is
        silent otherwise. */
    method DeleteReviewLike(reviewId: nat, userId: nat)
      requires db.Valid()
      modifies db
      ensures db.Valid()
      ensures db.likes == old(db.likes) - {Like(userId, reviewId)}
      ensures db.users == old(db.users) && db.userSeq == old(db.userSeq)
      ensures db.reviews == old(db.reviews) && db.reviewSeq == old(db.reviewSeq)
    {
      db.likes := db.likes - {Like(userId, reviewId)};
    }
  }
}
