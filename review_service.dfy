/** The review service (src/services/review.ts): turns "no row" and "0 rows
    changed" from the repository into `DomainError("Review not found")` and
    passes everything else through. None of its operations takes the caller's
    id, so no operation checks who owns the review. */
module ReviewService {
  import opened Common
  import opened Errors
  import opened Database
  import opened ReviewModels
  import opened ReviewRepository

  class DefaultReviewService {
    const repo: SqliteReviewRepository

    constructor (repo: SqliteReviewRepository)
      ensures this.repo == repo
    {
      this.repo := repo;
    }

    /** `getOneReview`: the repository's row unchanged, or "Review not found"
        exactly when there is none. */
    function GetOneReview(reviewId: nat): (r: Result<ReviewResponse, DomainError>)
      reads repo.db
      ensures r.Err? <==> repo.FindOneReview(reviewId).None?
      ensures r.Err? ==> r.error == ReviewNotFound
      ensures r.Ok? ==> repo.FindOneReview(reviewId) == Some(r.value) && r.value.id == reviewId
    {
      match repo.FindOneReview(reviewId)
      case None => Err(ReviewNotFound)
      case Some(review) => Ok(review)
    }

    /** `getUserReviews`: the repository's list as it is. The list is never
        missing, so the branch that would fail with `ReviewsNotFound` cannot be
        taken and an empty list is a success. */
    function GetUserReviews(userId: nat): (r: Result<seq<ReviewResponse>, DomainError>)
      reads repo.db
      ensures r.Ok? && r.value == repo.FindUserReviews(userId)
    {
      Ok(repo.FindUserReviews(userId))
    }

    /** `insertReview`: the repository's new id, unchanged. An unknown author
        is the store's foreign-key exception, not a DomainError. */
    method InsertReview(userId: nat, payload: ReviewCreatePayload, now: string)
      returns (r: Result<nat, Fault>)
      requires repo.db.Valid()
      modifies repo.db
      ensures repo.db.Valid()
      ensures r.Err? <==> userId !in old(repo.db.users)
      ensures r.Err? ==> r.error == Store(ForeignKeyViolation) && unchanged(repo.db)
      ensures r.Ok? ==>
        && r.value == old(repo.db.reviewSeq) + 1
        && repo.db.reviewSeq == r.value
        && repo.db.reviews == old(repo.db.reviews)[r.value := NewRow(userId, payload, now)]
        && repo.db.users == old(repo.db.users) && repo.db.userSeq == old(repo.db.userSeq)
        && repo.db.likes == old(repo.db.likes)
        && repo.FindOneReview(r.value)
           == Some(ReviewResponse(r.value, userId, payload.tmdbMovieId, payload.title,
                                  payload.reviewText, payload.rating, now,
                                  repo.db.users[userId].username, 0))
    {
      ghost var db0 := repo.db;
      if userId in repo.db.users {
        InsertedReviewReadsBack(repo.db.users, repo.db.userSeq, repo.db.reviews, repo.db.reviewSeq,
                                repo.db.likes, userId, payload, now);
      }
      var id := repo.InsertReview(userId, payload, now);
      match id
      case Ok(v) => r := Ok(v);
      case Err(e) => r := Err(Store(e));
    }

    /** `updateReview`: "Review not found" exactly when the repository changed
        no row; otherwise the three fields read back as the payload's. */
    method UpdateReview(reviewId: nat, payload: ReviewUpdatePayload) returns (r: Result<(), Fault>)
      requires repo.db.Valid()
      modifies repo.db
      ensures repo.db.Valid()
      ensures r.Err? <==> reviewId !in old(repo.db.reviews)
      ensures r.Err? ==> r.error == Domain(ReviewNotFound) && unchanged(repo.db)
      ensures r.Ok? ==>
        && repo.db.reviews == old(repo.db.reviews)[reviewId := Revised(old(repo.db.reviews)[reviewId], payload)]
        && repo.db.users == old(repo.db.users) && repo.db.likes == old(repo.db.likes)
        && repo.db.reviewSeq == old(repo.db.reviewSeq) && repo.db.userSeq == old(repo.db.userSeq)
        && repo.FindOneReview(reviewId)
           == Some(old(repo.FindOneReview(reviewId)).value.(title := payload.title,
                     reviewText := payload.reviewText, rating := payload.rating))
    {
      if reviewId in repo.db.reviews {
        FindOneUnderConstraints(repo.db.users, repo.db.userSeq, repo.db.reviews, repo.db.reviewSeq,
                                repo.db.likes, reviewId);
        UpdatedReviewReadsBack(repo.db.users, repo.db.reviews, repo.db.likes, reviewId, payload);
      }
      var changes := repo.UpdateReview(reviewId, payload);
      if changes == 0 {
        r := Err(Domain(ReviewNotFound));
      } else {
        r := Ok(());
      }
    }

    /** `deleteReview`: "Review not found" exactly when the repository deleted
        no row because the id is absent; the store's foreign-key exception
        passes through when likes still name the review; otherwise the review
        is gone. */
    method DeleteReview(reviewId: nat) returns (r: Result<(), Fault>)
      requires repo.db.Valid()
      modifies repo.db
      ensures repo.db.Valid()
      ensures r == Err(Domain(ReviewNotFound)) <==> reviewId !in old(repo.db.reviews)
      ensures r == Err(Store(ForeignKeyViolation)) <==>
        reviewId in old(repo.db.reviews) && LikesOf(old(repo.db.likes), reviewId) != {}
      ensures r.Ok? <==> reviewId in old(repo.db.reviews) && LikesOf(old(repo.db.likes), reviewId) == {}
      ensures r.Err? ==> unchanged(repo.db)
      ensures r.Ok? ==>
        && repo.db.reviews == old(repo.db.reviews) - {reviewId}
        && repo.db.likes == old(repo.db.likes) && repo.db.users == old(repo.db.users)
        && repo.db.userSeq == old(repo.db.userSeq) && repo.db.reviewSeq == old(repo.db.reviewSeq)
        && repo.FindOneReview(reviewId).None?
    {
      var changes := repo.DeleteReview(reviewId);
      match changes
      case Err(e) => r := Err(Store(e));
      case Ok(n) =>
        if n == 0 {
          r := Err(Domain(ReviewNotFound));
        } else {
          r := Ok(());
        }
    }

    /** `insertReviewLike`: straight through to the ledger; never a DomainError. */
    method InsertReviewLike(reviewId: nat, userId: nat) returns (r: Result<(), Fault>)
      requires repo.db.Valid()
      modifies repo.db
      ensures repo.db.Valid()
      ensures r.Err? ==> r.error == Store(ForeignKeyViolation) && unchanged(repo.db)
      ensures r.Ok? <==> Like(userId, reviewId) in old(repo.db.likes)
                         || (userId in old(repo.db.users) && reviewId in old(repo.db.reviews))
      ensures r.Ok? ==> repo.db.likes == old(repo.db.likes) + {Like(userId, reviewId)}
      ensures repo.db.users == old(repo.db.users) && repo.db.reviews == old(repo.db.reviews)
      ensures repo.db.userSeq == old(repo.db.userSeq) && repo.db.reviewSeq == old(repo.db.reviewSeq)
    {
      var outcome := repo.InsertReviewLike(reviewId, userId);
      match outcome
      case Ok(_) => r := Ok(());
      case Err(e) => r := Err(Store(e));
    }

    /** `deleteReviewLike`: straight through to the ledger; it cannot fail. */
    method DeleteReviewLike(reviewId: nat, userId: nat)
      requires repo.db.Valid()
      modifies repo.db
      ensures repo.db.Valid()
      ensures repo.db.likes == old(repo.db.likes) - {Like(userId, reviewId)}
      ensures repo.db.users == old(repo.db.users) && repo.db.reviews == old(repo.db.reviews)
      ensures repo.db.userSeq == old(repo.db.userSeq) && repo.db.reviewSeq == old(repo.db.reviewSeq)
    {
      repo.DeleteReviewLike(reviewId, userId);
    }
  }
}
