/** The review records exchanged with the repository and the service
    (src/models/review.ts). Ids are natural numbers. */
module ReviewModels {

  /** A review as the queries return it: the stored columns, the author's
      username and the number of likes counted at read time. */
  datatype ReviewResponse = ReviewResponse(
    id: nat,
    userId: nat,
    tmdbMovieId: string,
    title: string,
    reviewText: string,
    rating: int,
    createdAt: string,
    username: string,
    likes: nat)

  /** The body of a create request. `tmdbMovieTitle` is accepted but not stored. */
  datatype ReviewCreatePayload = ReviewCreatePayload(
    tmdbMovieId: string,
    tmdbMovieTitle: string,
    title: string,
    reviewText: string,
    rating: int)

  /** The body of an update request: the three fields an update replaces together. */
  datatype ReviewUpdatePayload = ReviewUpdatePayload(title: string, reviewText: string, rating: int)

  /** The bounds the request schemas put on the editable fields of a review. */
  predicate WithinReviewBounds(title: string, reviewText: string, rating: int)
  {
    1 <= |title| <= 50 && 50 <= |reviewText| <= 1000 && 1 <= rating <= 10
  }
}
