# IMAPI review backend — a Dafny model

This project models the core of a small movie-review backend: users register
and log in, write, edit and delete reviews of TMDb movies, and like each
other's reviews; movie details and pages come from TMDb and are merged with
locally computed rating statistics.

What is modelled, file by file:

- `database.dfy` — the SQLite store shared by both repositories: the `user`,
  `review` and `review_like` tables, the two AUTOINCREMENT counters, and the
  schema's constraints (primary keys, fresh ids, `username UNIQUE`, the foreign
  keys, which the connection switches on) as the invariant `Db.Valid()`.
- `review_repository.dfy` — the review store and like ledger. Each repository
  method is one SQL statement: a method of `SqliteReviewRepository` with
  `modifies db` whose postcondition gives the exact new tables and the
  returned id or change count. The two queries are functions of the tables
  (`FindOne`, `SelectByUser`), so that what each write does to later reads is
  proved as lemmas. Constraint failures the store raises (an unknown author,
  a like naming an unknown user or review, deleting a review that likes still
  name) are `Violation` results.
- `review_service.dfy` — the review service: "no row" and "0 rows changed"
  become `DomainError("Review not found")`; store exceptions pass through as
  `Fault.Store`. Update and delete take only the review id, so their effect is
  the same whoever asks: there is no owner check.
- `user_repository.dfy`, `user_service.dfy` — the user store (lookup by
  username with the hash, lookup by id without it, registration) and the user
  service (login, profile, registration that overwrites the payload's password
  with its bcrypt hash in place). bcrypt and jsonwebtoken are uninterpreted
  functions held in a `Crypto` value.
- `movie_service.dfy` — the TMDb record mappers with image-URL prefixing, the
  try/catch policy that makes every failure one `DomainError` starting with
  "Tmdb client error: ", and the search route's fallback to popular movies.
  The TMDb client and the rating-statistics lookup are inputs (`Sources`).
- `json_schema.dfy`, `review_schemas.dfy`, `user_schemas.dfy` — the request
  schemas as data, a small JSON-Schema validator for them, and lemmas that
  state the rules each schema amounts to.
- `token.dfy`, `authenticate_token.dfy` — `Authorization` header parsing
  (`split(" ")[1]`, modelled as JavaScript's split) and the hook's
  401 / 403 / `done` decision; `jwt.verify` and `jwt.decode` are parameters.

Points where the model follows the code's actual behaviour:

- Ratings and lengths are checked only by the request schemas; the
  repository stores whatever it is given.
- A failed login is a `DomainError` with one message for both causes, not a
  separate authentication error kind.
- `findUserReviews` lists in ascending id order.
- Deleting a review that still has likes is rejected by the foreign key of
  `review_like` (it has no ON DELETE clause), so the store reports a
  violation instead of deleting.
- No operation checks that the caller owns the review it updates or deletes.

## Model

| member | source | states |
|---|---|---|
| `Database.Db.constructor` | install.ts:19-52 | A freshly installed database has empty tables, zero counters and satisfies every schema constraint. |
| `ReviewRepository.FindOne` | src/repositories/review.ts:33-43 | The single-review query yields a row iff the review exists and its author row joins; the row carries the review's id and columns, the author's username and the number of like rows naming it. |
| `ReviewRepository.SelectByUser` | src/repositories/review.ts:46-56 | The user-reviews query returns strictly ascending ids, each entry is the user's review exactly as the single-review query returns it, and its ids are exactly the user's reviews below the bound. |
| `ReviewRepository.FindOneUnderConstraints` | src/repositories/review.ts:33-43 | Under the schema constraints a review is found iff its id is in the table, with its author's username and a like count equal to the number of like rows naming it. |
| `ReviewRepository.UserReviewsExact` | src/repositories/review.ts:46-56 | Under the constraints the user-reviews query returns every review of the user and nothing else. |
| `ReviewRepository.InsertedReviewReadsBack` | src/repositories/review.ts:59-66 | The new id exceeds every id in the table; the row reads back with the payload's movie id, title, text and rating, the author's username and zero likes; other lookups are unchanged; the constraints still hold. |
| `ReviewRepository.UpdatedReviewReadsBack` | src/repositories/review.ts:68-78 | After an update the review reads back with the payload's title, text and rating and everything else (author, movie, creation time, likes) kept; other reviews read as before. |
| `ReviewRepository.DeletedReviewIsGone` | src/repositories/review.ts:80-84 | Removing a review no like names keeps the constraints; the review is no longer found and the others read as before. |
| `ReviewRepository.LikeAddsOne` | src/repositories/review.ts:86-93 | Adding an absent like raises that review's like count by exactly one and leaves every other review's likes unchanged. |
| `ReviewRepository.UnlikeRemovesOne` | src/repositories/review.ts:95-101 | Removing a present like lowers that review's count by exactly one and leaves every other review's likes unchanged. |
| `ReviewRepository.LikeLedgerAlgebra` | src/repositories/review.ts:86-101 | Liking twice equals liking once; liking then unliking a pair that was absent restores the ledger exactly; after unliking the pair is absent. |
| `ReviewRepository.TwoUsersLikeOnce` | src/repositories/review.ts:86-93 | Two different users liking an unliked review leave it with exactly two likes. |
| `ReviewRepository.SqliteReviewRepository.FindOneReview` | src/repositories/review.ts:33-43 | On a consistent store a row is returned iff the review exists; any row holds that review's id, author, movie id, title, text, rating and creation time, the author's username and the like count. |
| `ReviewRepository.SqliteReviewRepository.FindUserReviews` | src/repositories/review.ts:46-56 | Strictly ascending ids; every entry is the user's review exactly as `findOneReview` returns it; on a consistent store the ids are exactly the user's reviews. |
| `ReviewRepository.SqliteReviewRepository.InsertReview` | src/repositories/review.ts:59-66 | Unknown author: foreign-key violation, nothing changes. Otherwise returns the next AUTOINCREMENT id, above every existing id, stores exactly the payload's columns (not the movie title) and changes nothing else. |
| `ReviewRepository.SqliteReviewRepository.UpdateReview` | src/repositories/review.ts:68-78 | Returns 1 and replaces only title, text and rating when the id exists; returns 0 and changes nothing otherwise; the invariant is kept. |
| `ReviewRepository.SqliteReviewRepository.DeleteReview` | src/repositories/review.ts:80-84 | Absent id: 0, no change. Present but liked: foreign-key violation, no change. Otherwise 1 and exactly that row removed, likes untouched. |
| `ReviewRepository.SqliteReviewRepository.InsertReviewLike` | src/repositories/review.ts:86-93 | Succeeds iff the pair is already present or both user and review exist; then the ledger is old ∪ {pair}; otherwise a foreign-key violation and no change. |
| `ReviewRepository.SqliteReviewRepository.DeleteReviewLike` | src/repositories/review.ts:95-101 | The ledger becomes old \ {pair}; an absent pair is a silent no-op; nothing else changes. |
| `ReviewService.DefaultReviewService.GetOneReview` | src/services/review.ts:44-50 | "Review not found" exactly when the repository finds no row; otherwise the repository's row, unchanged, with the requested id. |
| `ReviewService.DefaultReviewService.GetUserReviews` | src/services/review.ts:52-58 | Never fails: returns the repository's list as it is, an empty list included. |
| `ReviewService.DefaultReviewService.InsertReview` | src/services/review.ts:60-62 | Returns the repository's new id unchanged, which becomes the review counter, so it is above every id ever issued; the new review reads back with the payload's fields and zero likes; users, likes and the user counter are kept; an unknown author is a store fault, not a DomainError. |
| `ReviewService.DefaultReviewService.UpdateReview` | src/services/review.ts:64-69 | "Review not found", with no change, iff the id is absent; otherwise the review reads back with the payload's three fields and users, likes and both counters are kept. Takes no caller id. |
| `ReviewService.DefaultReviewService.DeleteReview` | src/services/review.ts:71-76 | "Review not found" iff the id is absent; the store's foreign-key fault iff likes still name it; success iff the review exists and no like names it, and then exactly that row is removed with both counters kept; every failure changes nothing. Takes no caller id. |
| `ReviewService.DefaultReviewService.InsertReviewLike` | src/services/review.ts:78-80 | Never a DomainError: success iff the pair is present or both rows exist, and then the ledger is old ∪ {pair}; otherwise the store's foreign-key fault with no change; users, reviews and both counters are kept. |
| `ReviewService.DefaultReviewService.DeleteReviewLike` | src/services/review.ts:82-84 | Never fails; the ledger loses exactly that pair; users, reviews and both counters are kept. |
| `UserRepository.FindByName` | src/repositories/user.ts:21-32 | A result is the full entity, hash included, of a user with that username; no result means no user (below the bound) has it. |
| `UserRepository.FindInfo` | src/repositories/user.ts:34-42 | A result exists iff the id is in the table and holds that user's first name, last name and username (the type has no hash). |
| `UserRepository.FindByNameUnderConstraints` | src/repositories/user.ts:21-32 | Under the constraints the lookup finds a user iff the username is taken, and then the only user with it. |
| `UserRepository.RegisteredUserIsFound` | src/repositories/user.ts:21-51 | Inserting a fresh username at the next id keeps the constraints (uniqueness included); lookup by that username then returns exactly the new user, lookup by its id its names. |
| `UserRepository.SqliteUserRepository.FindByUsername` | src/repositories/user.ts:21-32 | Any result is the full entity of a user with that username: its id, first name, last name, username and stored hash. On a consistent store there is a result iff the username is taken. |
| `UserRepository.SqliteUserRepository.FindOneUser` | src/repositories/user.ts:34-42 | A result iff the id exists, holding exactly that user's first name, last name and username. |
| `UserRepository.SqliteUserRepository.InsertUser` | src/repositories/user.ts:44-51 | A taken username is a UNIQUE violation with no change; otherwise the payload is stored with `password` as the hash column, under the next fresh id, which is returned and found by username. |
| `UserService.Login` | src/services/user.ts:29-52 | Every failure is the one "Username or password is incorrect"; success iff the user exists and compare accepts the password; the token is signed for exactly that user's id with "1h". |
| `UserService.RegisteredUserCanLogIn` | src/services/user.ts:29-71 | After registering a fresh username, logging in with the same password yields a token for the new id, given that compare accepts bcrypt's own hash. |
| `UserService.DefaultUserService.LoginUser` | src/services/user.ts:29-52 | On the current table: success iff some user has the username and compare accepts the password against that user's hash; the token is then signed for that user's id; every failure is "Username or password is incorrect". |
| `UserService.DefaultUserService.GetUser` | src/services/user.ts:54-60 | "User not found" exactly when no user has the id; otherwise the repository's lookup. |
| `UserService.DefaultUserService.InsertUser` | src/services/user.ts:62-71 | Taken username: "User already exists", table and payload untouched. Otherwise the payload's password is replaced in place by its cost-10 hash, the store receives and keeps that hash under the next id, which becomes the user counter and is returned; reviews, likes and the review counter are kept. |
| `MovieService.ImageUrl` | src/services/movie.ts:83-88 | A URL exists iff the path is present and non-empty; it starts with the base and size, and stripping them gives the path back. |
| `MovieService.GenreNames` | src/services/movie.ts:82 | The genre names: same length and order as the genres. |
| `MovieService.MapTmdbMovieDetails` | src/services/movie.ts:71-93 | id, title, overview, release date and runtime copied; genres are the names in order; poster under "/w780" and backdrop under "/original", null when missing or empty; both statistics copied unchanged. |
| `MovieService.MapPageResults` | src/services/movie.ts:96-105 | Same length and order; each entry's id, title and release date copied and its poster under "/w500" with the same null rule. |
| `MovieService.MapTmdbMoviePage` | src/services/movie.ts:95-113 | page, totalPages and totalResults copied; each result mapped in place. |
| `MovieService.ClientError` | src/services/movie.ts:40-44 | The message is "Tmdb client error: " followed by the thrown error's message (or the thrown value's text). |
| `MovieService.GetMovie` | src/services/movie.ts:34-45 | Succeeds iff both the client and the statistics lookup do, with the mapped details; any failure is one DomainError with the prefix and no partial result; a client failure is reported as such. |
| `MovieService.PageOrError` | src/services/movie.ts:47-69 | A page call succeeds iff the fetch does, with the mapped page; otherwise the fetch's failure as the one client DomainError. |
| `MovieService.GetPopularMovies` | src/services/movie.ts:47-57 | Succeeds iff the popular-movies fetch does, with that page mapped; every failure carries the prefix. |
| `MovieService.GetMovieSearch` | src/services/movie.ts:59-69 | Succeeds iff the search fetch for the query does, with that page mapped; every failure carries the prefix. |
| `MovieService.SearchOrPopular` | src/controllers/movie.ts:65-70 | An absent or empty query falls back to the popular movies; any other query is searched. |
| `ReviewSchemas.ReviewIdParamRule` | src/schemas/review.ts:10-16 | The params are valid iff `reviewId` is present and a non-empty string. |
| `ReviewSchemas.TmdbMovieIdParamRule` | src/schemas/review.ts:24-30 | The params are valid iff `tmdbMovieId` is present and a non-empty string. |
| `ReviewSchemas.CreatePayloadRules` | src/schemas/review.ts:42-53 | Valid iff exactly the five properties are present, movie id and movie title non-empty, title 1–50 characters, text 50–1000, rating in [1, 10]. |
| `ReviewSchemas.UpdatePayloadRules` | src/schemas/review.ts:63-72 | Valid iff exactly title, text and rating are present, within the same bounds. |
| `ReviewSchemas.ToCreatePayload` | src/schemas/review.ts:42-53 | A valid create body is read into its own five values: non-empty movie id and title, and title, text and rating within the review bounds. |
| `ReviewSchemas.ToUpdatePayload` | src/schemas/review.ts:63-72 | A valid update body is read into its own title, text and rating, which lie within the review bounds. |
| `ReviewSchemas.CreateProjectsToUpdate` | src/schemas/review.ts:42-72 | A valid create body cut to title, text and rating is a valid update body with the same three values. |
| `UserSchemas.UserPayloadRules` | src/schemas/user.ts:13-23 | Valid iff exactly the four properties are present, the three names 1–50 characters and the password 8–100. |
| `UserSchemas.CredentialsRules` | src/schemas/user.ts:32-40 | Valid iff exactly username (1–50) and password (8–100) are present. |
| `UserSchemas.ToCredentials` | src/schemas/user.ts:32-40 | Valid credentials are read into the body's own username (1–50 characters) and password (8–100). |
| `UserSchemas.PayloadProjectsToCredentials` | src/schemas/user.ts:13-40 | A valid registration body cut to username and password is valid credentials with the same two values. |
| `Token.Split` | src/utils/token.ts:11 | `split(" ")`: at least one piece, no piece contains the separator, and joining the pieces with it gives the string back. |
| `Token.SecondField` | src/utils/token.ts:11 | `split(" ")[1]` is missing iff the header has no space; otherwise it is the space-free prefix of the text after the first space, ending at the next space or the end. |
| `Token.SecondFieldBetweenSpaces` | src/utils/token.ts:11 | The token (piece 1) is the text strictly between the first space and the next space or the end. |
| `Token.NoSpaceNoToken` | src/utils/token.ts:11 | A header without a space has no piece 1. |
| `Token.BearerTokenExample` | src/utils/token.ts:11 | "Bearer abc" gives "abc". |
| `Token.DoubleSpaceExample` | src/utils/token.ts:29 | "Bearer  abc" (two spaces) gives the empty string. |
| `Token.BareSchemeExamples` | src/utils/token.ts:29 | "Bearer" gives no token; "Bearer " gives the empty string. |
| `Token.DecodeVerifiedTokenPayload` | src/utils/token.ts:10-13 | Requires the header to be present; decodes piece 1 with the unverified decoder, and nothing when piece 1 is missing. |
| `Token.DecodeUnsafeTokenPayload` | src/utils/token.ts:24-31 | Nothing when the header is absent or has no piece 1; otherwise the unverified decoding of piece 1. |
| `Token.DecodersAgree` | src/utils/token.ts:10-31 | With the header present, both helpers return the same decoding of the same piece; neither checks a signature. |
| `AuthenticateToken.PresentedToken` | src/hooks/authenticateToken.ts:15-17 | A token counts iff the header is present and has a non-empty piece 1, and then it is that piece. |
| `AuthenticateToken.Authenticate` | src/hooks/authenticateToken.ts:10-31 | Exactly one of 401 "token missing" (no usable token), 403 "Not correct JWT!" (token fails verification) or `done` (a non-empty token verifies). |
| `AuthenticateToken.MissingTokenExamples` | src/hooks/authenticateToken.ts:15-22 | No header, "Bearer", "Bearer " and a double space all get the same 401 whatever verification would say. |
| `AuthenticateToken.DoneMeansVerifiedTokenIsDecoded` | src/hooks/authenticateToken.ts:24-30 | When `done` is called the header is present and both decoders decode exactly the token that was verified. |

## Left out

- Controllers and routes: Fastify request/reply plumbing (every `DomainError` becomes 400, everything else 500) and route wiring.
- Application bootstrap, server start-up, environment variables, the database connection and logging (`console.log` / `console.error`).
- The DDL script as code; its constraints are the invariant `Db.Valid()`.
- The TMDb HTTP client: its answers are the inputs `Sources`. The client does not reject an HTTP error status, so an error body reaches the mappers as if it were a movie or a page. The typed inputs express neither of the following outcomes:
  - A payload without `genres` or `results` makes `.map` throw on undefined, and the call ends in the same prefixed DomainError.
  - A payload missing any other field has it copied through as undefined, and the call succeeds with that key absent from the response.
  - A missing or null poster or backdrop path is expressed (as `None`, answered with null).
- `getMovieReviews`, `likedByMe`, and how `averageRating` is computed or rounded: the repository methods they call (`findMovieReviews`, `findMovieReviewStats`) are not part of this model; the statistics are an input of `GetMovie`.
- bcrypt and jsonwebtoken internals, the secret key, the salt's randomness (a parameter) and token expiry clocks.
- `createdAt` values: the column default's timestamp is the parameter `now`.
- Fractional ratings and non-integer JSON numbers: numbers are integers.
- Conversion of the string id parameters to integers: ids are natural numbers.
- The validator configuration of the web framework (it may strip unknown properties or coerce types instead of rejecting); the schemas are modelled with JSON Schema's own meaning.
- Concurrency: the model is sequential. The race between the username check and the insert (the hash is awaited in between) would surface as the store's UNIQUE violation, which `InsertUser` passes through as `Fault.Store`; sequentially it cannot happen.
- Storage failures other than constraint violations, and the 64-bit limit of row ids.
