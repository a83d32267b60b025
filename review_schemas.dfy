/** The request schemas of the review routes (src/schemas/review.ts), the
    rules each one amounts to, and the records a valid body is read into. */
module ReviewSchemas {
  import opened Common
  import opened JsonSchema
  import opened ReviewModels

  const ReviewIdParamSchema := ObjectSchema(map["reviewId" := StringRule(1, None)], {"reviewId"}, true)

  const TmdbMovieIdParamSchema := ObjectSchema(map["tmdbMovieId" := StringRule(1, None)], {"tmdbMovieId"}, true)

  const CreateKeys: set<string> := {"tmdbMovieId", "tmdbMovieTitle", "title", "reviewText", "rating"}

  const ReviewCreatePayloadSchema := ObjectSchema(
    map[
      "tmdbMovieId" := StringRule(1, None),
      "tmdbMovieTitle" := StringRule(1, None),
      "title" := StringRule(1, Some(50)),
      "reviewText" := StringRule(50, Some(1000)),
      "rating" := NumberRule(1, 10)],
    CreateKeys,
    false)

  const UpdateKeys: set<string> := {"title", "reviewText", "rating"}

  const ReviewUpdatePayloadSchema := ObjectSchema(
    map[
      "title" := StringRule(1, Some(50)),
      "reviewText" := StringRule(50, Some(1000)),
      "rating" := NumberRule(1, 10)],
    UpdateKeys,
    false)

  /** A `:reviewId` parameter is valid exactly when it is present and a
      non-empty string; other parameters are allowed. */
  lemma ReviewIdParamRule(v: Json)
    ensures Validates(ReviewIdParamSchema, v) <==>
      v.JObject? && "reviewId" in v.fields && NonEmptyString(v.fields["reviewId"])
  {
  }

  /** A `:tmdbMovieId` parameter is valid exactly when it is present and a
      non-empty string. */
  lemma TmdbMovieIdParamRule(v: Json)
    ensures Validates(TmdbMovieIdParamSchema, v) <==>
      v.JObject? && "tmdbMovieId" in v.fields && NonEmptyString(v.fields["tmdbMovieId"])
  {
  }

  /** A create body is valid exactly when it has the five properties and no
      other, the movie id and movie title are non-empty strings, the title has
      1 to 50 characters, the text 50 to 1000, and the rating is in [1, 10]. */
  lemma CreatePayloadRules(v: Json)
    ensures Validates(ReviewCreatePayloadSchema, v) <==>
      && v.JObject?
      && v.fields.Keys == CreateKeys
      && NonEmptyString(v.fields["tmdbMovieId"])
      && NonEmptyString(v.fields["tmdbMovieTitle"])
      && StringOfLength(v.fields["title"], 1, 50)
      && StringOfLength(v.fields["reviewText"], 50, 1000)
      && NumberBetween(v.fields["rating"], 1, 10)
  {
    if Validates(ReviewCreatePayloadSchema, v) {
      assert v.fields.Keys == CreateKeys by {
        forall k | k in v.fields ensures k in CreateKeys {
          assert k in ReviewCreatePayloadSchema.properties;
        }
      }
    }
  }

  /** An update body is valid exactly when it has the three editable
      properties and no other, within the same bounds as on create. */
  lemma UpdatePayloadRules(v: Json)
    ensures Validates(ReviewUpdatePayloadSchema, v) <==>
      && v.JObject?
      && v.fields.Keys == UpdateKeys
      && StringOfLength(v.fields["title"], 1, 50)
      && StringOfLength(v.fields["reviewText"], 50, 1000)
      && NumberBetween(v.fields["rating"], 1, 10)
  {
    if Validates(ReviewUpdatePayloadSchema, v) {
      assert v.fields.Keys == UpdateKeys by {
        forall k | k in v.fields ensures k in UpdateKeys {
          assert k in ReviewUpdatePayloadSchema.properties;
        }
      }
    }
  }

  /** The record a valid create body is read into: the body's own values,
      which lie within the review bounds, so nothing out of range reaches the
      store through this route. */
  function ToCreatePayload(v: Json): (p: ReviewCreatePayload)
    requires Validates(ReviewCreatePayloadSchema, v)
    ensures |p.tmdbMovieId| >= 1 && |p.tmdbMovieTitle| >= 1
    ensures WithinReviewBounds(p.title, p.reviewText, p.rating)
    ensures p.tmdbMovieId == v.fields["tmdbMovieId"].s && p.tmdbMovieTitle == v.fields["tmdbMovieTitle"].s
    ensures p.title == v.fields["title"].s && p.reviewText == v.fields["reviewText"].s
    ensures p.rating == v.fields["rating"].n
  {
    CreatePayloadRules(v);
    ReviewCreatePayload(
      v.fields["tmdbMovieId"].s, v.fields["tmdbMovieTitle"].s,
      v.fields["title"].s, v.fields["reviewText"].s, v.fields["rating"].n)
  }

  /** The record a valid update body is read into: the body's own values,
      within the review bounds. */
  function ToUpdatePayload(v: Json): (p: ReviewUpdatePayload)
    requires Validates(ReviewUpdatePayloadSchema, v)
    ensures WithinReviewBounds(p.title, p.reviewText, p.rating)
    ensures p.title == v.fields["title"].s && p.reviewText == v.fields["reviewText"].s
    ensures p.rating == v.fields["rating"].n
  {
    UpdatePayloadRules(v);
    ReviewUpdatePayload(v.fields["title"].s, v.fields["reviewText"].s, v.fields["rating"].n)
  }

  /** Every valid create body, cut down to title, text and rating, is a valid
      update body, and it is read into the same three values. */
  lemma CreateProjectsToUpdate(v: Json)
    requires Validates(ReviewCreatePayloadSchema, v)
    ensures Validates(ReviewUpdatePayloadSchema, JObject(Project(v.fields, UpdateKeys)))
    ensures var p := ToCreatePayload(v);
      ToUpdatePayload(JObject(Project(v.fields, UpdateKeys))) == ReviewUpdatePayload(p.title, p.reviewText, p.rating)
  {
    CreatePayloadRules(v);
    var u := JObject(Project(v.fields, UpdateKeys));
    assert u.fields.Keys == UpdateKeys;
    UpdatePayloadRules(u);
  }
}
