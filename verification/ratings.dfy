/**
 * Stylist ratings: a signed-in user rates a stylist from 1 to 5; a second
 * rating by the same user for the same stylist replaces the first.
 */
module Ratings {
  import opened Js

  datatype Rating = Rating(id: string, stylistId: string, userId: string, rating: real,
                           comment: Option<string>, inquiryId: Option<string>)

  /** At most one rating per (stylist, user): the store is keyed by the pair. */
  type Store = map<(string, string), Rating>

  /** The store is consistent when every rating sits under its own pair. */
  predicate Keyed(store: Store) {
    forall k :: k in store ==> store[k].stylistId == k.0 && store[k].userId == k.1
  }

  /** The body; `rating` is `None` when missing or NaN. A rating sent as text is not modelled. */
  datatype Body = Body(stylistId: Option<string>, rating: Option<real>, comment: Option<string>, inquiryId: Option<string>)

  datatype Response =
    | RatingError(status: int, message: string)
    | Updated(rating: Rating)      // "評価を更新しました"
    | CreatedRating(rating: Rating) // "評価を投稿しました"

  /** `!rating || rating < 1 || rating > 5`: no integrality check. */
  predicate BadRating(r: Option<real>) {
    r.None? || r.value == 0.0 || r.value < 1.0 || r.value > 5.0
  }

  /**
   * POST /api/stylists/ratings with the session's user id and the set of
   * existing stylist ids as inputs: sign-in first, then the stylist id, the
   * rating range and the stylist's existence; then an upsert keyed by
   * (stylist, user).
   */
  function PostRating(userId: Option<string>, body: Body, stylistIds: set<string>, store: Store, newId: string): (r: (Store, Response))
    ensures !TruthyText(userId) ==> r == (store, RatingError(401, "ログインが必要です"))
    ensures TruthyText(userId) && !TruthyText(body.stylistId) ==> r == (store, RatingError(400, "スタイリストIDが必要です"))
    ensures TruthyText(userId) && TruthyText(body.stylistId) && BadRating(body.rating) ==>
              r == (store, RatingError(400, "評価は1〜5の間で指定してください"))
    ensures TruthyText(userId) && TruthyText(body.stylistId) && !BadRating(body.rating) && body.stylistId.value !in stylistIds ==>
              r == (store, RatingError(404, "スタイリストが見つかりません"))
    ensures r.1.RatingError? ==> r.0 == store
    ensures !r.1.RatingError? <==>
              TruthyText(userId) && TruthyText(body.stylistId) && !BadRating(body.rating) && body.stylistId.value in stylistIds
    ensures !r.1.RatingError? ==>
              var key := (body.stylistId.value, userId.value);
              && r.0 == store[key := r.1.rating]
              && (r.1.Updated? <==> key in store)
              && (r.1.Updated? ==> r.1.rating == store[key].(rating := r.1.rating.rating, comment := r.1.rating.comment,
                                                              inquiryId := r.1.rating.inquiryId))
              && (r.1.CreatedRating? ==> r.1.rating.stylistId == key.0 && r.1.rating.userId == key.1)
              && r.1.rating.rating == body.rating.value && 1.0 <= r.1.rating.rating <= 5.0
              && r.1.rating.comment == NullableOrNull(body.comment)
              && r.1.rating.inquiryId == NullableOrNull(body.inquiryId)
              && r.1.rating.id == (if key in store then store[key].id else newId)
  {
    if !TruthyText(userId) then (store, RatingError(401, "ログインが必要です"))
    else if !TruthyText(body.stylistId) then (store, RatingError(400, "スタイリストIDが必要です"))
    else if BadRating(body.rating) then (store, RatingError(400, "評価は1〜5の間で指定してください"))
    else if body.stylistId.value !in stylistIds then (store, RatingError(404, "スタイリストが見つかりません"))
    else
      var key := (body.stylistId.value, userId.value);
      if key in store then
        var updated := store[key].(rating := body.rating.value, comment := NullableOrNull(body.comment),
                                   inquiryId := NullableOrNull(body.inquiryId));
        (store[key := updated], Updated(updated))
      else
        var created := Rating(newId, key.0, key.1, body.rating.value, NullableOrNull(body.comment), NullableOrNull(body.inquiryId));
        (store[key := created], CreatedRating(created))
  }

  /** Posting keeps the store keyed, touches only the poster's pair, and adds at most one rating. */
  lemma PostKeepsOnePerPair(userId: Option<string>, body: Body, stylistIds: set<string>, store: Store, newId: string)
    requires Keyed(store)
    ensures var s' := PostRating(userId, body, stylistIds, store, newId).0;
            && Keyed(s')
            && |s'.Keys| <= |store.Keys| + 1
            && store.Keys <= s'.Keys
            && (forall k :: k in store && (userId.None? || body.stylistId.None? || k != (body.stylistId.value, userId.value)) ==> s'[k] == store[k])
  {
    var r := PostRating(userId, body, stylistIds, store, newId);
    if !r.1.RatingError? {
      var key := (body.stylistId.value, userId.value);
      assert r.0 == store[key := r.1.rating];
      assert r.1.rating.stylistId == key.0 && r.1.rating.userId == key.1;
      SizeAfterUpdate(store, key, r.1.rating);
    }
  }

  lemma SizeAfterUpdate(store: Store, key: (string, string), v: Rating)
    ensures |store[key := v].Keys| <= |store.Keys| + 1
  {
    assert store[key := v].Keys == store.Keys + {key};
  }

  /** Posting the same rating twice leaves the store as posting it once. */
  lemma RepostIsIdempotent(userId: Option<string>, body: Body, stylistIds: set<string>, store: Store, id1: string, id2: string)
    ensures var s1 := PostRating(userId, body, stylistIds, store, id1).0;
            PostRating(userId, body, stylistIds, s1, id2).0 == s1
  {
  }

  /** A fractional rating in range is accepted as it is. */
  lemma FractionalRatingAccepted(userId: string, stylistId: string, stylistIds: set<string>, store: Store, newId: string)
    requires userId != "" && stylistId in stylistIds && stylistId != ""
    ensures PostRating(Some(userId), Body(Some(stylistId), Some(2.5), None, None), stylistIds, store, newId).1.rating.rating == 2.5
  {
  }
}
