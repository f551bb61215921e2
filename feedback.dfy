/** `collect_feedback` of `feedback.py`: build the metadata (inserting the
    rating), store the feedback, retry once without metadata on a
    `TypeError`, and let no failure escape. */
module Feedback {
  import opened Wrappers
  import opened Mongo

  /** A metadata dict owned by the caller (`extra`), which `collect_feedback`
      may update in place. */
  class Metadata {
    var entries: Dict

    constructor (entries: Dict)
      ensures this.entries == entries
    {
      this.entries := entries;
    }
  }

  const RatingKey: string := "rating"

  /** The metadata handed to `add_feedback`: `extra` (or an empty dict when
      it is falsy), with `"rating"` set to the rating when one is given.
      `extra` is None both for a missing and for an empty dict. */
  function FeedbackMetadata(extra: Option<Dict>, rating: Option<int>): (m: Dict)
    ensures rating.Some? ==> RatingKey in m && m[RatingKey] == Int(rating.value)
    ensures rating.None? && extra.None? ==> m == map[]
    ensures forall k :: k != RatingKey ==> (k in m <==> extra.Some? && k in extra.value)
    ensures forall k :: k != RatingKey && k in m ==> extra.Some? && m[k] == extra.value[k]
    ensures rating.None? && extra.Some? ==> m == extra.value
  {
    var base := extra.GetOr(map[]);
    if rating.Some? then base[RatingKey := Int(rating.value)] else base
  }

  /** `extra` as `collect_feedback` sees it: None when it is null or empty. */
  function Given(extra: Option<Dict>): Option<Dict> {
    if extra.Some? && extra.value != map[] then extra else None
  }

  /** A falsy `extra` behaves like no `extra` at all. */
  lemma EmptyExtraIsNoExtra(rating: Option<int>)
    ensures FeedbackMetadata(Given(Some(map[])), rating) == FeedbackMetadata(Given(None), rating)
    ensures FeedbackMetadata(Given(None), None) == map[]
  {
  }

  /** The rating replaces any rating already in `extra`, and every other entry is kept. */
  lemma RatingOverridesExtra(extra: Dict, old_rating: Value, rating: int)
    requires RatingKey in extra && extra[RatingKey] == old_rating
    ensures FeedbackMetadata(Some(extra), Some(rating)) == extra[RatingKey := Int(rating)]
  {
  }

  /** `collect_feedback(prompt, response, user_email, rating, extra)`.
      `typeError` is whether the first `add_feedback` call raises
      `TypeError` before touching the store (an older signature without
      `metadata`); `net` and `retryNet` are the store's behaviour on the
      first call and on the retry. Every failure is swallowed. */
  method CollectFeedback(store: Store, prompt: string, response: string, email: string, rating: Option<int>,
                         extra: Metadata?, typeError: bool, now: int, net: Net, retryNet: Net)
    requires store.Valid()
    modifies store, extra
    ensures store.Valid()
    ensures var given := if extra == null then None else Given(Some(old(extra.entries)));
      store.State() ==
        if typeError then AddFeedbackStep(old(store.State()), email, prompt, response, None, now, retryNet).1
        else AddFeedbackStep(old(store.State()), email, prompt, response, Some(FeedbackMetadata(given, rating)), now, net).1
    ensures extra != null && old(extra.entries) != map[] ==>
      extra.entries == FeedbackMetadata(Some(old(extra.entries)), rating)
    ensures extra != null && old(extra.entries) == map[] ==> extra.entries == map[]
  {
    var metadata: Metadata;
    if extra != null && extra.entries != map[] {
      metadata := extra;
    } else {
      metadata := new Metadata(map[]);
    }
    if rating.Some? {
      metadata.entries := metadata.entries[RatingKey := Int(rating.value)];
    }
    if !typeError {
      var _ := store.AddFeedback(email, prompt, response, Some(metadata.entries), now, net);
    } else {
      var _ := store.AddFeedback(email, prompt, response, None, now, retryNet);
    }
  }

  /** On the retry path the feedback is stored with an empty metadata mapping. */
  lemma RetryStoresWithoutMetadata(db: DB, email: string, prompt: string, response: string, now: int, retryNet: Net)
    requires db.connected || retryNet.reachable
    requires retryNet.callOk
    ensures AddFeedbackStep(db, email, prompt, response, None, now, retryNet).1.feedback ==
      db.feedback + [FeedbackDoc(email, prompt, response, map[], now)]
  {
  }
}
