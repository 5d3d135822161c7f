/** The two tidiness steps: collapsing the stage flags into one `stage` column,
    and merging the archive with the prediction and engagement tables. */
module Tidiness {
  import opened Stages
  import opened Records
  import opened Seqs
  import opened Join

  function CollapseRow(a: RawTweet): Tweet {
    Tweet(a.post, a.reshare, ExtractStage(a.post.text))
  }

  /** Add `stage` from the text, then drop the four flag columns. */
  function CollapseStages(archive: seq<RawTweet>): (r: seq<Tweet>)
    ensures |r| == |archive|
    ensures forall i :: 0 <= i < |r| ==>
      r[i].post == archive[i].post && r[i].reshare == archive[i].reshare
    ensures forall i :: 0 <= i < |r| && r[i].stage.Some? ==>
      exists p :: OccursAt(archive[i].post.text, p, Keyword(r[i].stage.value))
               && NoStageBefore(archive[i].post.text, p)
    ensures forall i :: 0 <= i < |r| ==>
      (r[i].stage.Null? <==> forall q, k :: !OccursAt(archive[i].post.text, q, Keyword(k)))
  {
    Map(archive, CollapseRow)
  }

  function ToMergedRow(x: ((Tweet, Prediction), Engagement)): MergedRow {
    MergedRow(x.0.0, x.0.1, x.1)
  }

  /** Both inner merges on `tweet_id`, archive first, then predictions, then engagement. */
  function Merge(tweets: seq<Tweet>, predictions: seq<Prediction>, engagements: seq<Engagement>): (r: seq<MergedRow>)
    ensures forall m :: m in r ==>
      && m.tweet in tweets && m.image in predictions && m.engagement in engagements
      && m.tweet.post.tweetId == m.image.tweetId == m.engagement.tweetId
    ensures forall t, p, e ::
      (t in tweets && p in predictions && e in engagements && t.post.tweetId == p.tweetId == e.tweetId)
      ==> MergedRow(t, p, e) in r
  {
    var first := InnerJoin(tweets, predictions, TweetId, PredictionId);
    var second := InnerJoin(first, engagements, PairId, EngagementId);
    MergedMembers(second);
    Map(second, ToMergedRow)
  }

  lemma MergedMembers(second: seq<((Tweet, Prediction), Engagement)>)
    ensures forall m :: m in Map(second, ToMergedRow) <==> ((m.tweet, m.image), m.engagement) in second
  {
    forall x | x in second ensures ToMergedRow(x) in Map(second, ToMergedRow) {
      MapMember(second, ToMergedRow, x);
    }
  }

  /** One merged row for every matching triple of archive, prediction and
      engagement rows, counted with the multiplicity of each. */
  lemma MergeCount(tweets: seq<Tweet>, predictions: seq<Prediction>, engagements: seq<Engagement>,
                   t: Tweet, p: Prediction, e: Engagement)
    ensures multiset(Merge(tweets, predictions, engagements))[MergedRow(t, p, e)] ==
      if t.post.tweetId == p.tweetId == e.tweetId
      then multiset(tweets)[t] * multiset(predictions)[p] * multiset(engagements)[e]
      else 0
  {
    var first := InnerJoin(tweets, predictions, TweetId, PredictionId);
    var second := InnerJoin(first, engagements, PairId, EngagementId);
    assert ToMergedRow(((t, p), e)) == MergedRow(t, p, e);
    MapInjectiveCount(second, ToMergedRow, ((t, p), e));
    InnerJoinCount(first, engagements, PairId, EngagementId, (t, p), e);
    InnerJoinCount(tweets, predictions, TweetId, PredictionId, t, p);
  }

  /** Left-row order is kept through both merges. */
  lemma MergeAppend(a: seq<Tweet>, b: seq<Tweet>, predictions: seq<Prediction>, engagements: seq<Engagement>)
    ensures Merge(a + b, predictions, engagements) == Merge(a, predictions, engagements) + Merge(b, predictions, engagements)
  {
    InnerJoinAppend(a, b, predictions, TweetId, PredictionId);
    var fa := InnerJoin(a, predictions, TweetId, PredictionId);
    var fb := InnerJoin(b, predictions, TweetId, PredictionId);
    InnerJoinAppend(fa, fb, engagements, PairId, EngagementId);
    MapAppend(InnerJoin(fa, engagements, PairId, EngagementId), InnerJoin(fb, engagements, PairId, EngagementId), ToMergedRow);
  }

  /** With `tweet_id` unique in all three tables, it is unique in the merged
      table, which is no longer than any of them. */
  lemma MergeUnique(tweets: seq<Tweet>, predictions: seq<Prediction>, engagements: seq<Engagement>)
    requires UniqueKeys(tweets, TweetId) && UniqueKeys(predictions, PredictionId) && UniqueKeys(engagements, EngagementId)
    ensures UniqueKeys(Merge(tweets, predictions, engagements), MergedId)
    ensures |Merge(tweets, predictions, engagements)| <= |tweets|
    ensures |Merge(tweets, predictions, engagements)| <= |predictions|
    ensures |Merge(tweets, predictions, engagements)| <= |engagements|
  {
    var first := InnerJoin(tweets, predictions, TweetId, PredictionId);
    InnerJoinUniqueKeys(tweets, predictions, TweetId, PredictionId);
    InnerJoinNoLongerThanLeft(tweets, predictions, TweetId, PredictionId);
    InnerJoinNoLongerThanRight(tweets, predictions, TweetId, PredictionId);
    assert Map(first, PairId) == PairKeys(first, TweetId);
    var second := InnerJoin(first, engagements, PairId, EngagementId);
    InnerJoinUniqueKeys(first, engagements, PairId, EngagementId);
    InnerJoinNoLongerThanLeft(first, engagements, PairId, EngagementId);
    InnerJoinNoLongerThanRight(first, engagements, PairId, EngagementId);
    assert Map(Map(second, ToMergedRow), MergedId) == PairKeys(second, PairId);
  }
}
