/** The whole cleaning pipeline, composed in the notebook's order, and what it
    guarantees about the master table. */
module Pipeline {
  import opened Nullable
  import opened Text
  import opened Stages
  import opened Records
  import opened Seqs
  import opened Tidiness
  import opened Quality

  /** The row filters after the merge: image filter, name cleaning, reshare
      filter and deduplication (`dropna`, `replace`, boolean mask, `drop_duplicates`). */
  function CleanMerged(merged: seq<MergedRow>): seq<MergedRow> {
    DropDuplicates(DropReshares(NullPlaceholderNames(DropImageless(merged))))
  }

  /** The column steps that follow: reshare columns, sources, names, denominators. */
  function Finalize(unique: seq<MergedRow>): seq<MasterRow> {
    PatchDenominators(CapitalizeNames(HumanizeSources(DropRetweetColumns(unique))))
  }

  /** From the three loaded tables to the master table. */
  function BuildMaster(archive: seq<RawTweet>, predictions: seq<Prediction>, engagements: seq<Engagement>): seq<MasterRow> {
    Finalize(CleanMerged(Merge(CollapseStages(archive), predictions, engagements)))
  }

  /** An archive row with its prediction and engagement rows reaches the master
      table: same id, an image link, and not a reshare. */
  predicate Qualifies(a: RawTweet, p: Prediction, e: Engagement) {
    && a.post.tweetId == p.tweetId == e.tweetId
    && a.post.expandedUrls.Some?
    && a.reshare.statusId.Null?
  }

  /** The column steps on one row. */
  function FinishMerged(m: MergedRow): MasterRow {
    var c := CapitalizeRow(HumanizeRow(StripReshare(m)));
    if c.post.tweetId in PatchIds then WithDenominator10(c) else c
  }

  /** The master row a qualifying triple becomes. */
  function Finish(a: RawTweet, p: Prediction, e: Engagement): MasterRow {
    FinishMerged(CleanNameRow(MergedRow(CollapseRow(a), p, e)))
  }

  ghost predicate Derived(archive: seq<RawTweet>, predictions: seq<Prediction>, engagements: seq<Engagement>, r: MasterRow) {
    exists a, p, e :: a in archive && p in predictions && e in engagements && Qualifies(a, p, e) && r == Finish(a, p, e)
  }

  /** The column steps work row by row: the five keyed assignments and the
      three column replacements amount to one map over the rows. */
  lemma FinalizeIsRowwise(unique: seq<MergedRow>)
    ensures Finalize(unique) == Map(unique, FinishMerged)
  {
    var f := Finalize(unique);
    forall i | 0 <= i < |unique| ensures f[i] == FinishMerged(unique[i]) {
    }
  }

  /** The row the filters started from, for a row they kept. */
  lemma CleanMergedOrigin(merged: seq<MergedRow>, x: MergedRow) returns (w: MergedRow)
    requires x in CleanMerged(merged)
    ensures w in merged && HasImage(w) && IsOriginal(w) && x == CleanNameRow(w)
  {
    var withImages := DropImageless(merged);
    var named := NullPlaceholderNames(withImages);
    var originals := DropReshares(named);
    assert x in originals;
    var j :| 0 <= j < |named| && named[j] == x;
    w := withImages[j];
  }

  /** The filters keep every cleaned image-bearing original. */
  lemma CleanMergedKeeps(merged: seq<MergedRow>, w: MergedRow)
    requires w in merged && HasImage(w) && IsOriginal(w)
    ensures CleanNameRow(w) in CleanMerged(merged)
  {
    MapMember(DropImageless(merged), CleanNameRow, w);
  }

  /** Every row of the master table is a finished qualifying triple. */
  lemma MasterRowsSound(archive: seq<RawTweet>, predictions: seq<Prediction>, engagements: seq<Engagement>)
    ensures forall r :: r in BuildMaster(archive, predictions, engagements) ==> Derived(archive, predictions, engagements, r)
  {
    var tidy := CollapseStages(archive);
    var merged := Merge(tidy, predictions, engagements);
    var unique := CleanMerged(merged);
    FinalizeIsRowwise(unique);
    forall r | r in Map(unique, FinishMerged) ensures Derived(archive, predictions, engagements, r) {
      var i :| 0 <= i < |unique| && FinishMerged(unique[i]) == r;
      var w := CleanMergedOrigin(merged, unique[i]);
      var a := MergedOrigin(archive, predictions, engagements, w);
      assert r == Finish(a, w.image, w.engagement);
    }
  }

  /** The archive row a merged row came from. */
  lemma MergedOrigin(archive: seq<RawTweet>, predictions: seq<Prediction>, engagements: seq<Engagement>, w: MergedRow)
    returns (a: RawTweet)
    requires w in Merge(CollapseStages(archive), predictions, engagements)
    ensures a in archive && w == MergedRow(CollapseRow(a), w.image, w.engagement)
    ensures w.image in predictions && w.engagement in engagements
    ensures a.post.tweetId == w.image.tweetId == w.engagement.tweetId
  {
    var tidy := CollapseStages(archive);
    var k :| 0 <= k < |tidy| && tidy[k] == w.tweet;
    a := archive[k];
  }

  /** Every finished qualifying triple is a row of the master table. */
  lemma MasterRowsComplete(archive: seq<RawTweet>, predictions: seq<Prediction>, engagements: seq<Engagement>)
    ensures forall a, p, e ::
      (a in archive && p in predictions && e in engagements && Qualifies(a, p, e))
      ==> Finish(a, p, e) in BuildMaster(archive, predictions, engagements)
  {
    var tidy := CollapseStages(archive);
    var merged := Merge(tidy, predictions, engagements);
    var unique := CleanMerged(merged);
    FinalizeIsRowwise(unique);
    forall a, p, e | a in archive && p in predictions && e in engagements && Qualifies(a, p, e)
      ensures Finish(a, p, e) in Map(unique, FinishMerged)
    {
      MapMember(archive, CollapseRow, a);
      var m := MergedRow(CollapseRow(a), p, e);
      CleanMergedKeeps(merged, m);
      MapMember(unique, FinishMerged, CleanNameRow(m));
    }
  }

  /** The rows of the master table are exactly the finished qualifying triples. */
  lemma MasterRows(archive: seq<RawTweet>, predictions: seq<Prediction>, engagements: seq<Engagement>, r: MasterRow)
    ensures r in BuildMaster(archive, predictions, engagements) <==> Derived(archive, predictions, engagements, r)
  {
    MasterRowsSound(archive, predictions, engagements);
    MasterRowsComplete(archive, predictions, engagements);
  }

  /** What every finished row looks like, in terms of its archive row. */
  lemma FinishProperties(a: RawTweet, p: Prediction, e: Engagement)
    requires Qualifies(a, p, e)
    ensures var r := Finish(a, p, e);
      && r.post.tweetId == a.post.tweetId == r.image.tweetId == r.engagement.tweetId
      && r.image == p && r.engagement == e
      && r.post.text == a.post.text && r.post.timestamp == a.post.timestamp
      && r.post.ratingNumerator == a.post.ratingNumerator
      && r.post.inReplyToStatusId == a.post.inReplyToStatusId
      && r.post.inReplyToUserId == a.post.inReplyToUserId
      && r.post.expandedUrls.Some?
      && r.stage == ExtractStage(a.post.text)
      && r.post.source !in SourceLabels
      && (a.post.source !in SourceLabels ==> r.post.source == a.post.source)
      && (a.post.source in SourceLabels ==> r.post.source == SourceLabels[a.post.source])
      && (r.post.name.Null? <==> a.post.name.Null? || a.post.name.value in {"a", "the", "an", "None"})
      && (r.post.name.Some? ==>
            && IsCapitalized(r.post.name.value)
            && SameIgnoringCase(r.post.name.value, a.post.name.value)
            && r.post.name.value !in {"a", "the", "an"})
      && r.post.ratingDenominator == if a.post.tweetId in PatchIds then 10 else a.post.ratingDenominator
  {
  }

  /** The invariants of the master table. */
  lemma MasterInvariants(archive: seq<RawTweet>, predictions: seq<Prediction>, engagements: seq<Engagement>)
    ensures forall r :: r in BuildMaster(archive, predictions, engagements) ==>
      && r.post.tweetId == r.image.tweetId == r.engagement.tweetId
      && r.post.expandedUrls.Some?
      && r.post.source !in SourceLabels
      && (r.post.name.Some? ==> IsCapitalized(r.post.name.value) && r.post.name.value !in {"a", "the", "an"})
      && (r.post.tweetId in PatchIds ==> r.post.ratingDenominator == 10)
  {
    MasterRowsSound(archive, predictions, engagements);
    forall r | r in BuildMaster(archive, predictions, engagements)
      ensures r.post.tweetId == r.image.tweetId == r.engagement.tweetId
      ensures r.post.expandedUrls.Some? && r.post.source !in SourceLabels
      ensures r.post.name.Some? ==> IsCapitalized(r.post.name.value) && r.post.name.value !in {"a", "the", "an"}
      ensures r.post.tweetId in PatchIds ==> r.post.ratingDenominator == 10
    {
      var a, p, e :| a in archive && p in predictions && e in engagements && Qualifies(a, p, e) && r == Finish(a, p, e);
      FinishProperties(a, p, e);
    }
  }

  /** With `tweet_id` unique in the three inputs, the master table has one row
      per id and is no longer than any input. */
  lemma MasterUnique(archive: seq<RawTweet>, predictions: seq<Prediction>, engagements: seq<Engagement>)
    requires UniqueKeys(archive, RawId) && UniqueKeys(predictions, PredictionId) && UniqueKeys(engagements, EngagementId)
    ensures UniqueKeys(BuildMaster(archive, predictions, engagements), MasterId)
    ensures |BuildMaster(archive, predictions, engagements)| <= |archive|
    ensures |BuildMaster(archive, predictions, engagements)| <= |predictions|
    ensures |BuildMaster(archive, predictions, engagements)| <= |engagements|
  {
    var tidy := CollapseStages(archive);
    assert Map(tidy, TweetId) == Map(archive, RawId);
    var merged := Merge(tidy, predictions, engagements);
    MergeUnique(tidy, predictions, engagements);
    CleanMergedUnique(merged);
    var unique := CleanMerged(merged);
    FinalizeIsRowwise(unique);
    assert Map(Map(unique, FinishMerged), MasterId) == Map(unique, MergedId);
  }

  lemma CleanMergedUnique(merged: seq<MergedRow>)
    requires UniqueKeys(merged, MergedId)
    ensures UniqueKeys(CleanMerged(merged), MergedId) && |CleanMerged(merged)| <= |merged|
  {
    var withImages := DropImageless(merged);
    SubsequenceUniqueKeys(withImages, merged, MergedId);
    var named := NullPlaceholderNames(withImages);
    assert Map(named, MergedId) == Map(withImages, MergedId);
    var originals := DropReshares(named);
    SubsequenceUniqueKeys(originals, named, MergedId);
    SubsequenceUniqueKeys(DropDuplicates(originals), originals, MergedId);
  }

  /** With unique archive ids, a reshare's id never appears in the master table. */
  lemma ReshareExcluded(archive: seq<RawTweet>, predictions: seq<Prediction>, engagements: seq<Engagement>, a: RawTweet)
    requires UniqueKeys(archive, RawId)
    requires a in archive && a.reshare.statusId.Some?
    ensures forall r :: r in BuildMaster(archive, predictions, engagements) ==> r.post.tweetId != a.post.tweetId
  {
    MasterRowsSound(archive, predictions, engagements);
    forall r | r in BuildMaster(archive, predictions, engagements) ensures r.post.tweetId != a.post.tweetId {
      var a', p, e :| a' in archive && p in predictions && e in engagements && Qualifies(a', p, e) && r == Finish(a', p, e);
      FinishProperties(a', p, e);
      var i :| 0 <= i < |archive| && archive[i] == a;
      var j :| 0 <= j < |archive| && archive[j] == a';
      assert i != j;
      assert Map(archive, RawId)[i] != Map(archive, RawId)[j];
    }
  }

  /** The denominator is not 10 on every master row: a row whose id is not
      listed keeps whatever denominator it had. */
  lemma DenominatorNotAlwaysTen(a: RawTweet, p: Prediction, e: Engagement)
    requires Qualifies(a, p, e) && a.post.tweetId !in PatchIds && a.post.ratingDenominator != 10
    ensures Finish(a, p, e) in BuildMaster([a], [p], [e])
    ensures Finish(a, p, e).post.ratingDenominator == a.post.ratingDenominator != 10
  {
    MasterRowsComplete([a], [p], [e]);
    FinishProperties(a, p, e);
  }

  /** The placeholder step runs before capitalization, so a name spelled "none"
      is not removed and comes out as the marker string "None". */
  lemma LowerCaseNoneComesBack(a: RawTweet, p: Prediction, e: Engagement)
    requires Qualifies(a, p, e) && a.post.name == Some("none")
    ensures Finish(a, p, e) in BuildMaster([a], [p], [e])
    ensures Finish(a, p, e).post.name == Some("None")
  {
    MasterRowsComplete([a], [p], [e]);
    FinishProperties(a, p, e);
    assert CleanName(a.post.name) == Some("none");
    CapitalizeNone();
  }

  lemma CapitalizeNone()
    ensures Capitalize("none") == "None"
  {
    assert LowerAll("one") == "one";
  }

  /** A tweet named "a" with no stage keyword: null name, null stage. */
  lemma ArticleNameScenario(a: RawTweet, p: Prediction, e: Engagement)
    requires Qualifies(a, p, e) && a.post.name == Some("a")
    requires forall q, k :: !OccursAt(a.post.text, q, Keyword(k))
    ensures Finish(a, p, e).post.name == Null && Finish(a, p, e).stage == Null
  {
  }

  /** The listed tweet 820690176645140481 with rating 11/15 ends up as 11/10. */
  lemma DenominatorPatchScenario(a: RawTweet, p: Prediction, e: Engagement)
    requires Qualifies(a, p, e) && a.post.tweetId == 820690176645140481
    requires a.post.ratingNumerator == 11 && a.post.ratingDenominator == 15
    ensures Finish(a, p, e) in BuildMaster([a], [p], [e])
    ensures Finish(a, p, e).post.ratingNumerator == 11 && Finish(a, p, e).post.ratingDenominator == 10
  {
    MasterRowsComplete([a], [p], [e]);
    FinishProperties(a, p, e);
  }
}
