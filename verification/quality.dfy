/** The quality steps applied to the merged table, in the notebook's order. */
module Quality {
  import opened Nullable
  import opened Text
  import opened Records
  import opened Seqs

  // ---------------------------------------------------------------------------
  // Tweets with no images

  predicate HasImage(m: MergedRow) { m.tweet.post.expandedUrls.Some? }

  /** `dropna(subset=['expanded_urls'])`. */
  function DropImageless(rows: seq<MergedRow>): (r: seq<MergedRow>)
    ensures forall m :: m in r ==> m in rows && m.tweet.post.expandedUrls.Some?
    ensures forall m :: m in rows && m.tweet.post.expandedUrls.Some? ==> m in r
    ensures forall m :: m in rows ==>
      multiset(r)[m] == if m.tweet.post.expandedUrls.Some? then multiset(rows)[m] else 0
    ensures IsSubsequence(r, rows)
  {
    Filter(rows, HasImage)
  }

  // ---------------------------------------------------------------------------
  // Wrong names and the "None" marker

  /** The article-like values the name heuristic captured by mistake. */
  const Placeholders: seq<string> := ["a", "the", "an"]

  /** The string the archive uses for a missing name. */
  const NoneMarker: string := "None"

  /** `Series.replace(target, replacement)` on a nullable string column: exact matches only. */
  function ReplaceName(n: Option<string>, target: string, replacement: string): Option<string> {
    if n == Some(target) then Some(replacement) else n
  }

  /** The loop over the placeholder list, replacing each by the marker in turn. */
  function MarkPlaceholders(n: Option<string>, names: seq<string>): (r: Option<string>)
    ensures r == if n.Some? && n.value in names then Some(NoneMarker) else n
    decreases |names|
  {
    if |names| == 0 then n
    else
      assert names == [names[0]] + names[1..];
      MarkPlaceholders(ReplaceName(n, names[0], NoneMarker), names[1..])
  }

  /** A name after the placeholders became the marker and the marker became null. */
  function CleanName(n: Option<string>): (r: Option<string>)
    ensures r.Null? <==> n.Null? || n.value in {"a", "the", "an", "None"}
    ensures r.Some? ==> r == n
  {
    var marked := MarkPlaceholders(n, Placeholders);
    if marked == Some(NoneMarker) then Null else marked
  }

  function CleanNameRow(m: MergedRow): MergedRow {
    m.(tweet := m.tweet.(post := m.tweet.post.(name := CleanName(m.tweet.post.name))))
  }

  /** Placeholder names and the marker become null; nothing else changes. */
  function NullPlaceholderNames(rows: seq<MergedRow>): (r: seq<MergedRow>)
    ensures |r| == |rows|
    ensures forall i :: 0 <= i < |r| ==>
      (r[i].tweet.post.name.Null? <==>
        rows[i].tweet.post.name.Null? || rows[i].tweet.post.name.value in {"a", "the", "an", "None"})
    ensures forall i :: 0 <= i < |r| && r[i].tweet.post.name.Some? ==> r[i] == rows[i]
    ensures forall i :: 0 <= i < |r| ==>
      r[i] == rows[i].(tweet := rows[i].tweet.(post := rows[i].tweet.post.(name := r[i].tweet.post.name)))
  {
    Map(rows, CleanNameRow)
  }

  // ---------------------------------------------------------------------------
  // Retweets

  predicate IsOriginal(m: MergedRow) { m.tweet.reshare.statusId.Null? }

  /** Keep the rows whose `retweeted_status_id` is null. */
  function DropReshares(rows: seq<MergedRow>): (r: seq<MergedRow>)
    ensures forall m :: m in r ==> m in rows && m.tweet.reshare.statusId.Null?
    ensures forall m :: m in rows && m.tweet.reshare.statusId.Null? ==> m in r
    ensures forall m :: m in rows ==>
      multiset(r)[m] == if m.tweet.reshare.statusId.Null? then multiset(rows)[m] else 0
    ensures IsSubsequence(r, rows)
  {
    Filter(rows, IsOriginal)
  }

  function StripReshare(m: MergedRow): MasterRow {
    MasterRow(m.tweet.post, m.tweet.stage, m.image, m.engagement)
  }

  /** Drop the three reshare columns and keep every other column of every row. */
  function DropRetweetColumns(rows: seq<MergedRow>): (r: seq<MasterRow>)
    ensures |r| == |rows|
    ensures forall i :: 0 <= i < |r| ==>
      && r[i].post == rows[i].tweet.post && r[i].stage == rows[i].tweet.stage
      && r[i].image == rows[i].image && r[i].engagement == rows[i].engagement
  {
    Map(rows, StripReshare)
  }

  /** Dropping the reshare columns after `drop_duplicates` can make two distinct
      kept rows equal: two originals that differ only in `retweeted_status_user_id`. */
  lemma ColumnDropCanRepeatRows(m: MergedRow, u1: Option<int>, u2: Option<int>)
    requires IsOriginal(m) && u1 != u2
    ensures var m1 := m.(tweet := m.tweet.(reshare := m.tweet.reshare.(userId := u1)));
            var m2 := m.(tweet := m.tweet.(reshare := m.tweet.reshare.(userId := u2)));
            IsOriginal(m1) && IsOriginal(m2) && m1 != m2 && StripReshare(m1) == StripReshare(m2)
  {
  }

  // ---------------------------------------------------------------------------
  // Human-readable sources

  const IPhoneMarkup: string := "<a href=\"http://twitter.com/download/iphone\" rel=\"nofollow\">Twitter for iPhone</a>"
  const VineMarkup: string := "<a href=\"http://vine.co\" rel=\"nofollow\">Vine - Make a Scene</a>"
  const WebClientMarkup: string := "<a href=\"http://twitter.com\" rel=\"nofollow\">Twitter Web Client</a>"
  const TweetDeckMarkup: string := "<a href=\"https://about.twitter.com/products/tweetdeck\" rel=\"nofollow\">TweetDeck</a>"

  /** The lookup table the four replacements implement. */
  const SourceLabels: map<string, string> := map[
    IPhoneMarkup := "Twitter for iphone",
    VineMarkup := "Vine - Make a Scene",
    WebClientMarkup := "Twitter Web Client",
    TweetDeckMarkup := "TweetDeck"]

  /** `Series.replace(target, replacement)` on a string column. */
  function ReplaceValue(v: string, target: string, replacement: string): string {
    if v == target then replacement else v
  }

  /** The four replacements, one after the other. A known markup string becomes
      its label; any other value passes through; no raw markup is left. */
  function HumanizeSource(s: string): (r: string)
    ensures s in SourceLabels ==> r == SourceLabels[s]
    ensures s !in SourceLabels ==> r == s
    ensures r !in SourceLabels
  {
    var s1 := ReplaceValue(s, IPhoneMarkup, "Twitter for iphone");
    var s2 := ReplaceValue(s1, VineMarkup, "Vine - Make a Scene");
    var s3 := ReplaceValue(s2, WebClientMarkup, "Twitter Web Client");
    ReplaceValue(s3, TweetDeckMarkup, "TweetDeck")
  }

  lemma HumanizeSourceIdempotent(s: string)
    ensures HumanizeSource(HumanizeSource(s)) == HumanizeSource(s)
  {
  }

  function HumanizeRow(r: MasterRow): MasterRow {
    r.(post := r.post.(source := HumanizeSource(r.post.source)))
  }

  /** Only the `source` column changes. */
  function HumanizeSources(rows: seq<MasterRow>): (r: seq<MasterRow>)
    ensures |r| == |rows|
    ensures forall i :: 0 <= i < |r| ==>
      && r[i].post.source !in SourceLabels
      && (rows[i].post.source in SourceLabels ==> r[i].post.source == SourceLabels[rows[i].post.source])
      && (rows[i].post.source !in SourceLabels ==> r[i] == rows[i])
      && r[i] == rows[i].(post := rows[i].post.(source := r[i].post.source))
  {
    Map(rows, HumanizeRow)
  }

  // ---------------------------------------------------------------------------
  // Capitalized names

  /** `str.capitalize` on a nullable column: null stays null. */
  function CapitalizeName(n: Option<string>): (r: Option<string>)
    ensures r.Null? <==> n.Null?
    ensures r.Some? ==> IsCapitalized(r.value) && SameIgnoringCase(r.value, n.value)
  {
    match n
    case Null => Null
    case Some(s) => Some(Capitalize(s))
  }

  lemma CapitalizeNameIdempotent(n: Option<string>)
    ensures CapitalizeName(CapitalizeName(n)) == CapitalizeName(n)
  {
    if n.Some? {
      CapitalizeIdempotent(n.value);
    }
  }

  function CapitalizeRow(r: MasterRow): MasterRow {
    r.(post := r.post.(name := CapitalizeName(r.post.name)))
  }

  /** Only the `name` column changes, and it changes only in case. */
  function CapitalizeNames(rows: seq<MasterRow>): (r: seq<MasterRow>)
    ensures |r| == |rows|
    ensures forall i :: 0 <= i < |r| ==>
      && (r[i].post.name.Null? <==> rows[i].post.name.Null?)
      && (r[i].post.name.Some? ==>
            IsCapitalized(r[i].post.name.value) && SameIgnoringCase(r[i].post.name.value, rows[i].post.name.value))
      && r[i] == rows[i].(post := rows[i].post.(name := r[i].post.name))
  {
    Map(rows, CapitalizeRow)
  }

  lemma CapitalizeNamesIdempotent(rows: seq<MasterRow>)
    ensures CapitalizeNames(CapitalizeNames(rows)) == CapitalizeNames(rows)
  {
    var once := CapitalizeNames(rows);
    var twice := CapitalizeNames(once);
    forall i | 0 <= i < |rows| ensures twice[i] == once[i] {
      CapitalizeNameIdempotent(rows[i].post.name);
    }
  }

  // ---------------------------------------------------------------------------
  // Wrong rating denominators

  /** The five tweets whose denominator the notebook corrects by hand, in its order. */
  const PatchIds: seq<int> := [820690176645140481, 810984652412424192, 758467244762497024, 740373189193256964, 731156023742988288]

  function WithDenominator10(r: MasterRow): MasterRow {
    r.(post := r.post.(ratingDenominator := 10))
  }

  /** `.loc[tweet_id == id, ['rating_denominator']] = 10`. */
  function SetDenominator10(rows: seq<MasterRow>, id: int): seq<MasterRow> {
    seq(|rows|, i requires 0 <= i < |rows| =>
      if rows[i].post.tweetId == id then WithDenominator10(rows[i]) else rows[i])
  }

  /** One keyed assignment per listed id, in turn. */
  function PatchAll(rows: seq<MasterRow>, ids: seq<int>): (r: seq<MasterRow>)
    ensures |r| == |rows|
    ensures forall i :: 0 <= i < |r| ==>
      r[i] == if rows[i].post.tweetId in ids then WithDenominator10(rows[i]) else rows[i]
    decreases |ids|
  {
    if |ids| == 0 then rows
    else
      assert ids == [ids[0]] + ids[1..];
      PatchAll(SetDenominator10(rows, ids[0]), ids[1..])
  }

  /** Listed tweets get denominator 10; every other row, every other field and
      the row count are unchanged. */
  function PatchDenominators(rows: seq<MasterRow>): (r: seq<MasterRow>)
    ensures |r| == |rows|
    ensures forall i :: 0 <= i < |r| && rows[i].post.tweetId in PatchIds ==>
      r[i].post.ratingDenominator == 10 && r[i] == rows[i].(post := rows[i].post.(ratingDenominator := 10))
    ensures forall i :: 0 <= i < |r| && rows[i].post.tweetId !in PatchIds ==> r[i] == rows[i]
  {
    PatchAll(rows, PatchIds)
  }

  lemma PatchDenominatorsIdempotent(rows: seq<MasterRow>)
    ensures PatchDenominators(PatchDenominators(rows)) == PatchDenominators(rows)
  {
  }
}
