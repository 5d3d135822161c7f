/** The rows of the three loaded tables and of the tables the cleaning steps
    produce. Each pandas frame schema is one datatype; a nullable column is an
    `Option`. Ratings stay integers (the float conversion changes no value) and
    the timestamp is an uninterpreted string. */
module Records {
  import opened Nullable
  import opened Stages

  /** The archive columns that every later schema keeps. */
  datatype Post = Post(
    tweetId: int,
    inReplyToStatusId: Option<int>,
    inReplyToUserId: Option<int>,
    timestamp: string,
    source: string,
    text: string,
    expandedUrls: Option<string>,
    ratingNumerator: int,
    ratingDenominator: int,
    name: Option<string>)

  /** `retweeted_status_id`, `retweeted_status_user_id`, `retweeted_status_timestamp`:
      non-null only on a reshare. */
  datatype ReshareLink = ReshareLink(statusId: Option<int>, userId: Option<int>, timestamp: Option<string>)

  /** The four one-hot stage columns `doggo`, `floofer`, `pupper`, `puppo`. */
  datatype StageFlags = StageFlags(doggo: Option<string>, floofer: Option<string>, pupper: Option<string>, puppo: Option<string>)

  /** A row of the archive as loaded. */
  datatype RawTweet = RawTweet(post: Post, reshare: ReshareLink, flags: StageFlags)

  /** A row of the archive after the stage collapse: the flags are gone, `stage` is new. */
  datatype Tweet = Tweet(post: Post, reshare: ReshareLink, stage: Option<Stage>)

  datatype Guess = Guess(breed: string, confidence: real, isDog: bool)

  /** A row of the image-prediction table (`jpg_url`, `img_num`, `p1`..`p3` with confidences). */
  datatype Prediction = Prediction(tweetId: int, jpgUrl: string, imgNum: int, p1: Guess, p2: Guess, p3: Guess)

  /** A row of the engagement table built from the line-delimited records. */
  datatype Engagement = Engagement(tweetId: int, favoriteCount: int, retweetCount: int, retweeted: bool)

  /** A row of the merged table. The join makes the three `tweetId`s equal, so
      keeping them in their parts does not change row equality. */
  datatype MergedRow = MergedRow(tweet: Tweet, image: Prediction, engagement: Engagement)

  /** A row of the master table: the merged row without the three reshare columns. */
  datatype MasterRow = MasterRow(post: Post, stage: Option<Stage>, image: Prediction, engagement: Engagement)

  function RawId(a: RawTweet): int { a.post.tweetId }
  function TweetId(t: Tweet): int { t.post.tweetId }
  function PredictionId(p: Prediction): int { p.tweetId }
  function EngagementId(e: Engagement): int { e.tweetId }
  function PairId(x: (Tweet, Prediction)): int { x.0.post.tweetId }
  function MergedId(m: MergedRow): int { m.tweet.post.tweetId }
  function MasterId(r: MasterRow): int { r.post.tweetId }
}
