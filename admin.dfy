/** The value logic behind the admin list columns of core/admin.py: the bands
    and counts each column shows and the truncated titles and previews. The
    HTML markup, styles and admin URLs around those values are not modelled;
    a column's value is a datatype naming the branch it took. */
module Admin {
  import opened Seqs
  import opened Models

  // ---------- CustomerUserAdmin ----------

  /** A creator-only count column: '-' for other accounts. */
  datatype CountCell = Dash | Count(n: nat)

  /** subscriber_count: creators show get_subscriber_count(), others '-'. */
  function SubscriberCountCell(u: User, id: UserId, subs: seq<Subscription>): (r: CountCell)
    ensures r.Dash? <==> !u.isCreator
    ensures r.Count? ==> r.n == SubscriberCount(subs, id)
  {
    if u.isCreator then Count(SubscriberCount(subs, id)) else Dash
  }

  /** With unique_together in force, a creator's cell counts distinct subscribers. */
  lemma SubscriberCountCellCountsSubscribers(u: User, id: UserId, subs: seq<Subscription>)
    requires UniquePairs(subs) && u.isCreator
    ensures SubscriberCountCell(u, id, subs) == Count(|SubscribersOf(subs, id)|)
  {
    SubscriberCountIsSubscribers(subs, id);
  }

  /** What video_count shows: '-' for other accounts, '0 videos' for a creator
      without videos, else a link to the creator's videos with their number. */
  datatype VideoCountCell = NotCreator | NoVideos | VideosLink(creator: UserId, count: nat)

  function VideoCountColumn(u: User, id: UserId, videos: seq<Video>): (r: VideoCountCell)
    ensures r.NotCreator? <==> !u.isCreator
    ensures r.NoVideos? <==> u.isCreator && forall k :: 0 <= k < |videos| ==> videos[k].creator != id
    ensures r.VideosLink? ==> r.creator == id && 0 < r.count == VideoCount(videos, id)
  {
    if !u.isCreator then NotCreator
    else
      var count := VideoCount(videos, id);
      if count > 0 then VideosLink(id, count) else NoVideos
  }

  // ---------- VideoAdmin ----------

  /** What likes_count shows: an emphasised count above 10 likes, a plain
      count for 1 to 10, and '0'. */
  datatype LikesCell = Emphasised(n: nat) | Plain(n: nat) | Zero

  function LikesColumn(v: Video): (r: LikesCell)
    ensures r.Emphasised? <==> TotalLikes(v) > 10
    ensures r.Plain? <==> 0 < TotalLikes(v) <= 10
    ensures r.Zero? <==> TotalLikes(v) == 0
  {
    var count := TotalLikes(v);
    if count > 10 then Emphasised(count)
    else if count > 0 then Plain(count)
    else Zero
  }

  /** The number a likes cell displays. */
  function LikesShown(c: LikesCell): nat
  {
    match c
    case Emphasised(n) => n
    case Plain(n) => n
    case Zero => 0
  }

  /** Every likes cell displays the video's real like count. */
  lemma LikesColumnShowsTotal(v: Video)
    ensures LikesShown(LikesColumn(v)) == |v.likes|
  {
  }

  /** One more like never takes a video down a band. */
  lemma LikesColumnMonotone(v: Video, w: Video)
    requires v.likes <= w.likes
    ensures LikesRank(LikesColumn(v)) <= LikesRank(LikesColumn(w))
  {
    assert |v.likes| <= |w.likes| by { SubsetCardinality(v.likes, w.likes); }
  }

  function LikesRank(c: LikesCell): nat
  {
    match c
    case Zero => 0
    case Plain(_) => 1
    case Emphasised(_) => 2
  }

  /** What comments_count shows: a link to the video's comments with their
      number, or '0'. */
  datatype CommentsCell = CommentsLink(video: VideoId, n: nat) | NoComments

  /** obj.comment_set.count(): the comments on the video. */
  function CommentCount(comments: seq<Comment>, id: VideoId): (r: nat)
    ensures r <= |comments|
    ensures r == 0 <==> forall k :: 0 <= k < |comments| ==> comments[k].video != id
  {
    var on := Filter(comments, OnVideo(id));
    assert forall k :: 0 <= k < |comments| && comments[k].video == id ==> comments[k] in on;
    assert on != [] ==> on[0] in on;
    |on|
  }

  function CommentsColumn(v: Video, comments: seq<Comment>): (r: CommentsCell)
    ensures r.NoComments? <==> forall k :: 0 <= k < |comments| ==> comments[k].video != v.id
    ensures r.CommentsLink? ==> r.video == v.id && 0 < r.n == CommentCount(comments, v.id)
  {
    var count := CommentCount(comments, v.id);
    if count > 0 then CommentsLink(v.id, count) else NoComments
  }

  /** A new comment adds one to the count of its own video and to no other. */
  lemma CommentCountAppend(comments: seq<Comment>, c: Comment, id: VideoId)
    ensures CommentCount(comments + [c], id) == CommentCount(comments, id) + (if c.video == id then 1 else 0)
  {
    FilterConcat(comments, [c], OnVideo(id));
    assert Filter([c], OnVideo(id)) == (if c.video == id then [c] else []) by {
      assert [c][1..] == [];
    }
  }

  /** What is_popular shows. */
  datatype Popularity = New | Trending | Popular

  const PopularAbove: nat := 100
  const TrendingAbove: nat := 50

  function IsPopular(views: nat): (r: Popularity)
    ensures r == Popular <==> views > PopularAbove
    ensures r == Trending <==> TrendingAbove < views <= PopularAbove
    ensures r == New <==> views <= TrendingAbove
  {
    if views > PopularAbove then Popular
    else if views > TrendingAbove then Trending
    else New
  }

  function PopularityRank(p: Popularity): nat
  {
    match p
    case New => 0
    case Trending => 1
    case Popular => 2
  }

  /** More views never lower a video's band: watching a video can only move it
      from New to Trending to Popular. */
  lemma PopularityMonotone(a: nat, b: nat)
    requires a <= b
    ensures PopularityRank(IsPopular(a)) <= PopularityRank(IsPopular(b))
  {
  }

  // ---------- truncated text ----------

  /** `text[:n] + '...' if len(text) > n else text`. */
  function Truncate(s: string, n: nat): (r: string)
    ensures |s| <= n ==> r == s
    ensures |s| > n ==> |r| == n + 3 && r[..n] == s[..n] && r[n..] == "..."
  {
    if |s| > n then s[..n] + "..." else s
  }

  /** Truncating an already truncated text changes nothing. */
  lemma TruncateIdempotent(s: string, n: nat)
    ensures Truncate(Truncate(s, n), n) == Truncate(s, n)
  {
    if |s| > n {
      var r := Truncate(s, n);
      assert r[..n] + "..." == r;
    }
  }

  /** Texts that agree on their first n characters and are both too long get
      the same truncation: only the kept prefix is shown. */
  lemma TruncateSeesPrefixOnly(s: string, t: string, n: nat)
    requires |s| > n && |t| > n && s[..n] == t[..n]
    ensures Truncate(s, n) == Truncate(t, n)
  {
  }

  const PreviewLength: nat := 50
  const CommentVideoTitleLength: nat := 30
  const LegacyVideoTitleLength: nat := 40

  /** CommentAdmin.content_preview. */
  function ContentPreview(c: Comment): (r: string)
    ensures |r| <= PreviewLength + 3
    ensures |c.content| <= PreviewLength ==> r == c.content
    ensures |c.content| > PreviewLength ==> r == c.content[..PreviewLength] + "..."
  {
    Truncate(c.content, PreviewLength)
  }

  /** CommentAdmin.video_title. */
  function CommentVideoTitle(v: Video): (r: string)
    ensures |r| <= CommentVideoTitleLength + 3
    ensures |v.title| <= CommentVideoTitleLength ==> r == v.title
    ensures |v.title| > CommentVideoTitleLength ==> r == v.title[..CommentVideoTitleLength] + "..."
  {
    Truncate(v.title, CommentVideoTitleLength)
  }

  /** LegacySubscriptionAdmin.video_title. */
  function LegacyVideoTitle(v: Video): (r: string)
    ensures |r| <= LegacyVideoTitleLength + 3
    ensures |v.title| <= LegacyVideoTitleLength ==> r == v.title
    ensures |v.title| > LegacyVideoTitleLength ==> r == v.title[..LegacyVideoTitleLength] + "..."
  {
    Truncate(v.title, LegacyVideoTitleLength)
  }

  // ---------- CommentAdmin.is_recent ----------

  /** What is_recent shows. */
  datatype Recency = Older | ThisWeek | NewComment

  const Day: int := 24 * 60 * 60
  const Week: int := 7 * Day

  /** is_recent with timezone.now() passed in as `now`; both instants are in
      seconds. Each bound is strict, as in `created_at > now - timedelta(...)`. */
  function IsRecent(createdAt: int, now: int): (r: Recency)
    ensures r == NewComment <==> now - createdAt < Day
    ensures r == ThisWeek <==> Day <= now - createdAt < Week
    ensures r == Older <==> now - createdAt >= Week
  {
    if createdAt > now - Day then NewComment
    else if createdAt > now - Week then ThisWeek
    else Older
  }

  function RecencyRank(r: Recency): nat
  {
    match r
    case Older => 0
    case ThisWeek => 1
    case NewComment => 2
  }

  /** As time passes a comment's band only gets older, and a later comment is
      never in an older band than an earlier one. */
  lemma RecencyMonotone(a: int, b: int, now1: int, now2: int)
    requires a <= b && now1 >= now2
    ensures RecencyRank(IsRecent(a, now1)) <= RecencyRank(IsRecent(b, now2))
  {
  }

  // ---------- ChannelSubscriptionAdmin ----------

  /** creator_video_count: how many videos the subscription's creator has, the
      same count as the account column's video_count (and so moved by
      VideoCountAppend and VideoCountRemove). */
  function CreatorVideoCount(videos: seq<Video>, s: Subscription): (r: nat)
    ensures r == VideoCount(videos, s.creator)
    ensures r <= |videos|
    ensures r == 0 <==> forall k :: 0 <= k < |videos| ==> videos[k].creator != s.creator
  {
    VideoCount(videos, s.creator)
  }

  /** What is_active_subscription shows. */
  datatype SubscriptionStatus = Active | InactiveCreator

  /** is_active_subscription: active exactly when the creator has a video. */
  function IsActiveSubscription(videos: seq<Video>, s: Subscription): (r: SubscriptionStatus)
    ensures r == Active <==> exists k :: 0 <= k < |videos| && videos[k].creator == s.creator
  {
    if VideoCount(videos, s.creator) > 0 then Active else InactiveCreator
  }

  /** The status column and the count column agree: a subscription is active
      exactly when its creator's video count is positive. */
  lemma ActiveIffCreatorHasVideos(videos: seq<Video>, s: Subscription)
    ensures IsActiveSubscription(videos, s) == Active <==> CreatorVideoCount(videos, s) > 0
  {
  }
}
