/** The entities of core/models.py: accounts, videos, comments, channel
    subscriptions, legacy enrolments and follows, with their field defaults,
    validators, table constraints, orderings and per-user aggregates. */
module Models {
  import opened Text
  import opened Seqs

  type UserId = nat
  type VideoId = nat

  /** A reading of the logical clock that stands for `auto_now_add` timestamps:
      every row created later gets a strictly larger value. */
  type Time = nat

  // ---------- CustomerUser ----------

  datatype User = User(
    username: string,
    firstName: string,
    lastName: string,
    isCreator: bool,
    isStudent: bool)

  /** A freshly created account carries the field defaults: a learner, not yet a creator. */
  function NewUser(username: string, firstName: string, lastName: string): (u: User)
    ensures !u.isCreator && u.isStudent
    ensures u.username == username && u.firstName == firstName && u.lastName == lastName
  {
    User(username, firstName, lastName, false, true)
  }

  lemma AllSpaceJoin(a: string, b: string)
    ensures AllSpace(a + " " + b) <==> AllSpace(a) && AllSpace(b)
  {
    var s := a + " " + b;
    if AllSpace(a) && AllSpace(b) {
      forall k | 0 <= k < |s| ensures IsSpace(s[k]) {
        if k > |a| { assert s[k] == b[k - |a| - 1]; }
      }
    }
    if AllSpace(s) {
      forall k | 0 <= k < |b| ensures IsSpace(b[k]) { assert s[|a| + 1 + k] == b[k]; }
      forall k | 0 <= k < |a| ensures IsSpace(a[k]) { assert s[k] == a[k]; }
    }
  }

  /** get_full_name: "first last" without surrounding whitespace, or the
      username when both name parts are blank. */
  function FullName(u: User): (r: string)
    ensures AllSpace(u.firstName) && AllSpace(u.lastName) ==> r == u.username
    ensures !(AllSpace(u.firstName) && AllSpace(u.lastName)) ==>
      r == Strip(u.firstName + " " + u.lastName)
      && r != [] && !IsSpace(r[0]) && !IsSpace(r[|r| - 1])
      && |r| <= |u.firstName| + 1 + |u.lastName|
  {
    AllSpaceJoin(u.firstName, u.lastName);
    var full := Strip(u.firstName + " " + u.lastName);
    if full != [] then full else u.username
  }

  /** The full name case by case: a blank last name gives the stripped first
      name, a blank first name the stripped last name, and otherwise the first
      name without its leading whitespace, a space, and the last name without
      its trailing whitespace (whitespace next to the joining space is kept). */
  lemma FullNameCases(u: User)
    ensures !AllSpace(u.firstName) && AllSpace(u.lastName) ==> FullName(u) == Strip(u.firstName)
    ensures AllSpace(u.firstName) && !AllSpace(u.lastName) ==> FullName(u) == Strip(u.lastName)
    ensures !AllSpace(u.firstName) && !AllSpace(u.lastName) ==>
      FullName(u) == LStrip(u.firstName) + " " + RStrip(u.lastName)
  {
    if !AllSpace(u.firstName) && AllSpace(u.lastName) {
      StripJoinBlankRight(u.firstName, u.lastName);
    } else if AllSpace(u.firstName) && !AllSpace(u.lastName) {
      StripJoinBlankLeft(u.firstName, u.lastName);
    } else if !AllSpace(u.firstName) && !AllSpace(u.lastName) {
      StripJoinBoth(u.firstName, u.lastName);
    }
  }

  /** With both name parts present and trimmed, the full name is exactly "first last". */
  lemma FullNameJoinsNames(u: User)
    requires u.firstName != [] && !IsSpace(u.firstName[0]) && !IsSpace(u.firstName[|u.firstName| - 1])
    requires u.lastName != [] && !IsSpace(u.lastName[0]) && !IsSpace(u.lastName[|u.lastName| - 1])
    ensures FullName(u) == u.firstName + " " + u.lastName
  {
    var s := u.firstName + " " + u.lastName;
    assert s[0] == u.firstName[0];
    assert s[|s| - 1] == u.lastName[|u.lastName| - 1];
    StripNoSurroundingSpace(s);
  }

  // ---------- Video ----------

  datatype Video = Video(
    id: VideoId,
    creator: UserId,
    title: string,
    slug: string,
    description: string,
    fileName: string,
    views: nat,
    likes: set<UserId>,
    uploadedAt: Time)

  function UploadedAt(v: Video): int { v.uploadedAt }
  function HasId(id: VideoId): Video -> bool { (v: Video) => v.id == id }
  function ByCreator(u: UserId): Video -> bool { (v: Video) => v.creator == u }

  /** total_likes: the number of accounts in the video's like set. */
  function TotalLikes(v: Video): (n: nat)
    ensures n == 0 <==> v.likes == {}
    ensures forall u :: u in v.likes ==> n > 0
  {
    |v.likes|
  }

  const TitleMinLength: nat := 3
  const TitleMaxLength: nat := 200
  const DescriptionMinLength: nat := 10
  const DescriptionMaxLength: nat := 1000
  const FileNameMaxLength: nat := 100
  const CommentMaxLength: nat := 1000
  const AllowedExtensions: set<string> := {"mp4", "webm", "ogg"}

  /** str.rfind(c): the last position of c in s, or -1. */
  function RFind(s: string, c: char): (i: int)
    ensures -1 <= i < |s|
    ensures i >= 0 ==> s[i] == c
    ensures forall k :: i < k < |s| ==> s[k] != c
  {
    if s == [] then -1
    else if s[|s| - 1] == c then |s| - 1
    else RFind(s[..|s| - 1], c)
  }

  /** Position i holds the last dot of name, and that dot is neither the
      first nor the last character. */
  predicate LastInteriorDot(name: string, i: int)
  {
    0 < i < |name| - 1 && name[i] == '.' && forall k :: i < k < |name| ==> name[k] != '.'
  }

  /** The extension FileExtensionValidator compares: the file name's suffix
      (text after its last dot, when that dot is neither first nor last),
      lower-cased; no extension at all when there is no such dot. */
  function FileExtension(name: string): (ext: string)
    ensures forall i :: LastInteriorDot(name, i) ==> ext == Lower(name[i + 1..]) && ext != []
    ensures (forall i :: !LastInteriorDot(name, i)) ==> ext == []
  {
    var i := RFind(name, '.');
    forall j | LastInteriorDot(name, j) ensures i == j {
      assert name[j] == '.';
    }
    if 0 < i < |name| - 1 then
      assert LastInteriorDot(name, i);
      Lower(name[i + 1..])
    else []
  }

  /** A form text field refuses any value holding a NUL character. */
  predicate NoNullChar(s: string)
  {
    forall k :: 0 <= k < |s| ==> s[k] != '\0'
  }

  /** The upload form's checks, applied (as the form does) to the stripped title
      and description. */
  predicate ValidVideoForm(title: string, description: string, fileName: string)
    ensures ValidVideoForm(title, description, fileName) ==> !AllSpace(title) && !AllSpace(description)
    ensures ValidVideoForm(title, description, fileName) ==> exists i :: LastInteriorDot(fileName, i)
    ensures ValidVideoForm(title, description, fileName) ==> NoNullChar(title) && NoNullChar(description)
  {
    && NoNullChar(title) && NoNullChar(description)
    && TitleMinLength <= |Strip(title)| <= TitleMaxLength
    && DescriptionMinLength <= |Strip(description)| <= DescriptionMaxLength
    && 0 < |fileName| <= FileNameMaxLength
    && FileExtension(fileName) in AllowedExtensions
  }

  // ---------- Comment ----------

  datatype Comment = Comment(video: VideoId, user: UserId, content: string, createdAt: Time)

  function CreatedAt(c: Comment): int { c.createdAt }
  function OnVideo(id: VideoId): Comment -> bool { (c: Comment) => c.video == id }
  function NotOnVideo(id: VideoId): Comment -> bool { (c: Comment) => c.video != id }
  function ByAuthor(u: UserId): Comment -> bool { (c: Comment) => c.user == u }

  /** The comment form: content is required (after stripping), holds no NUL
      character and is at most 1000 characters. */
  predicate ValidCommentForm(content: string)
    ensures ValidCommentForm(content) ==> !AllSpace(content) && NoNullChar(content)
    ensures !AllSpace(content) && NoNullChar(content) && |content| <= CommentMaxLength ==> ValidCommentForm(content)
  {
    && NoNullChar(content)
    && 0 < |Strip(content)| <= CommentMaxLength
  }

  // ---------- ChannelSubscription ----------

  datatype Subscription = Subscription(subscriber: UserId, creator: UserId, subscribedAt: Time)

  function SubscribedAt(s: Subscription): int { s.subscribedAt }
  function ToCreator(u: UserId): Subscription -> bool { (s: Subscription) => s.creator == u }
  function FromSubscriber(u: UserId): Subscription -> bool { (s: Subscription) => s.subscriber == u }
  function IsPair(subscriber: UserId, creator: UserId): Subscription -> bool
  {
    (s: Subscription) => s.subscriber == subscriber && s.creator == creator
  }

  /** unique_together = ('subscriber', 'creator'). */
  predicate UniquePairs(subs: seq<Subscription>)
    ensures UniquePairs(subs) <==> forall i, j :: (0 <= i < |subs| && 0 <= j < |subs|
      && subs[i].subscriber == subs[j].subscriber && subs[i].creator == subs[j].creator) ==> i == j
  {
    forall i, j {:trigger subs[i].creator, subs[j].creator} :: 0 <= i < j < |subs| ==>
      subs[i].subscriber != subs[j].subscriber || subs[i].creator != subs[j].creator
  }

  predicate Subscribed(subs: seq<Subscription>, subscriber: UserId, creator: UserId)
  {
    exists i :: 0 <= i < |subs| && subs[i].subscriber == subscriber && subs[i].creator == creator
  }

  // ---------- legacy enrolment (the `subsciption` model) and follows ----------

  datatype Enrolment = Enrolment(learner: UserId, video: VideoId, enrolledAt: Time, completed: bool)

  function EnrolmentNotOnVideo(id: VideoId): Enrolment -> bool { (e: Enrolment) => e.video != id }

  /** `creator.followers` holds `follower`. */
  datatype Follow = Follow(follower: UserId, followed: UserId)

  // ---------- aggregates on CustomerUser ----------

  /** get_subscriber_count: subscription rows naming u as creator. */
  function SubscriberCount(subs: seq<Subscription>, u: UserId): (r: nat)
    ensures r <= |subs|
    ensures r == 0 <==> forall k :: 0 <= k < |subs| ==> subs[k].creator != u
  {
    var rows := Filter(subs, ToCreator(u));
    assert forall k :: 0 <= k < |subs| && subs[k].creator == u ==> subs[k] in rows;
    assert rows != [] ==> rows[0] in rows;
    |rows|
  }

  /** get_subscription_count: subscription rows naming u as subscriber. */
  function SubscriptionCount(subs: seq<Subscription>, u: UserId): (r: nat)
    ensures r <= |subs|
    ensures r == 0 <==> forall k :: 0 <= k < |subs| ==> subs[k].subscriber != u
  {
    var rows := Filter(subs, FromSubscriber(u));
    assert forall k :: 0 <= k < |subs| && subs[k].subscriber == u ==> subs[k] in rows;
    assert rows != [] ==> rows[0] in rows;
    |rows|
  }

  function SubscribersOf(subs: seq<Subscription>, u: UserId): set<UserId>
  {
    set s | s in subs && s.creator == u :: s.subscriber
  }

  function CreatorsFollowedBy(subs: seq<Subscription>, u: UserId): set<UserId>
  {
    set s | s in subs && s.subscriber == u :: s.creator
  }

  /** Under unique_together the row count is the number of distinct subscribers. */
  lemma {:induction false} SubscriberCountIsSubscribers(subs: seq<Subscription>, u: UserId)
    requires UniquePairs(subs)
    ensures SubscriberCount(subs, u) == |SubscribersOf(subs, u)|
  {
    if subs == [] {
      assert SubscribersOf(subs, u) == {};
    } else {
      var rest := subs[1..];
      assert UniquePairs(rest) by {
        forall i, j | 0 <= i < j < |rest|
          ensures rest[i].subscriber != rest[j].subscriber || rest[i].creator != rest[j].creator
        {
          assert rest[i] == subs[i + 1] && rest[j] == subs[j + 1];
        }
      }
      SubscriberCountIsSubscribers(rest, u);
      if subs[0].creator == u {
        forall s | s in rest && s.creator == u ensures s.subscriber != subs[0].subscriber {
          var j :| 0 <= j < |rest| && rest[j] == s;
          assert subs[j + 1] == s;
        }
        assert SubscriberCount(subs, u) == SubscriberCount(rest, u) + 1;
        assert SubscribersOf(subs, u) == {subs[0].subscriber} + SubscribersOf(rest, u);
      } else {
        assert SubscriberCount(subs, u) == SubscriberCount(rest, u);
        assert SubscribersOf(subs, u) == SubscribersOf(rest, u);
      }
    }
  }

  /** Under unique_together the row count is the number of distinct creators followed. */
  lemma {:induction false} SubscriptionCountIsCreators(subs: seq<Subscription>, u: UserId)
    requires UniquePairs(subs)
    ensures SubscriptionCount(subs, u) == |CreatorsFollowedBy(subs, u)|
  {
    if subs == [] {
      assert CreatorsFollowedBy(subs, u) == {};
    } else {
      var rest := subs[1..];
      assert UniquePairs(rest) by {
        forall i, j | 0 <= i < j < |rest|
          ensures rest[i].subscriber != rest[j].subscriber || rest[i].creator != rest[j].creator
        {
          assert rest[i] == subs[i + 1] && rest[j] == subs[j + 1];
        }
      }
      SubscriptionCountIsCreators(rest, u);
      if subs[0].subscriber == u {
        forall s | s in rest && s.subscriber == u ensures s.creator != subs[0].creator {
          var j :| 0 <= j < |rest| && rest[j] == s;
          assert subs[j + 1] == s;
        }
        assert SubscriptionCount(subs, u) == SubscriptionCount(rest, u) + 1;
        assert CreatorsFollowedBy(subs, u) == {subs[0].creator} + CreatorsFollowedBy(rest, u);
      } else {
        assert SubscriptionCount(subs, u) == SubscriptionCount(rest, u);
        assert CreatorsFollowedBy(subs, u) == CreatorsFollowedBy(rest, u);
      }
    }
  }

  /** sum(video.views for video in videos). */
  function SumViews(vs: seq<Video>): nat
  {
    if vs == [] then 0 else vs[0].views + SumViews(vs[1..])
  }

  lemma {:induction false} SumViewsConcat(a: seq<Video>, b: seq<Video>)
    ensures SumViews(a + b) == SumViews(a) + SumViews(b)
  {
    if a == [] {
      assert a + b == b;
    } else {
      assert (a + b)[1..] == a[1..] + b;
      SumViewsConcat(a[1..], b);
    }
  }

  /** video_set.count(): the number of videos whose creator is u. */
  function VideoCount(videos: seq<Video>, u: UserId): (r: nat)
    ensures r <= |videos|
    ensures r == 0 <==> forall k :: 0 <= k < |videos| ==> videos[k].creator != u
  {
    var own := Filter(videos, ByCreator(u));
    assert forall k :: 0 <= k < |videos| && videos[k].creator == u ==> videos[k] in own;
    assert own != [] ==> own[0] in own;
    |own|
  }

  /** Storing a video adds one to its creator's count and nothing to anyone
      else's. With VideoCount([], u) == 0 this fixes every count. */
  lemma VideoCountAppend(videos: seq<Video>, v: Video, u: UserId)
    ensures VideoCount(videos + [v], u) == VideoCount(videos, u) + (if v.creator == u then 1 else 0)
  {
    FilterConcat(videos, [v], ByCreator(u));
    assert Filter([v], ByCreator(u)) == (if v.creator == u then [v] else []) by {
      assert [v][1..] == [];
    }
  }

  /** Deleting the video at position i takes one off its creator's count and
      nothing off anyone else's. */
  lemma VideoCountRemove(videos: seq<Video>, i: nat, u: UserId)
    requires i < |videos|
    ensures VideoCount(RemoveAt(videos, i), u) == VideoCount(videos, u) - (if videos[i].creator == u then 1 else 0)
  {
    FilterRemoveAt(videos, i, ByCreator(u));
  }

  /** get_total_video_views: the views of u's videos, summed. */
  function TotalVideoViews(vs: seq<Video>, u: UserId): (r: nat)
    ensures (forall k :: 0 <= k < |vs| ==> vs[k].creator != u) ==> r == 0
  {
    var own := Filter(vs, ByCreator(u));
    assert own != [] ==> own[0] in own;
    SumViews(own)
  }

  /** A creator's total over `a + [x] + b` is the total over a, x's views if x
      is theirs, and the total over b. */
  lemma TotalVideoViewsSplit(a: seq<Video>, x: Video, b: seq<Video>, u: UserId)
    ensures TotalVideoViews(a + ([x] + b), u)
         == TotalVideoViews(a, u) + (if x.creator == u then x.views else 0) + TotalVideoViews(b, u)
  {
    var p := ByCreator(u);
    FilterConcat(a, [x] + b, p);
    FilterConcat([x], b, p);
    assert Filter([x], p) == (if x.creator == u then [x] else []) by {
      assert [x][1..] == [];
    }
    SumViewsConcat(Filter(a, p), Filter([x] + b, p));
    SumViewsConcat(Filter([x], p), Filter(b, p));
  }

  /** One more view on the video at position i adds one to its creator's total
      and nothing to anybody else's. */
  lemma TotalVideoViewsBump(vs: seq<Video>, i: nat, u: UserId)
    requires i < |vs|
    ensures TotalVideoViews(vs[i := vs[i].(views := vs[i].views + 1)], u)
         == TotalVideoViews(vs, u) + (if vs[i].creator == u then 1 else 0)
  {
    var w := vs[i].(views := vs[i].views + 1);
    var a, b := vs[..i], vs[i + 1..];
    assert vs == a + ([vs[i]] + b);
    assert vs[i := w] == a + ([w] + b);
    TotalVideoViewsSplit(a, vs[i], b, u);
    TotalVideoViewsSplit(a, w, b, u);
  }

  /** Removing the video at position i takes its views off its creator's total. */
  lemma TotalVideoViewsRemove(vs: seq<Video>, i: nat, u: UserId)
    requires i < |vs|
    ensures TotalVideoViews(RemoveAt(vs, i), u)
         == TotalVideoViews(vs, u) - (if vs[i].creator == u then vs[i].views else 0)
  {
    RemoveAtSlices(vs, i);
    var p := ByCreator(u);
    var a, b := vs[..i], vs[i + 1..];
    assert vs == a + ([vs[i]] + b);
    TotalVideoViewsSplit(a, vs[i], b, u);
    FilterConcat(a, b, p);
    SumViewsConcat(Filter(a, p), Filter(b, p));
  }
}
