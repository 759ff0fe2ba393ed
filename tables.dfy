/** The constraints the application's tables satisfy between requests:
    foreign keys resolve, ids and timestamps stay below their counters and
    increase in insertion order, and the unique columns are unique. */
module Tables {
  import opened Seqs
  import opened Models

  function VideoIds(vs: seq<Video>): set<VideoId>
  {
    set k | 0 <= k < |vs| :: vs[k].id
  }

  function SlugsOf(vs: seq<Video>): set<string>
  {
    set k | 0 <= k < |vs| :: vs[k].slug
  }

  function IdOf(v: Video): int { v.id }

  predicate CreatorsKnown(vs: seq<Video>, users: map<UserId, User>)
  {
    forall i :: 0 <= i < |vs| ==> vs[i].creator in users
  }

  predicate UsersValid(users: map<UserId, User>, nextUserId: UserId)
  {
    && (forall id :: id in users ==> id < nextUserId)
    && (forall a, b {:trigger users[a].username, users[b].username} ::
          a in users && b in users && a != b ==> users[a].username != users[b].username)
  }

  /** Video rows: foreign keys resolve, ids and upload times increase in insertion
      order and stay below their counters, slugs are pairwise distinct, and a
      blank slug only comes from a title that slugifies to blank. */
  predicate VideosValid(vs: seq<Video>, users: map<UserId, User>, nextVideoId: VideoId, clock: Time,
                        slugify: string -> string)
  {
    && CreatorsKnown(vs, users)
    && (forall i :: 0 <= i < |vs| ==> vs[i].likes <= users.Keys)
    && (forall i :: 0 <= i < |vs| ==> vs[i].id < nextVideoId && vs[i].uploadedAt < clock)
    && (forall i :: 0 <= i < |vs| && vs[i].slug == "" ==> slugify(vs[i].title) == "")
    && IncreasingBy(vs, IdOf)
    && IncreasingBy(vs, UploadedAt)
    && (forall i, j {:trigger vs[i].slug, vs[j].slug} :: 0 <= i < j < |vs| ==> vs[i].slug != vs[j].slug)
  }

  predicate CommentsValid(cs: seq<Comment>, vs: seq<Video>, users: map<UserId, User>, clock: Time)
  {
    && (forall i :: 0 <= i < |cs| ==> cs[i].video in VideoIds(vs) && cs[i].user in users)
    && (forall i :: 0 <= i < |cs| ==> cs[i].createdAt < clock)
    && IncreasingBy(cs, CreatedAt)
  }

  /** Subscription rows: both ends are accounts, nobody is subscribed to
      themselves, unique_together holds, and rows are in subscription order. */
  predicate SubscriptionsValid(subs: seq<Subscription>, users: map<UserId, User>, clock: Time)
  {
    && (forall i :: 0 <= i < |subs| ==> subs[i].subscriber in users && subs[i].creator in users)
    && (forall i :: 0 <= i < |subs| ==> subs[i].subscriber != subs[i].creator)
    && (forall i :: 0 <= i < |subs| ==> subs[i].subscribedAt < clock)
    && UniquePairs(subs)
    && IncreasingBy(subs, SubscribedAt)
  }

  predicate EnrolmentsValid(es: seq<Enrolment>, vs: seq<Video>, users: map<UserId, User>, clock: Time)
  {
    forall i :: 0 <= i < |es| ==>
      es[i].video in VideoIds(vs) && es[i].learner in users && es[i].enrolledAt < clock
  }

  predicate FollowersValid(fs: set<Follow>, users: map<UserId, User>)
  {
    forall f :: f in fs ==> f.follower in users && f.followed in users
  }

  /** The constraints of all tables together. */
  predicate TablesValid(users: map<UserId, User>, videos: seq<Video>, comments: seq<Comment>,
                        subs: seq<Subscription>, enrolments: seq<Enrolment>, followers: set<Follow>,
                        clock: Time, nextUserId: UserId, nextVideoId: VideoId, slugify: string -> string)
  {
    && UsersValid(users, nextUserId)
    && VideosValid(videos, users, nextVideoId, clock, slugify)
    && CommentsValid(comments, videos, users, clock)
    && SubscriptionsValid(subs, users, clock)
    && EnrolmentsValid(enrolments, videos, users, clock)
    && FollowersValid(followers, users)
  }
}
