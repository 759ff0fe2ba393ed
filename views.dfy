/** The request handlers of core/views.py over the application's tables.
    Handlers that change the tables are methods of `Store`; the read-only ones
    (search, feeds, dashboards, JSON endpoints) are functions of the tables.
    Each handler's HTTP response is replaced by an `Outcome`. */
module Views {
  import opened Text
  import opened Seqs
  import opened Models
  import opened Slugs
  import opened Tables

  /** What a handler did, in place of the response it sends: a result, a 404,
      a refused action, or a form that was not submitted or not valid. */
  datatype Outcome<T> = Ok(value: T) | NotFound | Denied | Rejected

  /** Targets of the dashboard redirects. */
  datatype Route = Home | CreatorDashboard | LearnerDashboard

  // ---------- facts about the tables ----------

  /** The row constraints survive more accounts, more videos and a later clock. */
  lemma CommentsValidGrow(cs: seq<Comment>, vs: seq<Video>, users: map<UserId, User>, clock: Time,
                          vs2: seq<Video>, users2: map<UserId, User>, clock2: Time)
    requires CommentsValid(cs, vs, users, clock)
    requires VideoIds(vs) <= VideoIds(vs2) && users.Keys <= users2.Keys && clock <= clock2
    ensures CommentsValid(cs, vs2, users2, clock2)
  {
  }

  lemma SubscriptionsValidGrow(subs: seq<Subscription>, users: map<UserId, User>, clock: Time,
                               users2: map<UserId, User>, clock2: Time)
    requires SubscriptionsValid(subs, users, clock)
    requires users.Keys <= users2.Keys && clock <= clock2
    ensures SubscriptionsValid(subs, users2, clock2)
  {
  }

  lemma EnrolmentsValidGrow(es: seq<Enrolment>, vs: seq<Video>, users: map<UserId, User>, clock: Time,
                            vs2: seq<Video>, users2: map<UserId, User>, clock2: Time)
    requires EnrolmentsValid(es, vs, users, clock)
    requires VideoIds(vs) <= VideoIds(vs2) && users.Keys <= users2.Keys && clock <= clock2
    ensures EnrolmentsValid(es, vs2, users2, clock2)
  {
  }

  /** upload_video's new state satisfies the table constraints. */
  lemma UploadValid(users: map<UserId, User>, videos: seq<Video>, comments: seq<Comment>,
                    subs: seq<Subscription>, enrolments: seq<Enrolment>, followers: set<Follow>,
                    clock: Time, nextUserId: UserId, nextVideoId: VideoId, slugify: string -> string,
                    v: Video)
    requires TablesValid(users, videos, comments, subs, enrolments, followers,
                         clock, nextUserId, nextVideoId, slugify)
    requires v.creator in users && v.id == nextVideoId && v.uploadedAt == clock && v.likes == {}
    requires v.slug !in SlugsOf(videos) && (v.slug == "" ==> slugify(v.title) == "")
    ensures TablesValid(users[v.creator := users[v.creator].(isCreator := true)], videos + [v],
                        comments, subs, enrolments, followers, clock + 1, nextUserId, nextVideoId + 1, slugify)
  {
    var users2 := users[v.creator := users[v.creator].(isCreator := true)];
    VideoIdsAppend(videos, v);
    PromoteValid(users, v.creator, nextUserId, followers);
    AppendVideoValid(videos, users, nextVideoId, clock, slugify, v, users2);
    CommentsValidGrow(comments, videos, users, clock, videos + [v], users2, clock + 1);
    SubscriptionsValidGrow(subs, users, clock, users2, clock + 1);
    EnrolmentsValidGrow(enrolments, videos, users, clock, videos + [v], users2, clock + 1);
  }

  /** Replacing a video row by one with the same id, creator, title, slug and
      upload time, and likes by known accounts, keeps the table constraints. */
  lemma UpdateVideoValid(users: map<UserId, User>, videos: seq<Video>, comments: seq<Comment>,
                         subs: seq<Subscription>, enrolments: seq<Enrolment>, followers: set<Follow>,
                         clock: Time, nextUserId: UserId, nextVideoId: VideoId, slugify: string -> string,
                         i: nat, w: Video)
    requires TablesValid(users, videos, comments, subs, enrolments, followers,
                         clock, nextUserId, nextVideoId, slugify)
    requires i < |videos| && w.likes <= users.Keys
    requires w.id == videos[i].id && w.creator == videos[i].creator && w.title == videos[i].title
    requires w.slug == videos[i].slug && w.uploadedAt == videos[i].uploadedAt
    ensures TablesValid(users, videos[i := w], comments, subs, enrolments, followers,
                        clock, nextUserId, nextVideoId, slugify)
  {
    VideoIdsUpdate(videos, i, w);
    var ws := videos[i := w];
    assert forall k :: 0 <= k < |ws| ==> IdOf(ws[k]) == IdOf(videos[k]) && UploadedAt(ws[k]) == UploadedAt(videos[k]);
    assert forall k :: 0 <= k < |ws| ==> ws[k].slug == videos[k].slug;
  }

  /** A subscription toggle between two different accounts keeps the table constraints. */
  lemma ToggleSubscriptionValid(users: map<UserId, User>, videos: seq<Video>, comments: seq<Comment>,
                                subs: seq<Subscription>, enrolments: seq<Enrolment>, followers: set<Follow>,
                                clock: Time, nextUserId: UserId, nextVideoId: VideoId,
                                slugify: string -> string, a: UserId, c: UserId)
    requires TablesValid(users, videos, comments, subs, enrolments, followers,
                         clock, nextUserId, nextVideoId, slugify)
    requires a in users && c in users && a != c
    ensures TablesValid(users, videos, comments, ToggleRows(subs, a, c, clock), enrolments, followers,
                        clock + 1, nextUserId, nextVideoId, slugify)
  {
    var r := ToggleRows(subs, a, c, clock);
    assert forall i :: 0 <= i < |r| ==> r[i] in subs || r[i] == Subscription(a, c, clock);
    forall i | 0 <= i < |r|
      ensures r[i].subscriber in users && r[i].creator in users && r[i].subscriber != r[i].creator
      ensures r[i].subscribedAt < clock + 1
    {
      if r[i] in subs {
        var j :| 0 <= j < |subs| && subs[j] == r[i];
      }
    }
    CommentsValidGrow(comments, videos, users, clock, videos, users, clock + 1);
    EnrolmentsValidGrow(enrolments, videos, users, clock, videos, users, clock + 1);
  }

  /** delete_video's new state (the row gone, its comments and enrolments
      cascaded away) satisfies the table constraints. */
  lemma DeleteValid(users: map<UserId, User>, videos: seq<Video>, comments: seq<Comment>,
                    subs: seq<Subscription>, enrolments: seq<Enrolment>, followers: set<Follow>,
                    clock: Time, nextUserId: UserId, nextVideoId: VideoId, slugify: string -> string,
                    i: nat)
    requires TablesValid(users, videos, comments, subs, enrolments, followers,
                         clock, nextUserId, nextVideoId, slugify)
    requires i < |videos|
    ensures var id := videos[i].id;
      TablesValid(users, RemoveAt(videos, i), Filter(comments, NotOnVideo(id)), subs,
                  Filter(enrolments, EnrolmentNotOnVideo(id)), followers, clock, nextUserId, nextVideoId, slugify)
  {
    var id := videos[i].id;
    var ws := RemoveAt(videos, i);
    RemoveVideoValid(videos, users, nextVideoId, clock, slugify, i);
    VideoIdsRemove(videos, i);
    CascadeCommentsValid(comments, videos, users, clock, id, ws);
    CascadeEnrolmentsValid(enrolments, videos, users, clock, id, ws);
  }

  lemma RemoveVideoValid(vs: seq<Video>, users: map<UserId, User>, nextVideoId: VideoId, clock: Time,
                         slugify: string -> string, i: nat)
    requires VideosValid(vs, users, nextVideoId, clock, slugify) && i < |vs|
    ensures VideosValid(RemoveAt(vs, i), users, nextVideoId, clock, slugify)
  {
    var ws := RemoveAt(vs, i);
    RemoveAtIncreasing(vs, i, IdOf);
    RemoveAtIncreasing(vs, i, UploadedAt);
    forall a, b | 0 <= a < b < |ws| ensures ws[a].slug != ws[b].slug {
      var a', b' := if a < i then a else a + 1, if b < i then b else b + 1;
      assert ws[a] == vs[a'] && ws[b] == vs[b'];
    }
    forall k | 0 <= k < |ws| ensures ws[k] in vs {
      var k' := if k < i then k else k + 1;
      assert ws[k] == vs[k'];
    }
  }

  lemma CascadeCommentsValid(cs: seq<Comment>, vs: seq<Video>, users: map<UserId, User>, clock: Time,
                             id: VideoId, ws: seq<Video>)
    requires CommentsValid(cs, vs, users, clock) && VideoIds(ws) == VideoIds(vs) - {id}
    ensures CommentsValid(Filter(cs, NotOnVideo(id)), ws, users, clock)
  {
    var r := Filter(cs, NotOnVideo(id));
    FilterIncreasing(cs, NotOnVideo(id), CreatedAt);
    forall k | 0 <= k < |r| ensures r[k].video in VideoIds(ws) && r[k].user in users && r[k].createdAt < clock {
      assert r[k] in r;
      var j :| 0 <= j < |cs| && cs[j] == r[k];
    }
  }

  lemma CascadeEnrolmentsValid(es: seq<Enrolment>, vs: seq<Video>, users: map<UserId, User>, clock: Time,
                               id: VideoId, ws: seq<Video>)
    requires EnrolmentsValid(es, vs, users, clock) && VideoIds(ws) == VideoIds(vs) - {id}
    ensures EnrolmentsValid(Filter(es, EnrolmentNotOnVideo(id)), ws, users, clock)
  {
    var r := Filter(es, EnrolmentNotOnVideo(id));
    forall k | 0 <= k < |r| ensures r[k].video in VideoIds(ws) && r[k].learner in users && r[k].enrolledAt < clock {
      assert r[k] in r;
      var j :| 0 <= j < |es| && es[j] == r[k];
    }
  }

  /** A new last comment on a stored video, by an account, stamped now, keeps
      the table constraints. */
  lemma CommentValid(users: map<UserId, User>, videos: seq<Video>, comments: seq<Comment>,
                     subs: seq<Subscription>, enrolments: seq<Enrolment>, followers: set<Follow>,
                     clock: Time, nextUserId: UserId, nextVideoId: VideoId, slugify: string -> string,
                     c: Comment)
    requires TablesValid(users, videos, comments, subs, enrolments, followers,
                         clock, nextUserId, nextVideoId, slugify)
    requires c.video in VideoIds(videos) && c.user in users && c.createdAt == clock
    ensures TablesValid(users, videos, comments + [c], subs, enrolments, followers,
                        clock + 1, nextUserId, nextVideoId, slugify)
  {
    var cs := comments + [c];
    assert cs[|comments|] == c;
    assert forall k :: 0 <= k < |comments| ==> cs[k] == comments[k];
    SubscriptionsValidGrow(subs, users, clock, users, clock + 1);
    EnrolmentsValidGrow(enrolments, videos, users, clock, videos, users, clock + 1);
  }

  /** A new enrolment of an account in a stored video, stamped now, keeps the
      table constraints. */
  lemma EnrolValid(users: map<UserId, User>, videos: seq<Video>, comments: seq<Comment>,
                   subs: seq<Subscription>, enrolments: seq<Enrolment>, followers: set<Follow>,
                   clock: Time, nextUserId: UserId, nextVideoId: VideoId, slugify: string -> string,
                   e: Enrolment)
    requires TablesValid(users, videos, comments, subs, enrolments, followers,
                         clock, nextUserId, nextVideoId, slugify)
    requires e.video in VideoIds(videos) && e.learner in users && e.enrolledAt == clock
    ensures TablesValid(users, videos, comments, subs, enrolments + [e], followers,
                        clock + 1, nextUserId, nextVideoId, slugify)
  {
    var es := enrolments + [e];
    assert es[|enrolments|] == e;
    assert forall k :: 0 <= k < |enrolments| ==> es[k] == enrolments[k];
    CommentsValidGrow(comments, videos, users, clock, videos, users, clock + 1);
    SubscriptionsValidGrow(subs, users, clock, users, clock + 1);
  }

  /** With slugs pairwise distinct, a video holding the blank slug is the only
      one: the other rows' slugs do not include "". */
  lemma BlankSlugIsOwn(vs: seq<Video>, i: nat)
    requires i < |vs| && vs[i].slug == ""
    requires forall a, b :: 0 <= a < b < |vs| ==> vs[a].slug != vs[b].slug
    ensures "" !in SlugsOf(RemoveAt(vs, i))
  {
    var ws := RemoveAt(vs, i);
    forall v | v in ws ensures v.slug != "" {
      var k :| 0 <= k < |ws| && ws[k] == v;
      if k < i { assert ws[k] == vs[k]; } else { assert ws[k] == vs[k + 1]; }
    }
  }

  /** The videos after one more view of the row at position i. */
  function WithView(vs: seq<Video>, i: nat): seq<Video>
    requires i < |vs|
  {
    vs[i := vs[i].(views := vs[i].views + 1)]
  }

  /** watch_video's new state satisfies the table constraints, and only the
      watched video's creator gains a view in total. */
  lemma WatchValid(users: map<UserId, User>, videos: seq<Video>, comments: seq<Comment>,
                   subs: seq<Subscription>, enrolments: seq<Enrolment>, followers: set<Follow>,
                   clock: Time, nextUserId: UserId, nextVideoId: VideoId, slugify: string -> string,
                   i: nat)
    requires TablesValid(users, videos, comments, subs, enrolments, followers,
                         clock, nextUserId, nextVideoId, slugify)
    requires i < |videos|
    ensures TablesValid(users, WithView(videos, i), comments, subs, enrolments, followers,
                        clock, nextUserId, nextVideoId, slugify)
    ensures forall u :: (TotalVideoViews(WithView(videos, i), u)
      == TotalVideoViews(videos, u) + (if u == videos[i].creator then 1 else 0))
  {
    UpdateVideoValid(users, videos, comments, subs, enrolments, followers,
                     clock, nextUserId, nextVideoId, slugify, i, videos[i].(views := videos[i].views + 1));
    forall u ensures TotalVideoViews(WithView(videos, i), u)
      == TotalVideoViews(videos, u) + (if u == videos[i].creator then 1 else 0)
    {
      TotalVideoViewsBump(videos, i, u);
    }
  }

  /** Video.save on a stored row, with the row itself left out of the
      existence query, gives back the slug it already has. */
  lemma ResaveKeepsSlug(vs: seq<Video>, users: map<UserId, User>, nextVideoId: VideoId, clock: Time,
                        slugify: string -> string, i: nat, slug: string)
    requires VideosValid(vs, users, nextVideoId, clock, slugify) && i < |vs|
    requires vs[i].slug != [] ==> slug == vs[i].slug
    requires vs[i].slug == [] ==> IsChosen(slugify(vs[i].title), SlugsOf(RemoveAt(vs, i)), slug)
    ensures slug == vs[i].slug
  {
    if vs[i].slug == "" {
      BlankSlugIsOwn(vs, i);
      ResaveExcludingSelfKeepsSlug(SlugsOf(RemoveAt(vs, i)), slug);
    }
  }

  /** Setting is_creator on an account keeps the account and follow constraints. */
  lemma PromoteValid(users: map<UserId, User>, u: UserId, nextUserId: UserId, fs: set<Follow>)
    requires u in users && UsersValid(users, nextUserId) && FollowersValid(fs, users)
    ensures var users2 := users[u := users[u].(isCreator := true)];
      UsersValid(users2, nextUserId) && FollowersValid(fs, users2) && users2.Keys == users.Keys
  {
    var users2 := users[u := users[u].(isCreator := true)];
    assert forall x :: x in users2 ==> users2[x].username == users[x].username;
  }

  /** A new last video row keeps the video constraints when it takes the next
      id, the current time, a free slug and no likes. */
  lemma AppendVideoValid(vs: seq<Video>, users: map<UserId, User>, nextVideoId: VideoId, clock: Time,
                         slugify: string -> string, v: Video, users2: map<UserId, User>)
    requires VideosValid(vs, users, nextVideoId, clock, slugify)
    requires users.Keys <= users2.Keys && v.creator in users2
    requires v.id == nextVideoId && v.uploadedAt == clock && v.likes == {}
    requires v.slug !in SlugsOf(vs) && (v.slug == "" ==> slugify(v.title) == "")
    ensures VideosValid(vs + [v], users2, nextVideoId + 1, clock + 1, slugify)
  {
    var ws := vs + [v];
    AppendIncreasing(vs, v, IdOf);
    AppendIncreasing(vs, v, UploadedAt);
    forall a, b | 0 <= a < b < |ws| ensures ws[a].slug != ws[b].slug {
      assert ws[a] == vs[a] && vs[a].slug in SlugsOf(vs);
      if b < |vs| { assert ws[b] == vs[b]; } else { assert ws[b] == v; }
    }
    assert forall i :: 0 <= i < |vs| ==> ws[i] == vs[i];
    assert ws[|vs|] == v;
  }


  lemma VideoIdsUpdate(vs: seq<Video>, i: nat, w: Video)
    requires i < |vs| && w.id == vs[i].id
    ensures VideoIds(vs[i := w]) == VideoIds(vs)
  {
    var ws := vs[i := w];
    forall id | id in VideoIds(vs) ensures id in VideoIds(ws) {
      var j :| 0 <= j < |vs| && vs[j].id == id;
      assert ws[j].id == id;
    }
    forall id | id in VideoIds(ws) ensures id in VideoIds(vs) {
      var j :| 0 <= j < |ws| && ws[j].id == id;
      assert vs[j].id == id;
    }
  }

  lemma VideoIdsAppend(vs: seq<Video>, w: Video)
    ensures VideoIds(vs + [w]) == VideoIds(vs) + {w.id}
  {
    var ws := vs + [w];
    forall id | id in VideoIds(vs) ensures id in VideoIds(ws) {
      var j :| 0 <= j < |vs| && vs[j].id == id;
      assert ws[j].id == id;
    }
    assert ws[|vs|] == w;
  }

  /** Without the row at position i, the video ids are those of the other rows. */
  lemma VideoIdsRemove(vs: seq<Video>, i: nat)
    requires i < |vs| && IncreasingBy(vs, IdOf)
    ensures VideoIds(RemoveAt(vs, i)) == VideoIds(vs) - {vs[i].id}
  {
    var ws := RemoveAt(vs, i);
    forall id | id in VideoIds(vs) - {vs[i].id} ensures id in VideoIds(ws) {
      var j :| 0 <= j < |vs| && vs[j].id == id;
      if j < i { assert ws[j] == vs[j]; } else { assert ws[j - 1] == vs[j]; }
    }
    forall id | id in VideoIds(ws) ensures id in VideoIds(vs) - {vs[i].id} {
      var j :| 0 <= j < |ws| && ws[j].id == id;
      var k := if j < i then j else j + 1;
      assert ws[j] == vs[k];
      if k < i { IncreasingAt(vs, IdOf, k, i); } else { IncreasingAt(vs, IdOf, i, k); }
    }
  }

  // ---------- like and subscription toggles as functions of the old state ----------

  /** like_video on the like set: remove the account if present, add it otherwise. */
  function ToggleLike(likes: set<UserId>, u: UserId): (r: set<UserId>)
    ensures u in r <==> u !in likes
    ensures forall x :: x != u ==> (x in r <==> x in likes)
    ensures |r| == if u in likes then |likes| - 1 else |likes| + 1
  {
    if u in likes then likes - {u} else likes + {u}
  }

  /** Liking twice leaves the like set as it was. */
  lemma ToggleLikeTwice(likes: set<UserId>, u: UserId)
    ensures ToggleLike(ToggleLike(likes, u), u) == likes
  {
  }

  /** toggle_subscription's change to the subscription rows: delete the
      (subscriber, creator) row if there is one, else append a new row. */
  function ToggleRows(subs: seq<Subscription>, subscriber: UserId, creator: UserId, now: Time)
    : (r: seq<Subscription>)
    requires UniquePairs(subs)
    requires forall i :: 0 <= i < |subs| ==> subs[i].subscribedAt < now
    ensures Subscribed(r, subscriber, creator) <==> !Subscribed(subs, subscriber, creator)
    ensures forall a, c :: !(a == subscriber && c == creator) ==>
      (Subscribed(r, a, c) <==> Subscribed(subs, a, c))
    ensures UniquePairs(r)
    ensures forall i :: 0 <= i < |r| ==> r[i] in subs || r[i] == Subscription(subscriber, creator, now)
    ensures IncreasingBy(subs, SubscribedAt) ==> IncreasingBy(r, SubscribedAt)
  {
    match FindIndex(subs, IsPair(subscriber, creator))
    case Some(j) =>
      RemoveRow(subs, j);
      RemoveAt(subs, j)
    case None =>
      AppendRow(subs, Subscription(subscriber, creator, now));
      subs + [Subscription(subscriber, creator, now)]
  }

  /** Deleting the row at j removes its pair and keeps every other pair,
      uniqueness and the order of the rest. */
  lemma RemoveRow(subs: seq<Subscription>, j: nat)
    requires UniquePairs(subs) && j < |subs|
    ensures var r := RemoveAt(subs, j);
      && !Subscribed(r, subs[j].subscriber, subs[j].creator)
      && (forall a, c :: !(a == subs[j].subscriber && c == subs[j].creator) ==>
            (Subscribed(r, a, c) <==> Subscribed(subs, a, c)))
      && UniquePairs(r)
      && (forall i :: 0 <= i < |r| ==> r[i] in subs)
      && (IncreasingBy(subs, SubscribedAt) ==> IncreasingBy(r, SubscribedAt))
  {
    var r := RemoveAt(subs, j);
    assert forall i :: 0 <= i < |r| ==> r[i] == (if i < j then subs[i] else subs[i + 1]);
    forall a, c | Subscribed(subs, a, c) && !(a == subs[j].subscriber && c == subs[j].creator)
      ensures Subscribed(r, a, c)
    {
      var i :| 0 <= i < |subs| && subs[i].subscriber == a && subs[i].creator == c;
      if i < j { assert r[i] == subs[i]; } else { assert r[i - 1] == subs[i]; }
    }
  }

  /** Appending a row for a pair not yet present adds that pair only and keeps
      uniqueness; with the newest timestamp it keeps the order. */
  lemma AppendRow(subs: seq<Subscription>, row: Subscription)
    requires UniquePairs(subs) && !Subscribed(subs, row.subscriber, row.creator)
    requires forall i :: 0 <= i < |subs| ==> subs[i].subscribedAt < row.subscribedAt
    ensures var r := subs + [row];
      && Subscribed(r, row.subscriber, row.creator)
      && (forall a, c :: !(a == row.subscriber && c == row.creator) ==>
            (Subscribed(r, a, c) <==> Subscribed(subs, a, c)))
      && UniquePairs(r)
      && (IncreasingBy(subs, SubscribedAt) ==> IncreasingBy(r, SubscribedAt))
  {
    var r := subs + [row];
    assert r[|subs|] == row;
    assert forall i :: 0 <= i < |subs| ==> r[i] == subs[i];
  }

  function PairsOf(subs: seq<Subscription>): set<(UserId, UserId)>
  {
    set s | s in subs :: (s.subscriber, s.creator)
  }

  lemma PairsOfSubscribed(subs: seq<Subscription>, a: UserId, c: UserId)
    ensures (a, c) in PairsOf(subs) <==> Subscribed(subs, a, c)
  {
    if (a, c) in PairsOf(subs) {
      var s :| s in subs && (s.subscriber, s.creator) == (a, c);
      var i :| 0 <= i < |subs| && subs[i] == s;
    }
    if Subscribed(subs, a, c) {
      var i :| 0 <= i < |subs| && subs[i].subscriber == a && subs[i].creator == c;
      assert subs[i] in subs;
    }
  }

  /** Toggling a subscription twice restores the set of (subscriber, creator) pairs. */
  lemma ToggleRowsTwice(subs: seq<Subscription>, a: UserId, c: UserId, t1: Time, t2: Time)
    requires UniquePairs(subs)
    requires forall i :: 0 <= i < |subs| ==> subs[i].subscribedAt < t1
    requires t1 < t2
    ensures PairsOf(ToggleRows(ToggleRows(subs, a, c, t1), a, c, t2)) == PairsOf(subs)
  {
    var once := ToggleRows(subs, a, c, t1);
    assert forall i :: 0 <= i < |once| ==> once[i].subscribedAt < t2;
    var twice := ToggleRows(once, a, c, t2);
    forall p | p in PairsOf(twice) ensures p in PairsOf(subs) {
      PairsOfSubscribed(twice, p.0, p.1);
      PairsOfSubscribed(subs, p.0, p.1);
    }
    forall p | p in PairsOf(subs) ensures p in PairsOf(twice) {
      PairsOfSubscribed(twice, p.0, p.1);
      PairsOfSubscribed(subs, p.0, p.1);
    }
  }

  /** A new subscription adds one to the creator's subscriber count and to the
      subscriber's subscription count; removing it takes one off each. */
  lemma ToggleRowsCounts(subs: seq<Subscription>, a: UserId, c: UserId, now: Time)
    requires UniquePairs(subs)
    requires forall i :: 0 <= i < |subs| ==> subs[i].subscribedAt < now
    ensures var r := ToggleRows(subs, a, c, now);
      && SubscriberCount(r, c) == SubscriberCount(subs, c) + (if Subscribed(subs, a, c) then -1 else 1)
      && SubscriptionCount(r, a) == SubscriptionCount(subs, a) + (if Subscribed(subs, a, c) then -1 else 1)
  {
    match FindIndex(subs, IsPair(a, c))
    case Some(j) =>
      FilterRemoveAt(subs, j, ToCreator(c));
      FilterRemoveAt(subs, j, FromSubscriber(a));
    case None =>
      var row := Subscription(a, c, now);
      FilterConcat(subs, [row], ToCreator(c));
      FilterConcat(subs, [row], FromSubscriber(a));
  }

  // ---------- read-only handlers ----------

  /** Reverse insertion order: the `-uploaded_at` / `-created_at` /
      `-subscribed_at` ordering, given rows are stored as they are created. */
  function NewestFirst<T>(s: seq<T>, key: T -> int): (r: seq<T>)
    ensures |r| == |s|
    ensures forall k :: 0 <= k < |s| ==> r[k] == s[|s| - 1 - k]
    ensures IncreasingBy(s, key) ==> DecreasingBy(r, key)
  {
    ReverseDecreasing(s, key);
    Reverse(s)
  }

  /** The n newest videos, newest first (`order_by('-uploaded_at')[:n]`). */
  function Newest(videos: seq<Video>, n: nat): (r: seq<Video>)
    ensures |r| == if |videos| < n then |videos| else n
    ensures forall k :: 0 <= k < |r| ==> r[k] == videos[|videos| - 1 - k]
    ensures IncreasingBy(videos, UploadedAt) ==> DecreasingBy(r, UploadedAt)
  {
    var all := NewestFirst(videos, UploadedAt);
    if |all| < n then all else all[..n]
  }

  /** Every video left out of Newest(videos, n) is older than every video in it. */
  lemma NewestAreNewest(videos: seq<Video>, n: nat)
    ensures IncreasingBy(videos, UploadedAt) ==>
      forall v, w :: v in Newest(videos, n) && w in videos && w !in Newest(videos, n) ==>
        w.uploadedAt < v.uploadedAt
  {
    var r := Newest(videos, n);
    if IncreasingBy(videos, UploadedAt) {
      assert forall i :: |videos| - |r| <= i < |videos| ==> videos[i] in r by {
        forall i | |videos| - |r| <= i < |videos| ensures videos[i] in r {
          assert r[|videos| - 1 - i] == videos[i];
        }
      }
      forall v, w | v in r && w in videos && w !in r ensures w.uploadedAt < v.uploadedAt {
        var k :| 0 <= k < |r| && r[k] == v;
        var j :| 0 <= j < |videos| && videos[j] == w;
        assert UploadedAt(videos[j]) < UploadedAt(videos[|videos| - 1 - k]);
      }
    }
  }

  const HomeFeedSize: nat := 12
  const ApiListSize: nat := 20

  /** home: the twelve most recent videos. */
  function HomeFeed(videos: seq<Video>): (r: seq<Video>)
    ensures |r| == if |videos| < 12 then |videos| else 12
    ensures forall v :: v in r ==> v in videos
    ensures IncreasingBy(videos, UploadedAt) ==> DecreasingBy(r, UploadedAt)
    ensures IncreasingBy(videos, UploadedAt) ==>
      forall v, w :: v in r && w in videos && w !in r ==> w.uploadedAt < v.uploadedAt
  {
    NewestAreNewest(videos, HomeFeedSize);
    Newest(videos, HomeFeedSize)
  }

  /** The search filter: q occurs, ignoring case, in the title, the
      description or the creator's username. */
  function MatchesQuery(users: map<UserId, User>, q: string): Video -> bool
  {
    (v: Video) => v.creator in users &&
      (IContains(v.title, q) || IContains(v.description, q) || IContains(users[v.creator].username, q))
  }

  lemma EmptyQueryKeepsAll(users: map<UserId, User>, videos: seq<Video>, query: string)
    requires CreatorsKnown(videos, users)
    ensures query == "" ==> Filter(videos, MatchesQuery(users, query)) == videos
  {
    if query == "" {
      forall v | v in videos ensures MatchesQuery(users, query)(v) {
        var k :| 0 <= k < |videos| && videos[k] == v;
        EmptyOccursEverywhere(v.title);
      }
      FilterKeepsAll(videos, MatchesQuery(users, query));
    }
  }

  /** search_videos: the matching videos, newest first. A missing or empty q
      matches every video (icontains '' always holds). */
  function SearchVideos(users: map<UserId, User>, videos: seq<Video>, q: Option<string>): (r: seq<Video>)
    requires CreatorsKnown(videos, users)
    ensures forall v :: v in r <==> v in videos && MatchesQuery(users, if q.Some? then q.value else "")(v)
    ensures IncreasingBy(videos, UploadedAt) ==> DecreasingBy(r, UploadedAt)
    ensures (q.None? || q.value == "") ==> r == NewestFirst(videos, UploadedAt)
  {
    var query := if q.Some? then q.value else "";
    var p := MatchesQuery(users, query);
    var found := Filter(videos, p);
    FilterIncreasing(videos, p, UploadedAt);
    ReverseMembers(found);
    EmptyQueryKeepsAll(users, videos, query);
    NewestFirst(found, UploadedAt)
  }

  /** dashboard_redirect. */
  function DashboardRedirect(u: User): (r: Route)
    ensures u.isCreator ==> r == CreatorDashboard
    ensures !u.isCreator && u.isStudent ==> r == LearnerDashboard
    ensures !u.isCreator && !u.isStudent ==> r == Home
  {
    if u.isCreator then CreatorDashboard
    else if u.isStudent then LearnerDashboard
    else Home
  }

  datatype Dashboard =
    | CreatorStudio(videos: seq<Video>, totalViews: nat, subscriberCount: nat)
    | LearnerHome(subscribedVideos: seq<Video>, subscriptions: seq<Subscription>, allVideos: seq<Video>)
    | RedirectTo(route: Route)

  /** creator_dashboard: a creator sees their own videos (newest first), their
      total views and their subscriber count; anyone else is sent to the
      learner dashboard. */
  function CreatorDashboardPage(users: map<UserId, User>, videos: seq<Video>,
                                subs: seq<Subscription>, u: UserId): (r: Dashboard)
    requires u in users
    ensures !users[u].isCreator <==> r == RedirectTo(LearnerDashboard)
    ensures users[u].isCreator ==> (r.CreatorStudio?
      && (forall v :: v in r.videos <==> v in videos && v.creator == u)
      && (IncreasingBy(videos, UploadedAt) ==> DecreasingBy(r.videos, UploadedAt))
      && r.totalViews == TotalVideoViews(videos, u)
      && r.subscriberCount == SubscriberCount(subs, u))
  {
    if users[u].isCreator then
      var own := Filter(videos, ByCreator(u));
      FilterIncreasing(videos, ByCreator(u), UploadedAt);
      ReverseMembers(own);
      CreatorStudio(NewestFirst(own, UploadedAt), TotalVideoViews(videos, u), SubscriberCount(subs, u))
    else
      RedirectTo(LearnerDashboard)
  }

  /** The videos by creators that u subscribes to. */
  function FromSubscribedCreators(subs: seq<Subscription>, u: UserId): Video -> bool
  {
    (v: Video) => Subscribed(subs, u, v.creator)
  }

  /** learner_dashboard: a student sees the videos of the creators they
      subscribe to, their subscriptions (newest first) and every video; anyone
      else is sent to the creator dashboard. */
  function LearnerDashboardPage(users: map<UserId, User>, videos: seq<Video>,
                                subs: seq<Subscription>, u: UserId): (r: Dashboard)
    requires u in users
    ensures !users[u].isStudent <==> r == RedirectTo(CreatorDashboard)
    ensures users[u].isStudent ==> (r.LearnerHome?
      && (forall v :: v in r.subscribedVideos <==> v in videos && Subscribed(subs, u, v.creator))
      && (forall s :: s in r.subscriptions <==> s in subs && s.subscriber == u)
      && (IncreasingBy(videos, UploadedAt) ==> DecreasingBy(r.subscribedVideos, UploadedAt))
      && (IncreasingBy(subs, SubscribedAt) ==> DecreasingBy(r.subscriptions, SubscribedAt))
      && r.allVideos == NewestFirst(videos, UploadedAt))
  {
    if users[u].isStudent then
      var p := FromSubscribedCreators(subs, u);
      var subscribed := Filter(videos, p);
      var mine := Filter(subs, FromSubscriber(u));
      FilterIncreasing(videos, p, UploadedAt);
      FilterIncreasing(subs, FromSubscriber(u), SubscribedAt);
      ReverseMembers(subscribed);
      ReverseMembers(mine);
      LearnerHome(NewestFirst(subscribed, UploadedAt), NewestFirst(mine, SubscribedAt),
                  NewestFirst(videos, UploadedAt))
    else
      RedirectTo(CreatorDashboard)
  }

  /** The dashboard chosen after login is shown without a further redirect. */
  lemma DashboardRedirectLands(users: map<UserId, User>, videos: seq<Video>,
                               subs: seq<Subscription>, u: UserId)
    requires u in users
    ensures DashboardRedirect(users[u]) == CreatorDashboard ==>
      CreatorDashboardPage(users, videos, subs, u).CreatorStudio?
    ensures DashboardRedirect(users[u]) == LearnerDashboard ==>
      LearnerDashboardPage(users, videos, subs, u).LearnerHome?
  {
  }

  /** An account that is neither creator nor student is bounced between the two
      dashboards: each redirects to the other. */
  lemma DashboardsBounce(users: map<UserId, User>, videos: seq<Video>,
                         subs: seq<Subscription>, u: UserId)
    requires u in users && !users[u].isCreator && !users[u].isStudent
    ensures CreatorDashboardPage(users, videos, subs, u) == RedirectTo(LearnerDashboard)
    ensures LearnerDashboardPage(users, videos, subs, u) == RedirectTo(CreatorDashboard)
    ensures DashboardRedirect(users[u]) == Home
  {
  }

  datatype VideoSummary = VideoSummary(
    id: VideoId, title: string, description: string, creator: string, views: nat, likes: nat)

  datatype VideoList = VideoList(count: nat, videos: seq<VideoSummary>)

  function Summary(users: map<UserId, User>, v: Video): VideoSummary
    requires v.creator in users
  {
    VideoSummary(v.id, v.title, v.description, users[v.creator].username, v.views, TotalLikes(v))
  }

  /** api_videos_list: the twenty newest videos as summaries, with their count. */
  function ApiVideosList(users: map<UserId, User>, videos: seq<Video>): (r: VideoList)
    requires CreatorsKnown(videos, users)
    ensures r.count == |r.videos| == if |videos| < 20 then |videos| else 20
    ensures forall k :: 0 <= k < |r.videos| ==>
      r.videos[k].id == videos[|videos| - 1 - k].id
      && r.videos[k].title == videos[|videos| - 1 - k].title
      && r.videos[k].description == videos[|videos| - 1 - k].description
      && r.videos[k].views == videos[|videos| - 1 - k].views
      && r.videos[k].likes == |videos[|videos| - 1 - k].likes|
      && r.videos[k].creator == users[videos[|videos| - 1 - k].creator].username
  {
    var newest := Newest(videos, ApiListSize);
    var list := seq(|newest|, k requires 0 <= k < |newest| => Summary(users, newest[k]));
    VideoList(|list|, list)
  }

  datatype VideoDetail = VideoDetail(
    id: VideoId, title: string, description: string,
    creatorId: UserId, creatorUsername: string, creatorIsCreator: bool,
    views: nat, likes: nat)

  /** api_video_detail: the video with the given id, or NotFound. */
  function ApiVideoDetail(users: map<UserId, User>, videos: seq<Video>, id: VideoId): (r: Outcome<VideoDetail>)
    requires CreatorsKnown(videos, users)
    ensures r.NotFound? <==> id !in VideoIds(videos)
    ensures r.Ok? || r.NotFound?
    ensures r.Ok? ==> exists v :: (v in videos && v.id == id
      && r.value == VideoDetail(id, v.title, v.description, v.creator, users[v.creator].username,
                                users[v.creator].isCreator, v.views, |v.likes|))
  {
    match FindIndex(videos, HasId(id))
    case None =>
      assert id !in VideoIds(videos);
      NotFound
    case Some(i) =>
      var v := videos[i];
      Ok(VideoDetail(v.id, v.title, v.description, v.creator, users[v.creator].username,
                     users[v.creator].isCreator, v.views, TotalLikes(v)))
  }

  datatype UserStats = UserStats(
    username: string, isCreator: bool, uploadedVideosCount: nat, totalViews: nat,
    subscriptionsCount: nat, commentsCount: nat, subscribersCount: Option<nat>)

  /** api_user_stats: the requesting account's counts; the subscriber count
      only for creators. */
  function ApiUserStats(users: map<UserId, User>, videos: seq<Video>, subs: seq<Subscription>,
                        comments: seq<Comment>, u: UserId): (r: UserStats)
    requires u in users
    ensures r.username == users[u].username && r.isCreator == users[u].isCreator
    ensures r.uploadedVideosCount == VideoCount(videos, u)
    ensures r.totalViews == TotalVideoViews(videos, u)
    ensures r.subscriptionsCount == SubscriptionCount(subs, u)
    ensures r.commentsCount == |Filter(comments, ByAuthor(u))|
    ensures r.subscribersCount.Some? <==> users[u].isCreator
    ensures r.subscribersCount.Some? ==> r.subscribersCount.value == SubscriberCount(subs, u)
  {
    UserStats(users[u].username, users[u].isCreator, VideoCount(videos, u),
              TotalVideoViews(videos, u), SubscriptionCount(subs, u), |Filter(comments, ByAuthor(u))|,
              if users[u].isCreator then Some(SubscriberCount(subs, u)) else None)
  }

  /** What watch_video renders: the video after its view is counted, its
      comments newest first, and whether the viewer subscribes to its creator. */
  datatype WatchPage = WatchPage(video: Video, comments: seq<Comment>, isSubscribed: bool)

  /** `video.comment_set.all().order_by('-created_at')`. */
  function CommentsNewestFirst(comments: seq<Comment>, id: VideoId): (r: seq<Comment>)
    ensures forall c :: c in r <==> c in comments && c.video == id
    ensures IncreasingBy(comments, CreatedAt) ==> DecreasingBy(r, CreatedAt)
  {
    var on := Filter(comments, OnVideo(id));
    FilterIncreasing(comments, OnVideo(id), CreatedAt);
    ReverseMembers(on);
    NewestFirst(on, CreatedAt)
  }

  // ---------- finding a video by id ----------

  /** `get_object_or_404(Video, id=id)` fails exactly when no row has that id. */
  lemma FindVideo(vs: seq<Video>, id: VideoId)
    ensures FindIndex(vs, HasId(id)).None? <==> id !in VideoIds(vs)
    ensures FindIndex(vs, HasId(id)).Some? ==> vs[FindIndex(vs, HasId(id)).value].id == id
  {
    if id in VideoIds(vs) {
      var k :| 0 <= k < |vs| && vs[k].id == id;
      assert HasId(id)(vs[k]);
    }
  }

  // ---------- the store ----------

  /** v is the row upload_video creates: the requester's video with the
      stripped form values, no views and no likes, stamped now. */
  predicate NewVideo(v: Video, creator: UserId, title: string, description: string,
                     fileName: string, now: Time)
  {
    && v.creator == creator && v.title == Strip(title)
    && v.description == Strip(description) && v.fileName == fileName
    && v.views == 0 && v.likes == {} && v.uploadedAt == now
  }

  /** The application's tables and the handlers that change them. Rows of
      every table except users are kept in creation order; `clock` is the
      timestamp the next created row receives. */
  class Store {
    /** django.utils.text.slugify, taken as given. */
    const slugify: string -> string
    var users: map<UserId, User>
    var videos: seq<Video>
    var comments: seq<Comment>
    var subscriptions: seq<Subscription>
    var enrolments: seq<Enrolment>
    var followers: set<Follow>
    var clock: Time
    var nextUserId: UserId
    var nextVideoId: VideoId

    ghost predicate Valid()
      reads this
    {
      TablesValid(users, videos, comments, subscriptions, enrolments, followers,
                  clock, nextUserId, nextVideoId, slugify)
    }

    constructor(slugify: string -> string)
      ensures Valid()
      ensures this.slugify == slugify
      ensures users == map[] && videos == [] && comments == [] && subscriptions == []
      ensures enrolments == [] && followers == {}
      ensures clock == 0 && nextUserId == 0 && nextVideoId == 0
    {
      this.slugify := slugify;
      users := map[];
      videos := [];
      comments := [];
      subscriptions := [];
      enrolments := [];
      followers := {};
      clock := 0;
      nextUserId := 0;
      nextVideoId := 0;
    }

    /** Creating an account: usernames are unique, and a new account carries
        the field defaults (a student, not a creator). */
    method AddUser(username: string, firstName: string, lastName: string) returns (o: Outcome<UserId>)
      requires Valid()
      modifies this
      ensures Valid()
      ensures o.Ok? || o.Rejected?
      ensures o.Rejected? <==> exists id :: id in old(users) && old(users)[id].username == username
      ensures o.Rejected? ==> unchanged(this)
      ensures o.Ok? ==> o.value !in old(users)
      ensures o.Ok? ==> users == old(users)[o.value := NewUser(username, firstName, lastName)]
      ensures videos == old(videos) && comments == old(comments) && subscriptions == old(subscriptions)
      ensures enrolments == old(enrolments) && followers == old(followers) && clock == old(clock)
      ensures o.Ok? ==> nextUserId == old(nextUserId) + 1
      ensures nextVideoId == old(nextVideoId)
    {
      if exists id :: id in users && users[id].username == username {
        return Rejected;
      }
      o := Ok(nextUserId);
      users := users[nextUserId := NewUser(username, firstName, lastName)];
      nextUserId := nextUserId + 1;
    }

    /** upload_video: a valid POST stores one new video by the requester (slug
        from Video.save, no views, no likes, stamped now) and makes the
        requester a creator; anything else changes nothing. */
    method Upload(requester: UserId, isPost: bool, title: string, description: string, fileName: string)
      returns (o: Outcome<Video>)
      requires Valid() && requester in users
      modifies this
      ensures Valid()
      ensures o.Ok? || o.Rejected?
      ensures o.Ok? <==> isPost && ValidVideoForm(title, description, fileName)
      ensures o.Rejected? ==> unchanged(this)
      ensures o.Ok? ==> videos == old(videos) + [o.value]
      ensures o.Ok? ==> NewVideo(o.value, requester, title, description, fileName, old(clock))
      ensures o.Ok? ==> o.value.id !in VideoIds(old(videos))
      ensures o.Ok? ==> o.value.slug !in SlugsOf(old(videos))
      ensures o.Ok? ==> IsChosen(slugify(Strip(title)), SlugsOf(old(videos)), o.value.slug)
      ensures o.Ok? ==> users == old(users)[requester := old(users)[requester].(isCreator := true)]
      ensures comments == old(comments) && subscriptions == old(subscriptions)
      ensures enrolments == old(enrolments) && followers == old(followers)
      ensures o.Ok? ==> nextVideoId == old(nextVideoId) + 1 && clock == old(clock) + 1
      ensures nextUserId == old(nextUserId)
    {
      if !(isPost && ValidVideoForm(title, description, fileName)) {
        return Rejected;
      }
      var v := SaveVideo(requester, Strip(title), Strip(description), fileName);
      o := Ok(v);
    }

    /** The valid branch of upload_video: form.save(commit=False), the creator
        set to the requester, video.save(), then the creator promotion. */
    method SaveVideo(requester: UserId, title: string, description: string, fileName: string)
      returns (v: Video)
      requires Valid() && requester in users
      modifies this
      ensures Valid()
      ensures videos == old(videos) + [v]
      ensures v.id !in VideoIds(old(videos))
      ensures v.creator == requester && v.title == title && v.description == description
      ensures v.fileName == fileName && v.views == 0 && v.likes == {} && v.uploadedAt == old(clock)
      ensures v.slug !in SlugsOf(old(videos)) && IsChosen(slugify(title), SlugsOf(old(videos)), v.slug)
      ensures users == old(users)[requester := old(users)[requester].(isCreator := true)]
      ensures comments == old(comments) && subscriptions == old(subscriptions)
      ensures enrolments == old(enrolments) && followers == old(followers)
      ensures nextVideoId == old(nextVideoId) + 1 && clock == old(clock) + 1
      ensures nextUserId == old(nextUserId)
    {
      var slug := SaveSlug("", slugify(title), SlugsOf(videos));
      v := Video(nextVideoId, requester, title, slug, description, fileName, 0, {}, clock);
      if slug == "" { BlankChosenFromBlankBase(slugify(title), SlugsOf(videos)); }
      var users', videos', nextVideoId', clock' :=
        users[requester := users[requester].(isCreator := true)], videos + [v], nextVideoId + 1, clock + 1;
      UploadValid(users, videos, comments, subscriptions, enrolments, followers,
                  clock, nextUserId, nextVideoId, slugify, v);
      users, videos, nextVideoId, clock := users', videos', nextVideoId', clock';
    }

    /** watch_video: an unknown id is a 404 and changes nothing; otherwise the
        video's view count goes up by exactly one, nothing else changes (the
        save() leaves the slug as it is), and the page shows the video, its
        comments newest first and whether the viewer subscribes to its creator. */
    method Watch(requester: UserId, id: VideoId) returns (o: Outcome<WatchPage>)
      requires Valid() && requester in users
      modifies this
      ensures Valid()
      ensures o.Ok? || o.NotFound?
      ensures o.NotFound? <==> id !in VideoIds(old(videos))
      ensures o.NotFound? ==> unchanged(this)
      ensures o.Ok? ==> (FindIndex(old(videos), HasId(id)).Some?
        && var i := FindIndex(old(videos), HasId(id)).value;
           videos == WithView(old(videos), i) && o.value.video == videos[i])
      ensures o.Ok? ==> o.value.video.id == id
      ensures o.Ok? ==> o.value.comments == CommentsNewestFirst(comments, id)
      ensures o.Ok? ==> o.value.isSubscribed == Subscribed(subscriptions, requester, o.value.video.creator)
      ensures o.Ok? ==> forall u :: (TotalVideoViews(videos, u)
        == TotalVideoViews(old(videos), u) + (if u == o.value.video.creator then 1 else 0))
      ensures users == old(users) && comments == old(comments) && subscriptions == old(subscriptions)
      ensures enrolments == old(enrolments) && followers == old(followers) && clock == old(clock)
      ensures nextUserId == old(nextUserId) && nextVideoId == old(nextVideoId)
    {
      FindVideo(videos, id);
      var found := FindIndex(videos, HasId(id));
      if found.None? {
        return NotFound;
      }
      var i := found.value;
      // video.save(): the slug step, with the video's own row left out of the
      // existence query, keeps the stored slug.
      var slug := SaveSlug(videos[i].slug, slugify(videos[i].title), SlugsOf(RemoveAt(videos, i)));
      ResaveKeepsSlug(videos, users, nextVideoId, clock, slugify, i, slug);
      var w := videos[i].(views := videos[i].views + 1, slug := slug);
      var videos' := WithView(videos, i);
      assert videos'[i] == w;
      WatchValid(users, videos, comments, subscriptions, enrolments, followers,
                 clock, nextUserId, nextVideoId, slugify, i);
      videos := videos';
      o := Ok(WatchPage(w, CommentsNewestFirst(comments, id), Subscribed(subscriptions, requester, w.creator)));
    }

    /** like_video: an unknown id is a 404; otherwise the requester's like on
        the video flips and nothing else changes. The result says whether the
        requester likes the video now. */
    method Like(requester: UserId, id: VideoId) returns (o: Outcome<bool>)
      requires Valid() && requester in users
      modifies this
      ensures Valid()
      ensures o.Ok? || o.NotFound?
      ensures o.NotFound? <==> id !in VideoIds(old(videos))
      ensures o.NotFound? ==> unchanged(this)
      ensures o.Ok? ==> (FindIndex(old(videos), HasId(id)).Some?
        && var i := FindIndex(old(videos), HasId(id)).value;
           videos == old(videos)[i := old(videos)[i].(likes := ToggleLike(old(videos)[i].likes, requester))]
           && (o.value <==> requester !in old(videos)[i].likes))
      ensures users == old(users) && comments == old(comments) && subscriptions == old(subscriptions)
      ensures enrolments == old(enrolments) && followers == old(followers) && clock == old(clock)
      ensures nextUserId == old(nextUserId) && nextVideoId == old(nextVideoId)
    {
      FindVideo(videos, id);
      var found := FindIndex(videos, HasId(id));
      if found.None? {
        return NotFound;
      }
      var i := found.value;
      var v := videos[i];
      var w := v.(likes := ToggleLike(v.likes, requester));
      var videos' := videos[i := w];
      UpdateVideoValid(users, videos, comments, subscriptions, enrolments, followers,
                       clock, nextUserId, nextVideoId, slugify, i, w);
      videos := videos';
      o := Ok(requester in w.likes);
    }

    /** toggle_subscription: an unknown video is a 404; subscribing to one's own
        channel is refused and changes nothing; otherwise the (requester,
        creator) subscription is deleted if present and created (stamped now)
        if not. The result says whether the requester is subscribed now. */
    method ToggleSubscription(requester: UserId, id: VideoId) returns (o: Outcome<bool>)
      requires Valid() && requester in users
      modifies this
      ensures Valid()
      ensures o.Ok? || o.NotFound? || o.Denied?
      ensures o.NotFound? <==> id !in VideoIds(old(videos))
      ensures !o.Ok? ==> unchanged(this)
      ensures !o.NotFound? ==> (FindIndex(old(videos), HasId(id)).Some?
        && var creator := old(videos)[FindIndex(old(videos), HasId(id)).value].creator;
           && (o.Denied? <==> requester == creator)
           && (o.Ok? ==> subscriptions == ToggleRows(old(subscriptions), requester, creator, old(clock))
                         && (o.value <==> !Subscribed(old(subscriptions), requester, creator))))
      ensures users == old(users) && videos == old(videos) && comments == old(comments)
      ensures enrolments == old(enrolments) && followers == old(followers)
      ensures o.Ok? ==> clock == old(clock) + 1
      ensures nextUserId == old(nextUserId) && nextVideoId == old(nextVideoId)
    {
      FindVideo(videos, id);
      var found := FindIndex(videos, HasId(id));
      if found.None? {
        return NotFound;
      }
      var creator := videos[found.value].creator;
      if requester == creator {
        return Denied;
      }
      var subs' := ToggleRows(subscriptions, requester, creator, clock);
      ToggleSubscriptionValid(users, videos, comments, subscriptions, enrolments, followers,
                              clock, nextUserId, nextVideoId, slugify, requester, creator);
      subscriptions, clock := subs', clock + 1;
      o := Ok(Subscribed(subscriptions, requester, creator));
    }

    /** follow_creator: an unknown account is a 404; following oneself is
        refused; otherwise the requester is among the account's followers
        afterwards. The result says whether that is new. */
    method FollowCreator(requester: UserId, creatorId: UserId) returns (o: Outcome<bool>)
      requires Valid() && requester in users
      modifies this
      ensures Valid()
      ensures o.Ok? || o.NotFound? || o.Denied?
      ensures o.NotFound? <==> creatorId !in old(users)
      ensures o.Denied? <==> creatorId in old(users) && creatorId == requester
      ensures !o.Ok? ==> unchanged(this)
      ensures o.Ok? ==> followers == old(followers) + {Follow(requester, creatorId)}
      ensures o.Ok? ==> (o.value <==> Follow(requester, creatorId) !in old(followers))
      ensures users == old(users) && videos == old(videos) && comments == old(comments)
      ensures subscriptions == old(subscriptions) && enrolments == old(enrolments) && clock == old(clock)
      ensures nextUserId == old(nextUserId) && nextVideoId == old(nextVideoId)
    {
      if creatorId !in users {
        return NotFound;
      }
      if creatorId == requester {
        return Denied;
      }
      var f := Follow(requester, creatorId);
      if f in followers {
        return Ok(false);
      }
      followers := followers + {f};
      o := Ok(true);
    }

    /** delete_video: an unknown id is a 404; only the video's creator may
        delete it (anyone else changes nothing); deleting removes the row and,
        by cascade, its comments and legacy enrolments. */
    method Delete(requester: UserId, id: VideoId) returns (o: Outcome<()>)
      requires Valid() && requester in users
      modifies this
      ensures Valid()
      ensures o.Ok? || o.NotFound? || o.Denied?
      ensures o.NotFound? <==> id !in VideoIds(old(videos))
      ensures !o.Ok? ==> unchanged(this)
      ensures !o.NotFound? ==> (FindIndex(old(videos), HasId(id)).Some?
        && var i := FindIndex(old(videos), HasId(id)).value;
           && (o.Denied? <==> requester != old(videos)[i].creator)
           && (o.Ok? ==> videos == RemoveAt(old(videos), i)))
      ensures o.Ok? ==> VideoIds(videos) == VideoIds(old(videos)) - {id}
      ensures o.Ok? ==> comments == Filter(old(comments), NotOnVideo(id))
      ensures o.Ok? ==> enrolments == Filter(old(enrolments), EnrolmentNotOnVideo(id))
      ensures users == old(users) && subscriptions == old(subscriptions)
      ensures followers == old(followers) && clock == old(clock)
      ensures nextUserId == old(nextUserId) && nextVideoId == old(nextVideoId)
    {
      FindVideo(videos, id);
      var found := FindIndex(videos, HasId(id));
      if found.None? {
        return NotFound;
      }
      var i := found.value;
      if requester != videos[i].creator {
        return Denied;
      }
      var videos' := RemoveAt(videos, i);
      var comments' := Filter(comments, NotOnVideo(id));
      var enrolments' := Filter(enrolments, EnrolmentNotOnVideo(id));
      DeleteValid(users, videos, comments, subscriptions, enrolments, followers,
                  clock, nextUserId, nextVideoId, slugify, i);
      VideoIdsRemove(videos, i);
      videos, comments, enrolments := videos', comments', enrolments';
      o := Ok(());
    }

    /** user_comment: an unknown video is a 404 (checked before the request
        method); a POST with valid content appends one comment by the
        requester on that video, stamped now; anything else changes nothing. */
    method CommentOn(requester: UserId, id: VideoId, isPost: bool, content: string)
      returns (o: Outcome<Comment>)
      requires Valid() && requester in users
      modifies this
      ensures Valid()
      ensures o.Ok? || o.NotFound? || o.Rejected?
      ensures o.NotFound? <==> id !in VideoIds(old(videos))
      ensures o.Rejected? <==> id in VideoIds(old(videos)) && !(isPost && ValidCommentForm(content))
      ensures !o.Ok? ==> unchanged(this)
      ensures o.Ok? ==> o.value == Comment(id, requester, Strip(content), old(clock))
      ensures o.Ok? ==> comments == old(comments) + [o.value] && clock == old(clock) + 1
      ensures users == old(users) && videos == old(videos) && subscriptions == old(subscriptions)
      ensures enrolments == old(enrolments) && followers == old(followers)
      ensures nextUserId == old(nextUserId) && nextVideoId == old(nextVideoId)
    {
      FindVideo(videos, id);
      if FindIndex(videos, HasId(id)).None? {
        return NotFound;
      }
      if !(isPost && ValidCommentForm(content)) {
        return Rejected;
      }
      var c := Comment(id, requester, Strip(content), clock);
      CommentValid(users, videos, comments, subscriptions, enrolments, followers,
                   clock, nextUserId, nextVideoId, slugify, c);
      comments, clock := comments + [c], clock + 1;
      o := Ok(c);
    }

    /** Creating a legacy enrolment row: the learner and video must exist; the
        row is stamped now and starts not completed. */
    method Enrol(requester: UserId, id: VideoId) returns (o: Outcome<Enrolment>)
      requires Valid() && requester in users
      modifies this
      ensures Valid()
      ensures o.Ok? || o.NotFound?
      ensures o.NotFound? <==> id !in VideoIds(old(videos))
      ensures o.NotFound? ==> unchanged(this)
      ensures o.Ok? ==> o.value == Enrolment(requester, id, old(clock), false)
      ensures o.Ok? ==> enrolments == old(enrolments) + [o.value] && clock == old(clock) + 1
      ensures users == old(users) && videos == old(videos) && comments == old(comments)
      ensures subscriptions == old(subscriptions) && followers == old(followers)
      ensures nextUserId == old(nextUserId) && nextVideoId == old(nextVideoId)
    {
      FindVideo(videos, id);
      if FindIndex(videos, HasId(id)).None? {
        return NotFound;
      }
      var e := Enrolment(requester, id, clock, false);
      EnrolValid(users, videos, comments, subscriptions, enrolments, followers,
                 clock, nextUserId, nextVideoId, slugify, e);
      enrolments, clock := enrolments + [e], clock + 1;
      o := Ok(e);
    }
  }
}
