# SkillStream engagement core in Dafny

SkillStream is a Django video-sharing site. Creators upload videos. Learners
watch, like and comment on them, subscribe to creators' channels and follow
accounts. Every handler is a sequential step over the site's database tables.
This project models three parts of it.

- **The engagement store** (`core/views.py` over the entities of
  `core/models.py`) is the class `Views.Store`. Its fields are the tables:
  accounts, videos with their like sets, comments, channel subscriptions,
  legacy per-video enrolments and the follow relation. The state-changing
  handlers are methods of `Store`:
  - upload, with promotion to creator;
  - watch;
  - like;
  - subscription toggle;
  - follow;
  - owner-only delete, with its cascade;
  - comment.

  Every method states its whole new state (every table, the clock and the id counters) and keeps the invariant
  `Store.Valid()` (the predicate `Tables.TablesValid`). That invariant says:
  - foreign keys resolve;
  - ids and timestamps increase in insertion order;
  - slugs are pairwise distinct;
  - `unique_together` holds on subscriptions.

  The read-only handlers are functions of the tables: home feed, search,
  dashboards and the three JSON endpoints.
- **The unique slug allocator of `Video.save`** (`Slugs`). It is a `while`
  loop, proved to terminate. It returns the first free candidate among
  `base`, `base-1`, `base-2`, ….
- **Value helpers**:
  - `get_full_name`, the per-user counts, field defaults and validators in
    `Models`;
  - the bands, counts and truncations of the admin columns in `Admin`.

Modules:
- `Text`: str.strip, ASCII case folding, `icontains`, decimal formatting.
- `Seqs`: querysets as sequences (filter, find the first match, reverse, delete
  one row, order facts).
- `Models`: the entities, their defaults, validators and aggregates.
- `Slugs`: the slug loop.
- `Tables`: the between-request table constraints.
- `Views`: the handlers.
- `Admin`: the admin columns.

Modelling choices:
- `auto_now_add` timestamps are readings of a logical clock (`Store.clock`).
  Every new row gets a strictly larger reading. Tables keep rows in creation
  order, so `-uploaded_at`, `-created_at` and `-subscribed_at` are the reverse
  of the stored order.
- Django's `slugify` is a function the store is constructed with.
- An HTTP response is replaced by an `Outcome`:
  - `Ok`: the handler's result;
  - `NotFound`: `get_object_or_404` failed;
  - `Denied`: the action was refused;
  - `Rejected`: the request was not a POST, or its form was invalid.

Where the code and its docstrings disagree, the model follows the code:
- `search_videos` with an empty or missing `q` returns every video, newest
  first. Its docstring says an empty query returns nothing, but
  `icontains ''` holds for every text.
- `watch_video` lists comments newest first.

## Model

| member | source | states |
|---|---|---|
| Text.Strip | core/models.py:87 | str.strip: the result is the input minus leading and trailing whitespace; it is empty iff the input is all whitespace, and otherwise starts and ends on non-whitespace |
| Text.StripJoinBlankRight | core/models.py:87 | stripping `a + " " + b` with b blank and a not gives the stripped a |
| Text.StripJoinBlankLeft | core/models.py:87 | stripping `a + " " + b` with a blank and b not gives the stripped b |
| Text.StripJoinBoth | core/models.py:87 | stripping `a + " " + b` with neither blank gives a without its leading whitespace, the space, and b without its trailing whitespace |
| Text.ParseNatStr | core/models.py:205 | the decimal counter suffix f"{counter}" reads back as the counter |
| Text.NatStrInjective | core/models.py:205 | distinct counters give distinct suffixes |
| Models.NewUser | core/models.py:42-49 | a new account is a student and not a creator, and keeps the given names |
| Models.FullName | core/models.py:85-88 | get_full_name is the username when both name parts are blank; otherwise it is `'first last'.strip()` (non-empty, no surrounding whitespace, no longer than "first last") |
| Models.FullNameCases | core/models.py:85-88 | get_full_name case by case: a blank last name gives the stripped first name; a blank first name gives the stripped last name; otherwise the first name without leading whitespace, a space, and the last name without trailing whitespace |
| Models.FullNameJoinsNames | core/models.py:85-88 | with both name parts present and trimmed, get_full_name is exactly "first last" |
| Models.RFind | core/models.py:158 | the last position of a character, or -1 when it does not occur |
| Models.FileExtension | core/models.py:158 | when the file name has a last dot that is neither its first nor its last character, the extension is the lower-cased text after it (and non-empty); when it has no such dot, there is no extension |
| Models.TotalLikes | core/models.py:213-218 | total_likes is zero exactly when nobody likes the video, and positive once anyone does |
| Models.ValidVideoForm | core/models.py:138-160 | an accepted upload has a title and a description that are not blank after stripping and hold no NUL character, and a file name with a real extension (a last dot that is neither its first nor its last character) |
| Models.ValidCommentForm | core/models.py:344-347 | accepted content is never blank and holds no NUL character; any content that is not blank, has no NUL character and is at most 1000 characters long is accepted |
| Models.UniquePairs | core/models.py:309 | unique_together on (subscriber, creator): two rows with the same pair are the same row |
| Models.SubscriberCount | core/models.py:90-92 | get_subscriber_count is at most the number of rows, and zero exactly when no row names the account as creator |
| Models.SubscriptionCount | core/models.py:94-96 | get_subscription_count is at most the number of rows, and zero exactly when no row names the account as subscriber |
| Models.TotalVideoViews | core/models.py:98-100 | get_total_video_views is zero for an account with no videos |
| Models.SubscriberCountIsSubscribers | core/models.py:90-92 | under unique_together, get_subscriber_count equals the number of distinct subscribers |
| Models.SubscriptionCountIsCreators | core/models.py:94-96 | under unique_together, get_subscription_count equals the number of distinct creators followed |
| Models.SumViewsConcat | core/models.py:98-100 | the view sum of two lists of videos is the sum of their sums |
| Models.TotalVideoViewsBump | core/models.py:98-100 | one more view on a video adds one to its creator's get_total_video_views and nothing to anyone else's |
| Models.TotalVideoViewsRemove | core/models.py:98-100 | deleting a video takes its views off its creator's total and leaves everyone else's total alone |
| Seqs.FindIndex | core/views.py:428 | `.filter(p).first()`: the first row satisfying p, or none exactly when no row does |
| Seqs.Filter | core/models.py:92 | `.filter(p)`: no longer than its input, and holds exactly the rows that satisfy p |
| Seqs.FilterConcat | core/models.py:92 | filtering distributes over concatenation |
| Seqs.FilterKeepsAll | core/views.py:331-335 | a filter that every row passes returns the rows unchanged |
| Seqs.RemoveAt | core/views.py:374 | deleting a row leaves the other rows, in order |
| Seqs.RemoveAtSlices | core/views.py:374 | deleting a row is the concatenation of the rows before and after it |
| Seqs.RemoveAtMembers | core/views.py:374 | after a deletion, the rows left are exactly those at the other positions |
| Seqs.FilterRemoveAt | core/views.py:437-438 | deleting a row removes one row from a filtered count exactly when that row passes the filter |
| Seqs.Reverse | core/models.py:224 | the reversed order holds the same rows from the last to the first |
| Seqs.ReverseMembers | core/models.py:224 | reversing keeps exactly the same rows |
| Seqs.FilterIncreasing | core/views.py:331-335 | filtering keeps insertion order |
| Seqs.ReverseDecreasing | core/models.py:224 | the reverse of a list in insertion order is newest first |
| Seqs.AppendIncreasing | core/views.py:441 | appending the newest row keeps insertion order |
| Seqs.RemoveAtIncreasing | core/views.py:374 | deleting a row keeps insertion order |
| Seqs.IncreasingAt | core/models.py:224 | in insertion order, an earlier row has the smaller key |
| Slugs.CandidateInjective | core/models.py:204-206 | the candidates `base`, `base-1`, `base-2`, … are pairwise distinct |
| Slugs.ChosenIsUnique | core/models.py:202-206 | the slug the loop settles on is determined by the base and the stored slugs |
| Slugs.AllocateSlug | core/models.py:202-206 | the loop terminates with a slug that no stored video has; that slug is the first free candidate (the base when it is free, else base-k for the least free k ≥ 1) |
| Slugs.SaveSlug | core/models.py:197-207 | a non-blank slug is kept unchanged; a blank slug becomes the first free candidate built from slugify(title) |
| Slugs.SecondTestVideo | core/models.py:202-206 | a second "test-video" becomes "test-video-1" |
| Slugs.ResaveRenamesBlankSlug | core/models.py:199-206 | as written, re-saving a stored video whose slug is blank renames it to "-1" |
| Slugs.BlankChosenFromBlankBase | core/models.py:200-206 | the loop returns a blank slug only when slugify(title) is blank |
| Slugs.ResaveExcludingSelfKeepsSlug | core/models.py:199-206 | when the video's own row is left out of the query, re-saving a blank slug keeps it blank |
| Views.CommentsValidGrow | core/models.py:334-343 | comment rows stay valid when accounts, videos and the clock only grow |
| Views.SubscriptionsValidGrow | core/models.py:292-306 | subscription rows stay valid when accounts and the clock only grow |
| Views.EnrolmentsValidGrow | core/models.py:248-261 | enrolment rows stay valid when accounts, videos and the clock only grow |
| Tables.TablesValid | core/models.py:115-357 | the table constraints together: foreign keys resolve, ids and timestamps increase in creation order, slugs are distinct, subscriptions are unique_together and never to oneself |
| Views.Store.Valid | core/models.py:115-357 | the store's tables satisfy `Tables.TablesValid`; every handler keeps it |
| Views.UploadValid | core/views.py:235-246 | storing the new video and promoting its uploader keeps every table constraint |
| Views.UpdateVideoValid | core/views.py:284-285 | saving a video with the same id, creator, title, slug and upload time keeps every table constraint |
| Views.ToggleSubscriptionValid | core/views.py:436-441 | a subscription toggle between two different accounts keeps every table constraint, including unique_together |
| Views.DeleteValid | core/views.py:374 | removing a video with its cascaded comments and enrolments keeps every table constraint |
| Views.RemoveVideoValid | core/views.py:374 | removing a video row keeps the video constraints |
| Views.CascadeCommentsValid | core/models.py:334-338 | the comments left after the cascade all refer to remaining videos |
| Views.CascadeEnrolmentsValid | core/models.py:253-257 | the enrolments left after the cascade all refer to remaining videos |
| Views.CommentValid | core/views.py:392-396 | a new comment by an account on a stored video keeps every table constraint |
| Views.EnrolValid | core/models.py:248-265 | a new enrolment of an account in a stored video keeps every table constraint |
| Views.BlankSlugIsOwn | core/models.py:199-206 | when slugs are distinct, no other row holds the blank slug of a video |
| Views.WatchValid | core/views.py:284-285 | a view bump keeps every table constraint and adds one to the watched video's creator's total views only |
| Views.ResaveKeepsSlug | core/views.py:285 | the save in watch_video leaves the stored slug as it is, once the row itself is excluded from the existence query |
| Views.PromoteValid | core/views.py:245-246 | setting is_creator keeps the account and follow constraints |
| Views.AppendVideoValid | core/models.py:197-207 | a new video with the next id, the current time, a free slug and no likes keeps the video constraints |
| Views.VideoIdsUpdate | core/views.py:284-285 | saving a row with the same id keeps the set of video ids |
| Views.VideoIdsAppend | core/views.py:241 | storing a video adds exactly its id |
| Views.VideoIdsRemove | core/views.py:374 | deleting a video removes exactly its id |
| Views.ToggleLike | core/views.py:451-457 | like_video flips the requester's membership in the like set, leaves everyone else's as it was, and moves total_likes by one |
| Views.ToggleLikeTwice | core/views.py:451-457 | liking twice restores the like set |
| Views.ToggleRows | core/views.py:428-441 | the (requester, creator) pair is present afterwards iff it was absent before; every other pair is unchanged; unique_together and insertion order are kept; no row but the new one is created |
| Views.RemoveRow | core/views.py:437-438 | deleting the found row removes its pair only and keeps uniqueness and order |
| Views.AppendRow | core/views.py:441 | creating a row for an absent pair adds that pair only and keeps uniqueness and order |
| Views.PairsOfSubscribed | core/models.py:309 | a pair is in the subscription relation iff a row records it |
| Views.ToggleRowsTwice | core/views.py:428-441 | toggling a subscription twice restores the set of pairs |
| Views.ToggleRowsCounts | core/views.py:428-441 | a toggle moves the creator's subscriber count and the subscriber's subscription count by one, in the same direction |
| Views.NewestFirst | core/models.py:224 | the rows newest first: the stored order reversed, with strictly decreasing timestamps |
| Views.Newest | core/views.py:52 | `order_by('-uploaded_at')[:n]`: at most n videos, the newest, newest first |
| Views.NewestAreNewest | core/views.py:52 | every video that is not in the n newest is older than every video that is |
| Views.HomeFeed | core/views.py:38-61 | home shows the 12 newest videos, newest first; any video left out is older than all that are shown |
| Views.EmptyQueryKeepsAll | core/views.py:330-335 | an empty query matches every video |
| Views.SearchVideos | core/views.py:310-343 | the results are exactly the videos whose title, description or creator username contains q ignoring case, newest first; a missing or empty q returns all videos, newest first |
| Views.DashboardRedirect | core/views.py:183-189 | creators go to the creator dashboard, other students to the learner dashboard, everyone else home |
| Views.CreatorDashboardPage | core/views.py:121-136 | a creator sees exactly their own videos, their total views and their subscriber count; anyone else is redirected to the learner dashboard |
| Views.LearnerDashboardPage | core/views.py:161-179 | a student sees exactly the videos by creators they subscribe to, exactly their own subscriptions and all videos; anyone else is redirected to the creator dashboard |
| Views.DashboardRedirectLands | core/views.py:183-189 | the dashboard chosen after login shows a page and does not redirect again |
| Views.DashboardsBounce | core/views.py:121-136 | an account that is neither creator nor student is redirected from each dashboard to the other |
| Views.ApiVideosList | core/views.py:488-512 | at most 20 videos, newest first, each with its id, title, description, views, like count and creator username, and a count equal to the list's length |
| Views.ApiVideoDetail | core/views.py:514-546 | NotFound exactly when no video has the id; otherwise that video's fields, its creator's username and is_creator, and its like count |
| Views.ApiUserStats | core/views.py:549-576 | the account's uploaded-video count (the same `Models.VideoCount` the admin column shows), total views, subscription count and comment count; a subscriber count only for creators |
| Views.CommentsNewestFirst | core/views.py:294 | exactly the comments on the video, newest first |
| Views.FindVideo | core/views.py:279 | `get_object_or_404(Video, id=…)` fails exactly when no video has the id, and otherwise finds that video |
| Views.Store.constructor | core/models.py:25-110 | a new site has no accounts, videos, comments, subscriptions, enrolments or follows, its clock and id counters start at zero, and it satisfies every table constraint |
| Views.Store.AddUser | core/models.py:42-49 | a taken username is rejected and changes nothing; otherwise a fresh id gets an account with the field defaults and no other table changes |
| Views.Store.Upload | core/views.py:235-249 | a valid POST appends exactly one video by the requester, with no views, no likes, a fresh id and the first free slug, and makes the requester a creator while leaving is_student alone; a non-POST or invalid form changes nothing |
| Views.Store.SaveVideo | core/views.py:238-246 | the new row takes the requester as creator, the title and description it is given, the file name, a fresh id, a free slug, no views and no likes; the requester becomes a creator; no other table changes |
| Views.Store.Watch | core/views.py:279-306 | an unknown id is NotFound and changes nothing; otherwise that video's views rise by exactly one and nothing else changes; the page shows the video, its comments newest first and the subscription status |
| Views.Store.Like | core/views.py:448-460 | an unknown id is NotFound and changes nothing; otherwise only the requester's membership in that video's like set flips |
| Views.Store.ToggleSubscription | core/views.py:403-444 | an unknown video is NotFound; a self-subscription is Denied; either way nothing changes; otherwise the subscription rows become ToggleRows of the old rows, and the result says whether the requester is now subscribed |
| Views.Store.FollowCreator | core/views.py:348-365 | an unknown account is NotFound; following oneself is Denied; either way nothing changes; otherwise the requester ends up among the account's followers, and the result says whether that is new |
| Views.Store.Delete | core/views.py:369-378 | an unknown id is NotFound; a requester other than the creator is Denied; either way nothing changes; the creator's delete removes the row and, by cascade, exactly that video's comments and enrolments |
| Views.Store.CommentOn | core/views.py:386-397 | an unknown video is NotFound; a non-POST or invalid content is Rejected; either way nothing changes; otherwise exactly one comment by the requester on that video, with the stripped content, is appended |
| Views.Store.Enrol | core/models.py:236-273 | a legacy enrolment of the requester in a stored video is appended, not completed, stamped now; an unknown video is NotFound and changes nothing |
| Admin.SubscriberCountCell | core/admin.py:45-53 | '-' exactly for non-creators; a creator's cell shows get_subscriber_count |
| Admin.SubscriberCountCellCountsSubscribers | core/admin.py:45-53 | under unique_together, a creator's cell shows the number of distinct subscribers |
| Models.VideoCount | core/admin.py:59 | at most the number of videos; zero exactly when the account has no video |
| Models.VideoCountAppend | core/admin.py:59 | storing a video adds one to its creator's video_set.count() and nothing to anyone else's |
| Models.VideoCountRemove | core/admin.py:59 | deleting a video takes one off its creator's video_set.count() and nothing off anyone else's |
| Admin.VideoCountColumn | core/admin.py:56-67 | '-' exactly for non-creators; '0 videos' exactly for creators without videos; otherwise a link to the creator's videos with their positive count |
| Admin.LikesColumn | core/admin.py:106-116 | emphasised iff more than 10 likes, a plain count iff 1 to 10, '0' iff none |
| Admin.LikesColumnShowsTotal | core/admin.py:106-116 | every likes cell shows the video's total_likes |
| Admin.LikesColumnMonotone | core/admin.py:106-116 | more likes never move a video to a lower likes band |
| Admin.CommentCount | core/admin.py:121 | comment_set.count(): at most the number of comments; zero exactly when no comment is on the video |
| Admin.CommentsColumn | core/admin.py:119-128 | '0' exactly when the video has no comment; otherwise a link with the positive comment count |
| Admin.CommentCountAppend | core/admin.py:121 | a new comment adds one to its own video's count and nothing to any other video's |
| Admin.IsPopular | core/admin.py:141-147 | Popular iff views > 100, Trending iff 50 < views ≤ 100, New iff views ≤ 50 |
| Admin.PopularityMonotone | core/admin.py:141-147 | more views never lower the popularity band |
| Admin.Truncate | core/admin.py:186 | text no longer than n is unchanged; longer text becomes its first n characters followed by "..." |
| Admin.TruncateIdempotent | core/admin.py:186 | truncating twice is truncating once |
| Admin.TruncateSeesPrefixOnly | core/admin.py:186 | two long texts with the same first n characters truncate alike |
| Admin.ContentPreview | core/admin.py:184-187 | content of at most 50 characters is shown unchanged; longer content shows its first 50 characters followed by "..." (at most 53 characters) |
| Admin.CommentVideoTitle | core/admin.py:175-181 | a title of at most 30 characters is shown unchanged; a longer one shows its first 30 characters followed by "..." (at most 33 characters) |
| Admin.LegacyVideoTitle | core/admin.py:260-262 | a title of at most 40 characters is shown unchanged; a longer one shows its first 40 characters followed by "..." (at most 43 characters) |
| Admin.IsRecent | core/admin.py:190-199 | "New" iff the comment is less than a day old, "This week" iff at least a day and less than a week old, "Older" otherwise |
| Admin.RecencyMonotone | core/admin.py:190-199 | as time passes a comment never moves to a newer band, and a later comment is never in an older band |
| Admin.CreatorVideoCount | core/admin.py:223-229 | the creator's video_set.count(), the same count VideoCountAppend and VideoCountRemove move; at most the number of videos; zero exactly when the subscription's creator has no video |
| Admin.IsActiveSubscription | core/admin.py:232-236 | Active iff the creator has at least one video |
| Admin.ActiveIffCreatorHasVideos | core/admin.py:223-236 | the status column and the video-count column agree |

## Left out

- HTTP, templates and messages are not modelled: `render`, `redirect`, `messages` and `JsonResponse`. Responses become `Outcome` values and dashboard routes.
- `login_required` is not modelled. Every handler takes the requester as a known account (`requester in users`); `api_videos_list` and `api_video_detail` take no requester.
- `register`, `user_login`, `user_logout`, `user_profile`, password hashing and `CustomerCreationForm` are left out. They are Django library behaviour. `Store.AddUser` models only username uniqueness and the field defaults of a new account.
- core/forms.py is left out; it only declares ModelForms. The validators they apply are the predicates `Models.ValidVideoForm` and `Models.ValidCommentForm`: the length limits, read on the stripped title, description and content, and the refusal of NUL characters that every form text field adds.
- Django's `slugify` is a parameter of the store. The 250-character `max_length` of the slug column is not modelled.
- File storage is not modelled: `video_file.url`, thumbnails, duration, profile images and bio. File validation looks at the file name only, not the file's content.
- `strftime` output, `updated_at`, `created_at` on accounts and `__str__` are left out.
- The admin HTML markup, styles, admin URLs and site headers are left out. `completion_status` is left out because it only renders markup for the `completed` flag.
- Concurrency is not modelled. This covers the read-modify-write `views += 1`, the check-then-act toggles and database-level enforcement of uniqueness; the model is sequential.
- Settings, deployment and routing are left out. In core/urls.py, `follow_creator` is routed with `user_id` and redirects to a `creator_profile` route that is never defined. Only the handler's body is modelled.
- Legacy enrolments are created by no view. `Store.Enrol` creates one directly so that the delete cascade has rows to act on.
- Times: the store stamps rows with a logical clock, while `Admin.IsRecent` takes both instants in seconds, with `timezone.now()` passed in as `now`.
- Text.Lower: folds ASCII letters only, like SQLite's LIKE behind `icontains`. Other databases' Unicode case folding is not modelled, nor is the Unicode `str.lower()` that `Models.FileExtension` applies to the suffix; the accepted extensions mp4, webm and ogg are the same either way.
- Models.Video: `views` is a `nat`. The 32-bit upper bound of `PositiveIntegerField` is not modelled.
- Views.Store.Watch: models the corrected slug behaviour of the re-save, not the one as written (see Findings).

## Findings

| source | as written | input that shows it | evidently intended | confidence | as-written member | corrected member |
|---|---|---|---|---|---|---|
| core/models.py:199-206 | on every save of a stored video whose slug is blank, the slug loop runs again, and its existence query also sees the video's own row | a video titled "???" (slugify gives "") stored with slug "", then watched: `views += 1; save()` finds its own row with slug "" and renames it to "-1" | saving an already stored video keeps its slug; the existence query leaves out the video's own row (`.exclude(pk=self.pk)`) | not executed | Slugs.ResaveRenamesBlankSlug | Slugs.ResaveExcludingSelfKeepsSlug |
