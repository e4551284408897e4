# Blog handlers, modelled in Dafny

This project models the decision logic of the blog request handlers of a
small blogging site hosted on Google App Engine, whose article bodies live
as gists on GitHub (`web/blog/bloghandlers.py`). It covers:

- the **view assembler**: the public blog listing, the public guide
  listing, the RSS feed and a user's profile page. Each walks article
  records in order, fetches each gist body, and keeps the records its
  visibility rule admits (module `Views`);
- the **gist-sync job** (`BlogBuildListHandler`): the job-token guard,
  then an upsert loop over the user's gist listing keyed on
  (owner, gist id), which refreshes existing articles in place, inserts new
  ones and never deletes (modules `Reconcile` and `Store`);
- the **store-changing actions**: fork, delete, draft toggle, create with
  its duplicate-gist check, and the owner-only cache flush. These are
  methods of the class `Store.BlogStore`, which holds the article table as
  a `map`, the push-channel messages, the flash messages and the calls made
  to the gist host as append-only logs;
- the **small pure selectors**: menu routing, the navigation pill, and
  the display-name, bio and avatar defaults (module `Selectors`).

The external collaborators become parameters:
- The gist body fetch is a function `GistId -> Fetch` (raised, nothing,
  or text).
- The HTML sanitiser and `slugify` are uninterpreted functions.
- The gist listing, the forked gist, the new gist's id and the cache's
  answer are plain inputs.
- "Now" is an integer parameter. Timestamps are integer seconds, and
  1970-01-01 is `EPOCH`.

Files:
- `blog_types.dfy`: articles, gists, users, fetch results.
- `selectors.dfy`: the pure selectors.
- `views.dfy`: the listings, the feed and the profile page.
- `reconcile.dfy`: the sync specification over map values.
- `store.dfy`: the store class and its handlers.

The model follows the code as written:
- Delete, draft toggle and fork make no ownership check.
- Only the blog listing skips an article whose fetch raises. In the guide,
  feed and profile pages the exception ends the page, and the model
  returns the first raising gist (`FirstFailure`).
- The feed's last-updated fold runs before the draft test, so a draft with
  a body still moves the feed's date.
- A profile article of any type other than `post` goes to the guides.
- The draft toggle publishes on the value "false" and makes a draft of
  anything else, as lines 448-451 do. The comment at line 445 describes
  the slider the other way round.

## Model

| member | source | states |
|---|---|---|
| `Selectors.MenuRoute` | web/blog/bloghandlers.py:609-616 | The three menu ids go to article-create, article-list and the user page, each with the logged-in username. Every other id goes home. Each named route's menu id is the one that led to it. |
| `Selectors.MenuRouteRoundTrip` | web/blog/bloghandlers.py:609-616 | Routing a named route's own menu id gives that route back. |
| `Selectors.ContainsOccurs` | web/blog/bloghandlers.py:229 | The recursive test modelling Python's substring `in` holds exactly when the substring occurs at some position. |
| `Selectors.MenuChoice` | web/blog/bloghandlers.py:228-232 | The pill is "guides" exactly when "guide" occurs in the article type, and "blog" otherwise. |
| `Selectors.DisplayName` | web/blog/bloghandlers.py:294-297 | Without a first name the shown name is the (sanitised) username. Otherwise it starts with the first name and a space, and the last name is the rest. The name is empty only when there is no first name and the sanitised username is empty. |
| `Selectors.DisplayNameIgnoresLastName` | web/blog/bloghandlers.py:294-296 | Without a first name, the last name has no effect on the shown name. |
| `Selectors.DisplayNameSanitisedAgrees` | web/blog/bloghandlers.py:235-238 | The article page (unsanitised) and the profile page (sanitised) show the same name when sanitising leaves the name fields alone. |
| `Selectors.ProfileBio` | web/blog/bloghandlers.py:311-315 | An empty bio shows the fixed placeholder. Any other bio shows the sanitised bio. The shown bio is blank only when the user wrote one and sanitising erased all of it. |
| `Selectors.ProfileGravatar` | web/blog/bloghandlers.py:317-321 | The user's own avatar URL when set, the site stub otherwise. It is never empty when the stub is not. |
| `Views.Select` | web/blog/bloghandlers.py:83-85 | The selection for a visibility rule is no longer than its input. |
| `Views.SelectSound` | web/blog/bloghandlers.py:84-85 | Every selected record is in the input and satisfies the rule: a non-empty body, not a draft, plus the rule's type and public conditions. |
| `Views.SelectComplete` | web/blog/bloghandlers.py:127-129 | Every input record that satisfies the rule is selected. |
| `Views.SelectAppend` | web/blog/bloghandlers.py:53-85 | Selection keeps input order: the selection from `a + b` is the selection from `a` followed by the selection from `b`. |
| `Views.PublicListingsDisjoint` | web/blog/bloghandlers.py:128-129 | No record is in both public listings. A record whose type is neither "post" nor "guide" is in neither. |
| `Views.ProfileBucketsPartition` | web/blog/bloghandlers.py:355-359 | A live record (body present, not a draft) is in the posts bucket exactly when its type is "post", and in the guides bucket exactly when it is not. Other records are in neither bucket. |
| `Views.ProfileBucketsCount` | web/blog/bloghandlers.py:353-359 | The two profile buckets together are exactly as long as the list of live records. |
| `Views.FirstFailureSpec` | web/blog/bloghandlers.py:100-102 | `FirstFailure` is None exactly when no fetch raises. Otherwise it names the gist of the first record whose fetch raises. |
| `Views.FirstFailureExtends` | web/blog/bloghandlers.py:151-152 | When the first fetch to raise is at position i, that gist is the first failure of the whole sequence. |
| `Views.BlogListing` | web/blog/bloghandlers.py:45-89 | Gives the entries of the records selected by the public-post rule, in input order. A fetch that raises only skips its article. |
| `Views.GuideListing` | web/blog/bloghandlers.py:92-133 | Fails with the first raising gist if a fetch raises. Otherwise gives the entries of the records selected by the public-guide rule, in input order. |
| `Views.Window` | web/blog/bloghandlers.py:151 | The feed looks at exactly the first ten articles, or at all of them when there are ten or fewer. |
| `Views.LastUpdated` | web/blog/bloghandlers.py:143-164 | The fold is at least the epoch and at least the `updated` of every windowed record with a body, drafts included. It is either the epoch or one of those records' `updated`. |
| `Views.FeedStamp` | web/blog/bloghandlers.py:182-185 | The feed's date is `now`, or a time later than the epoch. |
| `Views.FeedStampSpec` | web/blog/bloghandlers.py:163-185 | The date is `now` when no record with a body was updated after the epoch. Otherwise it is the latest `updated` among the records with a body, drafts included. |
| `Views.FeedOf` | web/blog/bloghandlers.py:151-178 | The loop fails with the first raising gist of its window. Otherwise it gives the feed entries of the non-draft records with a body, in order, dated by `FeedStamp`. |
| `Views.RssFeed` | web/blog/bloghandlers.py:137-195 | Fails with the first raising gist among the first ten articles. Otherwise the entries are the non-draft records with a body among the first ten, in order (at most ten, `public` ignored). The date is the fold, or `now` when the fold stayed at the epoch. |
| `Views.DraftDatesFeed` | web/blog/bloghandlers.py:163-178 | In any window, a draft with a body whose `updated` is the latest (and after the epoch) gives the feed its date, yet is not among the feed's entries. |
| `Views.UserProfile` | web/blog/bloghandlers.py:285-374 | An unknown user gets the redirect home. Otherwise the page fails with the first raising gist, or shows the name, bio and avatar defaults and the two buckets of live records, in order. |
| `Reconcile.Lookup` | web/blog/bloghandlers.py:653 | The query's answer has the given owner and gist id and is the lowest such id. None means no stored article has that key. |
| `Reconcile.Refreshed` | web/blog/bloghandlers.py:657-661 | The refreshed article carries the gist's title, summary, type and id. `updated` becomes the gist's `published`. Slug, created, owner, public and draft stay. |
| `Reconcile.FromGist` | web/blog/bloghandlers.py:665-674 | The new article carries the gist and is keyed by (owner, gist id), with slug = slugify(title), created = published, `updated` = now and the default visibility. |
| `Reconcile.SyncStep` | web/blog/bloghandlers.py:653-677 | One iteration never removes an id and adds at most the next free one. It allocates a new id exactly when the query found no article for the gist. |
| `Reconcile.SyncAll` | web/blog/bloghandlers.py:652-681 | A run never removes an id, allocates at most one id per gist, and every added id is a freshly allocated one. |
| `Reconcile.SyncStepEffect` | web/blog/bloghandlers.py:653-677 | After one gist, its key finds an article carrying its title, summary, type and gist id. A refreshed article takes `published` as `updated`. A new one gets slug = slugify(title), created = published and owner = user. Every other article is unchanged, and nothing is removed. |
| `Reconcile.SyncKeeps` | web/blog/bloghandlers.py:652-681 | A whole run removes no article. It keeps every article's slug, created, owner, public and draft, and leaves other owners' articles unchanged. Every added row belongs to the user and has the default visibility. |
| `Reconcile.SyncCovers` | web/blog/bloghandlers.py:652-677 | After a run, every gist has an article under (user, gist id). The last gist with each id is what that article carries. |
| `Reconcile.SyncUnique` | web/blog/bloghandlers.py:653-674 | If (owner, gist id) was unique before a run, it is unique after, so each gist maps to exactly one article. |
| `Reconcile.LookupOnly` | web/blog/bloghandlers.py:653 | With unique keys, the query finds the one article holding the key. |
| `Store.FlushCalls` | web/blog/bloghandlers.py:679-680 | One cache flush per gist, in the listing's order, each for that gist's id. |
| `Store.BlogStore.Insert` | web/blog/bloghandlers.py:413 | A new article is stored under a freshly allocated id, and no other article changes. |
| `Store.BlogStore.BuildList` | web/blog/bloghandlers.py:640-685 | A wrong job token, or a gist listing that raised, changes nothing and sends nothing. Otherwise the table becomes the in-order reconciliation of the gists, one cache flush is recorded per gist, and exactly one "reload" is sent. |
| `Store.BlogStore.SyncGist` | web/blog/bloghandlers.py:652-680 | One loop iteration performs one reconciliation step and records that gist's cache flush. |
| `Store.BlogStore.Fork` | web/blog/bloghandlers.py:381-414 | A non-integer id or an unknown article changes nothing. Otherwise the fork is recorded, and a returned gist is inserted as a new article of the caller. No ownership check is made. |
| `Store.BlogStore.Delete` | web/blog/bloghandlers.py:416-435 | A known id's record alone is removed, its gist deletion recorded, with a success flash. An unknown id leaves the table unchanged, with a warning flash. Either way one "reload" is sent. |
| `Store.BlogStore.SetDraft` | web/blog/bloghandlers.py:446-457 | The article's draft flag becomes (value != "false") and nothing else changes. An unknown id leaves the table unchanged. |
| `Store.BlogStore.Create` | web/blog/bloghandlers.py:479-541 | The gist creation is recorded. If the user already has an article for the new gist id, nothing is added and a warning is shown. Otherwise the article is inserted with created = now, and the reply is the article list with a success flash naming the title. |
| `Store.BlogStore.ClearCache` | web/blog/bloghandlers.py:586-597 | An unknown id raises. Only the owner's request reaches the cache. The reply is the success message exactly when the owner asked and the cache reports success. |

## Left out

- Template rendering, the page fields that only feed templates (`article_host`, blog title, Twitter widget, Google+ link), the `strftime` formatting of dates (kept as integers) and the `application/xml` header.
- The GitHub API calls (`get_gist_content`, `fork_gist`, `put_user_gist`, `delete_user_gist`, `get_user_gists`, `flush_gist_content`). Their results are inputs, and the calls that change the host are recorded in `BlogStore.remote`. Access tokens are not modelled.
- `bleach.clean` and `utils.slugify`: the model does not know what they compute, only that each is a fixed function.
- `web/models/models.py` is not part of this model. Three consequences:
  - The defaults for `public`, `draft` and `updated` on new rows are the `NewRows` parameter.
  - `get_all` and `get_by_user` are taken to yield the records given, in that order.
  - The query by (owner, gist id) is resolved to the lowest matching id.
- Owner lookups (`User.get_by_id`, `SocialUser.get_by_user_and_provider`) are assumed to succeed. Their `None` crash paths are not modelled.
- `BlogArticleSlugHandler`: only its `menu_choice` and display-name choices are modelled. The article lookup, the Twitter widget and the detail entry are not.
- `BlogArticleCreateHandler.get`, `BlogArticleListHandler`, `BlogRefreshHandler` (task queue, transaction), the Channel API transport, OAuth redirects, cookies, `@user_required` and form validation are not modelled.
- Create: the `strip()` of the form fields is not modelled (the fields arrive already stripped), and neither is the JSON gist payload (lines 497-513).
- `Store.BlogStore.Create`: the duplicate branch at line 540 raises (`name` is undefined, and the message has no format specifier) before any flash is added. The model records the warning flash that line evidently means to add.
- `Views.UserProfile`: `github_username` and `owner_github_username` are always None, because the undefined `social_user` at line 306 is swallowed. `twitter_user.screen_name` at line 369 crashes when there is no Twitter identity. Neither appears in the modelled page.
- `Selectors.DisplayName`: a missing last name is "" here. In Python `"%s %s"` would print "None".
- Store writes and cache flushes are assumed to succeed, so a sync that fails partway through a batch is not modelled. A gist listing that raises is modelled, and it changes nothing.
- The slider client is not part of this model. The comment at line 445 says it sends "false" for a draft and "true" for a published article. Under that encoding the code at 448-451 stores the opposite state, but without the client it cannot be decided whether the comment or the code is stale. `Store.BlogStore.SetDraft` follows the code.
- The "Hacker attack on jobs!" log line for a bad job token is not modelled.
