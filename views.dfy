/** The view assembler: the public blog and guide listings, the RSS feed and
    a user's profile page. Each walks the article records in order, fetches
    every article's gist body, and keeps the records its visibility rule
    admits, in the order of the input. */
module Views {
  import opened BlogTypes
  import opened Selectors

  /** The collaborators a page is assembled with: the gist body fetch, the
      sanitiser (with the article-body settings, and with its defaults for
      plain text), and the owner lookups. */
  datatype Env = Env(
    fetch: GistId -> Fetch,
    cleanHtml: string -> string,
    cleanText: string -> string,
    usernameOf: UserId -> string,
    emailOf: UserId -> string)

  /** The display entry of the blog, guide and profile pages. */
  datatype Entry = Entry(
    created: int,
    articleId: ArticleId,
    title: string,
    articleType: string,
    html: string,
    summary: string,
    slug: string,
    owner: string)

  /** The entry of the RSS feed. */
  datatype FeedEntry = FeedEntry(
    slug: string,
    articleType: string,
    created: int,
    authorEmail: string,
    authorUsername: string,
    updated: int,
    title: string,
    summary: string,
    html: string)

  /** A page, or the exception of the first fetch that raised. */
  datatype Outcome<T> = Served(value: T) | FetchFailed(gistId: GistId)

  datatype FeedView = FeedView(lastUpdated: int, entries: seq<FeedEntry>)

  datatype ProfileView =
    | UnknownUser
    | ProfileFetchFailed(gistId: GistId)
    | ProfilePage(name: string, bio: string, gravatarUrl: string,
                  blogposts: seq<Entry>, guides: seq<Entry>)

  // ---------------------------------------------------------------------
  // Visibility rules and the selection they make
  // ---------------------------------------------------------------------

  /** The visibility rules: the public blog list, the public guide list,
      every live article (the feed; the whole profile page), and the
      profile's two buckets. */
  datatype Listing = PublicPosts | PublicGuides | Live | LivePosts | LiveOthers

  /** A record is shown only with a non-empty body and not as a draft. */
  predicate Admits(kind: Listing, a: Article, f: Fetch)
  {
    HasContent(f) && !a.draft &&
    match kind
    case PublicPosts => a.articleType == "post" && a.public
    case PublicGuides => a.articleType == "guide" && a.public
    case Live => true
    case LivePosts => a.articleType == "post"
    case LiveOthers => a.articleType != "post"
  }

  predicate Shown(fetch: GistId -> Fetch, kind: Listing, r: Record)
  {
    Admits(kind, r.article, fetch(r.article.gistId))
  }

  /** The records a rule admits, in input order. */
  function Select(fetch: GistId -> Fetch, recs: seq<Record>, kind: Listing): (sel: seq<Record>)
    ensures |sel| <= |recs|
  {
    if recs == [] then []
    else
      var init := Select(fetch, recs[..|recs| - 1], kind);
      var last := recs[|recs| - 1];
      if Shown(fetch, kind, last) then init + [last] else init
  }

  /** Only admitted records of the input are selected. */
  lemma {:induction false} SelectSound(fetch: GistId -> Fetch, recs: seq<Record>, kind: Listing, r: Record)
    requires r in Select(fetch, recs, kind)
    ensures r in recs && Shown(fetch, kind, r)
  {
    var init := recs[..|recs| - 1];
    if r in Select(fetch, init, kind) {
      SelectSound(fetch, init, kind, r);
      assert r in recs;
    }
  }

  /** One loop step: selecting from a prefix one record longer. */
  lemma SelectSnoc(fetch: GistId -> Fetch, recs: seq<Record>, i: nat, kind: Listing)
    requires i < |recs|
    ensures Shown(fetch, kind, recs[i]) ==>
      Select(fetch, recs[..i + 1], kind) == Select(fetch, recs[..i], kind) + [recs[i]]
    ensures !Shown(fetch, kind, recs[i]) ==>
      Select(fetch, recs[..i + 1], kind) == Select(fetch, recs[..i], kind)
  {
    assert recs[..i + 1][..i] == recs[..i];
  }

  /** Every admitted record is selected. */
  lemma {:induction false} SelectComplete(fetch: GistId -> Fetch, recs: seq<Record>, kind: Listing, r: Record)
    requires r in recs && Shown(fetch, kind, r)
    ensures r in Select(fetch, recs, kind)
  {
    var init := recs[..|recs| - 1];
    if r != recs[|recs| - 1] {
      assert r in init;
      SelectComplete(fetch, init, kind, r);
    }
  }

  /** Selection keeps the order of the input: selecting from a + b gives
      the selection from a followed by the selection from b. */
  lemma {:induction false} SelectAppend(fetch: GistId -> Fetch, a: seq<Record>, b: seq<Record>, kind: Listing)
    ensures Select(fetch, a + b, kind) == Select(fetch, a, kind) + Select(fetch, b, kind)
    decreases |b|
  {
    if b == [] {
      assert a + b == a;
    } else {
      var b' := b[..|b| - 1];
      assert (a + b)[..|a + b| - 1] == a + b';
      SelectAppend(fetch, a, b', kind);
    }
  }

  /** An article whose type is neither "post" nor "guide" is in neither
      public listing, and no record is in both. */
  lemma PublicListingsDisjoint(fetch: GistId -> Fetch, recs: seq<Record>, r: Record)
    ensures r in Select(fetch, recs, PublicPosts) ==> r !in Select(fetch, recs, PublicGuides)
    ensures r.article.articleType != "post" && r.article.articleType != "guide" ==>
      r !in Select(fetch, recs, PublicPosts) && r !in Select(fetch, recs, PublicGuides)
  {
    if r in Select(fetch, recs, PublicPosts) {
      SelectSound(fetch, recs, PublicPosts, r);
    }
    if r in Select(fetch, recs, PublicGuides) {
      SelectSound(fetch, recs, PublicGuides, r);
    }
  }

  /** On the profile page every live record lands in exactly one bucket,
      "post" in the posts and every other type in the guides; drafts and
      records without a body land in neither. */
  lemma ProfileBucketsPartition(fetch: GistId -> Fetch, recs: seq<Record>, r: Record)
    requires r in recs
    ensures Shown(fetch, Live, r) ==>
      (r in Select(fetch, recs, LivePosts) <==> r.article.articleType == "post") &&
      (r in Select(fetch, recs, LiveOthers) <==> r.article.articleType != "post")
    ensures !Shown(fetch, Live, r) ==>
      r !in Select(fetch, recs, LivePosts) && r !in Select(fetch, recs, LiveOthers)
  {
    if Shown(fetch, LivePosts, r) {
      SelectComplete(fetch, recs, LivePosts, r);
    }
    if Shown(fetch, LiveOthers, r) {
      SelectComplete(fetch, recs, LiveOthers, r);
    }
    if r in Select(fetch, recs, LivePosts) {
      SelectSound(fetch, recs, LivePosts, r);
    }
    if r in Select(fetch, recs, LiveOthers) {
      SelectSound(fetch, recs, LiveOthers, r);
    }
  }

  /** The two buckets together hold as many entries as there are live
      records: nothing is lost and nothing is shown twice. */
  lemma {:induction false} ProfileBucketsCount(fetch: GistId -> Fetch, recs: seq<Record>)
    ensures |Select(fetch, recs, LivePosts)| + |Select(fetch, recs, LiveOthers)|
         == |Select(fetch, recs, Live)|
  {
    if recs != [] {
      ProfileBucketsCount(fetch, recs[..|recs| - 1]);
    }
  }

  // ---------------------------------------------------------------------
  // Fetch failures
  // ---------------------------------------------------------------------

  predicate RaisesAt(fetch: GistId -> Fetch, recs: seq<Record>, i: int)
  {
    0 <= i < |recs| && fetch(recs[i].article.gistId).Raised?
  }

  /** i is the first record whose fetch raises. */
  predicate FirstRaise(fetch: GistId -> Fetch, recs: seq<Record>, i: int)
  {
    RaisesAt(fetch, recs, i) && forall j :: 0 <= j < i ==> !RaisesAt(fetch, recs, j)
  }

  /** The gist whose fetch raises first, if any: the exception a page that
      does not catch fetch errors ends with. */
  function FirstFailure(fetch: GistId -> Fetch, recs: seq<Record>): Option<GistId>
  {
    if recs == [] then None
    else
      var init := FirstFailure(fetch, recs[..|recs| - 1]);
      var last := recs[|recs| - 1];
      if init.Some? then init
      else if fetch(last.article.gistId).Raised? then Some(last.article.gistId)
      else None
  }

  /** FirstFailure names the first raising record, and is None exactly
      when no fetch raises. */
  lemma {:induction false} FirstFailureSpec(fetch: GistId -> Fetch, recs: seq<Record>)
    ensures FirstFailure(fetch, recs).None? <==> forall i :: 0 <= i < |recs| ==> !RaisesAt(fetch, recs, i)
    ensures FirstFailure(fetch, recs).Some? ==>
      exists i :: FirstRaise(fetch, recs, i) && FirstFailure(fetch, recs).value == recs[i].article.gistId
  {
    if recs != [] {
      var init := recs[..|recs| - 1];
      FirstFailureSpec(fetch, init);
      assert forall i :: 0 <= i < |init| ==> (RaisesAt(fetch, init, i) <==> RaisesAt(fetch, recs, i));
      if FirstFailure(fetch, init).Some? {
        var i :| FirstRaise(fetch, init, i) && FirstFailure(fetch, init).value == init[i].article.gistId;
        assert FirstRaise(fetch, recs, i);
      } else if fetch(recs[|recs| - 1].article.gistId).Raised? {
        assert FirstRaise(fetch, recs, |recs| - 1);
      }
    }
  }

  /** One loop step with no failure so far. */
  lemma FirstFailureSnoc(fetch: GistId -> Fetch, recs: seq<Record>, i: nat)
    requires i < |recs| && FirstFailure(fetch, recs[..i]).None?
    ensures FirstFailure(fetch, recs[..i + 1]).None? <==> !fetch(recs[i].article.gistId).Raised?
  {
    assert recs[..i + 1][..i] == recs[..i];
  }

  /** The first raising fetch of a prefix is the first of the whole. */
  lemma {:induction false} FirstFailureExtends(fetch: GistId -> Fetch, recs: seq<Record>, i: nat)
    requires i < |recs| && FirstFailure(fetch, recs[..i]).None?
    requires fetch(recs[i].article.gistId).Raised?
    ensures FirstFailure(fetch, recs) == Some(recs[i].article.gistId)
  {
    if i + 1 == |recs| {
      assert recs[..|recs| - 1] == recs[..i];
    } else {
      var init := recs[..|recs| - 1];
      assert init[..i] == recs[..i];
      FirstFailureExtends(fetch, init, i);
    }
  }

  // ---------------------------------------------------------------------
  // Entries
  // ---------------------------------------------------------------------

  function MakeEntry(env: Env, r: Record, owner: string): Entry
  {
    Entry(r.article.created, r.id, env.cleanText(r.article.title), r.article.articleType,
          env.cleanHtml(BodyOf(env.fetch(r.article.gistId))),
          env.cleanText(r.article.summary), r.article.slug, owner)
  }

  /** Entries of the public listings, each naming its article's owner. */
  function ListingEntries(env: Env, sel: seq<Record>): (es: seq<Entry>)
    ensures |es| == |sel|
  {
    if sel == [] then []
    else
      var r := sel[|sel| - 1];
      ListingEntries(env, sel[..|sel| - 1]) + [MakeEntry(env, r, env.usernameOf(r.article.owner))]
  }

  /** Entries of a profile page, each naming the profile's owner. */
  function ProfileEntries(env: Env, owner: string, sel: seq<Record>): (es: seq<Entry>)
    ensures |es| == |sel|
  {
    if sel == [] then []
    else ProfileEntries(env, owner, sel[..|sel| - 1]) + [MakeEntry(env, sel[|sel| - 1], owner)]
  }

  function MakeFeedEntry(env: Env, r: Record): FeedEntry
  {
    FeedEntry(r.article.slug, r.article.articleType, r.article.created,
              env.emailOf(r.article.owner), env.usernameOf(r.article.owner),
              r.article.updated, env.cleanText(r.article.title),
              env.cleanText(r.article.summary),
              env.cleanHtml(BodyOf(env.fetch(r.article.gistId))))
  }

  function FeedEntries(env: Env, sel: seq<Record>): (es: seq<FeedEntry>)
    ensures |es| == |sel|
  {
    if sel == [] then []
    else FeedEntries(env, sel[..|sel| - 1]) + [MakeFeedEntry(env, sel[|sel| - 1])]
  }

  lemma ListingEntriesSnoc(env: Env, sel: seq<Record>, r: Record)
    ensures ListingEntries(env, sel + [r]) ==
      ListingEntries(env, sel) + [MakeEntry(env, r, env.usernameOf(r.article.owner))]
  {
    assert (sel + [r])[..|sel|] == sel;
  }

  lemma ProfileEntriesSnoc(env: Env, owner: string, sel: seq<Record>, r: Record)
    ensures ProfileEntries(env, owner, sel + [r]) ==
      ProfileEntries(env, owner, sel) + [MakeEntry(env, r, owner)]
  {
    assert (sel + [r])[..|sel|] == sel;
  }

  lemma FeedEntriesSnoc(env: Env, sel: seq<Record>, r: Record)
    ensures FeedEntries(env, sel + [r]) == FeedEntries(env, sel) + [MakeFeedEntry(env, r)]
  {
    assert (sel + [r])[..|sel|] == sel;
  }

  // ---------------------------------------------------------------------
  // The public blog and guide listings
  // ---------------------------------------------------------------------

  /** The public blog: a fetch that raises only skips its article. */
  method BlogListing(env: Env, articles: seq<Record>) returns (blogposts: seq<Entry>)
    ensures blogposts == ListingEntries(env, Select(env.fetch, articles, PublicPosts))
  {
    blogposts := [];
    var i := 0;
    while i < |articles|
      invariant 0 <= i <= |articles|
      invariant blogposts == ListingEntries(env, Select(env.fetch, articles[..i], PublicPosts))
    {
      var article := articles[i];
      SelectSnoc(env.fetch, articles, i, PublicPosts);
      var content := env.fetch(article.article.gistId);
      if !content.Raised? && HasContent(content) {
        var entry := MakeEntry(env, article, env.usernameOf(article.article.owner));
        if article.article.articleType == "post" && article.article.public && !article.article.draft {
          ListingEntriesSnoc(env, Select(env.fetch, articles[..i], PublicPosts), article);
          blogposts := blogposts + [entry];
        }
      }
      i := i + 1;
    }
    assert articles[..i] == articles;
  }

  /** The public guides: a fetch that raises fails the whole page. */
  method GuideListing(env: Env, articles: seq<Record>) returns (res: Outcome<seq<Entry>>)
    ensures res.FetchFailed? ==> FirstFailure(env.fetch, articles) == Some(res.gistId)
    ensures res.Served? ==>
      && FirstFailure(env.fetch, articles) == None
      && res.value == ListingEntries(env, Select(env.fetch, articles, PublicGuides))
  {
    var guides := [];
    var i := 0;
    while i < |articles|
      invariant 0 <= i <= |articles|
      invariant FirstFailure(env.fetch, articles[..i]) == None
      invariant guides == ListingEntries(env, Select(env.fetch, articles[..i], PublicGuides))
    {
      var article := articles[i];
      SelectSnoc(env.fetch, articles, i, PublicGuides);
      var content := env.fetch(article.article.gistId);
      FirstFailureSnoc(env.fetch, articles, i);
      if content.Raised? {
        FirstFailureExtends(env.fetch, articles, i);
        return FetchFailed(article.article.gistId);
      }
      if HasContent(content) {
        var entry := MakeEntry(env, article, env.usernameOf(article.article.owner));
        if article.article.articleType == "guide" && article.article.public && !article.article.draft {
          ListingEntriesSnoc(env, Select(env.fetch, articles[..i], PublicGuides), article);
          guides := guides + [entry];
        }
      }
      i := i + 1;
    }
    assert articles[..i] == articles;
    res := Served(guides);
  }

  // ---------------------------------------------------------------------
  // The RSS feed
  // ---------------------------------------------------------------------

  const FEED_SIZE: nat := 10

  /** The articles the feed looks at: the first ten. */
  function Window(recs: seq<Record>): (w: seq<Record>)
    ensures |w| <= FEED_SIZE
    ensures w <= recs
    ensures |recs| <= FEED_SIZE ==> w == recs
    ensures |recs| > FEED_SIZE ==> w == recs[..FEED_SIZE]
  {
    if |recs| <= FEED_SIZE then recs else recs[..FEED_SIZE]
  }

  /** The running maximum of `updated` over the records with a body, drafts
      included, starting from the 1970 epoch. */
  function LastUpdated(fetch: GistId -> Fetch, recs: seq<Record>): (m: int)
    ensures m >= EPOCH
    ensures forall r :: r in recs && HasContent(fetch(r.article.gistId)) ==> r.article.updated <= m
    ensures m == EPOCH ||
      exists r :: r in recs && HasContent(fetch(r.article.gistId)) && r.article.updated == m
  {
    if recs == [] then EPOCH
    else
      var m0 := LastUpdated(fetch, recs[..|recs| - 1]);
      var last := recs[|recs| - 1];
      assert forall r :: r in recs ==> r in recs[..|recs| - 1] || r == last;
      if HasContent(fetch(last.article.gistId)) && last.article.updated > m0
      then last.article.updated else m0
  }

  lemma LastUpdatedSnoc(fetch: GistId -> Fetch, recs: seq<Record>, i: nat)
    requires i < |recs|
    ensures LastUpdated(fetch, recs[..i + 1]) ==
      var m := LastUpdated(fetch, recs[..i]);
      if HasContent(fetch(recs[i].article.gistId)) && recs[i].article.updated > m
      then recs[i].article.updated else m
  {
    assert recs[..i + 1][..i] == recs[..i];
  }

  /** The feed's date: the latest update, or `now` when none is later than
      the epoch. */
  function FeedStamp(fetch: GistId -> Fetch, recs: seq<Record>, now: int): (st: int)
    ensures st == now || st > EPOCH
  {
    var m := LastUpdated(fetch, recs);
    if m == EPOCH then now else m
  }

  /** The feed is dated `now` when no record with a body was updated after
      the epoch, and otherwise by the latest update among those records. */
  lemma FeedStampSpec(fetch: GistId -> Fetch, recs: seq<Record>, now: int)
    ensures var st := FeedStamp(fetch, recs, now);
      (forall r :: r in recs && HasContent(fetch(r.article.gistId)) ==> r.article.updated <= EPOCH)
      ==> st == now
    ensures var st := FeedStamp(fetch, recs, now);
      (exists r :: r in recs && HasContent(fetch(r.article.gistId)) && r.article.updated > EPOCH)
      ==> && st > EPOCH
          && (forall r :: r in recs && HasContent(fetch(r.article.gistId)) ==> r.article.updated <= st)
          && (exists r :: r in recs && HasContent(fetch(r.article.gistId)) && r.article.updated == st)
  {
  }

  /** The RSS feed over the first ten articles. */
  method RssFeed(env: Env, articles: seq<Record>, now: int) returns (res: Outcome<FeedView>)
    ensures res.FetchFailed? ==> FirstFailure(env.fetch, Window(articles)) == Some(res.gistId)
    ensures res.Served? ==>
      && FirstFailure(env.fetch, Window(articles)) == None
      && res.value.entries == FeedEntries(env, Select(env.fetch, Window(articles), Live))
      && |res.value.entries| <= FEED_SIZE
      && res.value.lastUpdated == FeedStamp(env.fetch, Window(articles), now)
  {
    res := FeedOf(env, Window(articles), now);
  }

  /** The feed's loop over the windowed articles. */
  method FeedOf(env: Env, window: seq<Record>, now: int) returns (res: Outcome<FeedView>)
    ensures res.FetchFailed? ==> FirstFailure(env.fetch, window) == Some(res.gistId)
    ensures res.Served? ==>
      && FirstFailure(env.fetch, window) == None
      && res.value.entries == FeedEntries(env, Select(env.fetch, window, Live))
      && res.value.lastUpdated == FeedStamp(env.fetch, window, now)
  {
    var lastUpdated := EPOCH;
    var entries := [];
    var i := 0;
    while i < |window|
      invariant 0 <= i <= |window|
      invariant FirstFailure(env.fetch, window[..i]) == None
      invariant lastUpdated == LastUpdated(env.fetch, window[..i])
      invariant entries == FeedEntries(env, Select(env.fetch, window[..i], Live))
    {
      var article := window[i];
      FeedStep(env, window, i);
      LastUpdatedSnoc(env.fetch, window, i);
      var content := env.fetch(article.article.gistId);
      FirstFailureSnoc(env.fetch, window, i);
      if content.Raised? {
        FirstFailureExtends(env.fetch, window, i);
        return FetchFailed(article.article.gistId);
      }
      if HasContent(content) {
        if article.article.updated > lastUpdated {
          lastUpdated := article.article.updated;
        }
        var entry := MakeFeedEntry(env, article);
        if !article.article.draft {
          entries := entries + [entry];
        }
      }
      i := i + 1;
    }
    assert window[..i] == window;
    if lastUpdated == EPOCH {
      lastUpdated := now;
    }
    res := Served(FeedView(lastUpdated, entries));
  }

  /** In any window, a draft with a body that was updated last dates the
      feed, yet it is not one of the feed's entries. */
  lemma DraftDatesFeed(fetch: GistId -> Fetch, window: seq<Record>, now: int, k: nat)
    requires k < |window|
    requires HasContent(fetch(window[k].article.gistId)) && window[k].article.draft
    requires window[k].article.updated > EPOCH
    requires forall j :: 0 <= j < |window| && HasContent(fetch(window[j].article.gistId)) ==>
      window[j].article.updated <= window[k].article.updated
    ensures FeedStamp(fetch, window, now) == window[k].article.updated
    ensures window[k] !in Select(fetch, window, Live)
  {
    var st := FeedStamp(fetch, window, now);
    FeedStampSpec(fetch, window, now);
    assert window[k] in window;
    var r :| r in window && HasContent(fetch(r.article.gistId)) && r.article.updated == st;
    var j :| 0 <= j < |window| && window[j] == r;
    if window[k] in Select(fetch, window, Live) {
      SelectSound(fetch, window, Live, window[k]);
      assert false;
    }
  }

  /** The feed's entries after one more record of the window. */
  lemma FeedStep(env: Env, window: seq<Record>, i: nat)
    requires i < |window|
    ensures HasContent(env.fetch(window[i].article.gistId)) && !window[i].article.draft ==>
      FeedEntries(env, Select(env.fetch, window[..i + 1], Live)) ==
      FeedEntries(env, Select(env.fetch, window[..i], Live)) + [MakeFeedEntry(env, window[i])]
    ensures !(HasContent(env.fetch(window[i].article.gistId)) && !window[i].article.draft) ==>
      FeedEntries(env, Select(env.fetch, window[..i + 1], Live)) ==
      FeedEntries(env, Select(env.fetch, window[..i], Live))
  {
    SelectSnoc(env.fetch, window, i, Live);
    FeedEntriesSnoc(env, Select(env.fetch, window[..i], Live), window[i]);
  }

  // ---------------------------------------------------------------------
  // A user's profile page
  // ---------------------------------------------------------------------

  /** The profile of `owner` (None when the username is unknown), listing
      `articles`, the owner's own records. */
  method UserProfile(env: Env, owner: Option<User>, articles: seq<Record>, gravatarStub: string)
    returns (view: ProfileView)
    ensures owner.None? <==> view.UnknownUser?
    ensures view.ProfileFetchFailed? ==>
      owner.Some? && FirstFailure(env.fetch, articles) == Some(view.gistId)
    ensures view.ProfilePage? ==>
      && FirstFailure(env.fetch, articles) == None
      && view.name == DisplayName(owner.value, env.cleanText)
      && view.bio == ProfileBio(owner.value, env.cleanText)
      && view.gravatarUrl == ProfileGravatar(owner.value, gravatarStub)
      && view.blogposts == ProfileEntries(env, env.cleanText(owner.value.username),
                                          Select(env.fetch, articles, LivePosts))
      && view.guides == ProfileEntries(env, env.cleanText(owner.value.username),
                                       Select(env.fetch, articles, LiveOthers))
  {
    if owner.None? {
      return UnknownUser;
    }
    var user := owner.value;
    var name := DisplayName(user, env.cleanText);
    var bio := ProfileBio(user, env.cleanText);
    var gravatarUrl := ProfileGravatar(user, gravatarStub);
    var shownOwner := env.cleanText(user.username);
    var blogposts := [];
    var guides := [];
    var i := 0;
    while i < |articles|
      invariant 0 <= i <= |articles|
      invariant FirstFailure(env.fetch, articles[..i]) == None
      invariant blogposts == ProfileEntries(env, shownOwner, Select(env.fetch, articles[..i], LivePosts))
      invariant guides == ProfileEntries(env, shownOwner, Select(env.fetch, articles[..i], LiveOthers))
    {
      var article := articles[i];
      SelectSnoc(env.fetch, articles, i, LivePosts);
      SelectSnoc(env.fetch, articles, i, LiveOthers);
      var content := env.fetch(article.article.gistId);
      FirstFailureSnoc(env.fetch, articles, i);
      if content.Raised? {
        FirstFailureExtends(env.fetch, articles, i);
        return ProfileFetchFailed(article.article.gistId);
      }
      if HasContent(content) {
        var entry := MakeEntry(env, article, shownOwner);
        if HasContent(content) && !article.article.draft {
          if article.article.articleType == "post" {
            ProfileEntriesSnoc(env, shownOwner, Select(env.fetch, articles[..i], LivePosts), article);
            blogposts := blogposts + [entry];
          } else {
            ProfileEntriesSnoc(env, shownOwner, Select(env.fetch, articles[..i], LiveOthers), article);
            guides := guides + [entry];
          }
        }
      }
      i := i + 1;
    }
    assert articles[..i] == articles;
    view := ProfilePage(name, bio, gravatarUrl, blogposts, guides);
  }
}
