/** The datastore's article table together with what the handlers send out:
    push-channel messages, flash messages for the next page, and the calls
    made to the gist host. The authenticated actions (fork, delete, draft
    toggle, create, cache flush) and the gist-sync job change it. */
module Store {
  import opened BlogTypes
  import opened Reconcile

  datatype Level = Success | Warning

  datatype Flash = Flash(text: string, level: Level)

  datatype ChannelMessage = ChannelMessage(token: string, payload: string)

  /** The calls into the gist host (and its content cache) the model records. */
  datatype RemoteCall =
    | FlushGist(gistId: GistId)
    | DeleteGist(gistId: GistId)
    | ForkGist(gistId: GistId)
    | CreateGist(title: string, summary: string, articleType: string, published: int)

  /** A route's article id, which the fork action accepts only as an integer. */
  datatype RouteArg = IntArg(n: nat) | TextArg(text: string)

  datatype CreateReply = ToArticleList | ReshowForm

  /** The cache-flush reply; NoSuchArticle is the exception the handler
      raises when the id is unknown. */
  datatype CacheReply = Reply(message: string) | NoSuchArticle

  const RELOAD: string := "reload"
  const DELETED: string := "Article successfully deleted!"
  const NOT_DELETED: string := "Article was not deleted.  Something went horribly wrong somewhere!"
  const NOT_CREATED: string := "Article was not created.  Something went horribly wrong somewhere!"
  const FLUSHED: string := "Article was flushed from cache."
  const NOT_FLUSHED: string := "Something went wrong flushing from cache!"

  function CreatedMessage(title: string): string
  {
    "Article \"" + title + "\" successfully created!"
  }

  /** The cache flushes the sync job asks for, one per gist, in order. */
  function FlushCalls(gists: seq<Gist>): (calls: seq<RemoteCall>)
    ensures |calls| == |gists|
    ensures forall k :: 0 <= k < |gists| ==> calls[k] == FlushGist(gists[k].gistId)
  {
    if gists == [] then []
    else FlushCalls(gists[..|gists| - 1]) + [FlushGist(gists[|gists| - 1].gistId)]
  }

  class BlogStore {
    var articles: map<ArticleId, Article>
    var nextId: nat
    var channel: seq<ChannelMessage>
    var flashes: seq<Flash>
    var remote: seq<RemoteCall>
    /** The configured secret the sync job's requests must carry. */
    const jobToken: string

    ghost predicate Valid()
      reads this
    {
      Allocated(Db(articles, nextId))
    }

    constructor (jobToken: string, articles: map<ArticleId, Article>, nextId: nat)
      requires Allocated(Db(articles, nextId))
      ensures Valid()
      ensures this.jobToken == jobToken && this.articles == articles && this.nextId == nextId
      ensures channel == [] && flashes == [] && remote == []
    {
      this.jobToken := jobToken;
      this.articles := articles;
      this.nextId := nextId;
      channel := [];
      flashes := [];
      remote := [];
    }

    /** The datastore's put of a new article under a freshly allocated id. */
    method Insert(a: Article) returns (id: ArticleId)
      requires Valid()
      modifies this`articles, this`nextId
      ensures Valid()
      ensures id == old(nextId) && id !in old(articles)
      ensures articles == old(articles)[id := a] && nextId == old(nextId) + 1
    {
      id := nextId;
      articles := articles[id := a];
      nextId := nextId + 1;
    }

    // -------------------------------------------------------------------
    // The gist-sync job (BlogBuildListHandler)
    // -------------------------------------------------------------------

    /** A sync request carrying `token` for `owner`; `listing` is the user's
        gist listing, None when fetching it raised. A wrong token, or a
        listing that could not be fetched, changes nothing and sends
        nothing. Otherwise every gist is reconciled in order, each one's
        cached body is flushed, and one "reload" goes to the channel. */
    method BuildList(token: string, owner: UserId, listing: Option<seq<Gist>>,
                     channelToken: string, rows: NewRows)
      requires Valid()
      modifies this
      ensures Valid()
      ensures token != jobToken || listing.None? ==>
        && articles == old(articles) && nextId == old(nextId)
        && channel == old(channel) && remote == old(remote) && flashes == old(flashes)
      ensures token == jobToken && listing.Some? ==>
        && Db(articles, nextId) == SyncAll(Db(old(articles), old(nextId)), owner, listing.value, rows)
        && remote == old(remote) + FlushCalls(listing.value)
        && channel == old(channel) + [ChannelMessage(channelToken, RELOAD)]
        && flashes == old(flashes)
    {
      if token != jobToken {
        return;
      }
      if listing.None? {
        return;
      }
      var gists := listing.value;
      var i := 0;
      while i < |gists|
        invariant 0 <= i <= |gists|
        invariant Valid()
        invariant Db(articles, nextId) == SyncAll(Db(old(articles), old(nextId)), owner, gists[..i], rows)
        invariant remote == old(remote) + FlushCalls(gists[..i])
        invariant channel == old(channel) && flashes == old(flashes)
      {
        var gist := gists[i];
        SyncAllSnoc(Db(old(articles), old(nextId)), owner, gists, i, rows);
        assert FlushCalls(gists[..i + 1]) == FlushCalls(gists[..i]) + [FlushGist(gist.gistId)] by {
          assert gists[..i + 1][..i] == gists[..i];
        }
        SyncGist(owner, gist, rows);
        i := i + 1;
      }
      assert gists[..i] == gists;
      channel := channel + [ChannelMessage(channelToken, RELOAD)];
    }

    /** One iteration of the sync loop: refresh the article the query finds
        for (owner, gist id), or insert a new one; then flush the gist's
        cached body. */
    method SyncGist(owner: UserId, gist: Gist, rows: NewRows)
      requires Valid()
      modifies this`articles, this`nextId, this`remote
      ensures Valid()
      ensures Db(articles, nextId) == SyncStep(Db(old(articles), old(nextId)), owner, gist, rows)
      ensures remote == old(remote) + [FlushGist(gist.gistId)]
    {
      var found := Lookup(articles, nextId, owner, gist.gistId);
      if found.Some? {
        articles := articles[found.value := Refreshed(articles[found.value], gist)];
      } else {
        var _ := Insert(FromGist(gist, owner, rows));
      }
      remote := remote + [FlushGist(gist.gistId)];
    }

    // -------------------------------------------------------------------
    // Article actions (BlogArticleActionsHandler)
    // -------------------------------------------------------------------

    /** Fork article `arg` for `user`; `forked` is the gist the host returns
        for the fork, None when it returns nothing. Any user may fork any
        article. */
    method Fork(user: UserId, arg: RouteArg, forked: Option<Gist>, rows: NewRows)
      requires Valid()
      modifies this
      ensures Valid()
      ensures channel == old(channel) && flashes == old(flashes)
      ensures !(arg.IntArg? && arg.n in old(articles)) ==>
        articles == old(articles) && nextId == old(nextId) && remote == old(remote)
      ensures arg.IntArg? && arg.n in old(articles) ==>
        && remote == old(remote) + [ForkGist(old(articles)[arg.n].gistId)]
        && (forked.None? ==> articles == old(articles) && nextId == old(nextId))
        && (forked.Some? ==>
              articles == old(articles)[old(nextId) := FromGist(forked.value, user, rows)] &&
              nextId == old(nextId) + 1)
    {
      if !arg.IntArg? {
        return;
      }
      var id := arg.n;
      if id in articles {
        remote := remote + [ForkGist(articles[id].gistId)];
        if forked.Some? {
          var _ := Insert(FromGist(forked.value, user, rows));
        }
      }
    }

    /** Delete article `id`, with its gist. No ownership check is made. */
    method Delete(id: ArticleId, channelToken: string)
      requires Valid()
      modifies this
      ensures Valid() && nextId == old(nextId)
      ensures id in old(articles) ==>
        && articles == old(articles) - {id}
        && remote == old(remote) + [DeleteGist(old(articles)[id].gistId)]
        && flashes == old(flashes) + [Flash(DELETED, Success)]
      ensures id !in old(articles) ==>
        && articles == old(articles) && remote == old(remote)
        && flashes == old(flashes) + [Flash(NOT_DELETED, Warning)]
      ensures channel == old(channel) + [ChannelMessage(channelToken, RELOAD)]
    {
      if id in articles {
        var gistId := articles[id].gistId;
        articles := articles - {id};
        remote := remote + [DeleteGist(gistId)];
        flashes := flashes + [Flash(DELETED, Success)];
      } else {
        flashes := flashes + [Flash(NOT_DELETED, Warning)];
      }
      channel := channel + [ChannelMessage(channelToken, RELOAD)];
    }

    /** Set article `id`'s draft flag from the slider's request value: only
        "false" publishes. No ownership check is made. */
    method SetDraft(id: ArticleId, value: string)
      requires Valid()
      modifies this`articles
      ensures Valid()
      ensures id in old(articles) ==>
        articles == old(articles)[id := old(articles)[id].(draft := value != "false")]
      ensures id !in old(articles) ==> articles == old(articles)
    {
      var draft := value != "false";
      if id in articles {
        articles := articles[id := articles[id].(draft := draft)];
      }
    }

    // -------------------------------------------------------------------
    // Creating an article (BlogArticleCreateHandler.post)
    // -------------------------------------------------------------------

    /** Create an article from the (validated, stripped) form fields at time
        `rows.now`; `newGistId` is the id the host gives the new gist. A gist
        id the user already has an article for adds nothing. */
    method Create(user: UserId, title: string, summary: string, articleType: string,
                  newGistId: GistId, rows: NewRows) returns (reply: CreateReply)
      requires Valid()
      modifies this
      ensures Valid() && channel == old(channel)
      ensures remote == old(remote) + [CreateGist(title, summary, articleType, rows.now)]
      ensures var known := Lookup(old(articles), old(nextId), user, newGistId);
        && (known.None? ==>
              && reply == ToArticleList
              && articles == old(articles)[old(nextId) :=
                   FromGist(Gist(title, summary, newGistId, articleType, rows.now), user, rows)]
              && nextId == old(nextId) + 1
              && flashes == old(flashes) + [Flash(CreatedMessage(title), Success)])
        && (known.Some? ==>
              && reply == ReshowForm
              && articles == old(articles) && nextId == old(nextId)
              && flashes == old(flashes) + [Flash(NOT_CREATED, Warning)])
    {
      var published := rows.now;
      remote := remote + [CreateGist(title, summary, articleType, published)];
      var known := Lookup(articles, nextId, user, newGistId);
      if known.None? {
        var _ := Insert(FromGist(Gist(title, summary, newGistId, articleType, published), user, rows));
        flashes := flashes + [Flash(CreatedMessage(title), Success)];
        reply := ToArticleList;
      } else {
        flashes := flashes + [Flash(NOT_CREATED, Warning)];
        reply := ReshowForm;
      }
    }

    // -------------------------------------------------------------------
    // Cache flush (BlogClearCacheHandler)
    // -------------------------------------------------------------------

    /** Flush article `id`'s cached body for `user`; `flushOk` is what the
        cache answers. Only the owner's request reaches the cache. */
    method ClearCache(id: ArticleId, user: UserId, flushOk: bool) returns (reply: CacheReply)
      requires Valid()
      modifies this`remote
      ensures id !in articles ==> reply == NoSuchArticle && remote == old(remote)
      ensures id in articles && articles[id].owner == user ==>
        remote == old(remote) + [FlushGist(articles[id].gistId)]
      ensures id in articles && articles[id].owner != user ==> remote == old(remote)
      ensures id in articles ==>
        reply == Reply(if articles[id].owner == user && flushOk then FLUSHED else NOT_FLUSHED)
    {
      if id !in articles {
        return NoSuchArticle;
      }
      var article := articles[id];
      if article.owner == user {
        remote := remote + [FlushGist(article.gistId)];
      }
      if article.owner == user && flushOk {
        reply := Reply(FLUSHED);
      } else {
        reply := Reply(NOT_FLUSHED);
      }
    }
  }
}
