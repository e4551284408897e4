/** The gist-sync job's reconciliation, over the datastore's article table as
    a value: for each gist of the user's listing, in order, the article keyed
    by (owner, gist id) is refreshed in place, or a new article is inserted
    when there is none. Nothing is ever deleted. */
module Reconcile {
  import opened BlogTypes

  /** The article table and the next id the datastore will allocate. */
  datatype Db = Db(articles: map<ArticleId, Article>, nextId: nat)

  /** How a new row is filled in beyond what the handler sets: the slug
      function and the Article model's defaults for `public`, `draft` and
      `updated`. */
  datatype NewRows = NewRows(slugify: string -> string, public: bool, draft: bool, now: int)

  /** Every stored id was allocated. */
  predicate Allocated(db: Db)
  {
    forall id :: id in db.articles ==> id < db.nextId
  }

  /** The reconciliation key. */
  predicate Keyed(a: Article, owner: UserId, gistId: GistId)
  {
    a.owner == owner && a.gistId == gistId
  }

  /** The query for the article of `owner` with `gistId`: the lowest such id
      below `bound`. */
  function Lookup(articles: map<ArticleId, Article>, bound: nat, owner: UserId, gistId: GistId)
    : (found: Option<ArticleId>)
    ensures found.Some? ==>
      found.value < bound && found.value in articles && Keyed(articles[found.value], owner, gistId)
    ensures found.Some? ==>
      forall id :: id < found.value && id in articles ==> !Keyed(articles[id], owner, gistId)
    ensures found.None? ==>
      forall id :: id < bound && id in articles ==> !Keyed(articles[id], owner, gistId)
    decreases bound
  {
    if bound == 0 then None
    else
      var below := Lookup(articles, bound - 1, owner, gistId);
      if below.Some? then below
      else if bound - 1 in articles && Keyed(articles[bound - 1], owner, gistId) then Some(bound - 1)
      else None
  }

  /** Two tables whose keyed articles are the same give the same answer. */
  lemma LookupFrame(m1: map<ArticleId, Article>, b1: nat, m2: map<ArticleId, Article>, b2: nat,
                    owner: UserId, gistId: GistId)
    requires b1 <= b2
    requires forall id :: id < b1 ==>
      ((id in m1 && Keyed(m1[id], owner, gistId)) <==> (id in m2 && Keyed(m2[id], owner, gistId)))
    requires forall id :: b1 <= id < b2 ==> !(id in m2 && Keyed(m2[id], owner, gistId))
    ensures Lookup(m1, b1, owner, gistId) == Lookup(m2, b2, owner, gistId)
  {
    var f1 := Lookup(m1, b1, owner, gistId);
    var f2 := Lookup(m2, b2, owner, gistId);
    if f1.Some? && f2.Some? {
      assert !(f1.value < f2.value) && !(f2.value < f1.value);
    }
  }

  /** An existing article refreshed from a gist: title, summary, gist id,
      type and `updated` change; slug, created, owner, public and draft stay. */
  function Refreshed(a: Article, g: Gist): (b: Article)
    ensures Carries(b, g) && Untouched(a, b) && b.updated == g.published
  {
    a.(title := g.title, summary := g.summary, gistId := g.gistId,
       articleType := g.articleType, updated := g.published)
  }

  /** A new article made from a gist for `owner`. */
  function FromGist(g: Gist, owner: UserId, rows: NewRows): (a: Article)
    ensures Carries(a, g) && Keyed(a, owner, g.gistId)
    ensures a.slug == rows.slugify(g.title) && a.created == g.published && a.updated == rows.now
    ensures a.public == rows.public && a.draft == rows.draft
  {
    Article(g.title, g.summary, rows.slugify(g.title), g.articleType, owner, g.gistId,
            g.published, rows.now, rows.public, rows.draft)
  }

  /** One iteration of the sync loop. */
  function SyncStep(db: Db, owner: UserId, g: Gist, rows: NewRows): (r: Db)
    ensures db.articles.Keys <= r.articles.Keys <= db.articles.Keys + {db.nextId}
    ensures r.nextId == db.nextId <==> Lookup(db.articles, db.nextId, owner, g.gistId).Some?
    ensures r.nextId != db.nextId ==> r.nextId == db.nextId + 1
  {
    match Lookup(db.articles, db.nextId, owner, g.gistId)
    case Some(id) => Db(db.articles[id := Refreshed(db.articles[id], g)], db.nextId)
    case None => Db(db.articles[db.nextId := FromGist(g, owner, rows)], db.nextId + 1)
  }

  /** The whole loop, over the gists in order. */
  function SyncAll(db: Db, owner: UserId, gists: seq<Gist>, rows: NewRows): (r: Db)
    ensures db.articles.Keys <= r.articles.Keys
    ensures db.nextId <= r.nextId <= db.nextId + |gists|
    ensures forall id :: id in r.articles && id !in db.articles ==> db.nextId <= id < r.nextId
  {
    if gists == [] then db
    else SyncStep(SyncAll(db, owner, gists[..|gists| - 1], rows), owner, gists[|gists| - 1], rows)
  }

  lemma SyncAllSnoc(db: Db, owner: UserId, gists: seq<Gist>, i: nat, rows: NewRows)
    requires i < |gists|
    ensures SyncAll(db, owner, gists[..i + 1], rows) ==
      SyncStep(SyncAll(db, owner, gists[..i], rows), owner, gists[i], rows)
  {
    assert gists[..i + 1][..i] == gists[..i];
  }

  // ---------------------------------------------------------------------
  // What a run keeps
  // ---------------------------------------------------------------------

  /** The fields sync never writes. */
  predicate Untouched(a: Article, b: Article)
  {
    a.slug == b.slug && a.created == b.created && a.owner == b.owner &&
    a.public == b.public && a.draft == b.draft
  }

  /** From `before` to `after` no article was removed, none lost its slug,
      creation date, owner or visibility, other owners' articles are as
      they were, and every added article is a new row of `owner`. */
  predicate Keeps(before: Db, after: Db, owner: UserId, rows: NewRows)
  {
    && before.nextId <= after.nextId
    && (forall id :: id in before.articles ==>
          && id in after.articles
          && Untouched(before.articles[id], after.articles[id])
          && (before.articles[id].owner != owner ==> after.articles[id] == before.articles[id]))
    && (forall id :: id in after.articles && id !in before.articles ==>
          && before.nextId <= id
          && after.articles[id].owner == owner
          && after.articles[id].public == rows.public
          && after.articles[id].draft == rows.draft)
  }

  /** One step: the gist's article now carries its title, summary, type and
      gist id; a refreshed article carries its `published` time as
      `updated`; a new one has slug = slugify(title), created = published
      and owner = the user; nothing else changes. */
  lemma SyncStepEffect(db: Db, owner: UserId, g: Gist, rows: NewRows)
    requires Allocated(db)
    ensures var db' := SyncStep(db, owner, g, rows);
      && Allocated(db')
      && Keeps(db, db', owner, rows)
      && Lookup(db'.articles, db'.nextId, owner, g.gistId).Some?
      && var id := Lookup(db'.articles, db'.nextId, owner, g.gistId).value;
         && Carries(db'.articles[id], g)
         && (id in db.articles ==> db'.articles[id].updated == g.published)
         && (id !in db.articles ==>
               db'.articles[id].slug == rows.slugify(g.title) &&
               db'.articles[id].created == g.published &&
               db'.articles[id].updated == rows.now)
         && (forall other :: other in db.articles && other != id ==>
               other in db'.articles && db'.articles[other] == db.articles[other])
  {
    var db' := SyncStep(db, owner, g, rows);
    match Lookup(db.articles, db.nextId, owner, g.gistId)
    case Some(id) =>
      LookupFrame(db.articles, db.nextId, db'.articles, db'.nextId, owner, g.gistId);
    case None =>
      var id := db.nextId;
      assert Keyed(db'.articles[id], owner, g.gistId);
      assert forall j :: j < id && j in db'.articles ==> j in db.articles && db'.articles[j] == db.articles[j];
      assert Lookup(db'.articles, db'.nextId, owner, g.gistId) == Some(id);
  }

  /** An article carries a gist's data. */
  predicate Carries(a: Article, g: Gist)
  {
    a.title == g.title && a.summary == g.summary && a.articleType == g.articleType &&
    a.gistId == g.gistId
  }

  lemma KeepsTransitive(d0: Db, d1: Db, d2: Db, owner: UserId, rows: NewRows)
    requires Keeps(d0, d1, owner, rows) && Keeps(d1, d2, owner, rows)
    ensures Keeps(d0, d2, owner, rows)
  {
  }

  /** A whole run deletes nothing, keeps every article's slug, creation
      date, owner and visibility, leaves other owners' articles alone, and
      only adds rows owned by the user. */
  lemma {:induction false} SyncKeeps(db: Db, owner: UserId, gists: seq<Gist>, rows: NewRows)
    requires Allocated(db)
    ensures Allocated(SyncAll(db, owner, gists, rows))
    ensures Keeps(db, SyncAll(db, owner, gists, rows), owner, rows)
  {
    if gists != [] {
      var init := gists[..|gists| - 1];
      SyncKeeps(db, owner, init, rows);
      var mid := SyncAll(db, owner, init, rows);
      SyncStepEffect(mid, owner, gists[|gists| - 1], rows);
      KeepsTransitive(db, mid, SyncAll(db, owner, gists, rows), owner, rows);
    }
  }

  /** A step for one gist leaves the article of any other gist id alone. */
  lemma SyncStepFrame(db: Db, owner: UserId, g: Gist, rows: NewRows, gistId: GistId)
    requires Allocated(db) && gistId != g.gistId
    ensures var db' := SyncStep(db, owner, g, rows);
      && Lookup(db'.articles, db'.nextId, owner, gistId) == Lookup(db.articles, db.nextId, owner, gistId)
      && (Lookup(db.articles, db.nextId, owner, gistId).Some? ==>
            var id := Lookup(db.articles, db.nextId, owner, gistId).value;
            db'.articles[id] == db.articles[id])
  {
    var db' := SyncStep(db, owner, g, rows);
    LookupFrame(db.articles, db.nextId, db'.articles, db'.nextId, owner, gistId);
  }

  /** No gist after position i has the same gist id. */
  predicate LastOfItsId(gists: seq<Gist>, i: int)
  {
    0 <= i < |gists| && forall j :: i < j < |gists| ==> gists[j].gistId != gists[i].gistId
  }

  /** After a run, every gist of the listing has an article of the user, and
      the last gist with each id is what that article carries. */
  lemma {:induction false} SyncCovers(db: Db, owner: UserId, gists: seq<Gist>, rows: NewRows, i: nat)
    requires Allocated(db) && LastOfItsId(gists, i)
    ensures var db' := SyncAll(db, owner, gists, rows);
      && Lookup(db'.articles, db'.nextId, owner, gists[i].gistId).Some?
      && Carries(db'.articles[Lookup(db'.articles, db'.nextId, owner, gists[i].gistId).value], gists[i])
  {
    var init := gists[..|gists| - 1];
    var last := gists[|gists| - 1];
    SyncKeeps(db, owner, init, rows);
    var mid := SyncAll(db, owner, init, rows);
    if i == |gists| - 1 {
      SyncStepEffect(mid, owner, last, rows);
    } else {
      assert LastOfItsId(init, i);
      SyncCovers(db, owner, init, rows, i);
      SyncStepFrame(mid, owner, last, rows, gists[i].gistId);
    }
  }

  // ---------------------------------------------------------------------
  // The reconciliation key stays a key
  // ---------------------------------------------------------------------

  /** No owner has two articles with the same gist id. */
  predicate UniqueKeys(articles: map<ArticleId, Article>)
  {
    forall i, j :: i in articles && j in articles && i != j && articles[i].owner == articles[j].owner
      ==> articles[i].gistId != articles[j].gistId
  }

  lemma SyncStepUnique(db: Db, owner: UserId, g: Gist, rows: NewRows)
    requires Allocated(db) && UniqueKeys(db.articles)
    ensures UniqueKeys(SyncStep(db, owner, g, rows).articles)
  {
  }

  /** A run keeps (owner, gist id) unique, so each gist maps to exactly one
      article of the user. */
  lemma {:induction false} SyncUnique(db: Db, owner: UserId, gists: seq<Gist>, rows: NewRows)
    requires Allocated(db) && UniqueKeys(db.articles)
    ensures UniqueKeys(SyncAll(db, owner, gists, rows).articles)
  {
    if gists != [] {
      var init := gists[..|gists| - 1];
      SyncUnique(db, owner, init, rows);
      SyncKeeps(db, owner, init, rows);
      SyncStepUnique(SyncAll(db, owner, init, rows), owner, gists[|gists| - 1], rows);
    }
  }

  /** With unique keys, the article a gist id maps to is the only one. */
  lemma LookupOnly(db: Db, owner: UserId, gistId: GistId, id: ArticleId)
    requires Allocated(db) && UniqueKeys(db.articles)
    requires id in db.articles && Keyed(db.articles[id], owner, gistId)
    ensures Lookup(db.articles, db.nextId, owner, gistId) == Some(id)
  {
  }
}
