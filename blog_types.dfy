/** Entities shared by the blog handlers: article records as the datastore
    holds them, the items of a user's gist listing, user profiles, and the
    answer of the remote content fetch. */
module BlogTypes {

  type ArticleId = nat
  type UserId = nat
  type GistId = string

  datatype Option<T> = None | Some(value: T)

  /** One stored article's metadata; its body lives on the gist host. */
  datatype Article = Article(
    title: string,
    summary: string,
    slug: string,
    articleType: string,
    owner: UserId,
    gistId: GistId,
    created: int,
    updated: int,
    public: bool,
    draft: bool)

  /** An article together with its datastore key, as a query yields it. */
  datatype Record = Record(id: ArticleId, article: Article)

  /** One item of a user's gist listing, as the gist host reports it. */
  datatype Gist = Gist(
    title: string,
    summary: string,
    gistId: GistId,
    articleType: string,
    published: int)

  /** A user profile; a field the user never filled in is "". */
  datatype User = User(
    id: UserId,
    username: string,
    name: string,
    lastName: string,
    bio: string,
    gravatarUrl: string)

  /** What a fetch of a gist's body gives: an exception, nothing, or text. */
  datatype Fetch = Raised | NoContent | Content(text: string)

  /** Python truthiness of the fetched body: present and non-empty. */
  predicate HasContent(f: Fetch)
  {
    f.Content? && f.text != ""
  }

  /** The fetched body, "" when there is none. */
  function BodyOf(f: Fetch): string
  {
    if f.Content? then f.text else ""
  }

  /** Timestamps are seconds since 1970-01-01; this is that date. */
  const EPOCH: int := 0
}
