/** Small pure decisions of the handlers: the logged-in menu's routing, the
    navigation pill of an article page, the profile header defaults and the
    decoding of the draft slider's request value. */
module Selectors {
  import opened BlogTypes

  // ---------------------------------------------------------------------
  // Menu routing (BlogUserMenuHandler)
  // ---------------------------------------------------------------------

  /** Where the logged-in menu redirects; all but Home carry the username. */
  datatype Route =
    | ArticleCreate(username: string)
    | ArticleList(username: string)
    | UserPage(username: string)
    | Home

  /** The menu id that leads to a route; Home has none of its own, since
      every unrecognised id leads there. */
  function MenuIdOf(r: Route): Option<string>
  {
    match r
    case ArticleCreate(_) => Some("newarticle")
    case ArticleList(_) => Some("myarticles")
    case UserPage(_) => Some("mystack")
    case Home => None
  }

  function MenuRoute(menuId: string, username: string): (r: Route)
    ensures r != Home <==> menuId in {"newarticle", "myarticles", "mystack"}
    ensures r != Home ==> MenuIdOf(r) == Some(menuId) && r.username == username
  {
    if menuId == "newarticle" then ArticleCreate(username)
    else if menuId == "myarticles" then ArticleList(username)
    else if menuId == "mystack" then UserPage(username)
    else Home
  }

  /** Every named route is reached from its own menu id. */
  lemma MenuRouteRoundTrip(r: Route)
    requires r != Home
    ensures MenuRoute(MenuIdOf(r).value, r.username) == r
  {
  }

  // ---------------------------------------------------------------------
  // Navigation pill of the article page
  // ---------------------------------------------------------------------

  /** Python's `sub in s` on strings: sub occurs somewhere in s. */
  predicate Contains(s: string, sub: string)
    decreases |s|
  {
    sub <= s || (s != [] && Contains(s[1..], sub))
  }

  /** sub occurs in s starting at position i. */
  predicate OccursAt(s: string, sub: string, i: int)
  {
    0 <= i && i + |sub| <= |s| && s[i..i + |sub|] == sub
  }

  /** `Contains` agrees with the positional definition of an occurrence. */
  lemma {:induction false} ContainsOccurs(s: string, sub: string)
    ensures Contains(s, sub) <==> exists i :: OccursAt(s, sub, i)
    decreases |s|
  {
    if sub <= s {
      assert OccursAt(s, sub, 0);
    } else if s == [] {
    } else {
      ContainsOccurs(s[1..], sub);
      if Contains(s[1..], sub) {
        var i :| OccursAt(s[1..], sub, i);
        assert s[1..][i..i + |sub|] == s[i + 1..i + 1 + |sub|];
        assert OccursAt(s, sub, i + 1);
      }
      if exists i :: OccursAt(s, sub, i) {
        var i :| OccursAt(s, sub, i);
        assert i != 0;
        assert s[1..][i - 1..i - 1 + |sub|] == s[i..i + |sub|];
        assert OccursAt(s[1..], sub, i - 1);
      }
    }
  }

  /** The pill is "guides" exactly when the article type in the URL has
      "guide" inside it ("guides" and "guide" both do), "blog" otherwise. */
  function MenuChoice(articleType: string): (pill: string)
    ensures pill == "guides" || pill == "blog"
    ensures pill == "guides" <==> exists i :: OccursAt(articleType, "guide", i)
  {
    ContainsOccurs(articleType, "guide");
    if Contains(articleType, "guide") then "guides" else "blog"
  }

  // ---------------------------------------------------------------------
  // Profile header defaults
  // ---------------------------------------------------------------------

  const BIO_PLACEHOLDER: string := "User has not completed their bio."

  /** Leaves text as it is; the article page shows names unsanitised. */
  function Verbatim(s: string): string
  {
    s
  }

  /** The shown name: first and last name when a first name is set, the
      username otherwise; `clean` is the sanitiser the page applies. */
  function DisplayName(u: User, clean: string -> string): (name: string)
    ensures u.name == "" ==> name == clean(u.username)
    ensures u.name != "" ==> clean(u.name) + " " <= name && name[|clean(u.name)| + 1..] == clean(u.lastName)
    ensures name == "" <==> u.name == "" && clean(u.username) == ""
  {
    if u.name == "" then clean(u.username) else clean(u.name) + " " + clean(u.lastName)
  }

  /** Without a first name the last name is not shown at all. */
  lemma DisplayNameIgnoresLastName(u: User, clean: string -> string, lastName: string)
    requires u.name == ""
    ensures DisplayName(u.(lastName := lastName), clean) == DisplayName(u, clean)
  {
  }

  /** The article page and the profile page show the same name whenever
      sanitising leaves the user's name fields alone. */
  lemma DisplayNameSanitisedAgrees(u: User, clean: string -> string)
    requires clean(u.username) == u.username
    requires clean(u.name) == u.name && clean(u.lastName) == u.lastName
    ensures DisplayName(u, clean) == DisplayName(u, Verbatim)
  {
  }

  /** The shown bio: the user's own (sanitised) or a fixed placeholder. */
  function ProfileBio(u: User, clean: string -> string): (bio: string)
    ensures u.bio == "" ==> bio == BIO_PLACEHOLDER
    ensures u.bio != "" ==> bio == clean(u.bio)
    ensures bio == "" <==> u.bio != "" && clean(u.bio) == ""
  {
    if u.bio == "" then BIO_PLACEHOLDER else clean(u.bio)
  }

  /** The shown avatar: the user's own URL or the site-wide stub. */
  function ProfileGravatar(u: User, stub: string): (url: string)
    ensures u.gravatarUrl != "" ==> url == u.gravatarUrl
    ensures u.gravatarUrl == "" ==> url == stub
    ensures stub != "" ==> url != ""
  {
    if u.gravatarUrl == "" then stub else u.gravatarUrl
  }
}
