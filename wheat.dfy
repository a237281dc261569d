/** The default route table (first matching route wins) and `render`, which resolves an empty
    version to the head sha, applies the renderer and turns its callback into a reply. */
module Wheat {
  import opened Types
  import opened Renderers

  // ----- character classes and path shapes of the route patterns -----

  /** `[a-f0-9]` */
  predicate IsHex(c: char) { '0' <= c <= '9' || 'a' <= c <= 'f' }

  /** `[a-z0-9_-]` */
  predicate IsSlugChar(c: char) { 'a' <= c <= 'z' || '0' <= c <= '9' || c == '_' || c == '-' }

  /** `[a-z]` */
  predicate IsLower(c: char) { 'a' <= c <= 'z' }

  /** The characters a JavaScript `.` does not match. */
  predicate IsLineTerminator(c: char)
  {
    c == '\n' || c == '\r' || c == '\U{2028}' || c == '\U{2029}'
  }

  /** `[a-f0-9]{40}`: a version sha. */
  predicate IsSha(s: string)
  {
    |s| == 40 && forall i :: 0 <= i < |s| ==> IsHex(s[i])
  }

  /** `[a-z0-9_-]+`: an article or tag slug. */
  predicate IsSlug(s: string)
  {
    |s| > 0 && forall i :: 0 <= i < |s| ==> IsSlugChar(s[i])
  }

  /** Every character matches `.`. */
  predicate OnOneLine(s: string)
  {
    forall i :: 0 <= i < |s| ==> !IsLineTerminator(s[i])
  }

  /** `.+\.dot` */
  predicate IsDotPath(s: string)
  {
    |s| >= 5 && OnOneLine(s) && s[|s| - 4..] == ".dot"
  }

  /** s ends with '.' and k lower-case letters, with at least one character before the '.'. */
  predicate HasExtension(s: string, k: nat)
  {
    k + 2 <= |s| && s[|s| - k - 1] == '.' && forall i :: |s| - k <= i < |s| ==> IsLower(s[i])
  }

  /** `.+\.[a-z]{2,4}` */
  predicate IsExtPath(s: string)
  {
    OnOneLine(s) && (HasExtension(s, 2) || HasExtension(s, 3) || HasExtension(s, 4))
  }

  /** `s` is "feed", one character that `.` matches, then "xml": the paths "/" + s the feed
      pattern as written matches. */
  predicate FeedShaped(s: string)
  {
    |s| == 8 && s[..4] == "feed" && !IsLineTerminator(s[4]) && s[5..] == "xml"
  }

  // ----- the route table -----

  /** The regular expressions of the route table. FeedXmlAsWritten is `/^\/()feed.xml$/`, whose
      unescaped `.` matches any character; FeedXml is the literal path it is meant to match. */
  datatype Pattern =
    | Root              // ^\/()$
    | FeedXml           // ^\/()feed\.xml$
    | FeedXmlAsWritten  // ^\/()feed.xml$
    | TagsList          // ^\/()tags\/?$
    | TagName           // ^\/()tag\/([a-z0-9_-]+)$
    | VersionedSlug     // ^\/([a-f0-9]{40})\/([a-z0-9_-]+)$
    | VersionedDot      // ^\/([a-f0-9]{40})\/(.+\.dot)$
    | VersionedExt      // ^\/([a-f0-9]{40})\/(.+\.[a-z]{2,4})$
    | Slug              // ^\/()([a-z0-9_-]+)$
    | Dot               // ^\/()(.+\.dot)$
    | Ext               // ^\/()(.+\.[a-z]{2,4})$

  /** The sha and the rest of a path of the form `/<40 hex>/<rest>`. */
  function Versioned(path: string): Option<(string, string)>
  {
    if 42 <= |path| && path[0] == '/' && IsSha(path[1..41]) && path[41] == '/'
    then Some((path[1..41], path[42..])) else None
  }

  /** The number of capture groups of a pattern: the parameters it hands to its renderer. */
  function Captures(p: Pattern): nat
  {
    match p
    case Root | FeedXml | FeedXmlAsWritten | TagsList => 1
    case _ => 2
  }

  /** The captures of `p` on `path` (`req.params`), or None when `p` does not match. */
  function Match(p: Pattern, path: string): (r: Option<seq<string>>)
    ensures r.Some? ==> |r.value| == Captures(p)
  {
    match p
    case Root => if path == "/" then Some([""]) else None
    case FeedXml => if path == "/feed.xml" then Some([""]) else None
    case FeedXmlAsWritten =>
      if 1 <= |path| && path[0] == '/' && FeedShaped(path[1..]) then Some([""]) else None
    case TagsList => if path == "/tags" || path == "/tags/" then Some([""]) else None
    case TagName => if 5 <= |path| && path[..5] == "/tag/" && IsSlug(path[5..]) then Some(["", path[5..]]) else None
    case VersionedSlug =>
      (match Versioned(path)
       case Some((v, rest)) => if IsSlug(rest) then Some([v, rest]) else None
       case None => None)
    case VersionedDot =>
      (match Versioned(path)
       case Some((v, rest)) => if IsDotPath(rest) then Some([v, rest]) else None
       case None => None)
    case VersionedExt =>
      (match Versioned(path)
       case Some((v, rest)) => if IsExtPath(rest) then Some([v, rest]) else None
       case None => None)
    case Slug => if 1 <= |path| && path[0] == '/' && IsSlug(path[1..]) then Some(["", path[1..]]) else None
    case Dot => if 1 <= |path| && path[0] == '/' && IsDotPath(path[1..]) then Some(["", path[1..]]) else None
    case Ext => if 1 <= |path| && path[0] == '/' && IsExtPath(path[1..]) then Some(["", path[1..]]) else None
  }

  type Table = seq<(Pattern, Renderer)>

  /** defaultSetup's routes, in registration order, as the source writes them. */
  const Routes: Table := [
    (Root, Index), (FeedXmlAsWritten, Feed), (TagsList, Tags), (TagName, Tag),
    (VersionedSlug, Renderer.Article), (VersionedDot, DotFile), (VersionedExt, StaticFile),
    (Slug, Renderer.Article), (Dot, DotFile), (Ext, StaticFile)]

  /** The same routes with the feed pattern matching only "/feed.xml". */
  const FixedRoutes: Table := Routes[1 := (FeedXml, Feed)]

  /** Every route hands its renderer as many parameters as the renderer takes. */
  predicate WellFormed(table: Table)
  {
    forall i :: 0 <= i < |table| ==> Captures(table[i].0) == Arity(table[i].1)
  }

  /** The index of the first route at or after k whose pattern matches `path`. */
  function FirstIndex(table: Table, path: string, k: nat): (r: Option<nat>)
    requires k <= |table|
    decreases |table| - k
    ensures r.Some? ==> k <= r.value < |table| && Match(table[r.value].0, path).Some?
    ensures r.Some? ==> forall j :: k <= j < r.value ==> Match(table[j].0, path).None?
    ensures r.None? ==> forall j :: k <= j < |table| ==> Match(table[j].0, path).None?
  {
    if k == |table| then None
    else if Match(table[k].0, path).Some? then Some(k)
    else FirstIndex(table, path, k + 1)
  }

  /** The renderer a request path goes to, with the parameters the pattern captured. */
  datatype Route = Route(renderer: Renderer, params: seq<string>)

  function DispatchIn(table: Table, path: string): (r: Option<Route>)
    ensures r.None? <==> forall j :: 0 <= j < |table| ==> Match(table[j].0, path).None?
    ensures WellFormed(table) && r.Some? ==> |r.value.params| == Arity(r.value.renderer)
  {
    match FirstIndex(table, path, 0)
    case None => None
    case Some(i) => Some(Route(table[i].1, Match(table[i].0, path).value))
  }

  /** The route defaultSetup's router takes for a path. */
  function Dispatch(path: string): Option<Route>
  {
    DispatchIn(Routes, path)
  }

  /** First match wins: the route at i is taken when it matches and no earlier one does. */
  lemma DispatchAt(table: Table, path: string, i: nat)
    requires i < |table| && Match(table[i].0, path).Some?
    requires forall j :: 0 <= j < i ==> Match(table[j].0, path).None?
    ensures DispatchIn(table, path) == Some(Route(table[i].1, Match(table[i].0, path).value))
  {
    var r := FirstIndex(table, path, 0);
    assert r.Some?;
    assert r.value == i;
  }

  /** Both tables hand every renderer the parameters it expects. */
  lemma TablesWellFormed()
    ensures WellFormed(Routes) && WellFormed(FixedRoutes)
  {
  }

  // ----- which paths go where -----

  lemma ShaChar(v: string, i: nat)
    requires IsSha(v) && i < |v|
    ensures v[i] != '/' && v[i] != '.'
  {
    assert IsHex(v[i]);
  }

  /** A slug holds neither '.' nor '/'. */
  lemma SlugChars(s: string)
    requires IsSlug(s)
    ensures '.' !in s && '/' !in s
  {
    assert forall i :: 0 <= i < |s| ==> IsSlugChar(s[i]);
  }

  /** A string with a '.' or a '/' at i is not a slug. */
  lemma NotSlug(s: string, i: nat)
    requires i < |s| && (s[i] == '.' || s[i] == '/')
    ensures !IsSlug(s)
  {
    assert !IsSlugChar(s[i]);
  }

  /** `path` does not begin with a version segment. */
  predicate Unversioned(path: string)
  {
    !(41 <= |path| && IsSha(path[..40]) && path[40] == '/')
  }

  /** What each pattern makes of a path "/" + s. */
  lemma PlainPath(s: string)
    ensures Match(Root, "/" + s).Some? <==> s == ""
    ensures Match(FeedXml, "/" + s).Some? <==> s == "feed.xml"
    ensures Match(FeedXmlAsWritten, "/" + s).Some? <==> FeedShaped(s)
    ensures Match(TagsList, "/" + s).Some? <==> s == "tags" || s == "tags/"
    ensures Match(TagName, "/" + s).Some? <==> 4 <= |s| && s[..4] == "tag/" && IsSlug(s[4..])
    ensures Versioned("/" + s).Some? <==> !Unversioned(s)
    ensures Match(Slug, "/" + s) == if IsSlug(s) then Some(["", s]) else None
    ensures Match(Dot, "/" + s) == if IsDotPath(s) then Some(["", s]) else None
    ensures Match(Ext, "/" + s) == if IsExtPath(s) then Some(["", s]) else None
  {
    var p := "/" + s;
    assert p[1..] == s;
    assert "/feed.xml" == "/" + "feed.xml" && "/tags" == "/" + "tags" && "/tags/" == "/" + "tags/";
    assert |p| >= 5 ==> p[..5] == "/" + s[..4] && p[5..] == s[4..];
    assert "/tag/" == "/" + "tag/";
    assert |p| >= 42 ==> p[1..41] == s[..40] && p[41] == s[40];
  }

  /** A path "/" + s that is not the root, the feed, the tag list, a tag or versioned misses
      the first seven routes of the corrected table. */
  lemma PlainMisses(s: string)
    requires s != "" && s != "feed.xml" && s != "tags" && s != "tags/" && Unversioned(s)
    requires !(4 <= |s| && s[..4] == "tag/" && IsSlug(s[4..]))
    ensures forall j :: 0 <= j < 7 ==> Match(FixedRoutes[j].0, "/" + s).None?
  {
    PlainPath(s);
  }

  /** In the table as written such a path misses the first seven routes too, unless it is one
      of the paths "/feed" + c + "xml". */
  lemma PlainMissesAsWritten(s: string)
    requires s != "" && s != "feed.xml" && s != "tags" && s != "tags/" && Unversioned(s)
    requires !(4 <= |s| && s[..4] == "tag/" && IsSlug(s[4..]))
    requires !FeedShaped(s)
    ensures forall j :: 0 <= j < 7 ==> Match(Routes[j].0, "/" + s).None?
  {
    PlainMisses(s);
    PlainPath(s);
    assert forall j :: 0 <= j < 7 && j != 1 ==> Routes[j] == FixedRoutes[j];
  }

  /** What each pattern makes of a path "/" + v + "/" + rest, v a sha. */
  lemma VersionedPath(v: string, rest: string)
    requires IsSha(v)
    ensures Versioned("/" + v + "/" + rest) == Some((v, rest))
    ensures Match(Root, "/" + v + "/" + rest).None?
    ensures Match(FeedXml, "/" + v + "/" + rest).None?
    ensures Match(FeedXmlAsWritten, "/" + v + "/" + rest).None?
    ensures Match(TagsList, "/" + v + "/" + rest).None?
    ensures Match(TagName, "/" + v + "/" + rest).None?
  {
    var p := "/" + v + "/" + rest;
    assert p[1..41] == v && p[41] == '/' && p[42..] == rest;
    ShaChar(v, 3);
    assert p[..5][4] == p[4] == v[3];
  }

  /** From k on, the two tables pick the same route for a path on which the two feed patterns agree. */
  lemma {:induction false} FirstIndexAgree(p: string, k: nat)
    requires k <= |Routes| && Match(FeedXmlAsWritten, p) == Match(FeedXml, p)
    decreases |Routes| - k
    ensures FirstIndex(Routes, p, k) == FirstIndex(FixedRoutes, p, k)
  {
    if k < |Routes| {
      assert Match(Routes[k].0, p) == Match(FixedRoutes[k].0, p);
      FirstIndexAgree(p, k + 1);
    }
  }

  /** Where the two feed patterns agree on a path, the table as written routes it like the
      corrected table. */
  lemma SameDispatch(p: string)
    requires Match(FeedXmlAsWritten, p) == Match(FeedXml, p)
    ensures Dispatch(p) == DispatchIn(FixedRoutes, p)
  {
    FirstIndexAgree(p, 0);
    forall i | 0 <= i < |Routes|
      ensures Routes[i].1 == FixedRoutes[i].1 && Match(Routes[i].0, p) == Match(FixedRoutes[i].0, p)
    {
    }
  }

  /** A path "/" + s the feed pattern as written does not match is routed alike by both tables. */
  lemma PlainSameDispatch(s: string)
    requires !FeedShaped(s)
    ensures Dispatch("/" + s) == DispatchIn(FixedRoutes, "/" + s)
  {
    PlainPath(s);
    var f := "feed.xml";
    assert f[..4] == "feed" && f[5..] == "xml";
    SameDispatch("/" + s);
  }

  /** The first route that matches wins: "/" goes to index with the single, empty, parameter. */
  lemma RootRoute()
    ensures DispatchIn(FixedRoutes, "/") == Some(Route(Index, [""]))
    ensures Dispatch("/") == Some(Route(Index, [""]))
  {
    DispatchAt(FixedRoutes, "/", 0);
    SameDispatch("/");
  }

  /** "/feed.xml" goes to the feed although it also has the shape of a static file: the feed's
      route comes first. The same holds in the table as written. */
  lemma FeedRoute()
    ensures Match(Ext, "/feed.xml") == Some(["", "feed.xml"])
    ensures DispatchIn(FixedRoutes, "/feed.xml") == Some(Route(Feed, [""]))
    ensures Dispatch("/feed.xml") == Some(Route(Feed, [""]))
  {
    FeedHasExtension();
    var p := "/feed.xml";
    DispatchAt(FixedRoutes, p, 1);
    var s := "feed.xml";
    assert p[1..] == s && s[..4] == "feed" && s[5..] == "xml";
    DispatchAt(Routes, p, 1);
  }

  lemma FeedHasExtension()
    ensures Match(Ext, "/feed.xml") == Some(["", "feed.xml"])
  {
    var s := "feed.xml";
    assert ("/" + s)[1..] == s;
    forall i | 0 <= i < |s| ensures !IsLineTerminator(s[i]) {
      assert s[i] in "fedxml.";
    }
    assert HasExtension(s, 3);
  }

  /** "/tags" and "/tags/" go to the tag list. */
  lemma TagsRoute()
    ensures DispatchIn(FixedRoutes, "/tags") == Some(Route(Tags, [""]))
    ensures DispatchIn(FixedRoutes, "/tags/") == Some(Route(Tags, [""]))
    ensures Dispatch("/tags") == Some(Route(Tags, [""]))
    ensures Dispatch("/tags/") == Some(Route(Tags, [""]))
  {
    TagsRouteNoSlash();
    TagsRouteSlash();
  }

  /** "/tags" alone; kept apart from "/tags/" so that each proof stays small. */
  lemma TagsRouteNoSlash()
    ensures DispatchIn(FixedRoutes, "/tags") == Some(Route(Tags, [""]))
    ensures Dispatch("/tags") == Some(Route(Tags, [""]))
  {
    var p := "/tags";
    assert p[..5][4] == 's' && "/tag/"[4] == '/';
    DispatchAt(FixedRoutes, p, 2);
    SameDispatch(p);
  }

  /** "/tags/" alone; kept apart from "/tags" so that each proof stays small. */
  lemma TagsRouteSlash()
    ensures DispatchIn(FixedRoutes, "/tags/") == Some(Route(Tags, [""]))
    ensures Dispatch("/tags/") == Some(Route(Tags, [""]))
  {
    var p := "/tags/";
    assert p[..5][4] == 's' && "/tag/"[4] == '/';
    DispatchAt(FixedRoutes, p, 2);
    SameDispatch(p);
  }

  /** "/tag/<slug>" goes to tag with parameters ["", slug]. */
  lemma TagRoute(slug: string)
    requires IsSlug(slug)
    ensures DispatchIn(FixedRoutes, "/tag/" + slug) == Some(Route(Tag, ["", slug]))
    ensures Dispatch("/tag/" + slug) == Some(Route(Tag, ["", slug]))
  {
    TagRouteCorrected(slug);
    var s := "tag/" + slug;
    assert "/" + s == "/tag/" + slug;
    assert s[..4] == "tag/" && "tag/"[1] == 'a' && "feed"[1] == 'e';
    PlainSameDispatch(s);
  }

  lemma TagRouteCorrected(slug: string)
    requires IsSlug(slug)
    ensures DispatchIn(FixedRoutes, "/tag/" + slug) == Some(Route(Tag, ["", slug]))
  {
    var s := "tag/" + slug;
    PlainPath(s);
    assert "/" + s == "/tag/" + slug;
    assert s[..4] == "tag/" && s[4..] == slug;
    assert s != "feed.xml" && s != "tags" && s != "tags/" by {
      assert s[3] == '/' && "feed.xml"[3] == 'd' && "tags"[3] == 's' && "tags/"[3] == 's';
    }
    DispatchAt(FixedRoutes, "/tag/" + slug, 3);
  }

  /** "/<sha>/<slug>" goes to article with parameters [sha, slug]. */
  lemma VersionedArticleRoute(v: string, slug: string)
    requires IsSha(v) && IsSlug(slug)
    ensures DispatchIn(FixedRoutes, "/" + v + "/" + slug) == Some(Route(Renderer.Article, [v, slug]))
    ensures Dispatch("/" + v + "/" + slug) == Some(Route(Renderer.Article, [v, slug]))
  {
    VersionedPath(v, slug);
    DispatchAt(FixedRoutes, "/" + v + "/" + slug, 4);
    SameDispatch("/" + v + "/" + slug);
  }

  /** In the corrected table "/<slug>" goes to article with parameters ["", slug], unless the
      slug is "tags". */
  lemma SlugRoute(slug: string)
    requires IsSlug(slug) && slug != "tags"
    ensures DispatchIn(FixedRoutes, "/" + slug) == Some(Route(Renderer.Article, ["", slug]))
  {
    PlainPath(slug);
    SlugChars(slug);
    assert '.' in "feed.xml" && '/' in "tags/";
    assert 4 <= |slug| ==> slug[..4][3] == slug[3] && "tag/"[3] == '/';
    assert 41 <= |slug| ==> slug[40] != '/';
    DispatchAt(FixedRoutes, "/" + slug, 7);
  }

  /** In the table as written "/<slug>" goes to article as well, unless the slug is "tags" or
      has the shape "feed" + c + "xml". */
  lemma SlugRouteAsWritten(slug: string)
    requires IsSlug(slug) && slug != "tags" && !FeedShaped(slug)
    ensures Dispatch("/" + slug) == Some(Route(Renderer.Article, ["", slug]))
  {
    PlainPath(slug);
    SlugChars(slug);
    assert '.' in "feed.xml";
    SlugRoute(slug);
    SameDispatch("/" + slug);
  }

  /** In the table as written every path "/feed" + c + "xml" goes to the feed. */
  lemma FeedShapedRoute(s: string)
    requires FeedShaped(s)
    ensures Dispatch("/" + s) == Some(Route(Feed, [""]))
  {
    PlainPath(s);
    DispatchAt(Routes, "/" + s, 1);
  }

  /** A path ending in ".dot" fits the static-file shape as well, and is no slug. */
  lemma DotAlsoHasExtension(path: string)
    requires IsDotPath(path)
    ensures IsExtPath(path) && !IsSlug(path)
  {
    var n := |path|;
    assert path[n - 4] == path[n - 4..][0] == '.';
    assert path[n - 3] == path[n - 4..][1] && path[n - 2] == path[n - 4..][2] && path[n - 1] == path[n - 4..][3];
    assert HasExtension(path, 3);
    NotSlug(path, n - 4);
  }

  /** A static-file path has a '.' past its first character, so it is no slug, and no slug follows "tag/". */
  lemma ExtPathNotSlug(path: string)
    requires IsExtPath(path)
    ensures '.' in path && !IsSlug(path)
    ensures 4 <= |path| && path[..4] == "tag/" ==> !IsSlug(path[4..])
  {
    var d: nat := if HasExtension(path, 2) then |path| - 3
                  else if HasExtension(path, 3) then |path| - 4
                  else |path| - 5;
    assert 1 <= d < |path| && path[d] == '.';
    NotSlug(path, d);
    if 4 <= |path| && path[..4] == "tag/" {
      forall i | 0 <= i < 4 ensures path[i] != '.' {
        assert path[i] == path[..4][i];
      }
      assert path[4..][d - 4] == path[d];
      NotSlug(path[4..], d - 4);
    }
  }

  /** "/<sha>/<path>.dot" goes to dotFile with [sha, path], though the static-file route matches too. */
  lemma VersionedDotRoute(v: string, path: string)
    requires IsSha(v) && IsDotPath(path)
    ensures Match(VersionedExt, "/" + v + "/" + path).Some?
    ensures DispatchIn(FixedRoutes, "/" + v + "/" + path) == Some(Route(DotFile, [v, path]))
    ensures Dispatch("/" + v + "/" + path) == Some(Route(DotFile, [v, path]))
  {
    VersionedPath(v, path);
    DotAlsoHasExtension(path);
    DispatchAt(FixedRoutes, "/" + v + "/" + path, 5);
    SameDispatch("/" + v + "/" + path);
  }

  /** "/<sha>/<path>.<ext>", the extension not "dot", goes to staticFile with [sha, path]. */
  lemma VersionedStaticRoute(v: string, path: string)
    requires IsSha(v) && IsExtPath(path) && !IsDotPath(path)
    ensures DispatchIn(FixedRoutes, "/" + v + "/" + path) == Some(Route(StaticFile, [v, path]))
    ensures Dispatch("/" + v + "/" + path) == Some(Route(StaticFile, [v, path]))
  {
    VersionedPath(v, path);
    ExtPathNotSlug(path);
    VersionedStaticAt("/" + v + "/" + path, v, path);
    SameDispatch("/" + v + "/" + path);
  }

  lemma VersionedStaticAt(p: string, v: string, path: string)
    requires Versioned(p) == Some((v, path)) && !IsSlug(path) && !IsDotPath(path) && IsExtPath(path)
    requires Match(Root, p).None? && Match(FeedXml, p).None? && Match(TagsList, p).None? && Match(TagName, p).None?
    ensures DispatchIn(FixedRoutes, p) == Some(Route(StaticFile, [v, path]))
  {
    DispatchAt(FixedRoutes, p, 6);
  }

  /** "/<path>.dot" without a version segment goes to dotFile with ["", path], though the
      static-file route matches too. */
  lemma DotRoute(path: string)
    requires IsDotPath(path) && Unversioned(path)
    ensures Match(Ext, "/" + path).Some?
    ensures DispatchIn(FixedRoutes, "/" + path) == Some(Route(DotFile, ["", path]))
    ensures Dispatch("/" + path) == Some(Route(DotFile, ["", path]))
  {
    PlainPath(path);
    DotAlsoHasExtension(path);
    ExtPathNotSlug(path);
    var n := |path|;
    assert path[n - 3] == path[n - 4..][1] == 'd';
    assert "feed.xml"[5] == 'x' && "tags"[0] == 't' && "tags/"[4] == '/';
    assert path != "feed.xml" && path != "tags" && path != "tags/";
    DispatchAt(FixedRoutes, "/" + path, 8);
    assert |path| == 8 ==> path[5..][0] == path[n - 3];
    SameDispatch("/" + path);
  }

  /** "/<path>.<ext>" without a version segment, other than ".dot" paths and the feed, goes to
      staticFile with ["", path]. */
  lemma StaticRoute(path: string)
    requires IsExtPath(path) && !IsDotPath(path) && Unversioned(path) && path != "feed.xml"
    ensures DispatchIn(FixedRoutes, "/" + path) == Some(Route(StaticFile, ["", path]))
    ensures Dispatch("/" + path) == Some(Route(StaticFile, ["", path]))
  {
    StaticRouteCorrected(path);
    FeedShapedExtension(path);
    PlainSameDispatch(path);
  }

  lemma StaticRouteCorrected(path: string)
    requires IsExtPath(path) && !IsDotPath(path) && Unversioned(path) && path != "feed.xml"
    ensures DispatchIn(FixedRoutes, "/" + path) == Some(Route(StaticFile, ["", path]))
  {
    var p := "/" + path;
    ExtPathNotSlug(path);
    assert path != "tags" && path != "tags/" by {
      assert '.' !in "tags" && '.' !in "tags/";
    }
    PlainMisses(path);
    assert p[0] == '/' && p[1..] == path;
    StaticAt(p, path);
  }

  lemma StaticAt(p: string, path: string)
    requires forall j :: 0 <= j < 7 ==> Match(FixedRoutes[j].0, p).None?
    requires 1 <= |p| && p[0] == '/' && p[1..] == path
    requires !IsSlug(path) && !IsDotPath(path) && IsExtPath(path)
    ensures DispatchIn(FixedRoutes, p) == Some(Route(StaticFile, ["", path]))
  {
    assert forall j :: 0 <= j < 9 ==> Match(FixedRoutes[j].0, p).None?;
    DispatchAt(FixedRoutes, p, 9);
  }

  /** The only path "feed" + c + "xml" with a static-file extension is "feed.xml". */
  lemma FeedShapedExtension(s: string)
    ensures FeedShaped(s) && IsExtPath(s) ==> s == "feed.xml"
  {
    if FeedShaped(s) && IsExtPath(s) {
      assert s[5] == s[5..][0] == 'x' && s[3] == s[..4][3] == 'd';
      assert HasExtension(s, 3);
      assert s == s[..4] + [s[4]] + s[5..];
    }
  }

  lemma FeedXmlIsSlugShaped()
    ensures IsSlug("feed-xml")
  {
    var s := "feed-xml";
    forall i | 0 <= i < |s| ensures IsSlugChar(s[i]) {
      assert s[i] in "fedxml-";
    }
  }

  /** The unescaped `.` of the feed pattern: "/feed-xml" is a slug path, yet the table as written
      sends it to the feed; the corrected table sends it to the article "feed-xml". */
  lemma FeedPatternMatchesAnyCharacter()
    ensures IsSlug("feed-xml")
    ensures Dispatch("/feed-xml") == Some(Route(Feed, [""]))
    ensures DispatchIn(FixedRoutes, "/feed-xml") == Some(Route(Renderer.Article, ["", "feed-xml"]))
  {
    FeedXmlIsSlugShaped();
    var p := "/feed-xml";
    var s := "feed-xml";
    assert p[1..] == s && s[..4] == "feed" && s[5..] == "xml";
    DispatchAt(Routes, p, 1);
    assert "/" + "feed-xml" == p;
    SlugRoute("feed-xml");
  }

  // ----- render -----

  /** What the request ends in: a written response, `next(err)`, or an exception thrown from
      the head lookup's callback. */
  datatype Reply = Written(status: nat, headers: Headers, body: Bytes) | Next(error: Error) | Thrown(error: Error)

  /** The callback given to the renderer. */
  function Respond(o: Outcome): (r: Reply)
    ensures r.Written? <==> o.Rendered?
    ensures o.Rendered? ==> r.status == 200 && r.headers == o.response.headers && r.body == o.response.buffer
    ensures o.Failed? ==> r == Next(o.error)
  {
    match o
    case Rendered(response) => Written(200, response.headers, response.buffer)
    case Failed(e, _) => Next(e)
  }

  /** The renderer's continuation flag is not read: a continuable failure replies like any other. */
  lemma ContinuableIgnored(e: Error)
    ensures Respond(Failed(e, true)) == Respond(Failed(e, false)) == Next(e)
  {
  }

  /** The parameters after head substitution: an empty first parameter becomes the head sha. */
  function ResolveVersion(params: seq<string>, head: Result<string>): (r: Result<seq<string>>)
    ensures r.Err? <==> |params| > 0 && params[0] == "" && head.Err?
    ensures r.Err? ==> r.error == head.error
    ensures r.Ok? ==> |r.value| == |params| && forall i :: 1 <= i < |params| ==> r.value[i] == params[i]
    ensures r.Ok? && |params| > 0 ==> r.value[0] == if params[0] == "" then head.value else params[0]
  {
    if |params| > 0 && params[0] == "" then
      var sha :- head;
      Ok(params[0 := sha])
    else Ok(params)
  }

  /** render's reply for a renderer and the request's parameters. */
  function RenderReply(s: Store, renderer: Renderer, params: seq<string>): Reply
    requires |params| == Arity(renderer)
  {
    match ResolveVersion(params, s.head)
    case Err(e) => Thrown(e)
    case Ok(resolved) => Respond(Apply(s, renderer, resolved))
  }

  /** Only a missing head for an empty version throws; a given version goes straight to the renderer. */
  lemma ReplyCases(s: Store, renderer: Renderer, params: seq<string>)
    requires |params| == Arity(renderer)
    ensures RenderReply(s, renderer, params).Thrown? <==> params[0] == "" && s.head.Err?
    ensures params[0] != "" ==> RenderReply(s, renderer, params) == Respond(Apply(s, renderer, params))
    ensures params[0] == "" && s.head.Ok? ==>
              RenderReply(s, renderer, params) == Respond(Apply(s, renderer, params[0 := s.head.value]))
  {
    var resolved := ResolveVersion(params, s.head);
    if resolved.Ok? && params[0] == "" {
      assert resolved.value == params[0 := s.head.value];
    }
  }

  /** A request path served end to end: None when no route matches. */
  function Serve(s: Store, path: string): Option<Reply>
  {
    match Dispatch(path)
    case None => None
    case Some(route) =>
      TablesWellFormed();
      Some(RenderReply(s, route.renderer, route.params))
  }

  /** "/" renders the index at the head sha. */
  lemma RootServesHead(s: Store, sha: string)
    requires s.head == Ok(sha)
    ensures Serve(s, "/") == Some(Respond(Hard(RenderIndex(s, sha))))
  {
    RootRoute();
  }

  /** A versioned article path renders at its own version, whatever the head is. */
  lemma VersionedArticleServed(s: Store, v: string, slug: string)
    requires IsSha(v) && IsSlug(slug)
    ensures Serve(s, "/" + v + "/" + slug) == Some(Respond(Hard(RenderArticle(s, v, slug))))
  {
    VersionedArticleRoute(v, slug);
  }

  /** The request object; `render` overwrites its first parameter in place. */
  class Request {
    var params: seq<string>

    constructor (params: seq<string>)
      ensures this.params == params
    {
      this.params := params;
    }
  }

  /** render: substitute the head sha for an empty version, then apply the renderer. */
  method Render(req: Request, s: Store, renderer: Renderer) returns (reply: Reply)
    requires |req.params| == Arity(renderer)
    modifies req
    ensures reply == RenderReply(s, renderer, old(req.params))
    ensures ResolveVersion(old(req.params), s.head).Ok? ==>
              req.params == ResolveVersion(old(req.params), s.head).value
    ensures ResolveVersion(old(req.params), s.head).Err? ==> req.params == old(req.params)
  {
    if req.params[0] == "" {
      match s.head
      case Err(e) =>
        return Thrown(e);
      case Ok(sha) =>
        req.params := req.params[0 := sha];
    }
    reply := Respond(Apply(s, renderer, req.params));
  }
}
