/** The renderers: one per kind of page, each a chain of store reads, snippet insertion, a template
    render and postProcess, stopping at the first error. */
module Renderers {
  import opened Types
  import opened Pipe
  import opened Snippets
  import opened PostProcessing

  const DynamicCache := "public, max-age=3600"
  const AssetCache := "public, max-age=32000000"
  const RssType := "application/rss+xml"
  const PngType := "image/png"
  const Description := "description.markdown"
  const PublicDir := "skin/public/"
  const ArticlesDir := "articles/"

  /** The data object a template is rendered against. */
  datatype View =
    | Listing(articles: seq<Article>, description: Bytes, categories: Option<seq<string>>)
    | FeedView(entries: seq<Article>)
    | ArticleView(title: string, article: Article, author: string, description: Bytes)
    | ContentView(markdown: Bytes)
    | TagsView(tags: seq<string>)

  /** What a render depends on outside this code: the store (head lookup and file reads at a
      version), the data layer, the templates, the `dot` program and the library calls. */
  datatype Store = Store(
    head: Result<string>,                              // Git.getHead
    readFile: (string, string) -> Result<Bytes>,       // Git.readFile(version, path)
    articles: string -> Result<seq<Article>>,          // Data.articles(version)
    fullArticles: string -> Result<seq<Article>>,      // Data.fullArticles(version)
    fullArticle: (string, string) -> Result<Article>,  // Data.fullArticle(version, name)
    taggedArticles: (string, string) -> Result<seq<Article>>, // Data.taggedArticles(version, tag)
    tags: string -> Result<seq<string>>,               // Data.tags(version)
    categories: string -> Result<seq<string>>,         // Data.categories(version)
    render: (string, View, bool) -> Result<Bytes>,     // Tools.render(name, data, callback, raw)
    snippetTemplate: Result<Template>,                 // Tools.compileTemplate('snippet')
    dot: Bytes -> ChildRun,                            // `dot -Tpng` fed with the bytes
    mime: string -> string,                            // Mime.lookup
    md5: string -> string,                             // MD5.md5
    pretty: string -> string,                          // Prettify.prettyPrintOne
    clock: string)                                     // new Date().toUTCString()

  /** How a render ends. `continuable` is the third argument of `callback(err, null, true)`. */
  datatype Outcome = Rendered(response: Response) | Failed(error: Error, continuable: bool)

  /** The renderers of the module's export object. */
  datatype Renderer =
    | Index | Feed | Article | Markdown(folder: string) | Tag | Tags | CategoryIndex | StaticFile | DotFile

  function Finish(s: Store, headers: Headers, buffer: Bytes, version: string, path: string): Response
  {
    Finalize(headers, buffer, version, path, s.clock, s.md5, s.pretty)
  }

  /** An error handed straight to the callback, with no continuation flag. */
  function Hard(r: Result<Response>): Outcome
  {
    match r
    case Ok(response) => Rendered(response)
    case Err(e) => Failed(e, false)
  }

  // ----- selection rules -----

  /** `element.categories && element.categories.indexOf(category) >= 0` */
  predicate InCategory(a: Article, category: string)
  {
    a.categories.Some? && category in a.categories.value
  }

  /** `articles.reduce(..., [])`: the accumulator grows by each article in the category. */
  function ReduceCategory(acc: seq<Article>, articles: seq<Article>, category: string): seq<Article>
    decreases |articles|
  {
    if articles == [] then acc
    else
      var next := if InCategory(articles[0], category) then acc + [articles[0]] else acc;
      ReduceCategory(next, articles[1..], category)
  }

  function ArticlesForCategory(articles: seq<Article>, category: string): seq<Article>
  {
    ReduceCategory([], articles, category)
  }

  /** Reference definition: the order-preserving filter. */
  function Filtered(articles: seq<Article>, category: string): seq<Article>
  {
    if articles == [] then []
    else (if InCategory(articles[0], category) then [articles[0]] else []) + Filtered(articles[1..], category)
  }

  lemma {:induction false} ReduceIsFilter(acc: seq<Article>, articles: seq<Article>, category: string)
    ensures ReduceCategory(acc, articles, category) == acc + Filtered(articles, category)
    decreases |articles|
  {
    if articles != [] {
      var next := if InCategory(articles[0], category) then acc + [articles[0]] else acc;
      ReduceIsFilter(next, articles[1..], category);
    }
  }

  lemma {:induction false} FilteredMembers(articles: seq<Article>, category: string)
    ensures forall a :: a in Filtered(articles, category) <==> a in articles && InCategory(a, category)
    decreases |articles|
  {
    if articles != [] {
      FilteredMembers(articles[1..], category);
      assert articles == [articles[0]] + articles[1..];
    }
  }

  /** The category filter keeps exactly the articles that have the category, in their order. */
  lemma CategoryFilter(articles: seq<Article>, category: string)
    ensures ArticlesForCategory(articles, category) == Filtered(articles, category)
    ensures forall a :: a in ArticlesForCategory(articles, category) <==> a in articles && InCategory(a, category)
  {
    ReduceIsFilter([], articles, category);
    FilteredMembers(articles, category);
  }

  /** The two-location lookup of staticFile and dotFile: the paths read, in order, and the result. */
  datatype Lookup = Lookup(tried: seq<string>, data: Result<Bytes>)

  function Locate(s: Store, version: string, path: string): (r: Lookup)
    ensures |r.tried| > 0 && r.tried[0] == PublicDir + path
    ensures ArticlesDir + path in r.tried <==> s.readFile(version, PublicDir + path).Err?
    ensures s.readFile(version, PublicDir + path).Ok? ==> r.data == s.readFile(version, PublicDir + path)
    ensures s.readFile(version, PublicDir + path).Err? ==> r.data == s.readFile(version, ArticlesDir + path)
  {
    assert (PublicDir + path)[0] != (ArticlesDir + path)[0];
    var first := s.readFile(version, PublicDir + path);
    if first.Ok? then Lookup([PublicDir + path], first)
    else Lookup([PublicDir + path, ArticlesDir + path], s.readFile(version, ArticlesDir + path))
  }

  // ----- the feed's fan-out and write-back -----

  /** The group of insertSnippets calls, one per article, results in article order. */
  function InsertEach(articles: seq<Article>, compiled: Result<Template>): (r: Result<seq<string>>)
    ensures r.Ok? ==> |r.value| == |articles|
    ensures r.Ok? ==> forall i :: 0 <= i < |articles| ==>
              Inserted(articles[i].markdown, articles[i].snippets, compiled) == Ok(r.value[i])
    decreases |articles|
  {
    if articles == [] then Ok([])
    else
      match Inserted(articles[0].markdown, articles[0].snippets, compiled)
      case Err(e) => Err(e)
      case Ok(first) =>
        match InsertEach(articles[1..], compiled)
        case Err(e) => Err(e)
        case Ok(rest) =>
          assert forall i :: 1 <= i < |articles| ==> articles[i] == articles[1..][i - 1];
          Ok([first] + rest)
  }

  /** The group fails exactly when one of the articles' insertions fails. */
  lemma {:induction false} InsertEachFails(articles: seq<Article>, compiled: Result<Template>)
    ensures InsertEach(articles, compiled).Err? <==>
            exists i :: 0 <= i < |articles| && Inserted(articles[i].markdown, articles[i].snippets, compiled).Err?
    decreases |articles|
  {
    if articles != [] && Inserted(articles[0].markdown, articles[0].snippets, compiled).Ok? {
      InsertEachFails(articles[1..], compiled);
      assert forall i :: 1 <= i < |articles| ==> articles[i] == articles[1..][i - 1];
    }
  }

  /** `markdowns.forEach((markdown, i) => articles[i].markdown = markdown)` on values. */
  function WithMarkdowns(articles: seq<Article>, markdowns: seq<string>): (r: seq<Article>)
    requires |markdowns| == |articles|
    ensures |r| == |articles|
    ensures forall i :: 0 <= i < |r| ==> r[i] == articles[i].(markdown := markdowns[i])
    decreases |articles|
  {
    if articles == [] then []
    else [articles[0].(markdown := markdowns[0])] + WithMarkdowns(articles[1..], markdowns[1..])
  }

  /** The write-back itself, on the array of articles the feed holds. */
  method WriteBack(articles: array<Article>, markdowns: seq<string>)
    requires |markdowns| == articles.Length
    modifies articles
    ensures articles[..] == WithMarkdowns(old(articles[..]), markdowns)
  {
    for i := 0 to |markdowns|
      invariant forall k :: 0 <= k < i ==> articles[k] == old(articles[k]).(markdown := markdowns[k])
      invariant forall k :: i <= k < articles.Length ==> articles[k] == old(articles[k])
    {
      articles[i] := articles[i].(markdown := markdowns[i]);
    }
  }

  /** The articles the feed template receives. */
  function FeedArticles(articles: seq<Article>, compiled: Result<Template>): (r: Result<seq<Article>>)
    ensures r.Ok? ==> |r.value| == |articles|
    ensures r.Ok? ==> forall i :: 0 <= i < |articles| ==>
              Inserted(articles[i].markdown, articles[i].snippets, compiled).Ok? &&
              r.value[i] == articles[i].(markdown := Inserted(articles[i].markdown, articles[i].snippets, compiled).value)
    ensures r.Err? <==>
              (exists i :: 0 <= i < |articles| && Inserted(articles[i].markdown, articles[i].snippets, compiled).Err?)
  {
    InsertEachFails(articles, compiled);
    var markdowns :- InsertEach(articles, compiled);
    Ok(WithMarkdowns(articles, markdowns))
  }

  // ----- the renderers -----

  function RenderIndex(s: Store, version: string): Result<Response>
  {
    var head :- s.head;
    var articles :- s.articles(version);
    var description :- s.readFile(head, Description);
    var categories :- s.categories(version);
    var buffer :- s.render("index", Listing(articles, description, Some(categories)), false);
    Ok(Finish(s, map["Cache-Control" := Text(DynamicCache)], buffer, version, "index"))
  }

  function RenderFeed(s: Store, version: string): Result<Response>
  {
    var articles :- s.fullArticles(version);
    var entries :- FeedArticles(articles, s.snippetTemplate);
    var buffer :- s.render("feed.xml", FeedView(entries), true);
    Ok(Finish(s, map["Content-Type" := Text(RssType), "Cache-Control" := Text(DynamicCache)],
              buffer, version, "feed.xml"))
  }

  function RenderArticle(s: Store, version: string, name: string): Result<Response>
  {
    var head :- s.head;
    var article :- s.fullArticle(version, name);
    var markdown :- Inserted(article.markdown, article.snippets, s.snippetTemplate);
    var description :- s.readFile(head, Description);
    var shown := article.(markdown := markdown);
    var buffer :- s.render("article", ArticleView(shown.title, shown, shown.author, description), false);
    Ok(Finish(s, map["Cache-Control" := Text(DynamicCache)], buffer, version, name))
  }

  /** The markdown renderer for one folder: a failed read of the file is the continuable error. */
  function RenderMarkdown(s: Store, folder: string, version: string, name: string): Outcome
  {
    match s.head
    case Err(e) => Failed(e, false)
    case Ok(_) =>
      match s.readFile(version, folder + "/" + name + ".markdown")
      case Err(e) => Failed(e, true)
      case Ok(markdown) =>
        match s.render("content", ContentView(markdown), false)
        case Err(e) => Failed(e, false)
        case Ok(buffer) => Rendered(Finish(s, map["Cache-Control" := Text(DynamicCache)], buffer, version, name))
  }

  function RenderTag(s: Store, version: string, tag: string): Result<Response>
  {
    var head :- s.head;
    var articles :- s.taggedArticles(version, tag);
    var description :- s.readFile(head, Description);
    var buffer :- s.render("index", Listing(articles, description, None), false);
    Ok(Finish(s, map["Cache-Control" := Text(DynamicCache)], buffer, version, "index"))
  }

  function RenderTags(s: Store, version: string): Result<Response>
  {
    var _ :- s.head;
    var tags :- s.tags(version);
    var buffer :- s.render("tags", TagsView(tags), false);
    Ok(Finish(s, map["Cache-Control" := Text(DynamicCache)], buffer, version, "tags"))
  }

  function RenderCategoryIndex(s: Store, version: string, category: string): Result<Response>
  {
    var head :- s.head;
    var articles :- s.articles(version);
    var description :- s.readFile(head, Description);
    var categories :- s.categories(version);
    var buffer :- s.render("index", Listing(ArticlesForCategory(articles, category), description, Some(categories)), false);
    Ok(Finish(s, map["Cache-Control" := Text(DynamicCache)], buffer, version, "index"))
  }

  function RenderStaticFile(s: Store, version: string, path: string): Result<Response>
  {
    var data :- Locate(s, version, path).data;
    Ok(Finish(s, map["Content-Type" := Text(s.mime(path)), "Cache-Control" := Text(AssetCache)],
              data, version, path))
  }

  function RenderDotFile(s: Store, version: string, path: string): Result<Response>
  {
    var data :- Locate(s, version, path).data;
    var png :- PipeResult(s.dot(data));
    Ok(Finish(s, map["Content-Type" := Text(PngType), "Cache-Control" := Text(AssetCache)],
              png, version, path))
  }

  /** The number of route parameters each renderer takes before its callback. */
  function Arity(r: Renderer): nat
  {
    match r
    case Index | Feed | Tags => 1
    case _ => 2
  }

  /** `renderer.apply(null, params.concat([callback]))`. */
  function Apply(s: Store, r: Renderer, params: seq<string>): Outcome
    requires |params| == Arity(r)
  {
    match r
    case Index => Hard(RenderIndex(s, params[0]))
    case Feed => Hard(RenderFeed(s, params[0]))
    case Article => Hard(RenderArticle(s, params[0], params[1]))
    case Markdown(folder) => RenderMarkdown(s, folder, params[0], params[1])
    case Tag => Hard(RenderTag(s, params[0], params[1]))
    case Tags => Hard(RenderTags(s, params[0]))
    case CategoryIndex => Hard(RenderCategoryIndex(s, params[0], params[1]))
    case StaticFile => Hard(RenderStaticFile(s, params[0], params[1]))
    case DotFile => Hard(RenderDotFile(s, params[0], params[1]))
  }

  // ----- properties of every render -----

  /** Whatever renders, the response leaving postProcess has a Content-Type, Date and Server, and a
      Content-Length equal to the buffer's length. */
  lemma RenderedIsFinal(s: Store, r: Renderer, params: seq<string>)
    requires |params| == Arity(r)
    requires Apply(s, r, params).Rendered?
    ensures var resp := Apply(s, r, params).response;
            && "Content-Type" in resp.headers
            && "Date" in resp.headers && resp.headers["Date"] == Text(s.clock)
            && "Server" in resp.headers && resp.headers["Server"] == Text(ServerName)
            && "Content-Length" in resp.headers && resp.headers["Content-Length"] == Number(|resp.buffer|)
    ensures r.Feed? ==> Apply(s, r, params).response.headers["Content-Type"] == Text(RssType)
  {
    match r
    case Index =>
    case Feed =>
    case Article =>
    case Markdown(folder) =>
    case Tag =>
    case Tags =>
    case CategoryIndex =>
    case StaticFile =>
    case DotFile =>
  }

  /** A render of the working copy carries neither Cache-Control nor ETag; any other version
      carries both, Cache-Control as the renderer set it. */
  lemma CacheHeaders(s: Store, r: Renderer, params: seq<string>)
    requires |params| == Arity(r)
    requires Apply(s, r, params).Rendered?
    ensures var h := Apply(s, r, params).response.headers;
            params[0] == WorkingCopy ==> "Cache-Control" !in h && "ETag" !in h
    ensures var h := Apply(s, r, params).response.headers;
            params[0] != WorkingCopy ==>
              ("ETag" in h && "Cache-Control" in h &&
               h["Cache-Control"] == Text(if r.StaticFile? || r.DotFile? then AssetCache else DynamicCache))
  {
    match r
    case Index =>
    case Feed =>
    case Article =>
    case Markdown(folder) =>
    case Tag =>
    case Tags =>
    case CategoryIndex =>
    case StaticFile =>
    case DotFile =>
  }

  /** staticFile: a file found under skin/public/ is served from there, with its MIME type and the
      long cache lifetime; one found only under articles/ is served from there; one found in
      neither place fails with the second read's error, not continuable. */
  lemma StaticFileLocations(s: Store, version: string, path: string)
    ensures s.readFile(version, PublicDir + path).Ok? ==>
              Apply(s, StaticFile, [version, path]) ==
              Rendered(Finish(s, map["Content-Type" := Text(s.mime(path)), "Cache-Control" := Text(AssetCache)],
                              s.readFile(version, PublicDir + path).value, version, path))
    ensures s.readFile(version, PublicDir + path).Err? && s.readFile(version, ArticlesDir + path).Ok? ==>
              Apply(s, StaticFile, [version, path]) ==
              Rendered(Finish(s, map["Content-Type" := Text(s.mime(path)), "Cache-Control" := Text(AssetCache)],
                              s.readFile(version, ArticlesDir + path).value, version, path))
    ensures s.readFile(version, PublicDir + path).Err? && s.readFile(version, ArticlesDir + path).Err? ==>
              Apply(s, StaticFile, [version, path]) == Failed(s.readFile(version, ArticlesDir + path).error, false)
  {
  }

  /** dotFile: the located bytes go through `dot`; a failing `dot` fails the render with its
      stderr text, a succeeding one is served as image/png whatever its content. */
  lemma DotFileOutput(s: Store, version: string, path: string)
    requires Locate(s, version, path).data.Ok?
    ensures var run := s.dot(Locate(s, version, path).data.value);
            run.code > 0 ==> Apply(s, DotFile, [version, path]) == Failed(Failure(Concat(run.stderr)), false)
    ensures var run := s.dot(Locate(s, version, path).data.value);
            run.code <= 0 ==>
              (Apply(s, DotFile, [version, path]).Rendered? &&
               Apply(s, DotFile, [version, path]).response.buffer == Concat(run.stdout) &&
               Apply(s, DotFile, [version, path]).response.headers["Content-Type"] == Text(PngType))
  {
    var run := s.dot(Locate(s, version, path).data.value);
    if run.code <= 0 {
      DotFileServed(s, version, path, Concat(run.stdout));
    }
  }

  /** dotFile: when neither folder holds the file, the render fails with the second read's
      error and `dot` is never run. */
  lemma DotFileMissing(s: Store, version: string, path: string)
    ensures Locate(s, version, path).data.Err? ==>
              Apply(s, DotFile, [version, path]) == Failed(Locate(s, version, path).data.error, false)
    ensures s.readFile(version, PublicDir + path).Err? && s.readFile(version, ArticlesDir + path).Err? ==>
              Apply(s, DotFile, [version, path]) == Failed(s.readFile(version, ArticlesDir + path).error, false)
  {
  }

  lemma DotFileServed(s: Store, version: string, path: string, png: Bytes)
    requires Locate(s, version, path).data.Ok?
    requires PipeResult(s.dot(Locate(s, version, path).data.value)) == Ok(png)
    ensures Apply(s, DotFile, [version, path]).Rendered?
    ensures Apply(s, DotFile, [version, path]).response.buffer == png
    ensures Apply(s, DotFile, [version, path]).response.headers["Content-Type"] == Text(PngType)
  {
    var headers := map["Content-Type" := Text(PngType), "Cache-Control" := Text(AssetCache)];
    assert Present(headers, "Content-Type");
    var resp := Finish(s, headers, png, version, path);
    PngIsNotHtml();
    assert resp.headers["Content-Type"] == Text(PngType) && resp.buffer == png;
    assert RenderDotFile(s, version, path) == Ok(resp);
  }

  /** "image/png" does not contain "html", so postProcess never highlights a rendered graph. */
  lemma PngIsNotHtml()
    ensures !IsHtml(Text(PngType))
  {
    forall j: nat ensures !OccursAt(PngType, "html", j) {
      if j + 4 <= |PngType| {
        assert PngType[j..j + 4][0] == PngType[j] && PngType[j] in PngType;
      }
    }
  }

  /** The markdown renderer's failure is continuable exactly when the head was found and the
      markdown file could not be read. */
  lemma MarkdownContinuable(s: Store, folder: string, version: string, name: string)
    ensures RenderMarkdown(s, folder, version, name).Failed? &&
            RenderMarkdown(s, folder, version, name).continuable <==>
            s.head.Ok? && s.readFile(version, folder + "/" + name + ".markdown").Err?
  {
  }

  /** Every other renderer reports its failures as not continuable. */
  lemma OnlyMarkdownContinues(s: Store, r: Renderer, params: seq<string>)
    requires |params| == Arity(r) && !r.Markdown?
    ensures Apply(s, r, params).Failed? ==> !Apply(s, r, params).continuable
  {
  }

  /** Every renderer that looks the head up fails, not continuably, with the lookup's error when
      there is no head; the markdown renderer's continuable failure needs a head. */
  lemma HeadFailure(s: Store, r: Renderer, params: seq<string>)
    requires |params| == Arity(r) && s.head.Err?
    requires !(r.Feed? || r.StaticFile? || r.DotFile?)
    ensures Apply(s, r, params) == Failed(s.head.error, false)
  {
    match r
    case Index =>
    case Article =>
    case Markdown(folder) =>
    case Tag =>
    case Tags =>
    case CategoryIndex =>
  }

  /** The feed, static files and graphs never consult the head: their outcome is the same whatever it is. */
  lemma HeadIndependent(s: Store, r: Renderer, params: seq<string>, head: Result<string>)
    requires |params| == Arity(r) && (r.Feed? || r.StaticFile? || r.DotFile?)
    ensures Apply(s.(head := head), r, params) == Apply(s, r, params)
  {
    var t := s.(head := head);
    assert t.clock == s.clock && t.md5 == s.md5 && t.pretty == s.pretty && t.readFile == s.readFile;
    match r
    case Feed =>
      assert t.fullArticles == s.fullArticles && t.snippetTemplate == s.snippetTemplate && t.render == s.render;
    case StaticFile =>
      assert t.mime == s.mime;
    case DotFile =>
      assert t.dot == s.dot;
  }
}
