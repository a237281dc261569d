# Wheat: rendering pipeline and route table

Wheat is a blog engine for node.js. It serves articles, an index, tag pages, an RSS feed, static
files and Graphviz graphs, all read out of a git repository at a given version (a 40-hex sha, or
`fs` for the working copy). This project models the deterministic core of its request handling:

- `Pipe` (`exec_pipe.dfy`) covers `execPipe` once the child has exited. The stdout chunks are summed
  into `size` and copied one after another into a buffer of that size. An exit code above 0 fails
  with the joined stderr text instead.
- `Snippets` (`snippets.dfy`) covers `insertSnippets`. Each snippet's placeholder is replaced, in list
  order, by the compiled `snippet` template's rendering of it. The replacement is JavaScript's
  `String.prototype.replace` with a string pattern, so only the first occurrence changes.
- `PostProcessing` (`post_process.dfy`) covers `postProcess`, the in-place header update every
  renderer ends with. It defaults Content-Type, stamps Date and Server, and handles the cache
  validators (`fs` loses Cache-Control, other versions get an ETag). It also highlights
  `<pre><code>…</code></pre>` blocks of HTML bodies and sets Content-Length.
- `Renderers` (`renderers.dfy`) covers the renderers `index`, `feed`, `article`, `markdown(folder)`,
  `tag`, `tags`, `categoryIndex`, `staticFile` and `dotFile`. Each is a chain of reads that stops
  at the first error. The model includes:
  - the category filter;
  - the `skin/public/` then `articles/` fallback;
  - the feed's per-article snippet insertion and index-aligned write-back;
  - the fixed per-renderer headers;
  - the markdown renderer's continuable not-found error.
- `Wheat` (`wheat.dfy`) covers `render`, which substitutes the head sha for an empty version, applies
  the renderer and writes a 200 response or calls `next(err)`. It also covers the ordered route
  table of `defaultSetup`, where the first matching pattern wins. `Routes` is the table as the
  source writes it, and `Dispatch` and `Serve` run it. Its feed pattern matches any path
  "/feed" + c + "xml" for any c but a line terminator (see Findings). `FixedRoutes` is the same
  table with the feed pattern matching only "/feed.xml". The route lemmas for the root, the
  feed, the tag list, tags, versioned articles, graphs and static files state the route in both
  tables, as does `FeedPatternMatchesAnyCharacter`. `SlugRouteAsWritten`, `PlainMissesAsWritten`
  and `FeedShapedRoute` state the table as written alone.
  `SlugRoute`, `PlainMisses`, `VersionedStaticAt`, `StaticAt` and the `…Corrected` lemmas state
  the corrected table alone.

Git reads, the data layer, templates, the `dot` program, MD5, Prettify, Mime and the clock are
outside this code. They are the fields of `Renderers.Store`: total functions and values the renderers
are applied to. Buffers and strings are both `seq<char>`.

## Model

| member | source | states |
|---|---|---|
| Pipe.ConcatLength | lib/wheat/renderers.js:16-18 | the joined chunks are exactly `size` long, the sum of the chunk lengths the stdout listener adds up |
| Pipe.ConcatAppend | lib/wheat/renderers.js:16-18 | joining distributes over a split of the chunk list: joining `a + b` is joining `a` followed by joining `b` |
| Pipe.SizePrefix | lib/wheat/renderers.js:29-33 | the bytes copied before chunk i never exceed the buffer size, so every copy fits |
| Pipe.CopyInto | lib/wheat/renderers.js:31 | `chunk.copy(buffer, start)` writes the chunk at `start` and leaves the bytes before and after it as they were |
| Pipe.TotalSize | lib/wheat/renderers.js:15-17 | the running `size` ends as the sum of the chunk lengths |
| Pipe.ExecPipe | lib/wheat/renderers.js:23-36 | an exit code above 0 fails with the stderr chunks joined; otherwise the result is the stdout chunks joined in arrival order, of length `size` |
| Snippets.IndexFrom | lib/wheat/renderers.js:92 | finds the leftmost occurrence of the pattern at or after k, or reports that there is none |
| Snippets.IndexOf | lib/wheat/renderers.js:92 | `indexOf`: the first occurrence of the pattern, or none anywhere |
| Snippets.ReplaceFirst | lib/wheat/renderers.js:92 | `replace` with a string pattern: nothing changes without an occurrence; otherwise exactly the first occurrence is replaced |
| Snippets.ReplaceFirstSelf | lib/wheat/renderers.js:92 | replacing a placeholder by itself leaves the text unchanged |
| Snippets.Inserted | lib/wheat/renderers.js:83-98 | a template compile error is passed on as the result; an empty snippet list returns the markdown unchanged |
| Snippets.InsertSnippets | lib/wheat/renderers.js:83-98 | the loop that reassigns `markdown` once per snippet computes the fold `Inserted`: first-occurrence replacements in list order, stopping at the first failing snippet |
| Snippets.ReplaceAllAppend | lib/wheat/renderers.js:90-93 | snippets apply in list order: a split list is the second part applied to the first part's result |
| Snippets.ReplaceAllFails | lib/wheat/renderers.js:90-93 | the insertion fails exactly when the template fails on one of the snippets |
| Snippets.ReplaceAllIdentity | lib/wheat/renderers.js:90-93 | a template that renders each snippet as its own placeholder leaves the markdown unchanged |
| PostProcessing.TextRun | lib/wheat/renderers.js:63 | `[^<]+` consumes the longest run of characters before the first '<' |
| PostProcessing.BlockAt | lib/wheat/renderers.js:63-65 | a match of the code-block pattern at the start is `<pre><code>X</code></pre>` with X non-empty and free of '<' |
| PostProcessing.BlockAtExact | lib/wheat/renderers.js:63-65 | every `<pre><code>X</code></pre>` at the start with X non-empty and free of '<' is matched, with capture X |
| PostProcessing.HighlightIdentity | lib/wheat/renderers.js:63-69 | with a highlighter that changes nothing, the global code-block replace returns the body unchanged |
| PostProcessing.HighlightNoBlocks | lib/wheat/renderers.js:63-69 | a body with no `<pre><code>` passes through unchanged, whatever the highlighter |
| PostProcessing.Typed | lib/wheat/renderers.js:50-52 | a truthy Content-Type is kept; a missing or falsy one becomes `text/html; charset=utf-8`; no other header changes |
| PostProcessing.Validated | lib/wheat/renderers.js:56-60 | `fs` loses Cache-Control and keeps ETag as it was; another version keeps Cache-Control and gets ETag = md5(version:path:date); no other header changes |
| PostProcessing.Finalize | lib/wheat/renderers.js:47-81 | after postProcess: Content-Type is kept or defaulted; Date and Server are set; the `fs`/other-version cache rules hold; Content-Length is the final buffer's length; an HTML type highlights the body and any other type leaves it unchanged |
| PostProcessing.FinalizeFrame | lib/wheat/renderers.js:47-81 | headers other than Content-Type, Date, Server, Cache-Control, ETag and Content-Length pass through postProcess unchanged |
| PostProcessing.HeaderMap.constructor | lib/wheat/renderers.js:122-124 | the header object starts out as the renderer wrote it |
| PostProcessing.HeaderMap.PostProcess | lib/wheat/renderers.js:47-81 | setting and deleting keys in place leaves the object equal to `Finalize`'s headers and returns its buffer |
| Renderers.ReduceIsFilter | lib/wheat/renderers.js:291-293 | the `reduce` with `concat` is the accumulator followed by the order-preserving filter |
| Renderers.FilteredMembers | lib/wheat/renderers.js:291-293 | the filter holds exactly the articles whose categories exist and contain the category |
| Renderers.CategoryFilter | lib/wheat/renderers.js:291-293 | the category list keeps exactly the articles in that category, in their original order |
| Renderers.Locate | lib/wheat/renderers.js:313-321 | `skin/public/` is read first; `articles/` is read only when that read fails, and then its result is taken |
| Renderers.InsertEach | lib/wheat/renderers.js:139-142 | the group's results line up with the articles: result i is the insertion for article i |
| Renderers.InsertEachFails | lib/wheat/renderers.js:139-145 | the group fails exactly when some article's insertion fails |
| Renderers.WithMarkdowns | lib/wheat/renderers.js:146-148 | article i gets markdown i and keeps every other field |
| Renderers.WriteBack | lib/wheat/renderers.js:146-148 | writing `articles[i].markdown` in place leaves the array equal to `WithMarkdowns` of the old articles |
| Renderers.FeedArticles | lib/wheat/renderers.js:136-151 | the feed template gets every article with its snippets inserted, or the error of a failing insertion |
| Renderers.RenderedIsFinal | lib/wheat/renderers.js:47-81 | every rendered response has Content-Type, the clock's Date, Server and a Content-Length equal to its buffer's length; the feed's Content-Type is `application/rss+xml` |
| Renderers.CacheHeaders | lib/wheat/renderers.js:56-60 | `fs` renders carry neither Cache-Control nor ETag; other versions carry an ETag and `max-age=32000000` for files and graphs, `max-age=3600` otherwise |
| Renderers.StaticFileLocations | lib/wheat/renderers.js:311-332 | a static file is served from `skin/public/` if there, else from `articles/`, with its MIME type; when neither read succeeds it fails with the second read's error |
| Renderers.DotFileOutput | lib/wheat/renderers.js:334-357 | `dot` exiting above 0 fails the graph with its stderr text; otherwise the PNG is served |
| Renderers.DotFileMissing | lib/wheat/renderers.js:334-347 | when the located read fails, and so when both folders miss the file, the graph fails with that error, not continuably, and `dot` is not run |
| Renderers.DotFileServed | lib/wheat/renderers.js:346-354 | a served graph has `dot`'s output as body and Content-Type `image/png` |
| Renderers.PngIsNotHtml | lib/wheat/renderers.js:62 | `image/png` does not contain "html", so a graph is never highlighted |
| Renderers.MarkdownContinuable | lib/wheat/renderers.js:201-209 | the markdown renderer's error is continuable exactly when the head exists and the file read fails |
| Renderers.OnlyMarkdownContinues | lib/wheat/renderers.js:100-357 | every other renderer reports failures as not continuable |
| Renderers.HeadFailure | lib/wheat/renderers.js:101-309 | without a head, every renderer that looks it up fails with the lookup's error, not continuably |
| Renderers.HeadIndependent | lib/wheat/renderers.js:130-357 | feed, staticFile and dotFile never consult the head |
| Wheat.Match | lib/wheat.js:70-101 | each route pattern matches with as many captures as it has groups |
| Wheat.FirstIndex | lib/wheat.js:70-101 | the route taken is the first whose pattern matches; every earlier one misses |
| Wheat.DispatchIn | lib/wheat.js:70-101 | a path goes nowhere exactly when no pattern matches, and a well-formed table passes each renderer as many parameters as it takes |
| Wheat.DispatchAt | lib/wheat.js:70-101 | a route that matches, with no earlier route matching, is the one taken |
| Wheat.TablesWellFormed | lib/wheat.js:70-101 | every route's capture count is its renderer's parameter count |
| Wheat.PlainPath | lib/wheat.js:70-101 | which patterns match a path `/` + s, in terms of s's shape |
| Wheat.VersionedPath | lib/wheat.js:71-83 | a path `/<sha>/<rest>` splits into the sha and rest and misses the four unversioned routes before it |
| Wheat.FirstIndexAgree | lib/wheat.js:70-101 | from any index on, both tables pick the same route for a path on which the two feed patterns agree |
| Wheat.SameDispatch | lib/wheat.js:70-101 | a path on which the two feed patterns agree is routed alike by the table as written and the corrected table |
| Wheat.PlainSameDispatch | lib/wheat.js:74-76 | every path "/" + s other than "/feed" + c + "xml" is routed alike by both tables |
| Wheat.RootRoute | lib/wheat.js:71-73 | "/" goes to index with parameters [""] in both tables |
| Wheat.FeedRoute | lib/wheat.js:74-76 | "/feed.xml" goes to the feed in both tables, although the static-file pattern matches it too |
| Wheat.FeedHasExtension | lib/wheat.js:98 | "/feed.xml" also fits the static-file pattern |
| Wheat.TagsRoute | lib/wheat.js:77-79 | "/tags" and "/tags/" go to tags in both tables |
| Wheat.TagRoute | lib/wheat.js:80-82 | "/tag/<slug>" goes to tag with ["", slug] in both tables |
| Wheat.TagRouteCorrected | lib/wheat.js:80-82 | "/tag/<slug>" goes to tag with ["", slug] in the corrected table |
| Wheat.VersionedArticleRoute | lib/wheat.js:83-85 | "/<sha>/<slug>" goes to article with [sha, slug] in both tables |
| Wheat.SlugRoute | lib/wheat.js:92-94 | in the corrected table, "/<slug>" goes to article with ["", slug] for every slug except "tags" |
| Wheat.SlugRouteAsWritten | lib/wheat.js:74-94 | in the table as written, "/<slug>" goes to article with ["", slug] for every slug except "tags" and the slugs "feed" + c + "xml" |
| Wheat.FeedShapedRoute | lib/wheat.js:74-76 | in the table as written, every path "/feed" + c + "xml" goes to the feed |
| Wheat.DotAlsoHasExtension | lib/wheat.js:86-90 | a `.dot` path also fits the static-file shape and is no slug |
| Wheat.ExtPathNotSlug | lib/wheat.js:89-98 | a static-file path contains a '.', so neither it nor its part after "tag/" is a slug |
| Wheat.VersionedDotRoute | lib/wheat.js:86-91 | "/<sha>/<path>.dot" goes to dotFile, not staticFile, with [sha, path], in both tables |
| Wheat.VersionedStaticRoute | lib/wheat.js:89-91 | "/<sha>/<path>.<ext>" goes to staticFile with [sha, path] in both tables |
| Wheat.VersionedStaticAt | lib/wheat.js:89-91 | in the corrected table, a versioned static-file path that misses the first four routes is served by staticFile |
| Wheat.DotRoute | lib/wheat.js:95-99 | an unversioned "/<path>.dot" goes to dotFile, not staticFile, with ["", path], in both tables |
| Wheat.StaticRoute | lib/wheat.js:98-100 | an unversioned "/<path>.<ext>", apart from `.dot` paths and the feed, goes to staticFile with ["", path] in both tables |
| Wheat.StaticRouteCorrected | lib/wheat.js:98-100 | the same in the corrected table |
| Wheat.StaticAt | lib/wheat.js:98-100 | in the corrected table, an unversioned static-file path that misses the first seven routes, and is no slug and no `.dot` path, is served by staticFile |
| Wheat.FeedShapedExtension | lib/wheat.js:74-100 | the only path "feed" + c + "xml" with a static-file extension is "feed.xml" |
| Wheat.PlainMisses | lib/wheat.js:71-91 | in the corrected table, a path that is not the root, feed, tag list, tag page or versioned misses the first seven routes |
| Wheat.PlainMissesAsWritten | lib/wheat.js:71-91 | in the table as written, such a path misses the first seven routes unless it is "/feed" + c + "xml" |
| Wheat.FeedPatternMatchesAnyCharacter | lib/wheat.js:74 | the table as written sends the slug path "/feed-xml" to the feed; the corrected table sends it to the article |
| Wheat.Respond | lib/wheat.js:47-54 | a render error calls `next(err)` and writes nothing; a success writes status 200 with the response's headers and buffer |
| Wheat.ContinuableIgnored | lib/wheat.js:47-54 | the renderer's continuation flag is not read: a continuable failure replies like any other |
| Wheat.ResolveVersion | lib/wheat.js:35-44 | an empty first parameter becomes the head sha and the others are unchanged; a non-empty one passes through; a missing head is the only error |
| Wheat.ReplyCases | lib/wheat.js:34-56 | only an empty version with a failing head lookup throws; a given version is rendered as is, an empty one at the head |
| Wheat.RootServesHead | lib/wheat.js:34-44 | through the table as written, "/" renders the index at the head sha |
| Wheat.VersionedArticleServed | lib/wheat.js:34-44 | a versioned article path renders at its own version, whatever the head |
| Wheat.Request.constructor | lib/wheat.js:34 | the request carries the parameters the route captured |
| Wheat.Render | lib/wheat.js:34-57 | `render` writes the resolved parameters into `req.params` in place and replies as `RenderReply`; when the head lookup throws, the parameters stay as they were |

## Left out

- Concurrency of the `Step` library: parallel reads and the feed's group run as a sequence that
  stops at the first error in declaration order. When several parallel reads fail, Step passes on
  the last one to complete, which the model does not capture.
- `Git.safe`, the wrapper around each renderer, is not part of this model.
- Process I/O of `execPipe` (spawn, stdin writes, listeners): the model starts from the collected
  chunks and the exit code. The exit code is an integer: a `null` code (the child killed by a
  signal) is not represented. JavaScript treats it like 0.
- Git, `Data.*`, `Tools.render`, `Tools.compileTemplate`, `dot`, MD5, Prettify, Mime and the clock are
  uninterpreted fields of `Renderers.Store`. An exception thrown while rendering a snippet is the
  template's `Err` result.
- Buffer vs string encoding: `Tools.stringToBuffer`, `buffer + ""` and the "binary" stdin write
  are all identity on `seq<char>`, so Content-Length counts characters.
- `Path.join(folder, name + ".markdown")` is modelled as `folder + "/" + name + ".markdown"`,
  without path normalisation.
- The special `$` sequences of `String.prototype.replace` replacement strings are not interpreted.
- Renderers.WriteBack: the write-back is on an array of article values. The aliasing between that
  array and the objects the data layer handed out is not modelled.
- Custom routes (`index`, `feed`, `article`, `markdown`, … of `module.exports`, via `addRoute`),
  Connect's router plumbing, URL decoding and query strings are not modelled. Only the default
  table is.
- The `console.log` calls of the tags renderer are left out: they are diagnostics.
- PlainMisses: states the corrected table only. In the table as written the paths "/feed" + c + "xml"
  go to the feed (`FeedShapedRoute`), so `PlainMissesAsWritten` states the same with those paths
  excluded.
- Wheat.Render: the thrown head error is a `Thrown` reply; the uncaught exception and its effect
  on the server process are not modelled.

## Findings

| source | as written | input that shows it | evidently intended | confidence | as-written member | corrected member |
|---|---|---|---|---|---|---|
| lib/wheat.js:74 | `/^\/()feed.xml$/` leaves the `.` unescaped, so it matches any character but a line terminator | the path "/feed-xml", whose "feed-xml" is a valid article slug, goes to the feed instead of that article | match only the literal "/feed.xml" (`feed\.xml`) | medium, not executed | Wheat.FeedPatternMatchesAnyCharacter | Wheat.SlugRoute |
