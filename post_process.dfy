/** postProcess: finishes a response's headers (content type, date, server, cache validators,
    length) and highlights the code blocks of HTML bodies. */
module PostProcessing {
  import opened Types
  import Snippets

  const DefaultContentType := "text/html; charset=utf-8"
  const ServerName := "Wheat (node.js)"
  /** The version name of the working copy, the only version whose files can change. */
  const WorkingCopy := "fs"
  const CodeOpen := "<pre><code>"
  const CodeClose := "</code></pre>"

  /** The headers postProcess writes or deletes; every other header passes through. */
  const Managed: set<string> := {"Content-Type", "Date", "Server", "Cache-Control", "ETag", "Content-Length"}

  /** `headers[key]` is truthy in JavaScript: present, and neither "" nor 0. */
  predicate Present(headers: Headers, key: string)
  {
    key in headers &&
    match headers[key]
    case Text(t) => t != ""
    case Number(n) => n != 0
  }

  /** `/html/.test(value)`: the value, as a string, contains "html" (a number's digits never do). */
  predicate IsHtml(value: HeaderValue)
  {
    value.Text? && Snippets.IndexOf(value.text, "html").Some?
  }

  /** Header `key` is the same in both maps: absent from both, or present with one value. */
  predicate Unchanged(before: Headers, after: Headers, key: string)
  {
    (key in before <==> key in after) && (key in before ==> before[key] == after[key])
  }

  /** The number of leading characters of s that are not '<': what `[^<]+` consumes greedily. */
  function TextRun(s: string): (n: nat)
    ensures n <= |s| && (n < |s| ==> s[n] == '<')
    ensures forall i :: 0 <= i < n ==> s[i] != '<'
  {
    if s == [] || s[0] == '<' then 0 else 1 + TextRun(s[1..])
  }

  /** The code X when s starts with a match of `<pre><code>[^<]+<\/code><\/pre>`, whose text is
      `<pre><code>X</code></pre>` (X is then also what `<code>([\s\S]+)<\/code>` captures). */
  function BlockAt(s: string): (r: Option<string>)
    ensures r.Some? ==> |r.value| > 0 && (forall i :: 0 <= i < |r.value| ==> r.value[i] != '<')
    ensures r.Some? ==> |CodeOpen| + |r.value| + |CodeClose| <= |s|
    ensures r.Some? ==> s[..|CodeOpen| + |r.value| + |CodeClose|] == CodeOpen + r.value + CodeClose
  {
    if |s| < |CodeOpen| || s[..|CodeOpen|] != CodeOpen then None
    else
      var rest := s[|CodeOpen|..];
      var k := TextRun(rest);
      if 0 < k && k + |CodeClose| <= |rest| && rest[k..k + |CodeClose|] == CodeClose then
        assert s[..|CodeOpen| + k + |CodeClose|] == s[..|CodeOpen|] + rest[..k] + rest[k..k + |CodeClose|];
        Some(rest[..k])
      else None
  }

  /** The regular expression matches a block exactly when its text is there: the converse of BlockAt's contract. */
  lemma BlockAtExact(s: string, code: string)
    requires |code| > 0 && forall i :: 0 <= i < |code| ==> code[i] != '<'
    requires |CodeOpen| + |code| + |CodeClose| <= |s|
    requires s[..|CodeOpen| + |code| + |CodeClose|] == CodeOpen + code + CodeClose
    ensures BlockAt(s) == Some(code)
  {
    var n := |CodeOpen| + |code| + |CodeClose|;
    var t := CodeOpen + code + CodeClose;
    assert t[..|CodeOpen|] == CodeOpen;
    assert t[|CodeOpen|..] == code + CodeClose;
    var rest := s[|CodeOpen|..];
    assert s[..|CodeOpen|] == t[..|CodeOpen|];
    assert rest[..|code| + |CodeClose|] == t[|CodeOpen|..];
    assert (code + CodeClose)[..|code|] == code && (code + CodeClose)[|code|..] == CodeClose;
    assert rest[..|code|] == code;
    assert rest[|code|..|code| + |CodeClose|] == CodeClose;
    assert rest[|code|] == '<';
    assert TextRun(rest) == |code|;
  }

  /** The global replace of code blocks: each match, scanned left to right, becomes
      `<pre><code>` + pretty(X) + `</code></pre>`; everything else is copied. */
  function Highlight(s: string, pretty: string -> string): string
    decreases |s|
  {
    if s == [] then []
    else
      match BlockAt(s)
      case Some(code) =>
        CodeOpen + pretty(code) + CodeClose + Highlight(s[|CodeOpen| + |code| + |CodeClose|..], pretty)
      case None => [s[0]] + Highlight(s[1..], pretty)
  }

  /** A highlighter that changes nothing leaves the body as it was. */
  lemma {:induction false} HighlightIdentity(s: string, pretty: string -> string)
    requires forall x :: pretty(x) == x
    ensures Highlight(s, pretty) == s
    decreases |s|
  {
    if s != [] {
      match BlockAt(s)
      case Some(code) =>
        var n := |CodeOpen| + |code| + |CodeClose|;
        HighlightIdentity(s[n..], pretty);
        assert s == s[..n] + s[n..];
      case None =>
        HighlightIdentity(s[1..], pretty);
        assert s == [s[0]] + s[1..];
    }
  }

  /** A body without `<pre><code>` passes through unchanged, whatever the highlighter. */
  lemma {:induction false} HighlightNoBlocks(s: string, pretty: string -> string)
    requires forall j: nat :: !Snippets.OccursAt(s, CodeOpen, j)
    ensures Highlight(s, pretty) == s
    decreases |s|
  {
    if s != [] {
      assert !Snippets.OccursAt(s, CodeOpen, 0);
      assert BlockAt(s).None?;
      forall j: nat ensures !Snippets.OccursAt(s[1..], CodeOpen, j) {
        assert !Snippets.OccursAt(s, CodeOpen, j + 1);
        if j + |CodeOpen| <= |s| - 1 {
          assert s[1..][j..j + |CodeOpen|] == s[j + 1..j + 1 + |CodeOpen|];
        }
      }
      HighlightNoBlocks(s[1..], pretty);
      assert s == [s[0]] + s[1..];
    }
  }

  /** The Content-Type step: a missing or empty Content-Type becomes the HTML default. */
  function Typed(headers: Headers): (r: Headers)
    ensures "Content-Type" in r
    ensures Present(headers, "Content-Type") ==> r["Content-Type"] == headers["Content-Type"]
    ensures !Present(headers, "Content-Type") ==> r["Content-Type"] == Text(DefaultContentType)
    ensures forall key :: key != "Content-Type" ==> Unchanged(headers, r, key)
  {
    if Present(headers, "Content-Type") then headers
    else headers["Content-Type" := Text(DefaultContentType)]
  }

  /** The cache-validator step: the working copy loses Cache-Control, any other version gets an ETag. */
  function Validated(headers: Headers, version: string, path: string, date: string,
                     md5: string -> string): (r: Headers)
    ensures version == WorkingCopy ==> "Cache-Control" !in r && Unchanged(headers, r, "ETag")
    ensures version != WorkingCopy ==> Unchanged(headers, r, "Cache-Control")
    ensures version != WorkingCopy ==>
              "ETag" in r && r["ETag"] == Text(md5(version + ":" + path + ":" + date))
    ensures forall key :: key != "Cache-Control" && key != "ETag" ==> Unchanged(headers, r, key)
  {
    if version == WorkingCopy then headers - {"Cache-Control"}
    else headers["ETag" := Text(md5(version + ":" + path + ":" + date))]
  }

  /** postProcess on values: the final headers and buffer, given the clock's `date` string and the
      MD5 and Prettify functions. */
  function Finalize(headers: Headers, buffer: Bytes, version: string, path: string, date: string,
                    md5: string -> string, pretty: string -> string): (r: Response)
    ensures "Content-Type" in r.headers
    ensures Present(headers, "Content-Type") ==> r.headers["Content-Type"] == headers["Content-Type"]
    ensures !Present(headers, "Content-Type") ==> r.headers["Content-Type"] == Text(DefaultContentType)
    ensures "Date" in r.headers && r.headers["Date"] == Text(date)
    ensures "Server" in r.headers && r.headers["Server"] == Text(ServerName)
    ensures version == WorkingCopy ==> "Cache-Control" !in r.headers && Unchanged(headers, r.headers, "ETag")
    ensures version != WorkingCopy ==> Unchanged(headers, r.headers, "Cache-Control")
    ensures version != WorkingCopy ==>
              "ETag" in r.headers && r.headers["ETag"] == Text(md5(version + ":" + path + ":" + date))
    ensures "Content-Length" in r.headers && r.headers["Content-Length"] == Number(|r.buffer|)
    ensures IsHtml(r.headers["Content-Type"]) ==> r.buffer == Highlight(buffer, pretty)
    ensures !IsHtml(r.headers["Content-Type"]) ==> r.buffer == buffer
  {
    var stamped := Typed(headers)["Date" := Text(date)]["Server" := Text(ServerName)];
    var validated := Validated(stamped, version, path, date, md5);
    var body := if IsHtml(validated["Content-Type"]) then Highlight(buffer, pretty) else buffer;
    Response(validated["Content-Length" := Number(|body|)], body)
  }

  /** postProcess leaves every header it does not manage as the renderer set it. */
  lemma FinalizeFrame(headers: Headers, buffer: Bytes, version: string, path: string, date: string,
                      md5: string -> string, pretty: string -> string)
    ensures forall key :: key !in Managed ==>
              Unchanged(headers, Finalize(headers, buffer, version, path, date, md5, pretty).headers, key)
  {
    var stamped := Typed(headers)["Date" := Text(date)]["Server" := Text(ServerName)];
    assert forall key :: key !in Managed ==> Unchanged(headers, stamped, key);
  }

  /** The headers object a renderer builds and postProcess then updates in place. */
  class HeaderMap {
    var fields: Headers

    constructor (fields: Headers)
      ensures this.fields == fields
    {
      this.fields := fields;
    }

    /** postProcess: sets and deletes keys of this header object and returns the final buffer. */
    method PostProcess(buffer: Bytes, version: string, path: string, date: string,
                       md5: string -> string, pretty: string -> string) returns (out: Bytes)
      modifies this
      ensures fields == Finalize(old(fields), buffer, version, path, date, md5, pretty).headers
      ensures out == Finalize(old(fields), buffer, version, path, date, md5, pretty).buffer
    {
      if !Present(fields, "Content-Type") {
        fields := fields["Content-Type" := Text(DefaultContentType)];
      }
      fields := fields["Date" := Text(date)];
      fields := fields["Server" := Text(ServerName)];
      if version == WorkingCopy {
        fields := fields - {"Cache-Control"};
      } else {
        fields := fields["ETag" := Text(md5(version + ":" + path + ":" + date))];
      }
      out := buffer;
      if IsHtml(fields["Content-Type"]) {
        out := Highlight(buffer, pretty);
      }
      fields := fields["Content-Length" := Number(|out|)];
    }
  }
}
