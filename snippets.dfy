/** insertSnippets: each snippet's placeholder in the markdown is replaced by the snippet template's
    rendering of that snippet, in list order, one `String.prototype.replace` with a string pattern each. */
module Snippets {
  import opened Types

  /** `pat` occurs in `s` at index i. */
  predicate OccursAt(s: string, pat: string, i: nat)
  {
    i + |pat| <= |s| && s[i..i + |pat|] == pat
  }

  /** i is the leftmost occurrence of `pat` in `s`: the one `indexOf` finds. */
  predicate IsFirstOccurrence(s: string, pat: string, i: nat)
  {
    OccursAt(s, pat, i) && forall j: nat :: j < i ==> !OccursAt(s, pat, j)
  }

  /** The leftmost occurrence of `pat` in `s` at or after k. */
  function IndexFrom(s: string, pat: string, k: nat): (r: Option<nat>)
    decreases |s| - k
    ensures r.Some? ==> k <= r.value && OccursAt(s, pat, r.value)
    ensures r.Some? ==> forall j: nat :: k <= j < r.value ==> !OccursAt(s, pat, j)
    ensures r.None? ==> forall j: nat :: k <= j ==> !OccursAt(s, pat, j)
  {
    if |s| < k + |pat| then None
    else if s[k..k + |pat|] == pat then Some(k)
    else IndexFrom(s, pat, k + 1)
  }

  /** `s.indexOf(pat)`, with None for -1. */
  function IndexOf(s: string, pat: string): (r: Option<nat>)
    ensures r.Some? ==> IsFirstOccurrence(s, pat, r.value)
    ensures r.None? ==> forall j: nat :: !OccursAt(s, pat, j)
  {
    IndexFrom(s, pat, 0)
  }

  /** `s.replace(pat, rep)` with a string pattern: only the first occurrence is replaced. */
  function ReplaceFirst(s: string, pat: string, rep: string): (r: string)
    ensures (forall j: nat :: !OccursAt(s, pat, j)) ==> r == s
    ensures forall i: nat :: IsFirstOccurrence(s, pat, i) ==> r == s[..i] + rep + s[i + |pat|..]
  {
    match IndexOf(s, pat)
    case None => s
    case Some(i) =>
      assert forall i': nat :: IsFirstOccurrence(s, pat, i') ==> i' == i;
      s[..i] + rep + s[i + |pat|..]
  }

  /** Replacing a placeholder by itself changes nothing. */
  lemma ReplaceFirstSelf(s: string, pat: string)
    ensures ReplaceFirst(s, pat, pat) == s
  {
    match IndexOf(s, pat)
    case None =>
    case Some(i) =>
      assert s == s[..i] + s[i..i + |pat|] + s[i + |pat|..];
  }

  /** The compiled snippet template: renders one snippet, or fails with the error it throws. */
  type Template = Snippet -> Result<string>

  /** The `forEach` over the snippets as a fold: stops at the first snippet the template fails on. */
  function ReplaceAll(markdown: string, snippets: seq<Snippet>, template: Template): Result<string>
    decreases |snippets|
  {
    if snippets == [] then Ok(markdown)
    else
      var html :- template(snippets[0]);
      ReplaceAll(ReplaceFirst(markdown, snippets[0].original, html), snippets[1..], template)
  }

  /** What insertSnippets hands to its callback, given the outcome of compiling the 'snippet' template. */
  function Inserted(markdown: string, snippets: seq<Snippet>, compiled: Result<Template>): (r: Result<string>)
    ensures compiled.Err? ==> r == Err(compiled.error)
    ensures compiled.Ok? && snippets == [] ==> r == Ok(markdown)
  {
    var template :- compiled;
    ReplaceAll(markdown, snippets, template)
  }

  /** insertSnippets: the markdown variable is reassigned once per snippet. */
  method InsertSnippets(markdown: string, snippets: seq<Snippet>, compiled: Result<Template>)
    returns (r: Result<string>)
    ensures r == Inserted(markdown, snippets, compiled)
  {
    if compiled.Err? {
      return Err(compiled.error);
    }
    var template := compiled.value;
    var md := markdown;
    for i := 0 to |snippets|
      invariant ReplaceAll(md, snippets[i..], template) == ReplaceAll(markdown, snippets, template)
    {
      assert snippets[i..][0] == snippets[i] && snippets[i..][1..] == snippets[i + 1..];
      var html := template(snippets[i]);
      if html.Err? {
        return Err(html.error);
      }
      md := ReplaceFirst(md, snippets[i].original, html.value);
    }
    assert snippets[|snippets|..] == [];
    r := Ok(md);
  }

  /** Snippets are applied in list order: a list split in two is the second half applied to the
      result of the first. */
  lemma {:induction false} ReplaceAllAppend(markdown: string, a: seq<Snippet>, b: seq<Snippet>, template: Template)
    ensures ReplaceAll(markdown, a + b, template) ==
            match ReplaceAll(markdown, a, template)
            case Err(e) => Err(e)
            case Ok(m) => ReplaceAll(m, b, template)
    decreases |a|
  {
    if a == [] {
      assert a + b == b;
    } else {
      assert (a + b)[0] == a[0] && (a + b)[1..] == a[1..] + b;
      match template(a[0])
      case Err(_) =>
      case Ok(html) =>
        ReplaceAllAppend(ReplaceFirst(markdown, a[0].original, html), a[1..], b, template);
    }
  }

  /** The fold fails exactly when the template fails on one of the snippets, whatever the markdown. */
  lemma {:induction false} ReplaceAllFails(markdown: string, snippets: seq<Snippet>, template: Template)
    ensures ReplaceAll(markdown, snippets, template).Err? <==>
            exists k :: 0 <= k < |snippets| && template(snippets[k]).Err?
    decreases |snippets|
  {
    if snippets != [] {
      match template(snippets[0])
      case Err(_) =>
      case Ok(html) =>
        ReplaceAllFails(ReplaceFirst(markdown, snippets[0].original, html), snippets[1..], template);
        assert forall k :: 1 <= k < |snippets| ==> snippets[k] == snippets[1..][k - 1];
    }
  }

  /** A template that renders every snippet as its own placeholder leaves the markdown as it was. */
  lemma {:induction false} ReplaceAllIdentity(markdown: string, snippets: seq<Snippet>, template: Template)
    requires forall k :: 0 <= k < |snippets| ==> template(snippets[k]) == Ok(snippets[k].original)
    ensures ReplaceAll(markdown, snippets, template) == Ok(markdown)
    decreases |snippets|
  {
    if snippets != [] {
      ReplaceFirstSelf(markdown, snippets[0].original);
      assert forall k :: 0 <= k < |snippets| - 1 ==> snippets[1..][k] == snippets[k + 1];
      ReplaceAllIdentity(markdown, snippets[1..], template);
    }
  }
}
