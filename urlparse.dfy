/** A simplified model of Python's `urllib.parse.urlparse`, reduced to what the
    catalog reads from it (scheme, network location, path, query). It follows
    `urlsplit` of Python 3.9 and later: a scheme is taken only when the text
    before the first `:` is a letter followed by letters, digits, `+`, `-` or
    `.`, and it is lower-cased; the network location follows `//` up to the
    first `/`, `?` or `#`; the fragment is cut at the first `#` and the query at
    the first `?`. For the six schemes of the catalog `urlparse` does not split
    off `;` parameters, so `urlsplit` and `urlparse` agree on them. */
module UrlParse {
  import opened PyStr

  datatype SplitResult = SplitResult(scheme: string, netloc: string, path: string, query: string, fragment: string)

  predicate SchemeChar(c: char) {
    'a' <= c <= 'z' || 'A' <= c <= 'Z' || '0' <= c <= '9' || c == '+' || c == '-' || c == '.'
  }

  predicate IsScheme(s: string) {
    && |s| > 0
    && ('a' <= s[0] <= 'z' || 'A' <= s[0] <= 'Z')
    && forall i :: 0 <= i < |s| ==> SchemeChar(s[i])
  }

  /** The index of the first character of `s` that is in `delims`, or `|s|`
      when there is none (the end of the network location in `urlsplit`). */
  function FindAny(s: string, delims: set<char>): (i: nat)
    ensures i <= |s|
    ensures forall k :: 0 <= k < i ==> s[k] !in delims
    ensures i < |s| ==> s[i] in delims
    decreases |s|
  {
    if |s| == 0 then 0
    else if s[0] in delims then 0
    else 1 + FindAny(s[1..], delims)
  }

  /** `FindAny` stops at the first delimiter: past a delimiter-free prefix,
      at a delimiter or the end. */
  lemma FindAnyAfterPrefix(a: string, b: string, delims: set<char>)
    requires forall k :: 0 <= k < |a| ==> a[k] !in delims
    requires b == [] || b[0] in delims
    ensures FindAny(a + b, delims) == |a|
  {
    var s := a + b;
    var i := FindAny(s, delims);
    assert forall k :: 0 <= k < |a| ==> s[k] == a[k];
    assert |b| > 0 ==> s[|a|] == b[0];
  }

  const NetlocEnd: set<char> := {'/', '?', '#'}

  /** The scheme of `url` and what follows its `:`; no scheme and the whole
      of `url` when the text before the first `:` is not a scheme. */
  function SplitScheme(url: string): (string, string) {
    var colon := Find(url, ':');
    if colon > 0 && IsScheme(url[..colon]) then (Lower(url[..colon]), url[colon + 1..])
    else ("", url)
  }

  /** The network location after a leading `//`, and the rest. */
  function SplitNetloc(rest: string): (string, string) {
    if |rest| >= 2 && rest[..2] == "//" then
      var netlocEnd := 2 + FindAny(rest[2..], NetlocEnd);
      (rest[2..netlocEnd], rest[netlocEnd..])
    else ("", rest)
  }

  /** `url.split(sep, 1)` when `sep` occurs in `url`, else `url` and "". */
  function CutAt(url: string, sep: char): (string, string) {
    var i := Find(url, sep);
    if i < 0 then (url, "") else (url[..i], url[i + 1..])
  }

  /** `urlsplit(url)`: the network location stops before the first `/`,
      `?` or `#`, the fragment is cut off at the first `#` before the query
      at the first `?`, so neither the path nor the query holds a `#` and the
      path holds no `?`. */
  function UrlSplit(url: string): (r: SplitResult)
    ensures '/' !in r.netloc && '?' !in r.netloc && '#' !in r.netloc
    ensures '?' !in r.path && '#' !in r.path && '#' !in r.query
  {
    var (scheme, rest) := SplitScheme(url);
    var (netloc, afterNetloc) := SplitNetloc(rest);
    var (beforeHash, fragment) := CutAt(afterNetloc, '#');
    var (path, query) := CutAt(beforeHash, '?');
    SplitResult(scheme, netloc, path, query, fragment)
  }

  /** The URL with the given components, `scheme://netloc path?query#fragment`,
      leaving out `?` and `#` when the query or fragment is empty. */
  function Unsplit(p: SplitResult): string {
    p.scheme + "://" + p.netloc + p.path
      + (if p.query == "" then "" else "?" + p.query)
      + (if p.fragment == "" then "" else "#" + p.fragment)
  }

  /** Components that `Unsplit` writes unambiguously: a lower-case scheme, a
      network location without `/`, `?` or `#`, an empty or absolute path
      without `?` or `#`, and a query without `#`. */
  predicate WellFormed(p: SplitResult) {
    && IsScheme(p.scheme) && IsLowerCase(p.scheme)
    && (forall k :: 0 <= k < |p.netloc| ==> p.netloc[k] !in NetlocEnd)
    && (p.path == "" || p.path[0] == '/')
    && '?' !in p.path && '#' !in p.path
    && '#' !in p.query
  }

  /** The scheme of `scheme:rest` is `scheme`, for a lower-case scheme. */
  lemma SchemeOf(scheme: string, rest: string)
    requires IsScheme(scheme) && IsLowerCase(scheme)
    ensures SplitScheme(scheme + ":" + rest) == (scheme, rest)
  {
    var s := scheme + ":" + rest;
    assert ':' !in scheme by {
      forall k | 0 <= k < |scheme| ensures scheme[k] != ':' {
        assert SchemeChar(scheme[k]);
      }
    }
    FindAfterPrefix(scheme, ':', rest);
    assert s[..|scheme|] == scheme;
    assert s[|scheme| + 1..] == rest;
    LowerOfLowerCase(scheme);
  }

  lemma NetlocOf(netloc: string, tail: string)
    requires forall k :: 0 <= k < |netloc| ==> netloc[k] !in NetlocEnd
    requires tail == [] || tail[0] in NetlocEnd
    ensures SplitNetloc("//" + netloc + tail) == (netloc, tail)
  {
    var rest := "//" + netloc + tail;
    assert rest[..2] == "//";
    assert rest[2..] == netloc + tail;
    FindAnyAfterPrefix(netloc, tail, NetlocEnd);
  }

  lemma CutAtOf(before: string, sep: char, after: string)
    requires sep !in before
    ensures CutAt(before + (if after == "" then "" else [sep] + after), sep) == (before, after)
  {
    if after == "" {
      assert before + "" == before;
    } else {
      var s := before + ([sep] + after);
      assert s == before + [sep] + after;
      FindAfterPrefix(before, sep, after);
      assert s[..|before|] == before;
      assert s[|before| + 1..] == after;
    }
  }

  /** `urlsplit` takes apart what `Unsplit` puts together. */
  lemma SplitUnsplit(p: SplitResult)
    requires WellFormed(p)
    ensures UrlSplit(Unsplit(p)) == p
  {
    var q := if p.query == "" then "" else "?" + p.query;
    var f := if p.fragment == "" then "" else "#" + p.fragment;
    var beforeHash := p.path + q;
    var tail := beforeHash + f;
    var rest := "//" + p.netloc + tail;
    UnsplitShape(p.scheme, p.netloc, p.path, q, f);
    SchemeOf(p.scheme, rest);
    assert tail == [] || tail[0] in NetlocEnd;
    NetlocOf(p.netloc, tail);
    assert '#' !in beforeHash;
    CutAtOf(beforeHash, '#', p.fragment);
    CutAtOf(p.path, '?', p.query);
    UrlSplitSteps(Unsplit(p), p.scheme, rest, p.netloc, tail, beforeHash, p.path, p.query, p.fragment);
  }

  lemma UnsplitShape(scheme: string, netloc: string, path: string, q: string, f: string)
    ensures scheme + "://" + netloc + path + q + f == scheme + ":" + ("//" + netloc + ((path + q) + f))
  {
    assert "://" == ":" + "//";
  }

  /** `UrlSplit` in terms of the results of its four steps. */
  lemma UrlSplitSteps(url: string, scheme: string, rest: string, netloc: string, tail: string,
                      beforeHash: string, path: string, query: string, fragment: string)
    requires SplitScheme(url) == (scheme, rest)
    requires SplitNetloc(rest) == (netloc, tail)
    requires CutAt(tail, '#') == (beforeHash, fragment)
    requires CutAt(beforeHash, '?') == (path, query)
    ensures UrlSplit(url) == SplitResult(scheme, netloc, path, query, fragment)
  {
  }
}
