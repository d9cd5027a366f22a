/**
  The client-side router's reading of a navigated URL: the path before `?`,
  and the `key=value` pairs of the query between `&` separators, in order.
 */
module Router {
  import opened Wrappers
  import opened Js

  datatype Location = Location(path: string, query: seq<(string, string)>)

  /** The text before the first `sep` and, when `sep` occurs, the text after it. */
  function SplitOnce(s: string, sep: char): (r: (string, Option<string>))
    ensures sep !in r.0
    ensures r.1.None? ==> r.0 == s
    ensures r.1.Some? ==> s == r.0 + [sep] + r.1.value
  {
    if s == [] then ([], None)
    else if s[0] == sep then ([], Some(s[1..]))
    else
      var r := SplitOnce(s[1..], sep);
      ([s[0]] + r.0, r.1)
  }

  /** Splitting where `sep` first occurs gives back the two sides. */
  lemma {:induction false} SplitOnceAt(p: string, sep: char, rest: string)
    requires sep !in p
    ensures SplitOnce(p + [sep] + rest, sep) == (p, Some(rest))
  {
    if p != [] {
      assert (p + [sep] + rest)[1..] == p[1..] + [sep] + rest;
      SplitOnceAt(p[1..], sep, rest);
      assert [p[0]] + p[1..] == p;
    } else {
      assert p + [sep] + rest == [sep] + rest;
    }
  }

  /** A string without `sep` does not split. */
  lemma {:induction false} SplitOnceAbsent(s: string, sep: char)
    requires sep !in s
    ensures SplitOnce(s, sep) == (s, None)
  {
    if s != [] {
      SplitOnceAbsent(s[1..], sep);
      assert [s[0]] + s[1..] == s;
    }
  }

  /** `s.split(sep)`. */
  /** The segments put back together with the separator between them. */
  function Join(segments: seq<string>, sep: char): string
    requires |segments| > 0
  {
    if |segments| == 1 then segments[0] else segments[0] + [sep] + Join(segments[1..], sep)
  }

  function SplitAll(s: string, sep: char): (r: seq<string>)
    ensures |r| > 0
    ensures forall k | 0 <= k < |r| :: sep !in r[k]
    ensures Join(r, sep) == s
    decreases |s|
  {
    var (head, tail) := SplitOnce(s, sep);
    if tail.None? then [head] else [head] + SplitAll(tail.value, sep)
  }

  /** One `key=value` segment; a segment without `=` is a key with the empty value. */
  function ParsePair(segment: string): (r: (string, string))
    ensures '=' !in r.0
    ensures '=' in segment ==> segment == r.0 + "=" + r.1
    ensures '=' !in segment ==> r == (segment, "")
    ensures forall c | c in r.0 :: c in segment
    ensures forall c | c in r.1 :: c in segment
  {
    var (key, value) := SplitOnce(segment, '=');
    (key, value.GetOr(""))
  }

  /** The pairs of a query string, empty segments skipped. */
  function ParseQuery(q: string): (r: seq<(string, string)>)
    ensures forall k | 0 <= k < |r| :: '&' !in r[k].0 && '&' !in r[k].1 && '=' !in r[k].0
    ensures '&' !in q && q != "" ==> r == [ParsePair(q)]
  {
    assert '&' !in q ==> SplitAll(q, '&') == [q] by {
      if '&' !in q {
        SplitOnceAbsent(q, '&');
      }
    }
    assert q != "" ==> PairsOf([q]) == [ParsePair(q)] + PairsOf([]);
    PairsOf(SplitAll(q, '&'))
  }

  /** One pair per non-empty segment, in order. */
  function PairsOf(segments: seq<string>): (r: seq<(string, string)>)
    ensures |r| <= |segments|
    ensures forall k | 0 <= k < |r| :: '=' !in r[k].0
    ensures (forall k | 0 <= k < |segments| :: '&' !in segments[k]) ==>
      forall k | 0 <= k < |r| :: '&' !in r[k].0 && '&' !in r[k].1
  {
    if segments == [] then []
    else (if segments[0] == "" then [] else [ParsePair(segments[0])]) + PairsOf(segments[1..])
  }

  /** The path is everything before the first `?`; a URL without `?` has no query. */
  function ParseUrl(url: string): (r: Location)
    ensures '?' !in r.path && r.path <= url
    ensures '?' !in url ==> r == Location(url, [])
    ensures '?' in url ==>
      |r.path| < |url| && url == r.path + "?" + url[|r.path| + 1..] &&
      r.query == ParseQuery(url[|r.path| + 1..])
  {
    var (path, query) := SplitOnce(url, '?');
    Location(path, if query.None? then [] else ParseQuery(query.value))
  }

  /** `searchParams.get(key)`: the value of the first pair with that key, or null. */
  function SearchParam(query: seq<(string, string)>, key: string): (r: Option<string>)
    ensures r.None? <==> forall k | 0 <= k < |query| :: query[k].0 != key
    ensures r.Some? ==>
      exists k | 0 <= k < |query| ::
        query[k] == (key, r.value) && forall j | 0 <= j < k :: query[j].0 != key
  {
    if query == [] then None
    else if query[0].0 == key then Some(query[0].1)
    else
      var r := SearchParam(query[1..], key);
      assert r.Some? ==> exists k | 0 <= k < |query[1..]| ::
        query[1..][k] == (key, r.value) && query[k + 1] == query[1..][k] &&
        forall j | 0 <= j < k :: query[1..][j].0 != key;
      r
  }
  /** Whichever pair is the first with the key, `get` gives its value. */
  lemma SearchParamFirst(query: seq<(string, string)>, key: string)
    ensures forall k | 0 <= k < |query| && query[k].0 == key && (forall j | 0 <= j < k :: query[j].0 != key) ::
      SearchParam(query, key) == Some(query[k].1)
  {
    forall k | 0 <= k < |query| && query[k].0 == key && (forall j | 0 <= j < k :: query[j].0 != key)
      ensures SearchParam(query, key) == Some(query[k].1)
    {
      var r := SearchParam(query, key);
      var k' :| 0 <= k' < |query| && query[k'] == (key, r.value) && forall j | 0 <= j < k' :: query[j].0 != key;
      assert k' == k;
    }
  }


  /** A URL with one `key=value` pair is read back as that path and that pair,
      provided none of the three parts holds a separator the router splits on. */
  lemma ParseSingleParam(path: string, key: string, value: string)
    requires '?' !in path && '&' !in key && '=' !in key && key != ""
    requires '&' !in value
    ensures ParseUrl(path + "?" + key + "=" + value) == Location(path, [(key, value)])
  {
    var q := key + "=" + value;
    assert path + "?" + key + "=" + value == path + ['?'] + q;
    SplitOnceAt(path, '?', q);
    assert '&' !in q;
    SplitOnceAbsent(q, '&');
    assert SplitAll(q, '&') == [q];
    assert q == key + ['='] + value;
    SplitOnceAt(key, '=', value);
    assert q != "";
    assert PairsOf([q]) == [ParsePair(q)] + PairsOf([]);
  }
}
