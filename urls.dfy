/** Request URLs and a reader for them. The components build their request URLs
    by pasting text together; `ParseUrl` is an independent reading of such a
    URL (the path before the first `?`, then `&`-separated `key=value` fields),
    and `ParseQuery` shows that reading back a rendered query string returns
    exactly the fields that went in. */
module Urls {
  import opened Text

  /** The base of every request (`API_URL`). */
  const ApiUrl := "https://api.themoviedb.org/3"

  /** A path under the API base, extended by text without `?` or `#`, has
      neither. */
  lemma ApiPathPlain(suffix: string)
    requires '?' !in suffix && '#' !in suffix
    ensures '?' !in ApiUrl + suffix && '#' !in ApiUrl + suffix
  {
    assert forall c :: c in ApiUrl + suffix ==> c in ApiUrl || c in suffix;
  }

  datatype Url = Url(path: string, params: seq<(string, string)>)

  function Field(p: (string, string)): string {
    p.0 + "=" + p.1
  }

  /** A query string written out field by field. */
  function QueryString(ps: seq<(string, string)>): string {
    Join(seq(|ps|, k requires 0 <= k < |ps| => Field(ps[k])), "&")
  }

  lemma QueryStringOne(p: (string, string))
    ensures QueryString([p]) == Field(p)
  {
  }

  /** A query string is its first field, `&`, then the query string of the rest. */
  lemma QueryStringCons(p: (string, string), ps: seq<(string, string)>)
    requires |ps| >= 1
    ensures QueryString([p] + ps) == Field(p) + "&" + QueryString(ps)
  {
    var fs := seq(|[p] + ps|, k requires 0 <= k < |[p] + ps| => Field(([p] + ps)[k]));
    var gs := seq(|ps|, k requires 0 <= k < |ps| => Field(ps[k]));
    assert fs[1..] == gs;
  }

  /** The text of three fields joined by `&`. */
  lemma QueryString3(a: (string, string), b: (string, string), c: (string, string))
    ensures QueryString([a, b, c]) == Field(a) + "&" + (Field(b) + "&" + Field(c))
  {
    QueryStringOne(c);
    QueryStringCons(b, [c]);
    assert [b] + [c] == [b, c];
    QueryStringCons(a, [b, c]);
    assert [a] + [b, c] == [a, b, c];
  }

  /** Two fields written out one after another are their query string. */
  lemma Regroup2(path: string, a: (string, string), b: (string, string))
    ensures path + "?" + Field(a) + "&" + Field(b) == path + "?" + QueryString([a, b])
  {
    QueryStringOne(b);
    QueryStringCons(a, [b]);
    assert [a] + [b] == [a, b];
  }

  /** Three fields written out one after another are their query string. */
  lemma Regroup3(path: string, a: (string, string), b: (string, string), c: (string, string))
    ensures path + "?" + Field(a) + "&" + Field(b) + "&" + Field(c) == path + "?" + QueryString([a, b, c])
  {
    QueryString3(a, b, c);
  }

  lemma Regroup4(path: string, a: (string, string), b: (string, string), c: (string, string), d: (string, string))
    ensures path + "?" + Field(a) + "&" + Field(b) + "&" + Field(c) + "&" + Field(d) == path + "?" + QueryString([a, b, c, d])
  {
    QueryString3(b, c, d);
    QueryStringCons(a, [b, c, d]);
    assert [a] + [b, c, d] == [a, b, c, d];
  }

  /** How a server reads a request URL: the fragment from the first `#` on is
      never sent, and what is sent is the path before the first `?`, then
      the query's `&`-separated fields in order. Field text is taken as
      written: no percent-decoding and no `+` for space. */
  function ParseUrl(s: string): Url {
    match Find(s, "#")
    case None => ParseTarget(s)
    case Some(j) => ParseTarget(s[..j])
  }

  /** The path and fields of the part of a URL that is sent. */
  function ParseTarget(s: string): Url {
    match Find(s, "?")
    case None => Url(s, [])
    case Some(i) =>
      var fields := SplitOn(s[i + 1..], "&");
      Url(s[..i], seq(|fields|, k requires 0 <= k < |fields| => SplitFirst(fields[k], "=")))
  }

  /** Fields whose keys and values cannot be confused with the separators. */
  predicate PlainParams(ps: seq<(string, string)>) {
    forall k :: 0 <= k < |ps| ==>
      '&' !in ps[k].0 && '=' !in ps[k].0 && '#' !in ps[k].0 && '&' !in ps[k].1 && '#' !in ps[k].1
  }

  /** A URL known to be a path, `?` and a query string of plain fields reads
      back as that path and those fields. */
  lemma ReadsBackAs(url: string, path: string, ps: seq<(string, string)>)
    requires url == path + "?" + QueryString(ps)
    requires '?' !in path && '#' !in path && |ps| >= 1 && PlainParams(ps)
    ensures ParseUrl(url) == Url(path, ps)
  {
    ParseQuery(path, ps);
  }

  /** A path, `?` and a query string of plain fields read back as exactly
      that path and those fields. */
  lemma ParseQuery(path: string, ps: seq<(string, string)>)
    requires '?' !in path && '#' !in path && |ps| >= 1 && PlainParams(ps)
    ensures ParseUrl(path + "?" + QueryString(ps)) == Url(path, ps)
  {
    var q := QueryString(ps);
    var s := path + "?" + q;
    var fs := seq(|ps|, k requires 0 <= k < |ps| => Field(ps[k]));
    forall k | 0 <= k < |fs| ensures "&"[0] !in fs[k] && '#' !in fs[k] {
      assert fs[k] == ps[k].0 + "=" + ps[k].1;
    }
    assert '#' !in s by {
      JoinAvoids(fs, "&", '#');
      assert forall c :: c in s ==> c in path || c == '?' || c in q;
    }
    FindAbsent(s, "#");
    FindClean(path, "?", q);
    assert s[..|path|] == path;
    assert s[|path| + 1..] == q;
    SplitJoin(fs, "&");
    forall k | 0 <= k < |ps| ensures SplitFirst(fs[k], "=") == ps[k] {
      SplitFirstClean(ps[k].0, "=", ps[k].1);
    }
  }
}
