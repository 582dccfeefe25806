/**
  The first half of the catch-all GET handler (app.js:35-50): split the raw
  URL into path and query, strip a template suffix the client asked for by
  name, and derive the two names the handler probes for.
 */
module Request {
  import opened Strings

  /** The template files' suffix; the view engine is EJS. */
  const TemplateSuffix: string := ".ejs"

  /** A query-shaped URL tail: empty, or starting at a `?`. */
  predicate QueryTail(q: string) {
    q == "" || q[0] == '?'
  }

  /** A raw URL split at its question marks. */
  datatype Target = Target(path: string, query: string)

  /**
    `path` is `url.split("?")[0]` and `query` is `"?" + url.split("?")[1]`
    when the URL holds a `?`, `""` otherwise (app.js:35-36).
   */
  function SplitUrl(url: string): (t: Target)
    // a URL without `?` is all path
    ensures '?' !in url ==> t == Target(url, "")
    // otherwise the query is never empty and starts at a `?`
    ensures '?' in url ==> |t.query| >= 1 && t.query[0] == '?'
  {
    if '?' in url then
      var parts := Split(url, '?');
      Target(parts[0], "?" + parts[1])
    else
      Target(url, "")
  }

  /**
    What the split means: the path is exactly the text before the first
    `?`, and the query is empty without a `?` and otherwise that `?` and the
    text up to the next `?` or the end. Only the segment between the first
    and the second `?` is kept.
   */
  lemma SplitUrlSpec(url: string)
    ensures var t := SplitUrl(url);
      // the path is exactly the text before the first '?'
      && '?' !in t.path
      && IsPrefix(t.path, url)
      && (t.path == url || url[|t.path|] == '?')
      // the query is empty exactly when there is no '?'
      && (t.query == "" <==> '?' !in url)
      // otherwise it is '?' and the text up to the next '?' or the end
      && ('?' in url ==>
            && t.query[0] == '?' && '?' !in t.query[1..]
            && IsPrefix(t.path + t.query, url)
            && (|t.path| + |t.query| == |url| || url[|t.path| + |t.query|] == '?'))
  {
    if '?' in url {
      SplitPiecesFree(url, '?');
      SplitPathShape(url);
      SplitQueryShape(url);
    }
  }

  /** The first piece of a URL holding `?` is the text before the first `?`. */
  lemma SplitPathShape(url: string)
    requires '?' in url
    ensures IsPrefix(Split(url, '?')[0], url) && url[|Split(url, '?')[0]|] == '?'
  {
    SplitAtFirst(url, '?');
  }

  /** The second piece runs from the first `?` up to the next `?` or the end. */
  lemma SplitQueryShape(url: string)
    requires '?' in url
    ensures var parts := Split(url, '?');
      var n := |parts[0]| + 1 + |parts[1]|;
      && IsPrefix(parts[0] + ("?" + parts[1]), url)
      && (n == |url| || url[n] == '?')
  {
    var k := IndexOf(url, '?');
    FirstTwoOfSplit(url);
    SplitFirst(url[k + 1..], '?');
    QueryPrefix(url, k, Split(url[k + 1..], '?')[0]);
  }

  /** The first two pieces: the text before the first `?`, then the first piece of the rest. */
  lemma FirstTwoOfSplit(url: string)
    requires '?' in url
    ensures var k := IndexOf(url, '?');
      && Split(url, '?')[0] == url[..k]
      && Split(url, '?')[1] == Split(url[k + 1..], '?')[0]
  {
    SplitAtFirst(url, '?');
  }

  /** A run that starts right after the `?` at position `k`, placed in the URL. */
  lemma QueryPrefix(url: string, k: nat, b: string)
    requires k < |url| && url[k] == '?'
    requires IsPrefix(b, url[k + 1..]) && (b == url[k + 1..] || url[k + 1..][|b|] == '?')
    ensures IsPrefix(url[..k] + ("?" + b), url)
    ensures k + 1 + |b| == |url| || url[k + 1 + |b|] == '?'
  {
    var rest := url[k + 1..];
    assert url[..k + 1 + |b|] == url[..k] + [url[k]] + rest[..|b|];
  }

  /** The query is the first `?`-free segment after the first `?`, whatever follows it. */
  lemma SplitUrlOfSegments(p: string, seg: string, rest: string)
    requires '?' !in p && '?' !in seg
    requires QueryTail(rest)
    ensures SplitUrl(p + "?" + seg + rest) == Target(p, "?" + seg)
  {
    var url := p + "?" + seg + rest;
    FirstTwoPieces(p, seg, rest);
    assert url[|p|] == '?';
  }

  /** The first two pieces of `p?seg…` are `p` and `seg` when neither holds a `?`. */
  lemma FirstTwoPieces(p: string, seg: string, rest: string)
    requires '?' !in p && '?' !in seg
    requires QueryTail(rest)
    ensures var parts := Split(p + "?" + seg + rest, '?');
      |parts| >= 2 && parts[0] == p && parts[1] == seg
  {
    assert p + "?" + seg + rest == p + ['?'] + (seg + rest);
    SplitCons(p, seg + rest, '?');
    FirstPiece(seg, rest);
  }

  /** A `?`-free run followed by nothing or by a `?` is the first piece. */
  lemma FirstPiece(seg: string, rest: string)
    requires '?' !in seg
    requires QueryTail(rest)
    ensures Split(seg + rest, '?')[0] == seg
  {
    if rest == "" {
      assert seg + rest == seg;
    } else {
      assert seg + rest == seg + ['?'] + rest[1..];
      SplitCons(seg, rest[1..], '?');
    }
  }

  /** `path + query` gives the URL back exactly when it holds at most one `?`. */
  lemma SplitUrlRoundTrip(url: string)
    ensures SplitUrl(url).path + SplitUrl(url).query == url <==> Count(url, '?') <= 1
  {
    if Count(url, '?') <= 1 {
      RoundTripAtMostOne(url);
    }
    if SplitUrl(url).path + SplitUrl(url).query == url {
      RoundTripCount(url);
    }
  }

  /** At most one `?`: path + query is the URL. */
  lemma RoundTripAtMostOne(url: string)
    requires Count(url, '?') <= 1
    ensures SplitUrl(url).path + SplitUrl(url).query == url
  {
    if '?' in url {
      var k := IndexOf(url, '?');
      var rest := url[k + 1..];
      SplitAtFirst(url, '?');
      SplitCount(url, '?');
      assert |Split(rest, '?')| == 1;
      assert Split(rest, '?') == [rest];
      assert SplitUrl(url) == Target(url[..k], "?" + rest);
      assert url == url[..k] + ['?'] + rest;
    }
  }

  /** Path + query is the URL only when it holds at most one `?`. */
  lemma RoundTripCount(url: string)
    requires SplitUrl(url).path + SplitUrl(url).query == url
    ensures Count(url, '?') <= 1
  {
    var t := SplitUrl(url);
    SplitUrlSpec(url);
    if '?' in url {
      assert t.query == [t.query[0]] + t.query[1..];
      assert url == t.path + [t.query[0]] + t.query[1..];
      assert multiset(url) == multiset(t.path) + multiset([t.query[0]]) + multiset(t.query[1..]);
      assert multiset(t.path)['?'] == 0 && multiset(t.query[1..])['?'] == 0;
    } else {
      assert multiset(url)['?'] == 0;
    }
  }

  /**
    Prefixing a query-shaped tail with a `?`-free path: the path is split off
    unchanged and the query is the one the tail alone would give.
   */
  lemma SplitUrlOfConcat(p: string, q: string)
    requires '?' !in p
    requires QueryTail(q)
    ensures SplitUrl(p + q) == Target(p, SplitUrl(q).query)
  {
    if q == "" {
      assert p + q == p;
    } else {
      var rest := q[1..];
      assert q == [] + ['?'] + rest;
      assert p + q == p + ['?'] + rest;
      IndexOfAfterFree(p, rest, '?');
      IndexOfAfterFree([], rest, '?');
      assert (p + q)[..|p|] == p && (p + q)[|p| + 1..] == rest;
      assert Split(p + q, '?') == [p] + Split(rest, '?');
      assert Split(q, '?') == [[]] + Split(rest, '?');
    }
  }

  /** The suffix test `path.toLowerCase().endsWith(".ejs")`, spelled out character by character. */
  predicate HasTemplateSuffix(path: string) {
    var n := |path|;
    && n >= 4
    && path[n - 4] == '.'
    && (path[n - 3] == 'e' || path[n - 3] == 'E')
    && (path[n - 2] == 'j' || path[n - 2] == 'J')
    && (path[n - 1] == 's' || path[n - 1] == 'S')
  }

  /** Removes a case-insensitive `.ejs` suffix once (app.js:44-45). */
  function StripTemplateSuffix(path: string): (r: string)
    ensures HasTemplateSuffix(path) ==> r == path[..|path| - 4]
    ensures !HasTemplateSuffix(path) ==> r == path
  {
    LowerSuffixTest(path);
    if EndsWith(ToLower(path), TemplateSuffix) then path[..|path| - 4] else path
  }

  /** Lower-casing and then testing for `.ejs` is the character-wise test. */
  lemma LowerSuffixTest(path: string)
    ensures EndsWith(ToLower(path), TemplateSuffix) <==> HasTemplateSuffix(path)
  {
    var lower := ToLower(path);
    var n := |path|;
    if n >= 4 {
      var tail := lower[n - 4..];
      assert EndsWith(lower, TemplateSuffix) <==> tail == TemplateSuffix;
      assert tail == TemplateSuffix <==>
        tail[0] == '.' && tail[1] == 'e' && tail[2] == 'j' && tail[3] == 's';
      assert tail[0] == LowerChar(path[n - 4]) && tail[1] == LowerChar(path[n - 3]);
      assert tail[2] == LowerChar(path[n - 2]) && tail[3] == LowerChar(path[n - 1]);
    }
  }

  /** Asking for a template by file name, in any letter case, asks for its logical path. */
  lemma StripAppendedSuffix(p: string, suffix: string)
    requires |suffix| == 4 && HasTemplateSuffix(suffix)
    ensures StripTemplateSuffix(p + suffix) == p
  {
    assert (p + suffix)[|p|..] == suffix;
  }

  /** The strip happens once: a doubled suffix loses only its last copy. */
  lemma StripNotIdempotent(p: string)
    ensures StripTemplateSuffix(p + ".ejs.ejs") == p + ".ejs"
    ensures StripTemplateSuffix(StripTemplateSuffix(p + ".ejs.ejs")) == p
  {
    assert p + ".ejs.ejs" == (p + ".ejs") + ".ejs";
    StripAppendedSuffix(p + ".ejs", ".ejs");
    StripAppendedSuffix(p, ".ejs");
  }

  /** A slash-terminated path never carries the template suffix. */
  lemma SlashTerminatedIsNormal(d: string)
    requires EndsWith(d, "/")
    ensures StripTemplateSuffix(d) == d
  {
    assert d[|d| - 1] == d[|d| - 1..][0] == '/';
  }

  /** The two names probed for a normalised path (app.js:49-50). */
  datatype Candidates = Candidates(template: string, plain: string)

  function CandidatesOf(path: string): (c: Candidates)
    // both candidates extend the path
    ensures IsPrefix(path, c.template) && IsPrefix(path, c.plain)
    // the template candidate is a template file, the plain one is never a slash-terminated name
    ensures EndsWith(c.template, TemplateSuffix)
    ensures !EndsWith(c.plain, "/")
    // a slash-terminated path asks for the directory's index files
    ensures EndsWith(path, "/") ==> c.template == path + "index.ejs" && c.plain == path + "index.html"
    // any other path asks for the path itself and its template
    ensures !EndsWith(path, "/") ==> c.plain == path && c.template == c.plain + TemplateSuffix
  {
    if EndsWith(path, "/") then
      var c := Candidates(path + "index.ejs", path + "index.html");
      assert c.template[..|path|] == path && c.plain[..|path|] == path;
      assert c.template[|c.template| - 4..] == TemplateSuffix;
      assert c.plain[|c.plain| - 1..] == "l";
      c
    else
      var c := Candidates(path + TemplateSuffix, path);
      assert c.template[..|path|] == path;
      assert c.template[|c.template| - 4..] == TemplateSuffix;
      c
  }
}
