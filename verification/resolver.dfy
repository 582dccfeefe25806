/**
  The GET resolver (app.js:32-133) as one pure function of the raw URL and
  the content tree: the catch-all handler's template probe, `checkPath`'s
  file/directory probe and `handleDirectory`, then the two fallback routes
  Express tries when the first handler calls `next()`.
 */
module Resolver {
  import opened Strings
  import opened Content
  import opened Request
  import opened Directory

  /** The path the probes work on: the raw path with a template suffix stripped. */
  function Normalize(rawUrl: string): string {
    StripTemplateSuffix(SplitUrl(rawUrl).path)
  }

  /** The route path Express matches `app.get("/")` against: the raw text before the first `?`. */
  function RoutePath(rawUrl: string): string {
    SplitUrl(rawUrl).path
  }

  /**
    `checkPath(root, p, query)` (app.js:65-88): nothing there passes the
    request on; a file is sent; a directory goes to `handleDirectory` with
    its listing and the search names `names`.
   */
  function CheckPath(root: string, p: string, query: string, fs: Tree,
                     names: seq<string>): (h: Handled)
    ensures h == Next <==>
      || p !in fs
      || (&& fs[p].Dir? && EndsWith(p, "/")
          && forall j :: 0 <= j < |names| ==> IndexName(names[j]) !in fs[p].entries)
    ensures p in fs && fs[p].File? ==> h == Respond(SendFile(root + p))
    // a directory named without a trailing slash is redirected to, the query carried along
    ensures p in fs && fs[p].Dir? && !EndsWith(p, "/") ==> h == Respond(Redirect(p + "/" + query))
    // a slash-terminated directory sends the first listed index file, the query appended
    ensures p in fs && fs[p].Dir? && EndsWith(p, "/") && h.Respond? ==>
      exists k :: 0 <= k < |names|
        && IndexName(names[k]) in fs[p].entries
        && (forall j :: 0 <= j < k ==> IndexName(names[j]) !in fs[p].entries)
        && h.outcome == SendFile(root + p + IndexName(names[k]) + query)
  {
    if p !in fs then Next
    else
      match fs[p]
      case File => Respond(SendFile(root + p))
      case Dir(entries) => HandleDirectory(root, p, query, entries, names)
  }

  /** The routes registered after the catch-all (app.js:121-133). */
  function Fallback(rawUrl: string): (o: Outcome)
    // the default page exactly for the root route ...
    ensures o == DefaultIndex <==> RoutePath(rawUrl) == "/"
    // ... and otherwise a 404 naming the URL as requested, query included
    ensures o != DefaultIndex ==> o == NotFound(rawUrl)
  {
    if RoutePath(rawUrl) == "/" then DefaultIndex else NotFound(rawUrl)
  }

  /**
    The whole resolution with `names` as the values the index-file loop runs
    over. Stated per precedence level, with `t` and `p` the template and
    plain candidates of the normalised path.
   */
  function ResolveWith(root: string, rawUrl: string, fs: Tree, names: seq<string>): (o: Outcome)
    ensures var path := Normalize(rawUrl);
      var c := CandidatesOf(path);
      var query := SplitUrl(rawUrl).query;
      // a template for the path wins over everything else, rendered under the normalised path
      && (c.template in fs ==> o == Render(path))
      // then a plain file is sent from under the root
      && (c.template !in fs && c.plain in fs && fs[c.plain].File? ==> o == SendFile(root + c.plain))
      // a directory is always redirected to, never listed: the plain candidate has no trailing slash
      && (c.template !in fs && c.plain in fs && fs[c.plain].Dir? ==>
            o == Redirect(c.plain + "/" + query))
      // with no hit, "/" gets the default index page and anything else a 404 naming the full URL
      && (c.template !in fs && c.plain !in fs ==>
            o == (if RoutePath(rawUrl) == "/" then DefaultIndex else NotFound(rawUrl)))
  {
    var target := SplitUrl(rawUrl);
    var path := StripTemplateSuffix(target.path);
    var c := CandidatesOf(path);
    var first :=
      if c.template in fs then Respond(Render(path))
      else CheckPath(root, c.plain, target.query, fs, names);
    match first
    case Respond(o) => o
    case Next => Fallback(rawUrl)
  }

  /**
    The resolver as written: the index-file loop runs over `for...in` keys
    of `Exts`. It answers every request as the corrected loop over `Exts`
    would, since the loop is never reached (see `IndexLoopUnobservable`).
   */
  function Resolve(root: string, rawUrl: string, fs: Tree): (o: Outcome)
    ensures o == ResolveWith(root, rawUrl, fs, Exts)
  {
    ResolveWith(root, rawUrl, fs, ForInKeys(Exts))
  }

  /**
    The ordered probe chain for a URL already split into `rawPath` and
    `query`, as one decision list: template, file, directory, root route, 404.
   */
  function ProbeChain(root: string, fs: Tree, rawPath: string, query: string, rawUrl: string): Outcome {
    var path := StripTemplateSuffix(rawPath);
    var c := CandidatesOf(path);
    if c.template in fs then Render(path)
    else if c.plain in fs && fs[c.plain].File? then SendFile(root + c.plain)
    else if c.plain in fs then Redirect(c.plain + "/" + query)
    else if rawPath == "/" then DefaultIndex
    else NotFound(rawUrl)
  }

  /**
    The resolution read off the split URL: once the raw path and query are
    known, the outcome is fixed by the tree alone.
   */
  lemma ResolveByParts(root: string, rawUrl: string, fs: Tree, rawPath: string, query: string)
    requires SplitUrl(rawUrl) == Target(rawPath, query)
    ensures Resolve(root, rawUrl, fs) == ProbeChain(root, fs, rawPath, query, rawUrl)
  {
  }
}
