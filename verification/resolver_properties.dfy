/**
  Properties of the whole resolver: precedence between the probes, what the
  `.ejs` strip and the query do and do not influence, which outcomes can
  come out of which branch, and the worked request scenarios.
 */
module ResolverProperties {
  import opened Strings
  import opened Content
  import opened Request
  import opened Directory
  import opened Resolver

  /** An outcome produced by the catch-all handler rather than by a fallback route. */
  predicate Matched(o: Outcome) {
    o.Render? || o.SendFile? || o.Redirect?
  }

  /**
    The index-file loop is never reached from the resolver: the plain
    candidate never ends in `/`, so a directory hit always redirects.
    Whatever names the loop ran over, every request resolves the same.
   */
  lemma IndexLoopUnobservable(root: string, rawUrl: string, fs: Tree,
                              names1: seq<string>, names2: seq<string>)
    ensures ResolveWith(root, rawUrl, fs, names1) == ResolveWith(root, rawUrl, fs, names2)
  {
  }

  /** Once the template candidate exists, nothing else in the tree matters. */
  lemma TemplateWinsWhateverElse(root: string, rawUrl: string, fs1: Tree, fs2: Tree)
    requires CandidatesOf(Normalize(rawUrl)).template in fs1
    requires CandidatesOf(Normalize(rawUrl)).template in fs2
    ensures Resolve(root, rawUrl, fs1) == Resolve(root, rawUrl, fs2) == Render(Normalize(rawUrl))
  {
    ResolveByParts(root, rawUrl, fs1, SplitUrl(rawUrl).path, SplitUrl(rawUrl).query);
    ResolveByParts(root, rawUrl, fs2, SplitUrl(rawUrl).path, SplitUrl(rawUrl).query);
  }

  /** A template beats a plain file of the same logical name. */
  lemma TemplateBeatsSameNamedFile(root: string, p: string, fs: Tree)
    requires '?' !in p && !HasTemplateSuffix(p) && !EndsWith(p, "/")
    requires p + TemplateSuffix in fs && p in fs && fs[p].File?
    ensures Resolve(root, p, fs) == Render(p)
  {
    SplitUrlOfConcat(p, "");
    assert p + "" == p;
  }

  /**
    Only the outcomes of the probes can be a file: whatever is sent is the
    plain candidate itself, found as a file.
   */
  lemma SentFileIsPlainCandidate(root: string, rawUrl: string, fs: Tree)
    requires Resolve(root, rawUrl, fs).SendFile?
    ensures var p := CandidatesOf(Normalize(rawUrl)).plain;
      && Resolve(root, rawUrl, fs) == SendFile(root + p)
      && p in fs && fs[p].File?
      && CandidatesOf(Normalize(rawUrl)).template !in fs
  {
    ResolveByParts(root, rawUrl, fs, SplitUrl(rawUrl).path, SplitUrl(rawUrl).query);
  }

  /** A redirect always goes to the plain candidate plus `/`, with the query carried along. */
  lemma RedirectTarget(root: string, rawUrl: string, fs: Tree)
    requires Resolve(root, rawUrl, fs).Redirect?
    ensures var p := CandidatesOf(Normalize(rawUrl)).plain;
      && Resolve(root, rawUrl, fs) == Redirect(p + "/" + SplitUrl(rawUrl).query)
      && p in fs && fs[p].Dir?
  {
    ResolveByParts(root, rawUrl, fs, SplitUrl(rawUrl).path, SplitUrl(rawUrl).query);
  }

  /** The two fallback outcomes: `/` gets the default page, anything else a 404 with the whole URL. */
  lemma FallbackOutcomes(root: string, rawUrl: string, fs: Tree)
    ensures var o := Resolve(root, rawUrl, fs);
      && (o.DefaultIndex? ==> RoutePath(rawUrl) == "/")
      && (o.NotFound? ==> o.url == rawUrl && RoutePath(rawUrl) != "/")
      && (!Matched(o) <==> CandidatesOf(Normalize(rawUrl)).template !in fs
                           && CandidatesOf(Normalize(rawUrl)).plain !in fs)
  {
    var t := SplitUrl(rawUrl);
    ResolveByParts(root, rawUrl, fs, t.path, t.query);
    ProbeChainOutcomes(root, rawUrl, fs, t.path, t.query, Resolve(root, rawUrl, fs));
  }

  /** The outcome classes of the probe chain, read off the chain itself. */
  lemma ProbeChainOutcomes(root: string, rawUrl: string, fs: Tree, rawPath: string, query: string,
                           o: Outcome)
    requires o == ProbeChain(root, fs, rawPath, query, rawUrl)
    ensures && (o.DefaultIndex? ==> rawPath == "/")
            && (o.NotFound? ==> o.url == rawUrl && rawPath != "/")
            && (!Matched(o) <==> CandidatesOf(StripTemplateSuffix(rawPath)).template !in fs
                                 && CandidatesOf(StripTemplateSuffix(rawPath)).plain !in fs)
  {
  }

  /**
    Asking for `p.ejs` (any letter case) is asking for `p`: the same
    template, file or redirect. Only a miss differs, since the 404 names the
    URL as requested, and `p.ejs` is never the root route.
   */
  lemma TemplateSuffixIgnored(root: string, p: string, suffix: string, q: string, fs: Tree)
    requires '?' !in p && !HasTemplateSuffix(p)
    requires |suffix| == 4 && HasTemplateSuffix(suffix)
    requires QueryTail(q)
    ensures var plain := Resolve(root, p + q, fs);
      var named := Resolve(root, p + suffix + q, fs);
      && (Matched(plain) ==> named == plain)
      && (!Matched(plain) ==> named == NotFound(p + suffix + q))
  {
    var named := p + suffix;
    assert '?' !in named by {
      assert '?' !in suffix;
      assert forall i :: 0 <= i < |named| ==> named[i] == if i < |p| then p[i] else suffix[i - |p|];
    }
    SplitUrlOfConcat(p, q);
    SplitUrlOfConcat(named, q);
    assert p + suffix + q == named + q;
    StripAppendedSuffix(p, suffix);
    ResolveByParts(root, p + q, fs, p, SplitUrl(q).query);
    ResolveByParts(root, named + q, fs, named, SplitUrl(q).query);
    assert named != "/" by {
      assert |named| >= 4;
    }
    SameChainBySuffix(root, fs, p, named, SplitUrl(q).query, p + q, named + q);
  }

  /** Two raw paths that normalise alike run the same probes; only the 404 differs. */
  lemma SameChainBySuffix(root: string, fs: Tree, p: string, named: string, query: string,
                          url1: string, url2: string)
    requires StripTemplateSuffix(named) == StripTemplateSuffix(p) && named != "/"
    ensures var plain := ProbeChain(root, fs, p, query, url1);
      var asked := ProbeChain(root, fs, named, query, url2);
      && (Matched(plain) ==> asked == plain)
      && (!Matched(plain) ==> asked == NotFound(url2))
  {
  }

  /**
    The query never influences matching: two requests for the same path
    with different queries get the same kind of outcome, differing at most in
    the query a redirect carries and the URL a 404 names.
   */
  lemma QueryIgnoredByProbes(root: string, p: string, q1: string, q2: string, fs: Tree)
    requires '?' !in p
    requires QueryTail(q1) && QueryTail(q2)
    ensures var a := Resolve(root, p + q1, fs);
      var b := Resolve(root, p + q2, fs);
      && (a.Render? <==> b.Render?) && (a.Render? ==> a == b)
      && (a.SendFile? <==> b.SendFile?) && (a.SendFile? ==> a == b)
      && (a.DefaultIndex? <==> b.DefaultIndex?)
      && (a.NotFound? <==> b.NotFound?)
      && (a.Redirect? <==> b.Redirect?)
      && (a.Redirect? ==>
            var d := CandidatesOf(StripTemplateSuffix(p)).plain + "/";
            a.target == d + SplitUrl(q1).query && b.target == d + SplitUrl(q2).query)
  {
    SplitUrlOfConcat(p, q1);
    SplitUrlOfConcat(p, q2);
    ResolveByParts(root, p + q1, fs, p, SplitUrl(q1).query);
    ResolveByParts(root, p + q2, fs, p, SplitUrl(q2).query);
    SameChainByQuery(root, fs, p, SplitUrl(q1).query, SplitUrl(q2).query, p + q1, p + q2);
  }

  /** One raw path under two queries: the same probes, differing only in what carries the query or URL. */
  lemma SameChainByQuery(root: string, fs: Tree, p: string, query1: string, query2: string,
                         url1: string, url2: string)
    ensures var a := ProbeChain(root, fs, p, query1, url1);
      var b := ProbeChain(root, fs, p, query2, url2);
      && (a.Render? <==> b.Render?) && (a.Render? ==> a == b)
      && (a.SendFile? <==> b.SendFile?) && (a.SendFile? ==> a == b)
      && (a.DefaultIndex? <==> b.DefaultIndex?)
      && (a.NotFound? <==> b.NotFound?)
      && (a.Redirect? <==> b.Redirect?)
      && (a.Redirect? ==>
            var d := CandidatesOf(StripTemplateSuffix(p)).plain + "/";
            a.target == d + query1 && b.target == d + query2)
  {
    var c := CandidatesOf(StripTemplateSuffix(p));
    if c.template in fs {
    } else if c.plain in fs && fs[c.plain].File? {
    } else if c.plain in fs {
    } else if p == "/" {
    } else {
    }
  }

  /** `GET /` with no template and no `index.html` at the root gets the built-in index page. */
  lemma ScenarioRootDefault(root: string, fs: Tree)
    requires "/index.ejs" !in fs && "/index.html" !in fs
    ensures Resolve(root, "/", fs) == DefaultIndex
  {
    RootCandidates();
    ResolveByParts(root, "/", fs, "/", "");
  }

  /** `GET /` with a root template renders it, under the view name "/". */
  lemma ScenarioRootTemplate(root: string, fs: Tree)
    requires "/index.ejs" in fs
    ensures Resolve(root, "/", fs) == Render("/")
  {
    RootCandidates();
    ResolveByParts(root, "/", fs, "/", "");
  }

  /** `GET /` has an empty query, is already normal, and probes the root's index files. */
  lemma RootCandidates()
    ensures SplitUrl("/") == Target("/", "")
    ensures StripTemplateSuffix("/") == "/"
    ensures CandidatesOf("/") == Candidates("/index.ejs", "/index.html")
  {
    assert EndsWith("/", "/");
  }

  /**
    A directory asked for without its trailing slash is redirected to the
    slash-terminated name, carrying only the first query segment: `GET
    /docs?x=1` goes to `/docs/?x=1`, and `GET /docs?a?b` to `/docs/?a`.
   */
  lemma ScenarioDirectoryRedirect(root: string, p: string, seg: string, rest: string, fs: Tree)
    requires '?' !in p && !HasTemplateSuffix(p) && !EndsWith(p, "/")
    requires '?' !in seg && QueryTail(rest)
    requires p + TemplateSuffix !in fs && p in fs && fs[p].Dir?
    ensures Resolve(root, p + "?" + seg + rest, fs) == Redirect(p + "/" + ("?" + seg))
  {
    SplitUrlOfSegments(p, seg, rest);
    assert StripTemplateSuffix(p) == p;
    assert CandidatesOf(p) == Candidates(p + TemplateSuffix, p);
    ResolveByParts(root, p + "?" + seg + rest, fs, p, "?" + seg);
  }

  /**
    A slash-terminated request other than `/` is answered from `index.ejs`
    or `index.html` only: a directory holding nothing but `index.htm` (or
    nothing at all) gets a 404. The `.htm` index is never served.
   */
  lemma ScenarioHtmIndexNotServed(root: string, d: string, fs: Tree)
    requires '?' !in d && EndsWith(d, "/") && d != "/"
    requires d + "index.ejs" !in fs && d + "index.html" !in fs
    ensures Resolve(root, d, fs) == NotFound(d)
  {
    SlashTerminatedIsNormal(d);
    assert CandidatesOf(d) == Candidates(d + "index.ejs", d + "index.html");
    ResolveByParts(root, d, fs, d, "");
  }

  /** A directory named like an index file is redirected to, slash appended after `index.html`. */
  lemma ScenarioIndexHtmlDirectory(root: string, d: string, q: string, fs: Tree)
    requires '?' !in d && EndsWith(d, "/") && QueryTail(q)
    requires d + "index.ejs" !in fs && d + "index.html" in fs && fs[d + "index.html"].Dir?
    ensures Resolve(root, d + q, fs) == Redirect(d + "index.html/" + SplitUrl(q).query)
  {
    SplitUrlOfConcat(d, q);
    SlashTerminatedIsNormal(d);
    var c := CandidatesOf(d);
    assert c == Candidates(d + "index.ejs", d + "index.html");
    ResolveByParts(root, d + q, fs, d, SplitUrl(q).query);
    assert c.plain + "/" == d + "index.html/";
  }

  /** A request other than `/` with nothing at either candidate is a 404 naming the URL as requested. */
  lemma ScenarioMissing(root: string, p: string, q: string, fs: Tree)
    requires '?' !in p && !HasTemplateSuffix(p) && !EndsWith(p, "/")
    requires QueryTail(q)
    requires p + TemplateSuffix !in fs && p !in fs
    ensures Resolve(root, p + q, fs) == NotFound(p + q)
  {
    SplitUrlOfConcat(p, q);
    ResolveByParts(root, p + q, fs, p, SplitUrl(q).query);
    assert EndsWith("/", "/");
  }

  /** `GET /page.ejs` renders the same view as `GET /page` when the template exists. */
  lemma ScenarioTemplateByFileName(root: string, p: string, fs: Tree)
    requires '?' !in p && !HasTemplateSuffix(p) && !EndsWith(p, "/")
    requires p + TemplateSuffix in fs
    ensures Resolve(root, p + TemplateSuffix, fs) == Resolve(root, p, fs) == Render(p)
  {
    var named := p + TemplateSuffix;
    assert '?' !in named by {
      assert forall i :: 0 <= i < |named| ==> named[i] == if i < |p| then p[i] else TemplateSuffix[i - |p|];
    }
    StripAppendedSuffix(p, TemplateSuffix);
    ResolveByParts(root, named, fs, named, "");
    ResolveByParts(root, p, fs, p, "");
  }
}
