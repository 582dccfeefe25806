# simple-node-http GET resolver

A model of the request resolver of simple-node-http, a small Express static
file server with EJS template support. The model covers the catch-all
`app.get("*")` handler, `checkPath`, `handleDirectory`, and the two fallback
routes (`app.get("/")` and the 404 handler). Together they map a raw request
URL and the state of the served content tree to exactly one outcome:

- render a template;
- send a file;
- redirect;
- render the built-in index page;
- render the 404 page.

The model is a pure function `Resolver.Resolve(root, rawUrl, fs)`.

- `root` stands for the served directory, `__dirname + "/files"`.
- `fs` is the content tree: a map from paths relative to the root to
  `File | Dir(entries)`.
- `p in fs` stands for `fs.exists(root + p)`.
- A `Dir` node's `entries` are what `fs.readdir` would list.
- The asynchronous callbacks become plain lookups in that map.

Modules, in the order the request flows through them:

- `Strings`: the JavaScript string operations the handler uses.
  - `split` on one character, with its round trip through `join`.
  - `endsWith`.
  - ASCII `toLowerCase`.
- `Content`: the content tree, the `Outcome` a request resolves to, and
  `Handled`. `Handled` is what one Express handler does: respond, or pass the
  request on with `next()`.
- `Request`: the first half of the catch-all handler (app.js:35-50).
  - The path/query split.
  - The one-time case-insensitive `.ejs` strip.
  - The template and plain candidate names.
- `Directory`: `handleDirectory`, modelled over an explicit sequence of names
  for the index-file loop. It comes in three forms:
  - as written, where `for...in` yields the keys "0" and "1";
  - as evidently intended, over the extensions `.html` and `.htm`;
  - a general one over any names.
- `Resolver`: `checkPath`, the fallback routes, and the whole resolution.
- `ResolverProperties`: cross-cutting properties and the request scenarios.
  - Cross-cutting: precedence, what the query and the `.ejs` suffix
    influence, and which outcome comes from which branch.
  - Scenarios: the worked requests.

Points where the code behaves differently from what a reader might expect:

- **Query.** The query is `"?"` plus only the text between the first and
  second `?` (app.js:35), not everything after the first `?`. `GET /docs?a?b`
  redirects to `/docs/?a` (`ResolverProperties.ScenarioDirectoryRedirect`).
- **Redirect target.** A redirect goes to one string, `path + "/" + query`
  (app.js:99), so the query is part of the `Redirect` target.
- **View name.** A template is rendered under the normalised path,
  `res.render(path)` (app.js:56), not under the template candidate. `GET /`
  with a root template renders the view `"/"`
  (`ResolverProperties.ScenarioRootTemplate`).
- **`.htm` index.** A slash-terminated request probes only `index.ejs` and
  `index.html` (app.js:49-50). A directory hit always has a plain candidate
  without a trailing slash, so it is redirected and the index-file loop is
  never reached. `GET /docs/` on a directory holding only `index.htm` gets a
  404 (`ResolverProperties.ScenarioHtmIndexNotServed`).

## Model

| member | source | states |
|---|---|---|
| Strings.ToLower | app.js:44 | lower-casing keeps the length, turns each upper-case ASCII letter into its lower-case counterpart and keeps every other character |
| Strings.Split | app.js:35-36 | `split` on one character gives at least one piece, and two or more exactly when the separator occurs |
| Strings.SplitCount | app.js:35-36 | `split` gives one more piece than there are separators |
| Strings.SplitPiecesFree | app.js:35-36 | no piece of a `split` contains the separator |
| Strings.JoinSplit | app.js:35-36 | joining the pieces of a `split` with the separator gives the string back |
| Strings.SplitJoin | app.js:35-36 | splitting a join of separator-free pieces gives the pieces back |
| Request.SplitUrl | app.js:35-36 | a URL without `?` is all path with an empty query; otherwise the query starts at a `?`; characterised in full by `SplitUrlSpec` |
| Request.SplitUrlSpec | app.js:35-36 | the path is the text before the first `?` and holds no `?`; the query is empty exactly when there is no `?`; otherwise it is `?` plus the text up to the second `?` or the end |
| Request.SplitUrlOfSegments | app.js:35-36 | of `p?seg?…`, only `?seg` becomes the query, whatever follows the second `?` |
| Request.SplitUrlOfConcat | app.js:35-36 | a `?`-free path followed by a query-shaped tail splits into that path and the tail's own query |
| Request.SplitUrlRoundTrip | app.js:35-36 | `path + query` is the URL exactly when the URL has at most one `?` |
| Request.StripTemplateSuffix | app.js:44-45 | a path whose last four characters are `.ejs` in any letter case loses exactly those four; any other path is unchanged |
| Request.LowerSuffixTest | app.js:44 | lower-casing and then testing for `.ejs` is the same as the character-wise case-insensitive test |
| Request.StripAppendedSuffix | app.js:44-45 | a path with any-case `.ejs` appended strips back to the path |
| Request.StripNotIdempotent | app.js:44-45 | the strip runs once: `p.ejs.ejs` becomes `p.ejs`, and only a second strip gives `p` |
| Request.SlashTerminatedIsNormal | app.js:44-45 | a path ending in `/` is never changed by the strip |
| Request.CandidatesOf | app.js:49-50 | a slash-terminated path probes `index.ejs` and `index.html` under it; any other path probes `path.ejs` and `path`; the plain candidate never ends with `/` |
| Directory.FirstListed | app.js:108-114 | the loop's early return: the first name whose index file is listed, or none when no searched-for name is listed |
| Directory.HandleDirectory | app.js:93-118 | without a trailing slash, redirect to `path + "/" + query`; with one, respond exactly when some searched-for index file is listed, sending the first listed one as `root + path + "index" + name + query`; otherwise pass on |
| Directory.RedirectReadsNothing | app.js:98-101 | the redirect answers before the listing is read: the entries and the loop's names play no part |
| Directory.ForInKeys | app.js:109 | `for...in` over an array binds one key per element, in index order, each below ten the decimal digit of its index |
| Directory.ForInKeysOfExts | app.js:109 | `for...in` over the two-element extension array yields the keys "0" and "1" |
| Directory.HandleDirectoryAsWritten | app.js:106-117 | the loop as written responds exactly when `index0` or `index1` is listed, serving `index0` first |
| Directory.AsWrittenMissesIndexFiles | app.js:109-111 | as written, a slash-terminated directory listing `index.html` and `index.htm` passes the request on |
| Directory.HandleDirectoryIntended | app.js:106-117 | over the extension values, the loop responds exactly when `index.html` or `index.htm` is listed, and `index.html` wins when both are; only the loop is corrected, the query is still appended to the file name |
| Resolver.CheckPath | app.js:65-88 | pass on exactly when nothing is there, or a slash-terminated directory lists none of the searched-for index files; a file is sent as `root + path`; a directory without a trailing slash is redirected to `path + "/" + query`; a slash-terminated one sends its first listed index file as `root + path + "index" + name + query` |
| Resolver.Fallback | app.js:121-133 | the default page exactly when the route path is `/`, and otherwise a 404 naming the URL as requested, query included |
| Resolver.ResolveWith | app.js:32-133 | a template candidate in the tree renders the normalised path; otherwise a plain file is sent from under the root; otherwise a plain directory is redirected to with the query; with neither, `/` gets the default page and anything else a 404 naming the full URL |
| Resolver.Resolve | app.js:32-133 | the resolver as written, `ResolveWith` over the `for...in` keys, answers every request as the corrected loop over `Exts` would |
| Resolver.ResolveByParts | app.js:32-133 | once the raw path and query are known, the outcome is `ProbeChain`: the ordered decision list template, file, directory, root route, 404 over the tree |
| ResolverProperties.IndexLoopUnobservable | app.js:54-118 | the names the index-file loop runs over never change a response: the directory branch reached from the resolver always redirects |
| ResolverProperties.TemplateWinsWhateverElse | app.js:54-56 | once the template candidate exists, the rest of the tree does not matter and the outcome is rendering the normalised path |
| ResolverProperties.TemplateBeatsSameNamedFile | app.js:54-58 | a template wins over a plain file of the same logical name |
| ResolverProperties.SentFileIsPlainCandidate | app.js:66-80 | a sent file is always the plain candidate, found as a file, with no template present |
| ResolverProperties.RedirectTarget | app.js:65-101 | a redirect always goes to the plain candidate plus `/` plus the query, and that candidate is a directory |
| ResolverProperties.FallbackOutcomes | app.js:121-133 | the default page only for route path `/`; a 404 only for other paths, naming the whole URL; a fallback outcome exactly when neither candidate exists |
| ResolverProperties.TemplateSuffixIgnored | app.js:44-58 | asking for `p.ejs` in any letter case gets what `p` gets; on a miss, the 404 names the URL as requested |
| ResolverProperties.QueryIgnoredByProbes | app.js:35-99 | the query never changes which outcome a path gets, only the query a redirect carries and the URL a 404 names |
| ResolverProperties.ScenarioRootDefault | app.js:49-125 | `GET /` with no root template and no `index.html` gets the built-in index page |
| ResolverProperties.ScenarioRootTemplate | app.js:49-56 | `GET /` with a root template renders the view `"/"` |
| ResolverProperties.ScenarioDirectoryRedirect | app.js:35-100 | a directory asked for without a slash is redirected to `p/` with the first query segment |
| ResolverProperties.ScenarioHtmIndexNotServed | app.js:49-133 | a slash-terminated request other than `/` with no `index.ejs` or `index.html` gets a 404, whatever the directory holds |
| ResolverProperties.ScenarioIndexHtmlDirectory | app.js:50-100 | a directory named `index.html` is redirected to `…/index.html/` with the query |
| ResolverProperties.ScenarioMissing | app.js:84-133 | a request other than `/` with nothing at either candidate gets a 404 naming the URL as requested |
| ResolverProperties.ScenarioTemplateByFileName | app.js:44-56 | `GET /page.ejs` and `GET /page` both render `/page` when the template exists |

## Left out

- Express bootstrap (`app.set`), the CORS middleware, the `PORT` variable and `app.listen` (app.js:13-29, 136-138). They are framework and configuration glue.
- EJS rendering and view-directory lookup. `res.render` is an outcome tag carrying the view name and nothing more. The `404` view's `path` local is the `NotFound` URL.
- The asynchrony of `fs.exists`, `fs.stat` and `fs.readdir`. Each becomes a lookup in the `fs` map, which is taken as unchanged for the length of a request. Races between the probes are not modelled.
- The `fs.stat` error path, where `stats` is undefined and `isDirectory` throws (app.js:75-76), and `fs.readdir` errors. These are I/O failures the map cannot express.
- HTTP status codes, content types, the difference between `res.sendFile` and `res.sendfile`, and non-GET methods. Both sends are the one `SendFile` outcome.
- `root`: `__dirname + "/files"` (app.js:37) is a parameter, because `__dirname` is a property of the running process.
- Path handling is literal string concatenation. `req.url` reaches the file-system calls undecoded, so percent-encoding is modelled exactly. The operating system's aliasing of `..` and `//` is not modelled: each key is looked up as given, and two keys naming the same file are not tied together.
- Strings.ToLower: only the ASCII letters `A`-`Z` are lower-cased; JavaScript's `toLowerCase` also maps other letters (`À` to `à`, for one), which the model keeps unchanged.
- Request.StripTemplateSuffix: `toLowerCase` is modelled for ASCII letters only. No other character lower-cases to one of `.ejs` under JavaScript's full Unicode mapping either, so the suffix test is unaffected.
- Express's route matching is reduced to the raw text before the first `?`. The root route matches when that text is exactly `/`. Express's non-strict routing also matches an empty path, and URL fragments are not considered.
- That every request gets exactly one outcome is not a separate lemma. `Resolve` is a total function returning one `Outcome`, so this holds by construction.

## Findings

| source | as written | input that shows it | evidently intended | confidence | as-written member | corrected member |
|---|---|---|---|---|---|---|
| app.js:109-111 | `for (let ext in exts)` binds the array keys "0" and "1", so the loop looks for `index0` and `index1` | a slash-terminated directory listing exactly `index.html` and `index.htm` is passed on instead of served | test `index.html`, then `index.htm`, and send the first one listed (the query concatenation of app.js:111 is kept as written) | not executed | Directory.AsWrittenMissesIndexFiles | Directory.HandleDirectoryIntended |

The defect cannot be seen through the resolver. The plain candidate never
ends with `/`, so every directory hit redirects before the loop runs.
The contract of `Resolver.Resolve` proves that the resolver gives the same
response with either loop. `Resolver.Resolve` keeps the loop as written.
