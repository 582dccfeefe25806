/**
  `handleDirectory` (app.js:93-118): what to do with a request whose plain
  candidate names a directory. Without a trailing slash the client is sent
  to the slash-terminated name; with one, the directory listing is searched
  for an `index` file.

  The search loop is `for (let ext in exts)`, and `for...in` over an array
  binds the array's KEYS, the strings "0" and "1", not its elements. The loop
  is therefore modelled over an explicit sequence of names: `ForInKeys(Exts)`
  is what the code iterates, `Exts` is what it evidently meant to iterate.
 */
module Directory {
  import opened Strings
  import opened Content

  /** The index extensions, in precedence order (app.js:19). */
  const Exts: seq<string> := [".html", ".htm"]

  function Digit(d: nat): char
    requires d < 10
  {
    "0123456789"[d]
  }

  /** `String(n)` for a non-negative integer. */
  function DecimalString(n: nat): string
    decreases n
  {
    if n < 10 then [Digit(n)] else DecimalString(n / 10) + [Digit(n % 10)]
  }

  /** The values `for (let k in a)` binds for an array `a`: its indices as strings, in order. */
  function ForInKeys<T>(a: seq<T>): (keys: seq<string>)
    // one key per element, in index order ...
    ensures |keys| == |a|
    // ... and below ten each key is the single decimal digit of its index
    ensures forall i :: 0 <= i < |keys| && i < 10 ==> keys[i] == [Digit(i)]
  {
    seq(|a|, i requires 0 <= i < |a| => DecimalString(i))
  }

  /** The file name looked for on one loop value: `"index" + ext`. */
  function IndexName(ext: string): string {
    "index" + ext
  }

  /** Position of the first name whose index file is listed, if any; the loop's early `return`. */
  function FirstListed(names: seq<string>, entries: set<string>): (r: Option<nat>)
    ensures r.Some? ==>
      && r.value < |names|
      && IndexName(names[r.value]) in entries
      && forall j :: 0 <= j < r.value ==> IndexName(names[j]) !in entries
    ensures r.None? ==> forall j :: 0 <= j < |names| ==> IndexName(names[j]) !in entries
    decreases |names|
  {
    if |names| == 0 then None
    else if IndexName(names[0]) in entries then Some(0)
    else
      match FirstListed(names[1..], entries)
      case None => None
      case Some(k) => Some(k + 1)
  }

  /**
    `handleDirectory(root, path, query)` with `entries` the listing of
    `root + path` and `names` the values the search loop runs over.
   */
  function HandleDirectory(root: string, path: string, query: string,
                           entries: set<string>, names: seq<string>): (h: Handled)
    // without a trailing slash: redirect to the slash-terminated name, query carried along
    ensures !EndsWith(path, "/") ==> h == Respond(Redirect(path + "/" + query))
    // with one: a response exactly when some searched-for index file is listed ...
    ensures EndsWith(path, "/") ==>
      (h == Next <==> forall j :: 0 <= j < |names| ==> IndexName(names[j]) !in entries)
    // ... and the response sends the first listed one, with the query appended to the file name
    ensures EndsWith(path, "/") && h.Respond? ==>
      exists k :: 0 <= k < |names|
        && IndexName(names[k]) in entries
        && (forall j :: 0 <= j < k ==> IndexName(names[j]) !in entries)
        && h.outcome == SendFile(root + path + IndexName(names[k]) + query)
  {
    if !EndsWith(path, "/") then
      Respond(Redirect(path + "/" + query))
    else
      match FirstListed(names, entries)
      case Some(k) => Respond(SendFile(root + path + IndexName(names[k]) + query))
      case None => Next
  }

  /** The redirect branch answers before `fs.readdir`: the listing and the loop play no part. */
  lemma RedirectReadsNothing(root: string, path: string, query: string,
                             entries1: set<string>, names1: seq<string>,
                             entries2: set<string>, names2: seq<string>)
    requires !EndsWith(path, "/")
    ensures HandleDirectory(root, path, query, entries1, names1)
         == HandleDirectory(root, path, query, entries2, names2)
  {
  }

  /** The loop as written runs over the keys "0" and "1". */
  lemma ForInKeysOfExts()
    ensures ForInKeys(Exts) == ["0", "1"]
  {
    assert DecimalString(0) == "0" && DecimalString(1) == "1";
  }

  /** `handleDirectory` as written: the loop tests `index0` and `index1`. */
  function HandleDirectoryAsWritten(root: string, path: string, query: string,
                                    entries: set<string>): (h: Handled)
    ensures EndsWith(path, "/") ==>
      (h.Respond? <==> "index0" in entries || "index1" in entries)
    ensures EndsWith(path, "/") && "index0" in entries ==>
      h == Respond(SendFile(root + path + "index0" + query))
    ensures EndsWith(path, "/") && "index0" !in entries && "index1" in entries ==>
      h == Respond(SendFile(root + path + "index1" + query))
  {
    ForInKeysOfExts();
    var keys := ForInKeys(Exts);
    assert IndexName(keys[0]) == "index0" && IndexName(keys[1]) == "index1";
    HandleDirectory(root, path, query, entries, keys)
  }

  /**
    The defect: a slash-terminated directory holding both `index.html` and
    `index.htm`, and nothing else, gets no index file from the loop as written.
   */
  lemma AsWrittenMissesIndexFiles(root: string, path: string, query: string)
    requires EndsWith(path, "/")
    ensures HandleDirectoryAsWritten(root, path, query, {"index.html", "index.htm"}) == Next
  {
    var entries: set<string> := {"index.html", "index.htm"};
    assert "index0" != "index.html" && "index0" != "index.htm";
    assert "index1" != "index.html" && "index1" != "index.htm";
    assert "index0" !in entries && "index1" !in entries;
  }

  /**
    `handleDirectory` as evidently meant: the loop tests `index.html`, then
    `index.htm`. Only the loop is corrected; the query is still appended to
    the file name sent, as written.
   */
  function HandleDirectoryIntended(root: string, path: string, query: string,
                                   entries: set<string>): (h: Handled)
    ensures EndsWith(path, "/") ==>
      (h.Respond? <==> "index.html" in entries || "index.htm" in entries)
    // the first extension in `Exts` order wins, whatever else is listed
    ensures EndsWith(path, "/") && "index.html" in entries ==>
      h == Respond(SendFile(root + path + "index.html" + query))
    ensures EndsWith(path, "/") && "index.html" !in entries && "index.htm" in entries ==>
      h == Respond(SendFile(root + path + "index.htm" + query))
  {
    assert IndexName(Exts[0]) == "index.html" && IndexName(Exts[1]) == "index.htm";
    HandleDirectory(root, path, query, entries, Exts)
  }
}
