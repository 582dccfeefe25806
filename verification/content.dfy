/**
  The values the resolver works on: the content tree under the served root,
  the outcome a GET request resolves to, and the result of one route handler
  (it either responds or passes the request on with `next()`).
 */
module Content {

  datatype Option<T> = None | Some(value: T)

  /** What `fs.stat` reports about an existing path; a directory carries the names `fs.readdir` lists. */
  datatype Node = File | Dir(entries: set<string>)

  /**
    The content tree, keyed by path relative to the served root: `p in fs`
    means `fs.exists(root + p)` is true.
   */
  type Tree = map<string, Node>

  /** The one response a GET request gets. */
  datatype Outcome =
    | Render(view: string)      // res.render(view) on a template found for the request
    | SendFile(file: string)    // res.sendFile / res.sendfile of an absolute path
    | Redirect(target: string)  // res.redirect(target)
    | DefaultIndex              // the built-in "index" view rendered for "/"
    | NotFound(url: string)     // the "404" view, rendered with the original URL

  /** What one Express route handler does with a request. */
  datatype Handled = Respond(outcome: Outcome) | Next
}
