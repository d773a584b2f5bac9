# intraweb: a bucket served as a directory tree

intraweb serves a flat Cloud Storage bucket over HTTP as a browsable
filesystem (src/appengine/app.js). A request whose path looks like a file
(it ends in `.` and an extension) is answered with the object's bytes, and
common image types get an `image/...` content type. Every other request is
a directory request. A directory path without a trailing `/` is redirected
with a 301. For other directory paths the server lists the bucket with
`prefix = path` and delimiter `/`, following the continuation page by page.
The sub-prefixes of every page are collected as folders; the files come
from the page that has no continuation. The result is a 404
"No such folder" when nothing was found, and otherwise an index page: the
path as title, breadcrumb links back to each ancestor, and a Folders and a
Files section.

This Dafny project models that logic:

- `Strings` (strings.dfy): the JavaScript string operations used (`split`,
  `join`, `Array(n).fill`, ASCII lower-casing), with split/join round trips.
- `Paths` (paths.dfy): the `startSlash`/`endSlash` replacements, the path
  normalisation of `commonProcessor`, and the `fileRegex` router. The regex
  is given both as a search predicate and as a backward scan, and the two
  are proved equal.
- `Redirects` (redirects.dfy): the redirect decision. It also models the
  part of URI reference resolution (RFC 3986, sections 5.2.2 and 5.2.3) that
  shows where a client lands after the redirect (see Findings).
- `Content` (content.dfy): `readBucketFile` and the `commonImageFiles`
  content type.
- `Breadcrumbs` (breadcrumbs.dfy): `renderBreadcrumbs` as a method with its
  loop, specified by `IsTrailOf`.
- `Listing` (listing.dfy): the `indexPager` loop over the delivered pages,
  and the folder accumulation `Folders`.
- `Index` (index.dfy): `renderFiles` as a structured page (title, trail,
  sections, entries), with the label and link derivation.
- `Server` (server.dfy): `indexBucket` and the per-request dispatch.

The store is data. `objectExists` answers `bucket.exists`. `listPages(path)`
is the sequence of pages the listing query delivers, in order. Each `Page`
holds `files` (possibly absent), `prefixes` (possibly absent) and whether
it has a `nextQuery`. `decodeURIComponent` and `encodeURIComponent` are
function parameters that the model does not interpret.

In these places, where a reader could expect something else, the model
follows the code:

- A folder's displayed text keeps its trailing `/`: `docs/guide/` under
  `docs/` is shown as `guide/` and linked as `encode("guide") + "/"`.
- Folder prefixes from different pages are concatenated without removing
  duplicates.
- A final segment that starts with a dot, such as `/.hidden`, is routed as
  a file, because the regex allows that.
- Files are taken only from the terminal page. Files the store reports on
  earlier pages are not shown.

The one place where the model does not follow the code is the redirect
Location: `Server.IndexBucket` sends the corrected Location (see Findings
and Left out).

## Model

| member | source | states |
|---|---|---|
| `Strings.Split` | src/appengine/app.js:78 | `split('/')` gives one more part than there are separators, and no part contains the separator |
| `Strings.SplitThenJoin` | src/appengine/app.js:78 | joining the parts of a split gives back the string |
| `Strings.JoinThenSplit` | src/appengine/app.js:87 | splitting a join of separator-free parts gives back the parts |
| `Paths.StripLeadingSlash` | src/appengine/app.js:206 | one leading `/` is removed if present; any other string is left unchanged |
| `Paths.StripTrailingSlash` | src/appengine/app.js:78 | one trailing `/` is removed if present; any other string is left unchanged |
| `Paths.NormalisePath` | src/appengine/app.js:204-206 | the handlers' path is the decoded request path without its leading `/`; a request path without one is decoded as it is |
| `Paths.ExtensionRun` | src/appengine/app.js:221 | the length of the longest run of `[^./]` characters at the end |
| `Paths.ExtensionRunDecidesRegex` | src/appengine/app.js:221 | a non-empty run of extension characters at the end, preceded by `.`, occurs exactly when `/.*\.[^./]+$/` matches |
| `Paths.IsFilePath` | src/appengine/app.js:221 | the file test accepts exactly the strings matched by `/.*\.[^./]+$/` |
| `Paths.Route` | src/appengine/app.js:221-224 | a request goes to the file handler iff its path matches the file regex; the root and every path ending in `/` go to the directory indexer |
| `Paths.RouteIgnoresLeadingSlash` | src/appengine/app.js:221-222 | the router gives the same answer for `"/" + p` and `p` |
| `Redirects.NeedsRedirect` | src/appengine/app.js:153 | a redirect is needed iff the path is not the root and has no trailing `/`; a path that is not redirected is the root or ends in exactly one more `/` than its stripped form |
| `Redirects.AsWrittenLocation` | src/appengine/app.js:153-154 | the Location as written (`path + "/"`) ends in `/` and needs no further redirect; for a normalised path (no leading `/`) it is a relative reference, not starting with `/` |
| `Redirects.Location` | src/appengine/app.js:153-154 | the corrected Location is absolute, ends in `/`, and as a request path it is `path + "/"`, which needs no redirect |
| `Redirects.AsWrittenLandsIff` | src/appengine/app.js:154 | from the request URL `"/" + path`, the as-written Location resolves to `"/" + path + "/"` iff the path has no `/` |
| `Redirects.AsWrittenRedirectWrong` | src/appengine/app.js:154 | the request `/a/b` is redirected to `/a/a/b/` |
| `Redirects.RedirectLands` | src/appengine/app.js:153-155 | from any base, the corrected Location, read as a bare path, resolves to `"/" + path + "/"`; that request is routed to the indexer and is not redirected again (paths with `?`, `#` or `%XX` after decoding are outside it) |
| `Content.ImageContentType` | src/appengine/app.js:54-57 | a content type is set iff the path ends, ignoring case, in `.jpg`, `.png` or `.gif`; its value is `image/` plus the matched extension in lower case |
| `Content.UpperCaseExtension` | src/appengine/app.js:39 | `LOGO.PNG` gets `image/png`; `logo.png.txt` gets no header |
| `Content.ImageNameMatchesFileRegex` | src/appengine/app.js:54-57 | every name the image rule applies to matches the file regex and is routed to the file handler |
| `Content.ImagePathsAreFiles` | src/appengine/app.js:54-57 | every request whose path, without its leading `/`, the image rule applies to is routed to the file handler (the handler's path for a request without percent-escapes) |
| `Content.ReadBucketFile` | src/appengine/app.js:41-63 | "No such file" iff the object is missing, and that message contains the path; otherwise the object is streamed under its key with the image content type |
| `Breadcrumbs.Segments` | src/appengine/app.js:78 | the segment count is one more than the number of `/` left after dropping a trailing `/` |
| `Breadcrumbs.RenderBreadcrumbs` | src/appengine/app.js:74-92 | empty trail for the root; otherwise one crumb per segment; crumb `i` of `n` links `n - i` `..` steps joined by `/`; its text is the root label (first) or the previous segment, plus `/` |
| `Breadcrumbs.TrailIsUnique` | src/appengine/app.js:74-92 | a path has exactly one trail |
| `Breadcrumbs.UpLink` | src/appengine/app.js:87 | a link of `h > 0` steps splits back into exactly `h` parent references; one step is `..` |
| `Breadcrumbs.ShortUpLinks` | src/appengine/app.js:87 | two steps are `../..` and three are `../../..` |
| `Breadcrumbs.ThreeSegments` | src/appengine/app.js:78 | `a/b/c/` has the segments `a`, `b`, `c` |
| `Breadcrumbs.LastCrumbIsParent` | src/appengine/app.js:82-88 | the last link is exactly `..`; the first is the root label, with one step per segment |
| `Breadcrumbs.TrailLeadsToAncestors` | src/appengine/app.js:79-88 | each crumb's link climbs to the ancestor whose name its text shows |
| `Breadcrumbs.ThreeLevelTrail` | src/appengine/app.js:76-88 | `a/b/c/` gives `../../..`, `../..`, `..` labelled root, `a/`, `b/` |
| `Listing.Terminal` | src/appengine/app.js:179-182 | the loop stops at the first page without a continuation and at no page before it |
| `Listing.IndexPager` | src/appengine/app.js:170-191 | at the first page without a continuation: 404 iff that page's files are absent or empty and the folders of all pages so far are empty; otherwise it lists those folders with exactly that page's files; no answer while every delivered page continues |
| `Listing.Folders` | src/appengine/app.js:175-177 | the folder list begins with the first page's prefixes |
| `Listing.FoldersAppend` | src/appengine/app.js:175-177 | the folders of two consecutive runs of pages concatenate |
| `Listing.FoldersInPageOrder` | src/appengine/app.js:176 | each page's prefixes appear in page order between the prefixes of the pages before and after it |
| `Listing.FolderFromSomePage` | src/appengine/app.js:175-177 | a folder is collected iff some page reports it |
| `Listing.FoldersKeepDuplicates` | src/appengine/app.js:176 | the folder list is exactly as long as all the pages' reports together |
| `Listing.RepeatedPrefixKept` | src/appengine/app.js:176 | a prefix reported by two pages appears twice |
| `Index.FirstOccurrence` | src/appengine/app.js:96 | the leftmost position where the pattern occurs, or no position if it occurs nowhere |
| `Index.Deprefix` | src/appengine/app.js:96-119 | for a key under `path`, the label is the key without `path` and without one `/` right after it |
| `Index.DeprefixWithoutOccurrence` | src/appengine/app.js:119 | a key that does not contain `path` is shown unchanged |
| `Index.FolderEntry` | src/appengine/app.js:119-120 | a folder's text is its key relative to `path`; its link is the encoded text minus its trailing `/`, followed by `/` |
| `Index.FileEntry` | src/appengine/app.js:133-134 | a file's text is its key relative to `path`; its link is the encoded text |
| `Index.RenderFolders` | src/appengine/app.js:113-124 | a Folders section exists iff there are folders; its total is their number; its entries are the folders' entries, in order |
| `Index.RenderFileList` | src/appengine/app.js:126-138 | a Files section exists iff files are present and non-empty; its total is their number; its entries are the files' entries, in order |
| `Index.RenderFiles` | src/appengine/app.js:94-144 | the title is the path, the trail is the path's breadcrumbs, and the two sections are as above |
| `Index.IndexIsUnique` | src/appengine/app.js:94-144 | the page for given inputs is determined |
| `Index.FolderLinksDistinct` | src/appengine/app.js:120 | with an injective encoding, equal folder links mean their texts are equal up to a trailing `/` |
| `Index.EntriesRelativeToPath` | src/appengine/app.js:95-96 | on a page whose keys all start with `path`, every text is its key minus `path` and one optional `/`, and every folder link ends in `/` |
| `Index.NestedFolderEntry` | src/appengine/app.js:119-120 | `docs/guide/` under `docs/` is shown as `guide/` and linked as `encode("guide") + "/"` |
| `Server.IndexBucket` | src/appengine/app.js:152-200 | a 301 to the canonical directory URL when needed; otherwise the pager's 404 or the rendered index of the terminal page's files and the folders of all pages |
| `Server.Handle` | src/appengine/app.js:204-224 | file-like request paths get `readBucketFile` of the normalised path; all other paths get `indexBucket` of the normalised path |
| `Server.DirectoryStatus` | src/appengine/app.js:153-189 | a directory request is 301 iff it needs the redirect; after a terminal page it is 404 iff nothing was listed, else 200; it has no status while pages still continue |
| `Server.ListingIsRepeatable` | src/appengine/app.js:157-191 | the same listing of an unchanged store gets the same response |

## Findings

| source | as written | input that shows it | evidently intended | confidence | as-written member | corrected member |
|---|---|---|---|---|---|---|
| src/appengine/app.js:154 | `res.redirect(301, path + "/")` sends the relative reference `path + "/"` (the path has lost its leading `/`). A client resolves it against the request URL. | a request for `/a/b` is redirected to `a/b/`, which resolves to `/a/a/b/` | the client lands on `/a/b/`: Location `"/" + path + "/"` | high; not executed | `Redirects.AsWrittenLocation`, shown by `Redirects.AsWrittenRedirectWrong` and `Redirects.AsWrittenLandsIff` | `Redirects.Location`, proved by `Redirects.RedirectLands` and used by `Server.IndexBucket` |

## Left out

- Express setup, route registration, `app.listen`, and the `PORT`, `BUCKET` and `GOOGLE_CLOUD_PROJECT` environment (src/appengine/app.js:19-37, 226-232). This is bootstrap and I/O.
- The Cloud Storage client. `bucket.exists` becomes the `objectExists` parameter. `getFiles` and its `nextQuery` chain become the `listPages` parameter. Reading and piping the object becomes `StreamObject(key, ...)`: the bytes themselves are not modelled.
- Asynchrony and callbacks. Pages are processed as already delivered data, in order. A chain whose delivered pages all continue gives `NoReplyYet`; the real server would still be waiting for the next page.
- Error handling (src/appengine/app.js:48-51, 65-68, 171-173, 197-199, 208-210, 215-218): the 500 answers for a failing read stream, a failing listing and a synchronous throw, and the logging of response-stream errors. Three of these paths are themselves broken: src/appengine/app.js:67 calls `req.status`, :172 calls `res.setStatus`, and :217 uses an undefined `err`.
- The missing `return` after `res.redirect` (src/appengine/app.js:154). The model stops at the redirect. The source goes on to list the bucket and tries to send a second response.
- `Index.Deprefix`: the `deprefixer` regex is built from the raw path. The model treats the path as a literal. Regex metacharacters in a path (other than `.` on keys under the path) would change what is cut out.
- `Server.IndexBucket`: it redirects to `Redirects.Location(path)`, the absolute `"/" + path + "/"`, and not to the relative `path + "/"` that src/appengine/app.js:154 sends (that one is `Redirects.AsWrittenLocation`). The as-written Location is wrong for paths with a `/` (see Findings), so the rest of the model uses the corrected one.
- `encodeURIComponent` and `decodeURIComponent` are not interpreted. The `URIError` thrown for a malformed escape at src/appengine/app.js:206 is not modelled.
- The HTML text, its whitespace and the missing HTML escaping. The page is modelled as a structured value.
- `Redirects.RedirectLands`: the corrected Location is built from the decoded path and sent without re-encoding it. A decoded `?` or `#`, or a `%` followed by two hex digits, changes what a client reads: the request `/a%3Fb` gets `/a?b/`, which is the path `/a` with a query, and `/%2541` gets `/%41/`, which names `A/`. The lemma treats the Location as a bare path, so it says nothing about such paths.
- `Redirects.ResolvePath` covers only references that consist of a path. It does not remove dot segments. It also treats a Location starting with `//` as a path, where a client would read an authority there. So `Redirects.RedirectLands` says nothing about decoded paths that contain `.`/`..` segments or that start with `/`.
- The HTTP status of a streamed file (`writeHead(200, ...)`) is shown only as the `StreamObject` case.
