/**
 * The request handling of src/appengine/app.js:152-224: `commonProcessor`
 * normalises the path, the routes send file-like paths to `readBucketFile`
 * and every other path to `indexBucket`, which redirects non-canonical
 * directory paths, runs the page loop and renders the listing. The store
 * is given as two functions: whether a key exists, and the pages the
 * listing query for a prefix delivers.
 */
module Server {
  import opened Wrappers
  import opened Paths
  import opened Redirects
  import opened Content
  import opened Listing
  import opened Index

  /** What is sent back for one request. */
  datatype Response =
    | FileReply(file: FileResponse)
    | Redirect(status: nat, location: string)
    | FolderNotFound(message: string)
    | IndexReply(page: IndexPage)
    | NoReplyYet

  /** The HTTP status of a response; none while the page loop waits. */
  function Status(r: Response): Option<nat> {
    match r
    case FileReply(NoSuchFile(_)) => Some(404)
    case FileReply(StreamObject(_, _)) => Some(200)
    case Redirect(status, _) => Some(status)
    case FolderNotFound(_) => Some(404)
    case IndexReply(_) => Some(200)
    case NoReplyYet => None
  }

  /**
   * `resp` is what `indexBucket` answers for `path` when the listing query
   * delivers `pages`: a 301 to the canonical directory URL when the path is
   * not the root and lacks a trailing `/`; otherwise, at the first page
   * without a continuation, "No such folder" when that page has no files
   * and no page reported a folder, else the index page of that page's files
   * and of the folders of all the pages up to it.
   */
  ghost predicate IsBucketResponse(path: string, pages: seq<Page>, encode: string -> string, resp: Response) {
    if NeedsRedirect(path) then resp == Redirect(301, Location(path))
    else match Terminal(pages)
      case None => resp == NoReplyYet
      case Some(k) =>
        var folders := Folders(pages[..k + 1]);
        if NoFiles(pages[k].files) && folders == [] then resp == FolderNotFound(NoSuchFolderMessage(path))
        else resp.IndexReply? && IsIndexOf(path, pages[k].files, folders, encode, resp.page)
  }

  /** `indexBucket`, with the redirect decision, the page loop and `renderFiles`. */
  method IndexBucket(path: string, pages: seq<Page>, encode: string -> string) returns (resp: Response)
    ensures IsBucketResponse(path, pages, encode, resp)
  {
    if NeedsRedirect(path) {
      return Redirect(301, Location(path));
    }
    var outcome := IndexPager(path, pages);
    match outcome
    case AwaitingPage =>
      resp := NoReplyYet;
    case NoSuchFolder(message) =>
      resp := FolderNotFound(message);
    case Listed(folders, files) =>
      var page := RenderFiles(path, files, folders, encode);
      resp := IndexReply(page);
  }

  /**
   * One request: the router looks at the raw request path; the handlers
   * get it without its leading `/` and percent-decoded.
   */
  method Handle(reqPath: string, decode: string -> string, encode: string -> string,
                objectExists: string -> bool, listPages: string -> seq<Page>) returns (resp: Response)
    ensures Route(reqPath) == FileHandler ==>
      var path := NormalisePath(reqPath, decode);
      resp == FileReply(ReadBucketFile(path, objectExists(path)))
    ensures Route(reqPath) == DirectoryIndexer ==>
      var path := NormalisePath(reqPath, decode);
      IsBucketResponse(path, listPages(path), encode, resp)
  {
    var path := NormalisePath(reqPath, decode);
    if Route(reqPath) == FileHandler {
      resp := FileReply(ReadBucketFile(path, objectExists(path)));
    } else {
      resp := IndexBucket(path, listPages(path), encode);
    }
  }

  /**
   * The status codes of a directory request: 301 exactly for a path that
   * needs the redirect; for any other, once the loop has reached a page
   * without continuation, 404 exactly when nothing at all was listed and
   * 200 otherwise; no status while every delivered page still continues.
   */
  lemma DirectoryStatus(path: string, pages: seq<Page>, encode: string -> string, resp: Response)
    requires IsBucketResponse(path, pages, encode, resp)
    ensures Status(resp) == Some(301) <==> NeedsRedirect(path)
    ensures Status(resp) == None <==> !NeedsRedirect(path) && Terminal(pages).None?
    ensures !NeedsRedirect(path) && Terminal(pages).Some? ==>
      var k := Terminal(pages).value;
      && (Status(resp) == Some(404) <==> NoFiles(pages[k].files) && Folders(pages[..k + 1]) == [])
      && (Status(resp) == Some(200) <==> !(NoFiles(pages[k].files) && Folders(pages[..k + 1]) == []))
  {
  }

  /** Asking twice for the same listing of an unchanged store gives the same answer. */
  lemma ListingIsRepeatable(path: string, pages: seq<Page>, encode: string -> string, r1: Response, r2: Response)
    requires IsBucketResponse(path, pages, encode, r1)
    requires IsBucketResponse(path, pages, encode, r2)
    ensures r1 == r2
  {
    if !NeedsRedirect(path) && Terminal(pages).Some? {
      var k := Terminal(pages).value;
      var folders := Folders(pages[..k + 1]);
      if r1.IndexReply? {
        IndexIsUnique(path, pages[k].files, folders, encode, r1.page, r2.page);
      }
    }
  }
}
