/**
 * The canonicalising redirect of `indexBucket` (src/appengine/app.js:153-155):
 * a directory path that is not the root and lacks a trailing `/` is sent a
 * 301. The source puts the relative reference `path + "/"` in the Location
 * header; a client resolves it against the request URL, which for a nested
 * path lands on the wrong directory. Both Location values are modelled,
 * together with the part of URI reference resolution (section 5.2 of
 * RFC 3986) that a path-only reference goes through.
 */
module Redirects {
  import opened Wrappers
  import opened Strings
  import opened Paths

  /**
   * The decision at src/appengine/app.js:153: not the root and no trailing
   * `/`. A path that is not redirected is the root or a directory path in
   * canonical form, `p + "/"`.
   */
  function NeedsRedirect(path: string): (r: bool)
    ensures r <==> path != "" && StripTrailingSlash(path) == path
    ensures !r ==> path == "" || path == StripTrailingSlash(path) + "/"
  {
    path != "" && !EndsWith(path, "/")
  }

  /** The Location the source sends: the bare `path + "/"`, a relative reference. */
  function AsWrittenLocation(path: string): (loc: string)
    ensures EndsWith(loc, "/") && !NeedsRedirect(loc)
    // The normalised path has lost its leading `/` (it keeps one only for a
    // request path starting `//`), so the Location the source sends does
    // not start with `/`: it is a relative-path reference, which a client
    // resolves against the request URL.
    ensures !StartsWith(path, "/") && path != "" ==> !StartsWith(loc, "/")
  {
    path + "/"
  }

  /** The Location the redirect evidently means: the absolute path `"/" + path + "/"`. */
  function Location(path: string): (loc: string)
    ensures StartsWith(loc, "/") && EndsWith(loc, "/")
    ensures StripLeadingSlash(loc) == path + "/" && !NeedsRedirect(StripLeadingSlash(loc))
  {
    "/" + path + "/"
  }

  /** Index of the last `/` in `s`, if any. */
  function LastSlash(s: string): (r: Option<nat>)
    ensures r.Some? ==> r.value < |s| && s[r.value] == '/' && '/' !in s[r.value + 1..]
    ensures r.None? ==> '/' !in s
  {
    if s == [] then None
    else if s[|s| - 1] == '/' then Some(|s| - 1)
    else LastSlash(s[..|s| - 1])
  }

  /**
   * "Merge Paths" (section 5.2.3 of RFC 3986) for a base URI that has an
   * authority: an empty base path becomes `/`; otherwise everything after
   * the base path's last `/` is replaced by the reference.
   */
  function MergePaths(base: string, ref: string): (r: string)
    ensures EndsWith(r, ref)
  {
    var dir := if base == "" then "/"
      else match LastSlash(base)
        case None => ""
        case Some(j) => base[..j + 1];
    assert (dir + ref)[|dir|..] == ref;
    dir + ref
  }

  /**
   * The target path of a reference that has only a path (section 5.2.2 of
   * RFC 3986): an absolute path replaces the base path, a relative one is
   * merged with it. Dot segments are not removed (see README).
   */
  function ResolvePath(base: string, ref: string): (r: string)
    ensures StartsWith(ref, "/") ==> r == ref
    ensures EndsWith(r, ref)
  {
    if StartsWith(ref, "/") then ref else MergePaths(base, ref)
  }

  /** The last `/` of `"/" + p`, where `p` holds no `/`, is the first character. */
  lemma LastSlashOfSingleSegment(p: string)
    requires '/' !in p
    ensures LastSlash("/" + p) == Some(0)
  {
    var s := "/" + p;
    assert s[0] == '/';
    assert forall k :: 0 < k < |s| ==> s[k] == p[k - 1];
  }

  /**
   * The as-written redirect, followed from the request URL `"/" + path`,
   * lands on `"/" + path + "/"` exactly when the path is a single segment.
   */
  lemma AsWrittenLandsIff(path: string)
    requires NeedsRedirect(path)
    ensures ResolvePath("/" + path, AsWrittenLocation(path)) == "/" + path + "/" <==> '/' !in path
  {
    var base := "/" + path;
    var loc := AsWrittenLocation(path);
    var target := ResolvePath(base, loc);
    if '/' !in path {
      assert !StartsWith(loc, "/");
      LastSlashOfSingleSegment(path);
      assert base[..1] == "/";
    } else if StartsWith(loc, "/") {
      assert |target| == |path| + 1;
    } else {
      var m :| 0 <= m < |path| && path[m] == '/';
      assert base[m + 1] == '/';
      var r := LastSlash(base);
      assert r.Some? && r.value >= m + 1 by {
        assert '/' in base;
      }
      assert |target| == r.value + 1 + |loc|;
    }
  }

  /** The request `/a/b` is sent to `/a/a/b/` by the as-written redirect. */
  lemma AsWrittenRedirectWrong()
    ensures ResolvePath("/a/b", AsWrittenLocation("a/b")) == "/a/a/b/"
    ensures "/a/a/b/" != Location("a/b")
  {
    var base := "/a/b";
    assert base[..3] == "/a/";
    assert LastSlash("/a/") == Some(2);
    assert LastSlash(base) == Some(2);
    assert MergePaths(base, "a/b/") == "/a/" + "a/b/";
  }

  /**
   * The corrected redirect lands, from any request URL, on the requested
   * directory with a trailing `/`; that request goes to the directory
   * indexer and is not redirected again.
   */
  lemma RedirectLands(base: string, path: string)
    requires NeedsRedirect(path)
    ensures ResolvePath(base, Location(path)) == "/" + path + "/"
    ensures Route(ResolvePath(base, Location(path))) == DirectoryIndexer
    ensures !NeedsRedirect(StripLeadingSlash(ResolvePath(base, Location(path))))
  {
  }
}
