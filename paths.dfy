/**
 * Request-path handling in src/appengine/app.js: the `startSlash` and
 * `endSlash` replacements, the normalisation done by `commonProcessor`,
 * and the `fileRegex` test that picks the handler for a request.
 */
module Paths {
  import opened Strings

  /** `s.replace(/^\//, '')`: exactly one leading separator is dropped. */
  function StripLeadingSlash(s: string): (r: string)
    ensures StartsWith(s, "/") ==> s == "/" + r
    ensures !StartsWith(s, "/") ==> r == s
  {
    if |s| > 0 && s[0] == '/' then s[1..] else s
  }

  /** `s.replace(/\/$/, '')`: exactly one trailing separator is dropped. */
  function StripTrailingSlash(s: string): (r: string)
    ensures EndsWith(s, "/") ==> s == r + "/"
    ensures !EndsWith(s, "/") ==> r == s
  {
    if |s| > 0 && s[|s| - 1] == '/' then s[..|s| - 1] else s
  }

  /**
   * The path the handlers work on: the request path without one leading
   * separator, then put through `decodeURIComponent` (here `decode`).
   */
  function NormalisePath(reqPath: string, decode: string -> string): (path: string)
    ensures StartsWith(reqPath, "/") ==> path == decode(reqPath[1..])
    ensures !StartsWith(reqPath, "/") ==> path == decode(reqPath)
  {
    decode(StripLeadingSlash(reqPath))
  }

  /** `[^./]`: a character that may occur in a file extension. */
  predicate IsExtensionChar(c: char) {
    c != '.' && c != '/'
  }

  /**
   * The search `/.*\.[^./]+$/.test(s)`: somewhere in `s` there is a `.`
   * followed by one or more extension characters that run to the end.
   * The leading `.*` may match the empty string, so it adds nothing.
   */
  ghost predicate MatchesFileRegex(s: string) {
    exists i :: 0 <= i < |s| - 1 && s[i] == '.' &&
      forall j :: i < j < |s| ==> IsExtensionChar(s[j])
  }

  /** Length of the longest suffix of `s` made of extension characters. */
  function ExtensionRun(s: string): (k: nat)
    ensures k <= |s|
    ensures forall j :: |s| - k <= j < |s| ==> IsExtensionChar(s[j])
    ensures k < |s| ==> !IsExtensionChar(s[|s| - 1 - k])
  {
    if s == [] || !IsExtensionChar(s[|s| - 1]) then 0
    else ExtensionRun(s[..|s| - 1]) + 1
  }

  /** The backward scan decides exactly the regular expression. */
  lemma ExtensionRunDecidesRegex(s: string)
    ensures (var k := ExtensionRun(s); 0 < k < |s| && s[|s| - 1 - k] == '.') <==> MatchesFileRegex(s)
  {
    var k := ExtensionRun(s);
    if 0 < k < |s| && s[|s| - 1 - k] == '.' {
      var i := |s| - 1 - k;
      assert 0 <= i < |s| - 1 && s[i] == '.';
      assert forall j :: i < j < |s| ==> IsExtensionChar(s[j]);
    }
    if MatchesFileRegex(s) {
      var i :| 0 <= i < |s| - 1 && s[i] == '.' &&
        forall j :: i < j < |s| ==> IsExtensionChar(s[j]);
      assert k == |s| - 1 - i;
    }
  }

  /**
   * The file test computed from the end of the string: the maximal run of
   * extension characters is non-empty and preceded by a `.`. It accepts
   * exactly the strings the regular expression matches.
   */
  function IsFilePath(s: string): (r: bool)
    ensures r <==> MatchesFileRegex(s)
  {
    ExtensionRunDecidesRegex(s);
    var k := ExtensionRun(s);
    0 < k < |s| && s[|s| - 1 - k] == '.'
  }

  /** Which handler `app.get` hands a request to. */
  datatype Handler = FileHandler | DirectoryIndexer

  /**
   * The routes at src/appengine/app.js:221-224: a request whose path
   * matches `fileRegex` is a file request; every other request is a
   * directory request, in particular the root and any path ending in `/`.
   */
  function Route(reqPath: string): (h: Handler)
    ensures h == FileHandler <==> MatchesFileRegex(reqPath)
    ensures reqPath == "" || EndsWith(reqPath, "/") ==> h == DirectoryIndexer
  {
    if IsFilePath(reqPath) then FileHandler else DirectoryIndexer
  }

  /**
   * Express matches the route against the path with its leading `/`;
   * that separator never changes the decision.
   */
  lemma {:induction false} RouteIgnoresLeadingSlash(p: string)
    ensures Route("/" + p) == Route(p)
  {
    var s := "/" + p;
    if MatchesFileRegex(p) {
      var i :| 0 <= i < |p| - 1 && p[i] == '.' &&
        forall j :: i < j < |p| ==> IsExtensionChar(p[j]);
      assert s[i + 1] == '.';
      assert forall j :: i + 1 < j < |s| ==> IsExtensionChar(s[j]) by {
        forall j | i + 1 < j < |s| ensures IsExtensionChar(s[j]) {
          assert s[j] == p[j - 1];
        }
      }
    }
    if MatchesFileRegex(s) {
      var i :| 0 <= i < |s| - 1 && s[i] == '.' &&
        forall j :: i < j < |s| ==> IsExtensionChar(s[j]);
      assert i > 0;
      assert p[i - 1] == '.';
      assert forall j :: i - 1 < j < |p| ==> IsExtensionChar(p[j]) by {
        forall j | i - 1 < j < |p| ensures IsExtensionChar(p[j]) {
          assert p[j] == s[j + 1];
        }
      }
    }
  }
}
