/**
 * The file handler `readBucketFile` (src/appengine/app.js:41-69): a missing
 * object gives "No such file", an existing one is streamed, and a path
 * ending in a common image extension forces an `image/...` content type
 * (the `commonImageFiles` pattern `/\.(jpg|png|gif)$/i`).
 */
module Content {
  import opened Wrappers
  import opened Strings
  import opened Paths

  /** The alternatives of `commonImageFiles`, as written (lower case). */
  const ImageExtensions: seq<string> := ["jpg", "png", "gif"]

  /** Equal when compared the way the `i` flag compares ASCII letters. */
  predicate EqualIgnoringCase(a: string, b: string) {
    |a| == |b| && forall i :: 0 <= i < |a| ==> LowerAscii(a[i]) == LowerAscii(b[i])
  }

  /** `path` ends in `.` followed by `ext`, ignoring case. */
  predicate HasExtensionIgnoringCase(path: string, ext: string) {
    |ext| < |path| && path[|path| - |ext| - 1] == '.' &&
    EqualIgnoringCase(path[|path| - |ext|..], ext)
  }

  /** For a word already in lower case, lower-casing is the case-blind comparison. */
  lemma LowerEqualsIgnoringCase(a: string, w: string)
    requires forall i :: 0 <= i < |w| ==> LowerAscii(w[i]) == w[i]
    ensures Lower(a) == w <==> EqualIgnoringCase(a, w)
  {
    if EqualIgnoringCase(a, w) {
      assert forall i :: 0 <= i < |a| ==> Lower(a)[i] == w[i];
    }
  }

  /**
   * The header set at src/appengine/app.js:54-57: `image/` followed by the
   * matched extension in lower case, when the path ends in one of them
   * (ignoring case); no header otherwise.
   */
  function ImageContentType(path: string): (ct: Option<string>)
    ensures ct.None? <==> forall e :: e in ImageExtensions ==> !HasExtensionIgnoringCase(path, e)
    ensures ct.Some? ==>
      exists e :: e in ImageExtensions && HasExtensionIgnoringCase(path, e) && ct.value == "image/" + e
  {
    if |path| < 4 || path[|path| - 4] != '.' then None
    else
      var suffix := path[|path| - 3..];
      LowerEqualsIgnoringCase(suffix, "jpg");
      LowerEqualsIgnoringCase(suffix, "png");
      LowerEqualsIgnoringCase(suffix, "gif");
      var ext := Lower(suffix);
      if ext in ImageExtensions then Some("image/" + ext) else None
  }

  /** What `readBucketFile` does with a request. */
  datatype FileResponse =
    | NoSuchFile(message: string)
    | StreamObject(key: string, contentType: Option<string>)

  /**
   * `readBucketFile` given the store's answer to `bucket.exists(path)`:
   * a 404 naming the path when the object is absent, otherwise the object
   * streamed under its own key with the image content type, if any.
   */
  function ReadBucketFile(path: string, found: bool): (r: FileResponse)
    ensures r.NoSuchFile? <==> !found
    ensures r.NoSuchFile? ==> Contains(r.message, path)
    ensures r.StreamObject? ==> r.key == path && r.contentType == ImageContentType(path)
  {
    if found then StreamObject(path, ImageContentType(path))
    else
      var message := "No such file: '" + path + "'";
      assert StartsWith(message[15..], path);
      NoSuchFile(message)
  }

  /** The case-blind match and lower-casing: `LOGO.PNG` is served as `image/png`. */
  lemma UpperCaseExtension()
    ensures ImageContentType("LOGO.PNG") == Some("image/png")
    ensures ImageContentType("logo.png.txt") == None
  {
    var upper := "LOGO.PNG";
    assert upper[4] == '.' && upper[5..] == "PNG";
    assert LowerAscii('P') == 'p' && LowerAscii('N') == 'n' && LowerAscii('G') == 'g';
    assert Lower("PNG") == "png";
    assert "png" in ImageExtensions && "image/" + "png" == "image/png";
    var other := "logo.png.txt";
    assert other[8] == '.' && other[9..] == "txt";
    assert Lower("txt") == "txt";
  }

  /** A path the image rule applies to matches the file regex, so it is routed as a file. */
  lemma ImageNameMatchesFileRegex(path: string)
    requires ImageContentType(path).Some?
    ensures MatchesFileRegex(path)
    ensures Route(path) == FileHandler
  {
    var suffix := path[|path| - 3..];
    var ext := Lower(suffix);
    assert path[|path| - 4] == '.' && ext in ImageExtensions;
    assert forall j :: 0 <= j < 3 ==> 'a' <= ext[j] <= 'z';
    var i := |path| - 4;
    forall j | i < j < |path| ensures IsExtensionChar(path[j]) {
      assert path[j] == suffix[j - i - 1];
      assert LowerAscii(path[j]) == ext[j - i - 1];
    }
    assert MatchesFileRegex(path);
  }

  /**
   * A request whose path (without its leading `/`) the image rule applies
   * to is sent by the router to this handler, so the rule is never cut off
   * by routing. This covers requests without percent-escapes, where the
   * handler's path is the request path minus its leading `/`; an escaped
   * dot (`/logo%2Epng`) is routed as a directory.
   */
  lemma ImagePathsAreFiles(reqPath: string)
    requires ImageContentType(StripLeadingSlash(reqPath)).Some?
    ensures Route(reqPath) == FileHandler
  {
    var path := StripLeadingSlash(reqPath);
    ImageNameMatchesFileRegex(path);
    if StartsWith(reqPath, "/") {
      RouteIgnoresLeadingSlash(path);
    }
  }
}
