/**
 * `renderFiles` (src/appengine/app.js:94-144): the directory page, as a
 * structured value rather than HTML text. Its title is the path, then come
 * the breadcrumbs and, when non-empty, a Folders and a Files section, each
 * with its total and one entry per folder or file in the order given.
 */
module Index {
  import opened Wrappers
  import opened Strings
  import opened Paths
  import opened Breadcrumbs
  import opened Listing

  /** One list item: the text shown and the link target. */
  datatype Entry = Entry(text: string, href: string)

  /** A Folders or Files section: the "N total" line and the list. */
  datatype Section = Section(total: nat, entries: seq<Entry>)

  datatype IndexPage = IndexPage(title: string, trail: seq<Crumb>, folders: Option<Section>, files: Option<Section>)

  /** The leftmost position, from `from` on, where `pattern` occurs in `s`. */
  function FirstOccurrence(s: string, pattern: string, from: nat): (r: Option<nat>)
    requires from <= |s|
    ensures r.Some? ==>
      && from <= r.value <= |s| && StartsWith(s[r.value..], pattern)
      && forall j :: from <= j < r.value ==> !StartsWith(s[j..], pattern)
    ensures r.None? ==> forall j :: from <= j <= |s| ==> !StartsWith(s[j..], pattern)
    decreases |s| - from
  {
    if StartsWith(s[from..], pattern) then Some(from)
    else if from == |s| then None
    else FirstOccurrence(s, pattern, from + 1)
  }

  /**
   * `key.replace(new RegExp(path + '/?'), '')` for a path without regular
   * expression metacharacters: the leftmost occurrence of `path`, with one
   * `/` right after it if there is one, is cut out. For a key under `path`
   * that leaves the key relative to `path`.
   */
  function Deprefix(path: string, key: string): (localRef: string)
    ensures StartsWith(key, path) ==> localRef == StripLeadingSlash(key[|path|..])
  {
    assert key[0..] == key;
    match FirstOccurrence(key, path, 0)
    case None => key
    case Some(i) => key[..i] + StripLeadingSlash(key[i + |path|..])
  }

  /** A key in which `path` does not occur is shown unchanged. */
  lemma DeprefixWithoutOccurrence(path: string, key: string)
    requires forall j :: 0 <= j <= |key| ==> !StartsWith(key[j..], path)
    ensures Deprefix(path, key) == key
  {
    assert FirstOccurrence(key, path, 0).None?;
  }

  /**
   * The list item of a folder (src/appengine/app.js:119-120): the text is
   * the key relative to `path`; the link is that text without its trailing
   * `/`, encoded, with `/` put back, so it always ends in `/`.
   */
  function FolderEntry(path: string, folder: string, encode: string -> string): (e: Entry)
    ensures e.text == Deprefix(path, folder)
    ensures StartsWith(folder, path) ==> e.text == StripLeadingSlash(folder[|path|..])
    ensures e.href == encode(StripTrailingSlash(e.text)) + "/"
    ensures EndsWith(e.href, "/")
  {
    var localRef := Deprefix(path, folder);
    var link := encode(StripTrailingSlash(localRef));
    Entry(localRef, link + "/")
  }

  /**
   * The list item of a file (src/appengine/app.js:133-134): the text is the
   * object's key relative to `path`, the link that text encoded.
   */
  function FileEntry(path: string, file: StoredObject, encode: string -> string): (e: Entry)
    ensures e.text == Deprefix(path, file.name)
    ensures StartsWith(file.name, path) ==> e.text == StripLeadingSlash(file.name[|path|..])
    ensures e.href == encode(e.text)
  {
    var localRef := Deprefix(path, file.name);
    Entry(localRef, encode(localRef))
  }

  /**
   * `page` is what `renderFiles` shows for `path`, `files` and `folders`:
   * the title is the path, the trail is the path's breadcrumbs, and each
   * section is present exactly when its list is non-empty, with the list's
   * length as total and one entry per element, in order.
   */
  ghost predicate IsIndexOf(path: string, files: Option<seq<StoredObject>>, folders: seq<string>,
                            encode: string -> string, page: IndexPage)
  {
    && page.title == path
    && IsTrailOf(path, page.trail)
    && (page.folders.Some? <==> |folders| > 0)
    && (page.folders.Some? ==>
          && page.folders.value.total == |folders|
          && |page.folders.value.entries| == |folders|
          && forall i :: 0 <= i < |folders| ==>
               page.folders.value.entries[i] == FolderEntry(path, folders[i], encode))
    && (page.files.Some? <==> !NoFiles(files))
    && (page.files.Some? ==>
          && page.files.value.total == |files.value|
          && |page.files.value.entries| == |files.value|
          && forall i :: 0 <= i < |files.value| ==>
               page.files.value.entries[i] == FileEntry(path, files.value[i], encode))
  }

  /** The Folders section: the `folders.forEach` loop, when there are folders. */
  method RenderFolders(path: string, folders: seq<string>, encode: string -> string)
    returns (section: Option<Section>)
    ensures section.Some? <==> |folders| > 0
    ensures section.Some? ==>
      && section.value.total == |folders|
      && |section.value.entries| == |folders|
      && forall i :: 0 <= i < |folders| ==> section.value.entries[i] == FolderEntry(path, folders[i], encode)
  {
    section := None;
    if |folders| > 0 {
      var entries: seq<Entry> := [];
      for i := 0 to |folders|
        invariant |entries| == i
        invariant forall j :: 0 <= j < i ==> entries[j] == FolderEntry(path, folders[j], encode)
      {
        entries := entries + [FolderEntry(path, folders[i], encode)];
      }
      section := Some(Section(|folders|, entries));
    }
  }

  /** The Files section: the `files.forEach` loop, when there are files. */
  method RenderFileList(path: string, files: Option<seq<StoredObject>>, encode: string -> string)
    returns (section: Option<Section>)
    ensures section.Some? <==> !NoFiles(files)
    ensures section.Some? ==>
      && section.value.total == |files.value|
      && |section.value.entries| == |files.value|
      && forall i :: 0 <= i < |files.value| ==> section.value.entries[i] == FileEntry(path, files.value[i], encode)
  {
    section := None;
    if files.Some? && |files.value| > 0 {
      var list := files.value;
      var entries: seq<Entry> := [];
      for i := 0 to |list|
        invariant |entries| == i
        invariant forall j :: 0 <= j < i ==> entries[j] == FileEntry(path, list[j], encode)
      {
        entries := entries + [FileEntry(path, list[i], encode)];
      }
      section := Some(Section(|list|, entries));
    }
  }

  /** `renderFiles`: title, breadcrumbs, then the two optional sections. */
  method RenderFiles(path: string, files: Option<seq<StoredObject>>, folders: seq<string>,
                     encode: string -> string) returns (page: IndexPage)
    ensures IsIndexOf(path, files, folders, encode, page)
  {
    var trail := RenderBreadcrumbs(path);
    var folderSection := RenderFolders(path, folders, encode);
    var fileSection := RenderFileList(path, files, encode);
    page := IndexPage(path, trail, folderSection, fileSection);
  }

  /** The page for given inputs is determined: rendering twice shows the same page. */
  lemma IndexIsUnique(path: string, files: Option<seq<StoredObject>>, folders: seq<string>,
                      encode: string -> string, p1: IndexPage, p2: IndexPage)
    requires IsIndexOf(path, files, folders, encode, p1)
    requires IsIndexOf(path, files, folders, encode, p2)
    ensures p1 == p2
  {
    TrailIsUnique(path, p1.trail, p2.trail);
    if p1.folders.Some? {
      assert p1.folders.value.entries == p2.folders.value.entries;
    }
    if p1.files.Some? {
      assert p1.files.value.entries == p2.files.value.entries;
    }
  }

  /**
   * With an injective encoding, two folders get the same link only when
   * their texts agree up to a trailing `/`.
   */
  lemma FolderLinksDistinct(path: string, a: string, b: string, encode: string -> string)
    requires forall x, y :: encode(x) == encode(y) ==> x == y
    requires FolderEntry(path, a, encode).href == FolderEntry(path, b, encode).href
    ensures StripTrailingSlash(FolderEntry(path, a, encode).text) == StripTrailingSlash(FolderEntry(path, b, encode).text)
  {
    var x := encode(StripTrailingSlash(Deprefix(path, a)));
    var y := encode(StripTrailingSlash(Deprefix(path, b)));
    assert x + "/" == y + "/";
    assert x == (x + "/")[..|x|] == (y + "/")[..|y|] == y;
  }

  /**
   * On a page for `path`, when every listed key lies under `path`, each
   * entry's text is its key with `path` and one optional `/` removed.
   */
  lemma EntriesRelativeToPath(path: string, files: Option<seq<StoredObject>>, folders: seq<string>,
                              encode: string -> string, page: IndexPage)
    requires IsIndexOf(path, files, folders, encode, page)
    requires forall i :: 0 <= i < |folders| ==> StartsWith(folders[i], path)
    requires files.Some? ==> forall i :: 0 <= i < |files.value| ==> StartsWith(files.value[i].name, path)
    ensures page.folders.Some? ==> forall i :: 0 <= i < |folders| ==>
      && page.folders.value.entries[i].text == StripLeadingSlash(folders[i][|path|..])
      && EndsWith(page.folders.value.entries[i].href, "/")
    ensures page.files.Some? ==> forall i :: 0 <= i < |files.value| ==>
      page.files.value.entries[i].text == StripLeadingSlash(files.value[i].name[|path|..])
  {
  }

  /** Under `docs/`, the folder `docs/guide/` is shown as `guide/` and linked as the encoded `guide` plus `/`. */
  lemma NestedFolderEntry(encode: string -> string)
    ensures FolderEntry("docs/", "docs/guide/", encode) == Entry("guide/", encode("guide") + "/")
  {
    var key := "docs/guide/";
    assert StartsWith(key, "docs/");
    assert key[5..] == "guide/";
    assert StripLeadingSlash("guide/") == "guide/";
    assert StripTrailingSlash("guide/") == "guide";
  }
}
