/**
 * The page loop `indexPager` of `indexBucket` (src/appengine/app.js:157-191).
 * The store's paginated prefix listing is given as the sequence of pages it
 * delivers for one query, in order; a page carries the objects it lists, the
 * sub-prefixes ("folders") it reports, and whether it has a continuation.
 */
module Listing {
  import opened Wrappers

  /** An object of the bucket, known here by its key. */
  datatype StoredObject = StoredObject(name: string)

  /** One answer of `bucket.getFiles`: `files`, `apiResponse.prefixes` and whether `nextQuery` is set. */
  datatype Page = Page(files: Option<seq<StoredObject>>, prefixes: Option<seq<string>>, hasNext: bool)

  /** How the page loop ends. */
  datatype PagerOutcome =
    | NoSuchFolder(message: string)
    | Listed(folders: seq<string>, files: Option<seq<StoredObject>>)
    | AwaitingPage

  /** `!files || files.length === 0`. */
  predicate NoFiles(files: Option<seq<StoredObject>>) {
    files.None? || |files.value| == 0
  }

  /** The prefixes a page contributes (none when the field is absent). */
  function PagePrefixes(page: Page): seq<string> {
    if page.prefixes.Some? then page.prefixes.value else []
  }

  /**
   * Every page's prefixes, in the order of the pages, duplicates kept: the
   * list begins with the first page's prefixes.
   */
  function Folders(pages: seq<Page>): (folders: seq<string>)
    ensures pages != [] ==> PagePrefixes(pages[0]) <= folders
  {
    if pages == [] then [] else Folders(pages[..|pages| - 1]) + PagePrefixes(pages[|pages| - 1])
  }

  /** The first page without a continuation, where the loop stops. */
  function Terminal(pages: seq<Page>): (k: Option<nat>)
    ensures k.Some? ==>
      && k.value < |pages| && !pages[k.value].hasNext
      && forall j :: 0 <= j < k.value ==> pages[j].hasNext
    ensures k.None? ==> forall j :: 0 <= j < |pages| ==> pages[j].hasNext
  {
    if pages == [] then None
    else if !pages[0].hasNext then Some(0)
    else match Terminal(pages[1..])
      case None => None
      case Some(k) => Some(k + 1)
  }

  /** The body of the 404 sent for an empty folder. */
  function NoSuchFolderMessage(path: string): string {
    "No such folder: '" + path + "'"
  }

  /**
   * `indexPager` run over the delivered pages: it appends each page's
   * prefixes to `folders` and, at the first page without a continuation,
   * answers 404 when that page has no files and no folder was collected,
   * and otherwise renders that page's files with all the folders. If every
   * delivered page has a continuation, no answer has been given yet.
   */
  method IndexPager(path: string, pages: seq<Page>) returns (outcome: PagerOutcome)
    ensures Terminal(pages).None? <==> outcome.AwaitingPage?
    ensures Terminal(pages).Some? ==>
      var k := Terminal(pages).value;
      var folders := Folders(pages[..k + 1]);
      (outcome.NoSuchFolder? <==> NoFiles(pages[k].files) && folders == []) &&
      (outcome.NoSuchFolder? ==> outcome.message == NoSuchFolderMessage(path)) &&
      (outcome.Listed? ==> outcome.folders == folders && outcome.files == pages[k].files)
  {
    var folders: seq<string> := [];
    var i := 0;
    while i < |pages|
      invariant 0 <= i <= |pages|
      invariant folders == Folders(pages[..i])
      invariant forall j :: 0 <= j < i ==> pages[j].hasNext
    {
      var page := pages[i];
      assert pages[..i + 1][..i] == pages[..i];
      if page.prefixes.Some? && |page.prefixes.value| > 0 {
        folders := folders + page.prefixes.value;
      }
      assert folders == Folders(pages[..i + 1]);
      if !page.hasNext {
        if NoFiles(page.files) && |folders| == 0 {
          return NoSuchFolder(NoSuchFolderMessage(path));
        } else {
          return Listed(folders, page.files);
        }
      }
      i := i + 1;
    }
    return AwaitingPage;
  }

  /** Folders of consecutive runs of pages concatenate. */
  lemma {:induction false} FoldersAppend(a: seq<Page>, b: seq<Page>)
    ensures Folders(a + b) == Folders(a) + Folders(b)
  {
    if b == [] {
      assert a + b == a;
    } else {
      var c := a + b;
      assert c[..|c| - 1] == a + b[..|b| - 1];
      assert c[|c| - 1] == b[|b| - 1];
      FoldersAppend(a, b[..|b| - 1]);
    }
  }

  /** Page `i`'s prefixes sit, in order, between those of the pages before and after it. */
  lemma FoldersInPageOrder(pages: seq<Page>, i: nat)
    requires i < |pages|
    ensures Folders(pages) == Folders(pages[..i]) + PagePrefixes(pages[i]) + Folders(pages[i + 1..])
  {
    assert pages == pages[..i + 1] + pages[i + 1..];
    FoldersAppend(pages[..i + 1], pages[i + 1..]);
    assert pages[..i + 1][..i] == pages[..i];
  }

  /** A folder is collected exactly when some page reports it. */
  lemma {:induction false} FolderFromSomePage(pages: seq<Page>, f: string)
    ensures f in Folders(pages) <==> exists i :: 0 <= i < |pages| && f in PagePrefixes(pages[i])
  {
    if pages != [] {
      var init := pages[..|pages| - 1];
      FolderFromSomePage(init, f);
      assert forall i :: 0 <= i < |init| ==> init[i] == pages[i];
    }
  }

  /** Total prefixes over all pages. */
  function PrefixTotal(pages: seq<Page>): nat {
    if pages == [] then 0 else PrefixTotal(pages[..|pages| - 1]) + |PagePrefixes(pages[|pages| - 1])|
  }

  /** Nothing is dropped or merged: the folder list is as long as all reports together. */
  lemma {:induction false} FoldersKeepDuplicates(pages: seq<Page>)
    ensures |Folders(pages)| == PrefixTotal(pages)
  {
    if pages != [] {
      FoldersKeepDuplicates(pages[..|pages| - 1]);
    }
  }

  /** Two pages both reporting the same prefix give it twice. */
  lemma RepeatedPrefixKept(f: string)
    ensures Folders([Page(None, Some([f]), true), Page(Some([]), Some([f]), false)]) == [f, f]
  {
    var pages := [Page(None, Some([f]), true), Page(Some([]), Some([f]), false)];
    var first := pages[..1];
    assert first[..0] == [];
    assert Folders(first) == [f];
    assert pages[..|pages| - 1] == first;
  }
}
