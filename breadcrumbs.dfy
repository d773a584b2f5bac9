/**
 * `renderBreadcrumbs` (src/appengine/app.js:74-92): one link per ancestor
 * of the directory being shown, from the root down to its parent, each a
 * run of `..` steps joined by `/`. The HTML around each link is not
 * modelled; a link is a (label, href) pair.
 */
module Breadcrumbs {
  import opened Strings
  import opened Paths

  /** The label of the root, as the source writes it (`<root>` escaped). */
  const RootLabel: string := "&lt;root&gt;"

  /** One step up a directory. */
  const ParentRef: string := ".."

  datatype Crumb = Crumb(text: string, href: string)

  /**
   * `path.replace(endSlash, '').split('/')`: the directory's segments; there
   * is one more than there are separators once a trailing `/` is dropped.
   */
  function Segments(path: string): (segs: seq<string>)
    ensures |segs| == Count(StripTrailingSlash(path), '/') + 1
    ensures forall i :: 0 <= i < |segs| ==> '/' !in segs[i]
  {
    Split(StripTrailingSlash(path), '/')
  }

  /**
   * `Array(hops).fill('..').join('/')`: a link of `hops` steps, which splits
   * back into exactly `hops` parent references; one step is `..` itself.
   */
  function UpLink(hops: nat): (link: string)
    ensures hops > 0 ==> Split(link, '/') == Repeat(ParentRef, hops)
    ensures hops == 1 ==> link == ParentRef
  {
    var link := Join(Repeat(ParentRef, hops), '/');
    assert hops > 0 ==> Split(link, '/') == Repeat(ParentRef, hops) by {
      if hops > 0 {
        JoinThenSplit(Repeat(ParentRef, hops), '/');
      }
    }
    assert Repeat(ParentRef, 1) == [ParentRef];
    link
  }

  /**
   * The trail of `path`: empty for the root; otherwise one crumb per
   * segment, the crumb at index `i` of `n` stepping up `n - i` times and
   * labelled with the root label (index 0) or the previous segment, plus `/`.
   */
  ghost predicate IsTrailOf(path: string, trail: seq<Crumb>) {
    if path == "" then trail == []
    else
      var segs := Segments(path);
      |trail| == |segs| &&
      forall i :: 0 <= i < |trail| ==>
        trail[i].href == UpLink(|trail| - i) &&
        trail[i].text == (if i == 0 then RootLabel else segs[i - 1]) + "/"
  }

  /** The loop of the source: prepend the root, drop the last segment, link the rest. */
  method RenderBreadcrumbs(path: string) returns (trail: seq<Crumb>)
    ensures IsTrailOf(path, trail)
  {
    trail := [];
    if path != "" {
      var pathBits := Split(StripTrailingSlash(path), '/');
      pathBits := [RootLabel] + pathBits;
      pathBits := pathBits[..|pathBits| - 1];
      var pathBitsLength := |pathBits|;
      for i := 0 to pathBitsLength
        invariant |trail| == i
        invariant forall j :: 0 <= j < i ==>
          trail[j] == Crumb(pathBits[j] + "/", UpLink(pathBitsLength - j))
      {
        trail := trail + [Crumb(pathBits[i] + "/", UpLink(pathBitsLength - i))];
      }
    }
  }

  /** A path has exactly one trail. */
  lemma TrailIsUnique(path: string, t1: seq<Crumb>, t2: seq<Crumb>)
    requires IsTrailOf(path, t1) && IsTrailOf(path, t2)
    ensures t1 == t2
  {
    if path != "" {
      assert |t1| == |t2|;
      forall i | 0 <= i < |t1| ensures t1[i] == t2[i] {
        assert t1[i].href == t2[i].href && t1[i].text == t2[i].text;
      }
    }
  }

  /**
   * The last crumb, which leads to the parent directory, is exactly `..`;
   * the first leads to the root through one step per segment.
   */
  lemma LastCrumbIsParent(path: string, trail: seq<Crumb>)
    requires IsTrailOf(path, trail) && path != ""
    ensures |trail| > 0
    ensures trail[|trail| - 1].href == ParentRef
    ensures trail[0].text == RootLabel + "/"
    ensures Split(trail[0].href, '/') == Repeat(ParentRef, |Segments(path)|)
  {
    assert trail[0].href == UpLink(|trail|);
  }

  /** The name of a directory given by its segments: the last one, or the root label. */
  function DirName(segs: seq<string>): string {
    if segs == [] then RootLabel else segs[|segs| - 1]
  }

  /**
   * Each crumb leads to an ancestor: its href is a run of `..` steps, and
   * climbing that many segments from `path` reaches the directory whose
   * name its text shows.
   */
  lemma TrailLeadsToAncestors(path: string, trail: seq<Crumb>)
    requires IsTrailOf(path, trail) && path != ""
    ensures forall i :: 0 <= i < |trail| ==>
      var steps := Split(trail[i].href, '/');
      var segs := Segments(path);
      steps == Repeat(ParentRef, |steps|) &&
      1 <= |steps| <= |segs| &&
      trail[i].text == DirName(segs[..|segs| - |steps|]) + "/"
  {
    var segs := Segments(path);
    var n := |trail|;
    forall i | 0 <= i < n
      ensures var steps := Split(trail[i].href, '/');
        steps == Repeat(ParentRef, |steps|) && 1 <= |steps| <= |segs| &&
        trail[i].text == DirName(segs[..|segs| - |steps|]) + "/"
    {
      assert |segs[..i]| == i;
    }
  }

  /** The trail of `a/b/c/`: three crumbs, `../../..`, `../..` and `..`. */
  lemma ThreeLevelTrail()
    ensures IsTrailOf("a/b/c/", [Crumb(RootLabel + "/", "../../.."), Crumb("a/", "../.."), Crumb("b/", "..")])
  {
    var trail := [Crumb(RootLabel + "/", "../../.."), Crumb("a/", "../.."), Crumb("b/", "..")];
    var segs := Segments("a/b/c/");
    ThreeSegments();
    ShortUpLinks();
    assert UpLink(1) == "..";
    forall i | 0 <= i < 3
      ensures trail[i].href == UpLink(3 - i)
      ensures trail[i].text == (if i == 0 then RootLabel else segs[i - 1]) + "/"
    {
    }
  }

  /** `a/b/c/` has the segments `a`, `b` and `c`. */
  lemma ThreeSegments()
    ensures Segments("a/b/c/") == ["a", "b", "c"]
  {
    assert StripTrailingSlash("a/b/c/") == "a/b/c";
    SplitWithoutSeparator("c", '/');
    assert "b/c" == "b" + "/" + "c";
    SplitAtSeparator("b", "c", '/');
    assert "a/b/c" == "a" + "/" + "b/c";
    SplitAtSeparator("a", "b/c", '/');
  }

  /** The links of two and three steps, spelled out. */
  lemma ShortUpLinks()
    ensures UpLink(2) == "../.." && UpLink(3) == "../../.."
  {
    var two := Repeat(ParentRef, 2);
    var three := Repeat(ParentRef, 3);
    assert two == ["..", ".."] && two[1..] == [".."];
    assert Join(two, '/') == ".." + "/" + "..";
    assert three == ["..", "..", ".."] && three[1..] == two;
    assert Join(three, '/') == ".." + "/" + "../..";
  }
}
