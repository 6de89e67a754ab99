/** The admin breadcrumb (app/admin/_components/admin-header.tsx). */
module AdminHeader {
  import opened Text

  /** `.filter(Boolean)` on strings: drop the empty ones, keep the order. */
  function NonEmpty(pieces: seq<string>): (r: seq<string>)
    ensures forall i :: 0 <= i < |r| ==> r[i] != ""
    ensures forall p :: p in r <==> p in pieces && p != ""
    ensures |r| <= |pieces|
  {
    if pieces == [] then []
    else if pieces[0] == "" then NonEmpty(pieces[1..])
    else [pieces[0]] + NonEmpty(pieces[1..])
  }

  /** The filter works piece by piece: it distributes over concatenation... */
  lemma {:induction false} NonEmptyAppend(a: seq<string>, b: seq<string>)
    ensures NonEmpty(a + b) == NonEmpty(a) + NonEmpty(b)
  {
    if a == [] {
      assert a + b == b;
    } else {
      var ab := a + b;
      assert ab[0] == a[0] && ab[1..] == a[1..] + b;
      NonEmptyAppend(a[1..], b);
      var rest := NonEmpty(ab[1..]);
      assert rest == NonEmpty(a[1..]) + NonEmpty(b);
      if a[0] != "" {
        assert NonEmpty(ab) == [a[0]] + rest;
        assert NonEmpty(a) == [a[0]] + NonEmpty(a[1..]);
        assert [a[0]] + (NonEmpty(a[1..]) + NonEmpty(b)) == ([a[0]] + NonEmpty(a[1..])) + NonEmpty(b);
      }
    }
  }

  /** ...and keeps a single piece exactly when it is non-empty, so it keeps order and multiplicity. */
  lemma NonEmptySingle(p: string)
    ensures NonEmpty([]) == []
    ensures NonEmpty([p]) == if p == "" then [] else [p]
  {
  }

  /** `pathname.split("/").filter(Boolean).slice(1)`: the path's non-empty pieces after the first. */
  function Segments(pathname: string): (r: seq<string>)
    ensures forall i :: 0 <= i < |r| ==> r[i] != "" && '/' !in r[i]
  {
    var pieces := NonEmpty(Split(pathname, '/'));
    SplitPiecesFree(pathname, '/');
    if pieces == [] then [] else pieces[1..]
  }

  /** One crumb: a link to its href, or the current page. */
  datatype Crumb = Link(text: string, href: string) | Page(text: string)

  /** The breadcrumb list as rendered. */
  function Crumbs(pathname: string): (r: seq<Crumb>)
    ensures |r| == |Segments(pathname)| + 1
    ensures r[0] == Link("Admin", "/admin")
    ensures forall i :: 1 <= i < |r| ==> r[i].text == Segments(pathname)[i - 1]
    ensures forall i :: 1 <= i < |r| - 1 ==> r[i] == Link(Segments(pathname)[i - 1], "/admin/" + Segments(pathname)[i - 1])
    ensures |r| > 1 ==> r[|r| - 1] == Page(Segments(pathname)[|r| - 2])
  {
    var s := Segments(pathname);
    [Link("Admin", "/admin")]
      + seq(|s|, i requires 0 <= i < |s| => if i == |s| - 1 then Page(s[i]) else Link(s[i], "/admin/" + s[i]))
  }

  /** At most one crumb is the current page, and it is the last. */
  lemma OnlyLastIsPage(pathname: string, i: nat)
    requires i < |Crumbs(pathname)| && Crumbs(pathname)[i].Page?
    ensures i == |Crumbs(pathname)| - 1 && i >= 1
  {
  }

  lemma AdminRootHasNoSegments()
    ensures Segments("/admin") == []
    ensures Segments("/admin/") == []
    ensures Crumbs("/admin") == [Link("Admin", "/admin")]
  {
    SplitPrefix("", '/', "admin");
    SplitFree("admin", '/');
    assert "/admin" == "" + ['/'] + "admin";
    SplitPrefix("admin", '/', "");
    assert Split("admin/", '/') == ["admin", ""];
    assert "/admin/" == "" + ['/'] + "admin/";
  }

  /** Filtering pieces that are all non-empty keeps them all. */
  lemma {:induction false} NonEmptyKeepsAll(pieces: seq<string>)
    requires forall i :: 0 <= i < |pieces| ==> pieces[i] != ""
    ensures NonEmpty(pieces) == pieces
  {
    if pieces != [] {
      NonEmptyKeepsAll(pieces[1..]);
    }
  }

  /** Below "/admin/", the segments are the non-empty pieces of the rest of the path, in order. */
  lemma SegmentsBelowAdmin(t: string)
    ensures Segments("/admin/" + t) == NonEmpty(Split(t, '/'))
  {
    SplitPrefix("admin", '/', t);
    SplitPrefix("", '/', "admin" + ['/'] + t);
    PrefixAdmin(t);
    var pieces := [""] + (["admin"] + Split(t, '/'));
    assert Split("/admin/" + t, '/') == pieces;
    assert pieces[1..] == ["admin"] + Split(t, '/');
    assert (["admin"] + Split(t, '/'))[1..] == Split(t, '/');
    assert NonEmpty(pieces) == ["admin"] + NonEmpty(Split(t, '/'));
  }

  /**
   * So the segments and a path below "/admin/" built from non-empty pieces
   * determine each other.
   */
  lemma SegmentsOfPath(segments: seq<string>)
    requires |segments| >= 1
    requires forall i :: 0 <= i < |segments| ==> segments[i] != "" && '/' !in segments[i]
    ensures Segments("/admin/" + Join(segments, '/')) == segments
  {
    SegmentsBelowAdmin(Join(segments, '/'));
    SplitJoin(segments, '/');
    NonEmptyKeepsAll(segments);
  }

  lemma PrefixAdmin(t: string)
    ensures "/admin/" + t == "" + ['/'] + ("admin" + ['/'] + t)
  {
  }

  /**
   * An example on one input (the general fact is SegmentsBelowAdmin with
   * Crumbs): a nested path links every level to "/admin/" plus that one
   * piece, not to the path so far.
   */
  lemma NestedLinksAreNotCumulative()
    ensures Crumbs("/admin/" + Join(["events", "new"], '/')) == [Link("Admin", "/admin"), Link("events", "/admin/events"), Page("new")]
  {
    var path := "/admin/" + Join(["events", "new"], '/');
    SegmentsOfPath(["events", "new"]);
    var r := Crumbs(path);
    assert |r| == 3;
    assert r[1] == Link("events", "/admin/" + "events");
    assert "/admin/" + "events" == "/admin/events";
    assert r == [r[0], r[1], r[2]];
  }
}
