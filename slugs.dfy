/** The tag-slug rule of createBlogPost (app/actions/social/blog.ts). */
module Slugs {
  import opened Text

  /** What the first character of `s` contributes. */
  function SlugHead(c: char, inRun: bool): string {
    if IsJsSpace(c) then (if inRun then [] else "-") else [LowerChar(c)]
  }

  /**
   * `s.toLowerCase().replace(/\s+/g, "-")`, read left to right: `inRun` says
   * whether the character before `s` was whitespace, whose run already
   * produced its "-".
   */
  function SlugFrom(s: string, inRun: bool): string {
    if s == [] then [] else SlugHead(s[0], inRun) + SlugFrom(s[1..], IsJsSpace(s[0]))
  }

  /** The slug a new tag gets from its name. */
  function TagSlug(name: string): string {
    SlugFrom(name, false)
  }

  /** Whether the last character of `a` is whitespace (`inRun` when `a` is empty). */
  function EndsInRun(a: string, inRun: bool): bool {
    if a == [] then inRun else IsJsSpace(a[|a| - 1])
  }

  /** A slug holds neither whitespace nor an upper-case ASCII letter. */
  lemma {:induction false} SlugFromClean(s: string, inRun: bool)
    ensures forall i :: 0 <= i < |SlugFrom(s, inRun)| ==>
      !IsJsSpace(SlugFrom(s, inRun)[i]) && !IsAsciiUpper(SlugFrom(s, inRun)[i])
  {
    if s != [] {
      SlugFromClean(s[1..], IsJsSpace(s[0]));
    }
  }

  lemma TagSlugClean(name: string)
    ensures forall i :: 0 <= i < |TagSlug(name)| ==> !IsJsSpace(TagSlug(name)[i]) && !IsAsciiUpper(TagSlug(name)[i])
  {
    SlugFromClean(name, false);
  }

  /** A name without whitespace is only lower-cased. */
  lemma {:induction false} SlugFromWord(s: string, inRun: bool)
    requires forall i :: 0 <= i < |s| ==> !IsJsSpace(s[i])
    ensures SlugFrom(s, inRun) == Lower(s)
  {
    if s != [] {
      SlugFromWord(s[1..], false);
      assert Lower(s) == [LowerChar(s[0])] + Lower(s[1..]);
    }
  }

  lemma TagSlugOfWord(name: string)
    requires forall i :: 0 <= i < |name| ==> !IsJsSpace(name[i])
    ensures TagSlug(name) == Lower(name)
  {
    SlugFromWord(name, false);
  }

  /** Slugging a slug changes nothing. */
  lemma TagSlugIdempotent(name: string)
    ensures TagSlug(TagSlug(name)) == TagSlug(name)
  {
    var s := TagSlug(name);
    TagSlugClean(name);
    TagSlugOfWord(s);
    assert Lower(s) == s;
  }

  lemma SlugFromUnfold(s: string, inRun: bool)
    requires s != []
    ensures SlugFrom(s, inRun) == SlugHead(s[0], inRun) + SlugFrom(s[1..], IsJsSpace(s[0]))
  {
  }

  lemma SlugFromUnfoldAppend(a: string, t: string, inRun: bool)
    requires a != []
    ensures SlugFrom(a + t, inRun) == SlugHead(a[0], inRun) + SlugFrom(a[1..] + t, IsJsSpace(a[0]))
  {
    var u := a + t;
    assert u[0] == a[0] && u[1..] == a[1..] + t;
    SlugFromUnfold(u, inRun);
  }

  /** Slugging works piece by piece, the second piece picking up where the first ended. */
  lemma {:induction false} SlugFromAppend(a: string, t: string, inRun: bool)
    ensures SlugFrom(a + t, inRun) == SlugFrom(a, inRun) + SlugFrom(t, EndsInRun(a, inRun))
  {
    if a == [] {
      assert a + t == t;
    } else {
      var h, x, y := SlugHead(a[0], inRun), SlugFrom(a[1..], IsJsSpace(a[0])), SlugFrom(t, EndsInRun(a, inRun));
      SlugFromAppend(a[1..], t, IsJsSpace(a[0]));
      SlugFromUnfoldAppend(a, t, inRun);
      EndsInRunTail(a, inRun);
      assert h + (x + y) == (h + x) + y;
    }
  }

  lemma EndsInRunTail(a: string, inRun: bool)
    requires a != []
    ensures EndsInRun(a[1..], IsJsSpace(a[0])) == EndsInRun(a, inRun)
  {
    if |a| > 1 {
      assert a[1..][|a| - 2] == a[|a| - 1];
    }
  }

  /** A run of whitespace gives one "-", or nothing when it continues a run. */
  lemma {:induction false} SlugFromSpaces(spaces: string, inRun: bool)
    requires spaces != [] && forall i :: 0 <= i < |spaces| ==> IsJsSpace(spaces[i])
    ensures SlugFrom(spaces, inRun) == if inRun then [] else "-"
  {
    if |spaces| > 1 {
      SlugFromSpaces(spaces[1..], true);
    }
  }

  /** So a run of whitespace between two words becomes exactly one "-". */
  lemma TagSlugRun(a: string, spaces: string, b: string)
    requires a == [] || !IsJsSpace(a[|a| - 1])
    requires spaces != [] && forall i :: 0 <= i < |spaces| ==> IsJsSpace(spaces[i])
    requires b == [] || !IsJsSpace(b[0])
    ensures TagSlug(a + spaces + b) == TagSlug(a) + "-" + TagSlug(b)
  {
    SlugFromAppend(a + spaces, b, false);
    SlugFromAppend(a, spaces, false);
    SlugFromSpaces(spaces, false);
    assert EndsInRun(a + spaces, false) by {
      assert (a + spaces)[|a + spaces| - 1] == spaces[|spaces| - 1];
    }
    if b != [] {
      assert SlugFrom(b, true) == SlugFrom(b, false);
    }
  }
}
