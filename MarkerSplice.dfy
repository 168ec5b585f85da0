/**
 * The marker splice both UpdateHeaderFile and UpdateCppFile perform: find
 * the first start marker and the first end marker, keep the text up to and
 * including the start marker, put a freshly generated section after it,
 * write the end marker and a line break, and keep what followed the end
 * marker minus its first character.
 */
module MarkerSplice {
  import opened Strings

  /** The spliced text, or "" when either marker is missing. */
  function Splice(contents: string, sm: string, em: string, section: string): (r: string)
    requires |sm| > 0
    ensures r == [] <==> Find(contents, sm) < 0 || Find(contents, em) < 0
  {
    var s := Find(contents, sm);
    var e := Find(contents, em);
    if s < 0 || e < 0 then []
    else contents[..s + |sm|] + section + em + "\n" + RightChop(contents, e + |em| + 1)
  }

  /**
   * What a splice keeps: the input up to and including the first start
   * marker, in front; and everything after the first end marker except the
   * one character right after it, at the back, behind the end marker and a
   * "\n" that takes the dropped character's place.
   */
  lemma SpliceKeepsOutside(contents: string, sm: string, em: string, section: string)
    requires |sm| > 0
    requires Find(contents, sm) >= 0 && Find(contents, em) >= 0
    ensures StartsWith(Splice(contents, sm, em, section), contents[..Find(contents, sm) + |sm|])
    ensures EndsWith(Splice(contents, sm, em, section), em + "\n" + RightChop(contents, Find(contents, em) + |em| + 1))
  {
    SpliceFound(contents, sm, em, section);
    var head := contents[..Find(contents, sm) + |sm|];
    var back := em + "\n" + RightChop(contents, Find(contents, em) + |em| + 1);
    assert Splice(contents, sm, em, section) == head + section + back;
  }

  /**
   * The section between the first start marker and the first end marker,
   * when both are present in that order.
   */
  function Section(contents: string, sm: string, em: string): (r: Option<string>)
    ensures r.Some? <==> MarkersInOrder(contents, sm, em)
    ensures r.Some? ==> r.value == contents[Find(contents, sm) + |sm|..Find(contents, em)]
  {
    var s := Find(contents, sm);
    var e := Find(contents, em);
    if s < 0 || e < s + |sm| then None else Some(contents[s + |sm|..e])
  }

  /** The conditions under which a splice can be read back and repeated. */
  ghost predicate SpliceableSection(sm: string, em: string, section: string)
  {
    |sm| > 0 && |em| > 0 && '\n' !in em &&
    |section| > 0 && section[0] == '\n' && section[|section| - 1] == '\n' &&
    NoOccurrence(section, em)
  }

  /** The first end marker lies after the end of the first start marker. */
  predicate MarkersInOrder(contents: string, sm: string, em: string)
  {
    Find(contents, sm) >= 0 && Find(contents, em) >= Find(contents, sm) + |sm|
  }

  /** In a spliced text the start marker is found where it was. */
  lemma SplicedStartMarker(contents: string, sm: string, em: string, section: string)
    requires SpliceableSection(sm, em, section) && MarkersInOrder(contents, sm, em)
    ensures Find(Splice(contents, sm, em, section), sm) == Find(contents, sm)
  {
    SpliceFound(contents, sm, em, section);
    StartMarkerOfFound(contents, sm, em, section);
  }

  /** In a spliced text the end marker is found right after the new section. */
  lemma SplicedEndMarker(contents: string, sm: string, em: string, section: string)
    requires SpliceableSection(sm, em, section) && MarkersInOrder(contents, sm, em)
    ensures Find(Splice(contents, sm, em, section), em) == Find(contents, sm) + |sm| + |section|
  {
    SpliceFound(contents, sm, em, section);
    EndMarkerOfFound(contents, sm, em, section);
  }

  /** SplicedStartMarker, for the written-out splice. */
  lemma StartMarkerOfFound(contents: string, sm: string, em: string, section: string)
    requires SpliceableSection(sm, em, section) && MarkersInOrder(contents, sm, em)
    ensures var s, e := Find(contents, sm), Find(contents, em);
      Find(contents[..s + |sm|] + section + em + "\n" + RightChop(contents, e + |em| + 1), sm) == s
  {
    var s, e := Find(contents, sm), Find(contents, em);
    PrefixKeepsFirst(contents, sm, s, contents[..s + |sm|]);
    FirstInFront(contents[..s + |sm|], section, em, RightChop(contents, e + |em| + 1), sm, s);
  }

  /** SplicedEndMarker, for the written-out splice. */
  lemma EndMarkerOfFound(contents: string, sm: string, em: string, section: string)
    requires SpliceableSection(sm, em, section) && MarkersInOrder(contents, sm, em)
    ensures var s, e := Find(contents, sm), Find(contents, em);
      Find(contents[..s + |sm|] + section + em + "\n" + RightChop(contents, e + |em| + 1), em) == s + |sm| + |section|
  {
    var s, e := Find(contents, sm), Find(contents, em);
    PrefixBeforeFirst(contents, em, s + |sm|);
    EndMarkerAfterSection(contents[..s + |sm|], section, em, RightChop(contents, e + |em| + 1));
  }

  /** The text up to the end of the first occurrence of `pat` has that occurrence as its first. */
  lemma PrefixKeepsFirst(contents: string, pat: string, i: int, head: string)
    requires i == Find(contents, pat) && i >= 0 && head == contents[..i + |pat|]
    ensures OccursAt(head, pat, i)
    ensures forall j :: 0 <= j < i ==> !OccursAt(head, pat, j)
  {
    FindIsFirstOccurrence(contents, pat);
    SliceOfPrefix(contents, i + |pat|, i, i + |pat|);
    forall j | 0 <= j < i ensures !OccursAt(head, pat, j) {
      SliceOfPrefix(contents, i + |pat|, j, j + |pat|);
      assert !OccursAt(contents, pat, j);
    }
  }

  /** A prefix that stops before the first occurrence of `pat` does not contain `pat`. */
  lemma PrefixBeforeFirst(contents: string, pat: string, n: int)
    requires |pat| > 0 && 0 <= n <= Find(contents, pat)
    ensures NoOccurrence(contents[..n], pat)
  {
    var head := contents[..n];
    FindIsFirstOccurrence(contents, pat);
    forall j ensures !OccursAt(head, pat, j) {
      if 0 <= j && j + |pat| <= n {
        SliceOfPrefix(contents, n, j, j + |pat|);
        assert !OccursAt(contents, pat, j);
      }
    }
  }

  /** The first occurrence of `pat` inside `head` stays the first once the rest of a splice follows. */
  lemma FirstInFront(head: string, section: string, em: string, tail: string, pat: string, i: int)
    requires OccursAt(head, pat, i)
    requires forall j :: 0 <= j < i ==> !OccursAt(head, pat, j)
    ensures Find(head + section + em + "\n" + tail, pat) == i
  {
    var r := head + section + em + "\n" + tail;
    assert r[i..i + |pat|] == head[i..i + |pat|];
    forall j | 0 <= j < i ensures !OccursAt(r, pat, j) {
      assert r[j..j + |pat|] == head[j..j + |pat|];
      assert !OccursAt(head, pat, j);
    }
    FindIsFirst(r, pat, i);
  }

  /**
   * Behind a text free of `em`, a section that starts and ends with a line
   * break and is free of `em`, the first `em` is the one right after the section.
   */
  lemma EndMarkerAfterSection(head: string, section: string, em: string, tail: string)
    requires |em| > 0 && '\n' !in em && NoOccurrence(head, em) && NoOccurrence(section, em)
    requires |section| > 0 && section[0] == '\n' && section[|section| - 1] == '\n'
    ensures Find(head + section + em + "\n" + tail, em) == |head| + |section|
  {
    var r := head + section + em + "\n" + tail;
    var q := |head| + |section|;
    assert r[q..q + |em|] == em;
    forall j | 0 <= j < q ensures !OccursAt(r, em, j) {
      NoEarlyEndMarker(head, section, em, tail, j);
    }
    FindIsFirst(r, em, q);
  }

  /** The case analysis behind EndMarkerAfterSection, for one candidate index `j`. */
  lemma NoEarlyEndMarker(head: string, section: string, em: string, tail: string, j: int)
    requires |em| > 0 && '\n' !in em && NoOccurrence(head, em) && NoOccurrence(section, em)
    requires |section| > 0 && section[0] == '\n' && section[|section| - 1] == '\n'
    requires 0 <= j < |head| + |section|
    ensures !OccursAt(head + section + em + "\n" + tail, em, j)
  {
    var r := head + section + em + "\n" + tail;
    var p := |head|;
    var q := p + |section|;
    if j + |em| <= p {
      assert r[j..j + |em|] == head[j..j + |em|];
      assert !OccursAt(head, em, j);
    } else if j <= p {
      assert r[j..j + |em|][p - j] == r[p] == section[0];
    } else if j + |em| <= q {
      assert r[j..j + |em|] == section[j - p..j - p + |em|];
      assert !OccursAt(section, em, j - p);
    } else {
      assert r[j..j + |em|][q - 1 - j] == r[q - 1] == section[|section| - 1];
    }
  }

  /** The pieces of a spliced text, read back by position. */
  lemma SplicePieces(head: string, section: string, em: string, tail: string)
    ensures var r := head + section + em + "\n" + tail;
      r[..|head|] == head &&
      r[|head|..|head| + |section|] == section &&
      RightChop(r, |head| + |section| + |em| + 1) == tail
  {
  }

  /** Reading the section back from a spliced text gives the section written. */
  lemma SpliceThenSection(contents: string, sm: string, em: string, section: string)
    requires SpliceableSection(sm, em, section) && MarkersInOrder(contents, sm, em)
    ensures Section(Splice(contents, sm, em, section), sm, em) == Some(section)
  {
    SpliceFound(contents, sm, em, section);
    SectionOfFound(contents, sm, em, section);
  }

  /** SpliceThenSection, for the written-out splice. */
  lemma SectionOfFound(contents: string, sm: string, em: string, section: string)
    requires SpliceableSection(sm, em, section) && MarkersInOrder(contents, sm, em)
    ensures var s, e := Find(contents, sm), Find(contents, em);
      Section(contents[..s + |sm|] + section + em + "\n" + RightChop(contents, e + |em| + 1), sm, em) == Some(section)
  {
    var s, e := Find(contents, sm), Find(contents, em);
    StartMarkerOfFound(contents, sm, em, section);
    EndMarkerOfFound(contents, sm, em, section);
    SplicePieces(contents[..s + |sm|], section, em, RightChop(contents, e + |em| + 1));
  }

  /** A splice where both markers are found, written out. */
  lemma SpliceFound(contents: string, sm: string, em: string, section: string)
    requires |sm| > 0 && Find(contents, sm) >= 0 && Find(contents, em) >= 0
    ensures Splice(contents, sm, em, section) ==
      contents[..Find(contents, sm) + |sm|] + section + em + "\n" + RightChop(contents, Find(contents, em) + |em| + 1)
  {
  }

  /**
   * A splice built the way the generator builds it: the kept head, a line
   * break, the banner, a line break, the generated body, the end marker, a
   * line break and the kept tail.
   */
  lemma SpliceOfPieces(contents: string, sm: string, em: string, banner: string, body: string, s: int, e: int, result: string)
    requires |sm| > 0 && s == Find(contents, sm) && e == Find(contents, em) && s >= 0 && e >= 0
    requires result == contents[..s + |sm|] + "\n" + banner + "\n" + body + em + "\n" + RightChop(contents, e + |em| + 1)
    ensures result == Splice(contents, sm, em, "\n" + banner + "\n" + body)
  {
    var head, section := contents[..s + |sm|], "\n" + banner + "\n" + body;
    assert head + "\n" + banner + "\n" + body == head + section;
    SpliceFound(contents, sm, em, section);
  }

  /** Splicing the same section a second time changes nothing. */
  lemma SpliceIdempotent(contents: string, sm: string, em: string, section: string)
    requires SpliceableSection(sm, em, section) && MarkersInOrder(contents, sm, em)
    ensures var r := Splice(contents, sm, em, section);
      Splice(r, sm, em, section) == r
  {
    SpliceReplacesSection(contents, sm, em, section, section);
  }

  /**
   * Splicing a second section over a spliced text gives what splicing the
   * second section into the original text gives: the first one is gone.
   */
  lemma SpliceReplacesSection(contents: string, sm: string, em: string, section: string, section2: string)
    requires SpliceableSection(sm, em, section) && MarkersInOrder(contents, sm, em)
    ensures Splice(Splice(contents, sm, em, section), sm, em, section2) == Splice(contents, sm, em, section2)
  {
    var head, tail := SplicedParts(contents, sm, em, section);
    SpliceFound(contents, sm, em, section2);
    SpliceOfAssembled(head, section, em, tail, sm, section2);
  }

  /**
   * The kept head and tail of a splice, with the markers of the spliced
   * text found at the seams.
   */
  lemma SplicedParts(contents: string, sm: string, em: string, section: string) returns (head: string, tail: string)
    requires SpliceableSection(sm, em, section) && MarkersInOrder(contents, sm, em)
    ensures head == contents[..Find(contents, sm) + |sm|]
    ensures tail == RightChop(contents, Find(contents, em) + |em| + 1)
    ensures Splice(contents, sm, em, section) == head + section + em + "\n" + tail
    ensures |head| >= |sm|
    ensures Find(head + section + em + "\n" + tail, sm) == |head| - |sm|
    ensures Find(head + section + em + "\n" + tail, em) == |head| + |section|
  {
    head := contents[..Find(contents, sm) + |sm|];
    tail := RightChop(contents, Find(contents, em) + |em| + 1);
    SpliceFound(contents, sm, em, section);
    StartMarkerOfFound(contents, sm, em, section);
    EndMarkerOfFound(contents, sm, em, section);
  }

  /**
   * A text assembled as a splice, whose markers are found at the seams,
   * gets exactly its section replaced by a second splice.
   */
  lemma SpliceOfAssembled(head: string, section: string, em: string, tail: string, sm: string, section2: string)
    requires |sm| > 0 && |head| >= |sm|
    requires Find(head + section + em + "\n" + tail, sm) == |head| - |sm|
    requires Find(head + section + em + "\n" + tail, em) == |head| + |section|
    ensures Splice(head + section + em + "\n" + tail, sm, em, section2) == head + section2 + em + "\n" + tail
  {
    var r := head + section + em + "\n" + tail;
    var s, e := Find(r, sm), Find(r, em);
    SplicePieces(head, section, em, tail);
    assert s + |sm| == |head| && e + |em| + 1 == |head| + |section| + |em| + 1;
    assert r[..s + |sm|] == head;
    SpliceFound(r, sm, em, section2);
  }
}
