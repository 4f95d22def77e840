/**
 * `segmentIPA`: splitting a normalized IPA string into phonetic segments,
 * each a base code unit followed by the combining marks attached to it.
 */
module Parse {
  import opened Text

  /** A phonetic segment: a base unit and the combining marks that follow it. */
  datatype Segment = Segment(base: CodeUnit, diacritics: Str)

  /** Space, the safe punctuation of the validator, slash and square brackets. */
  predicate IsBoundary(c: CodeUnit)
  {
    c == 0x20 || c == 0x2E || c == 0x2C || c == 0x27 || c == 0x2D ||
    c == 0x7C || c == 0x2016 || c == 0x2F || c == 0x5B || c == 0x5D
  }

  /**
   * Whether the segmenter holds a current segment after producing `segs`:
   * it does exactly when the last segment produced is not a boundary.
   */
  predicate HasCurrent(segs: seq<Segment>)
  {
    segs != [] && !IsBoundary(segs[|segs| - 1].base)
  }

  /** The segmenter's treatment of one more unit `c`. */
  function Step(u: Unicode, segs: seq<Segment>, c: CodeUnit): seq<Segment>
  {
    if IsBoundary(c) || !HasCurrent(segs) || !u.isMark(c) then segs + [Segment(c, [])]
    else
      var last := segs[|segs| - 1];
      segs[..|segs| - 1] + [Segment(last.base, last.diacritics + [c])]
  }

  /** The segments of a normalized string, unit by unit from the left. */
  function Segments(u: Unicode, s: Str): seq<Segment>
  {
    if s == [] then [] else Step(u, Segments(u, s[..|s| - 1]), s[|s| - 1])
  }

  /** The units a segment stands for: its base, then its diacritics. */
  function Units(g: Segment): Str
  {
    [g.base] + g.diacritics
  }

  /** The units of a list of segments, in order. */
  function Flatten(segs: seq<Segment>): Str
  {
    if segs == [] then [] else Flatten(segs[..|segs| - 1]) + Units(segs[|segs| - 1])
  }

  /**
   * `segmentIPA` on the NFD form of `raw`. The source mutates the segment it
   * last pushed through a second reference (`current`); here `current` is a
   * copy of the last segment and the attach step writes it back.
   */
  method SegmentIPA(u: Unicode, raw: Str) returns (out: seq<Segment>)
    ensures out == Segments(u, u.nfd(raw))
    ensures Flatten(out) == u.nfd(raw)
  {
    var nfd := u.nfd(raw);
    out := [];
    var current: Option<Segment> := None;
    for i := 0 to |nfd|
      invariant out == Segments(u, nfd[..i])
      invariant current == if HasCurrent(out) then Some(out[|out| - 1]) else None
    {
      var ch := nfd[i];
      assert nfd[..i + 1][..i] == nfd[..i];
      if IsBoundary(ch) {
        current := None;
        out := out + [Segment(ch, [])];
        continue;
      }
      if current.None? || !u.isMark(ch) {
        current := Some(Segment(ch, []));
        out := out + [current.value];
      } else {
        current := Some(Segment(current.value.base, current.value.diacritics + [ch]));
        out := out[..|out| - 1] + [current.value];
      }
    }
    assert nfd[..|nfd|] == nfd;
    Reconstruction(u, nfd);
  }

  // ---- reconstruction ----

  lemma FlattenAppend(segs: seq<Segment>, g: Segment)
    ensures Flatten(segs + [g]) == Flatten(segs) + Units(g)
  {
    assert (segs + [g])[..|segs|] == segs;
  }

  /** Each step adds exactly the unit it was given to the flattened segments. */
  lemma StepFlatten(u: Unicode, segs: seq<Segment>, c: CodeUnit)
    ensures Flatten(Step(u, segs, c)) == Flatten(segs) + [c]
  {
    if IsBoundary(c) || !HasCurrent(segs) || !u.isMark(c) {
      FlattenAppend(segs, Segment(c, []));
    } else {
      var init := segs[..|segs| - 1];
      var last := segs[|segs| - 1];
      var g := Segment(last.base, last.diacritics + [c]);
      FlattenAppend(init, g);
      assert segs == init + [last];
      FlattenAppend(init, last);
    }
  }

  /** Segmentation loses and reorders nothing: the segments spell out the string. */
  lemma {:induction false} Reconstruction(u: Unicode, s: Str)
    ensures Flatten(Segments(u, s)) == s
  {
    if s != [] {
      var t := s[..|s| - 1];
      Reconstruction(u, t);
      StepFlatten(u, Segments(u, t), s[|s| - 1]);
      assert t + [s[|s| - 1]] == s;
    }
  }

  // ---- the shape of every segment ----

  /**
   * What the segmenter guarantees of every list it builds: a boundary stands
   * alone; every diacritic is a combining mark and not a boundary; and a
   * segment whose base is a combining mark (other than a boundary) opens the list or follows a
   * boundary (everywhere else the mark would have attached).
   */
  predicate WellFormed(u: Unicode, segs: seq<Segment>)
  {
    (forall k :: 0 <= k < |segs| && IsBoundary(segs[k].base) ==> segs[k].diacritics == []) &&
    (forall k, j :: 0 <= k < |segs| && 0 <= j < |segs[k].diacritics| ==>
       u.isMark(segs[k].diacritics[j]) && !IsBoundary(segs[k].diacritics[j])) &&
    (forall k :: 0 < k < |segs| && u.isMark(segs[k].base) && !IsBoundary(segs[k].base) ==>
       IsBoundary(segs[k - 1].base))
  }

  lemma StepWellFormed(u: Unicode, segs: seq<Segment>, c: CodeUnit)
    requires WellFormed(u, segs)
    ensures WellFormed(u, Step(u, segs, c))
  {
    var r := Step(u, segs, c);
    if IsBoundary(c) || !HasCurrent(segs) || !u.isMark(c) {
      assert forall k :: 0 <= k < |segs| ==> r[k] == segs[k];
    } else {
      var n := |segs| - 1;
      assert forall k :: 0 <= k < n ==> r[k] == segs[k];
      assert r[n].base == segs[n].base;
      assert r[n].diacritics == segs[n].diacritics + [c];
    }
  }

  /** Every segmentation is well formed. */
  lemma {:induction false} SegmentsWellFormed(u: Unicode, s: Str)
    ensures WellFormed(u, Segments(u, s))
  {
    if s != [] {
      SegmentsWellFormed(u, s[..|s| - 1]);
      StepWellFormed(u, Segments(u, s[..|s| - 1]), s[|s| - 1]);
    }
  }

  /**
   * No more segments than units, and at least one segment for a non-empty
   * string.
   */
  lemma {:induction false} SegmentCount(u: Unicode, s: Str)
    ensures |Segments(u, s)| <= |s|
    ensures s != [] <==> Segments(u, s) != []
  {
    if s != [] {
      SegmentCount(u, s[..|s| - 1]);
    }
  }

  // ---- scenarios ----

  /** A boundary, a unit that is not a mark, or a mark with no segment to join opens a new segment. */
  lemma {:induction false} SegmentsOpen(u: Unicode, s: Str, c: CodeUnit, segs: seq<Segment>)
    requires Segments(u, s) == segs
    requires IsBoundary(c) || !HasCurrent(segs) || !u.isMark(c)
    ensures Segments(u, s + [c]) == segs + [Segment(c, [])]
  {
    assert (s + [c])[..|s|] == s;
  }

  /** A combining mark after a segment that is not a boundary attaches to it. */
  lemma {:induction false} SegmentsAttach(u: Unicode, s: Str, c: CodeUnit, init: seq<Segment>, g: Segment)
    requires Segments(u, s) == init + [g]
    requires !IsBoundary(g.base) && !IsBoundary(c) && u.isMark(c)
    ensures Segments(u, s + [c]) == init + [Segment(g.base, g.diacritics + [c])]
  {
    assert (s + [c])[..|s|] == s;
    assert (init + [g])[..|init|] == init;
  }

  /**
   * "pʰã": the aspiration letter ʰ is a spacing modifier, not a combining
   * mark, so it becomes a segment of its own; only the tilde of the
   * decomposed ã attaches.
   */
  lemma AspirationIsItsOwnSegment(u: Unicode)
    requires !u.isMark(0x70) && !u.isMark(0x2B0) && !u.isMark(0x61) && u.isMark(0x303)
    ensures Segments(u, [0x70, 0x2B0, 0x61, 0x303]) ==
      [Segment(0x70, []), Segment(0x2B0, []), Segment(0x61, [0x303])]
  {
    var s0: Str := [];
    SegmentsOpen(u, s0, 0x70, []);
    var s1 := s0 + [0x70];
    SegmentsOpen(u, s1, 0x2B0, [Segment(0x70, [])]);
    var s2 := s1 + [0x2B0];
    SegmentsOpen(u, s2, 0x61, [Segment(0x70, []), Segment(0x2B0, [])]);
    var s3 := s2 + [0x61];
    SegmentsAttach(u, s3, 0x303, [Segment(0x70, []), Segment(0x2B0, [])], Segment(0x61, []));
    assert [] + [0x303] == [0x303];
    assert [Segment(0x70, []), Segment(0x2B0, [])] + [Segment(0x61, [0x303])] ==
      [Segment(0x70, []), Segment(0x2B0, []), Segment(0x61, [0x303])];
    assert s3 + [0x303] == [0x70, 0x2B0, 0x61, 0x303];
  }

  /**
   * "t͡ʃ": the tie bar attaches to t, but ʃ is a letter and opens a second
   * segment.
   */
  lemma TieBarSplitsAffricate(u: Unicode, s: Str)
    requires s == [0x74, 0x361, 0x283]
    requires !u.isMark(0x74) && u.isMark(0x361) && !u.isMark(0x283)
    ensures Segments(u, s) == [Segment(0x74, [0x361]), Segment(0x283, [])]
  {
    var s0: Str := [];
    var s1 := s0 + [0x74];
    var s2 := s1 + [0x361];
    var g1 := Segment(0x74, []);
    var g2 := Segment(0x74, [0x361]);
    assert Segments(u, s1) == [] + [g1] by {
      SegmentsOpen(u, s0, 0x74, []);
    }
    assert Segments(u, s2) == [g2] by {
      SegmentsAttach(u, s1, 0x361, [], g1);
      assert g1.diacritics + [0x361] == [0x361];
      assert [] + [g2] == [g2];
    }
    assert Segments(u, s2 + [0x283]) == [g2, Segment(0x283, [])] by {
      SegmentsOpen(u, s2, 0x283, [g2]);
      assert [g2] + [Segment(0x283, [])] == [g2, Segment(0x283, [])];
    }
    assert s2 + [0x283] == [0x74, 0x361, 0x283];
  }

  /** "p a": the space is a bare segment and the segment after it starts afresh. */
  lemma SpaceSeparates(u: Unicode)
    requires !u.isMark(0x70) && !u.isMark(0x61)
    ensures Segments(u, [0x70, 0x20, 0x61]) == [Segment(0x70, []), Segment(0x20, []), Segment(0x61, [])]
  {
    var s0: Str := [];
    SegmentsOpen(u, s0, 0x70, []);
    var s1 := s0 + [0x70];
    SegmentsOpen(u, s1, 0x20, [Segment(0x70, [])]);
    var s2 := s1 + [0x20];
    SegmentsOpen(u, s2, 0x61, [Segment(0x70, []), Segment(0x20, [])]);
    assert s2 + [0x61] == [0x70, 0x20, 0x61];
  }

  /** A combining mark after a boundary does not attach across it: it opens a segment of its own. */
  lemma MarkAfterSpaceStandsAlone(u: Unicode)
    requires !u.isMark(0x61) && u.isMark(0x303)
    ensures Segments(u, [0x61, 0x20, 0x303]) == [Segment(0x61, []), Segment(0x20, []), Segment(0x303, [])]
  {
    var s0: Str := [];
    SegmentsOpen(u, s0, 0x61, []);
    var s1 := s0 + [0x61];
    SegmentsOpen(u, s1, 0x20, [Segment(0x61, [])]);
    var s2 := s1 + [0x20];
    SegmentsOpen(u, s2, 0x303, [Segment(0x61, []), Segment(0x20, [])]);
    assert s2 + [0x303] == [0x61, 0x20, 0x303];
  }
}
