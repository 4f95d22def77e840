/**
 * `checkCapabilities`: the fixed inventories of base phones and diacritics
 * the synthesizer claims to handle, and the report of every segment part
 * that lies outside them.
 */
module Phoneset {
  import opened Text
  import opened Parse

  /**
   * The constants the checker consults, as membership tests: the three
   * inventories (base phones, combining diacritics, and spacing modifier
   * letters that are accepted as bases) and the boundary pattern whose
   * segments it skips.
   */
  datatype Inventory = Inventory(
    bases: CodeUnit -> bool,
    diacritics: CodeUnit -> bool,
    spacing: CodeUnit -> bool,
    boundary: CodeUnit -> bool)

  /** `SUPPORTED_BASES.has`: the base phones handled, a core set of vowels and consonants. */
  predicate IsSupportedBase(c: CodeUnit)
  {
    c == 0x69 || c == 0x65 || c == 0x61 || c == 0x6F || c == 0x75 || c == 0x26A || c == 0x28A || c == 0x25B ||
    c == 0x254 || c == 0x259 || c == 0xE6 || c == 0x251 || c == 0x252 || c == 0x79 || c == 0xF8 || c == 0x153 ||
    c == 0x268 || c == 0x26F || c == 0x264 || c == 0x70 || c == 0x62 || c == 0x74 || c == 0x64 || c == 0x6B ||
    c == 0x67 || c == 0x6D || c == 0x6E || c == 0x14B || c == 0x66 || c == 0x76 || c == 0x73 || c == 0x7A ||
    c == 0x283 || c == 0x292 || c == 0x68 || c == 0x78 || c == 0xE7 || c == 0x29D || c == 0x6C || c == 0x72 ||
    c == 0x27E || c == 0x280 || c == 0x6A || c == 0x77 || c == 0x3B8 || c == 0xF0 || c == 0x288 || c == 0x256 ||
    c == 0x25F || c == 0x261 || c == 0x71 || c == 0x262 || c == 0x263 || c == 0x26C || c == 0x26E
  }

  /**
   * `SUPPORTED_DIACRITICS.has`: the diacritics handled. Several entries
   * (ʰ ʷ ʲ ˠ ˤ ˞) are spacing modifier letters, which the segmenter never
   * attaches, so they only ever matter as bases.
   */
  predicate IsSupportedDiacritic(c: CodeUnit)
  {
    c == 0x325 || c == 0x32C || c == 0x2B0 || c == 0x339 || c == 0x31C || c == 0x31F || c == 0x320 || c == 0x308 ||
    c == 0x33D || c == 0x329 || c == 0x32F || c == 0x2DE || c == 0x2B7 || c == 0x2B2 || c == 0x2E0 || c == 0x2E4 ||
    c == 0x334 || c == 0x31D || c == 0x31E || c == 0x318 || c == 0x319 || c == 0x32A || c == 0x33A || c == 0x33B ||
    c == 0x303 || c == 0x31A || c == 0x30A || c == 0x361 || c == 0x35C || c == 0x324 || c == 0x330 || c == 0x301 ||
    c == 0x300 || c == 0x304 || c == 0x30C || c == 0x302 || c == 0x30B || c == 0x30F
  }

  /**
   * `SPACING_MODIFIERS.has`: letters accepted as bases although they are not
   * phones: aspiration, secondary articulations, length, rhoticity and the
   * Chao tone letters.
   */
  predicate IsSpacingModifier(c: CodeUnit)
  {
    c == 0x2B0 || c == 0x2B7 || c == 0x2B2 || c == 0x2E0 || c == 0x2E4 || c == 0x2D0 || c == 0x2D1 || c == 0x2DE ||
    c == 0x2E5 || c == 0x2E6 || c == 0x2E7 || c == 0x2E8 || c == 0x2E9
  }

  /** The inventories of the source. */
  const Starter: Inventory := Inventory(IsSupportedBase, IsSupportedDiacritic, IsSpacingModifier, BoundaryTest)

  /** `BOUNDARY.test` on a one-unit string: white space or one of . , ' - | ‖ / [ ]. */
  predicate BoundaryTest(c: CodeUnit)
  {
    IsJsSpace(c) || c == 0x2E || c == 0x2C || c == 0x27 || c == 0x2D || c == 0x7C ||
    c == 0x2016 || c == 0x2F || c == 0x5B || c == 0x5D
  }

  datatype Kind = Base | Diacritic

  /** One unsupported part: the index of its segment, the unit itself, and which part it is. */
  datatype CapabilityItem = CapabilityItem(index: nat, symbol: CodeUnit, kind: Kind)

  datatype CapabilityReport = CapabilityReport(unsupported: seq<CapabilityItem>)

  predicate BaseSupported(inv: Inventory, c: CodeUnit)
  {
    inv.bases(c) || inv.spacing(c)
  }

  /** The base item of segment `i`, when its base is in neither inventory. */
  function BaseItems(inv: Inventory, i: nat, g: Segment): seq<CapabilityItem>
  {
    if BaseSupported(inv, g.base) then [] else [CapabilityItem(i, g.base, Base)]
  }

  /** The items for the first `n` diacritics of segment `i`: one per unsupported diacritic, in order. */
  function DiacriticItems(inv: Inventory, i: nat, ds: Str, n: nat): seq<CapabilityItem>
    requires n <= |ds|
  {
    if n == 0 then []
    else DiacriticItems(inv, i, ds, n - 1) +
         (if inv.diacritics(ds[n - 1]) then [] else [CapabilityItem(i, ds[n - 1], Diacritic)])
  }

  /** What segment `i` contributes: nothing for a boundary, otherwise its base item, then its diacritic items. */
  function SegmentItems(inv: Inventory, i: nat, g: Segment): seq<CapabilityItem>
  {
    if inv.boundary(g.base) then []
    else BaseItems(inv, i, g) + DiacriticItems(inv, i, g.diacritics, |g.diacritics|)
  }

  /** What each segment contributes, in segment order. */
  function Parts(inv: Inventory, segs: seq<Segment>): seq<seq<CapabilityItem>>
  {
    seq(|segs|, i requires 0 <= i < |segs| => SegmentItems(inv, i, segs[i]))
  }

  /** The items of the first `n` segments, segment by segment. */
  function Report(inv: Inventory, segs: seq<Segment>, n: nat): seq<CapabilityItem>
    requires n <= |segs|
  {
    Join(Parts(inv, segs), n)
  }

  /** The report `checkCapabilities` returns, against inventory `inv`. */
  function Capabilities(inv: Inventory, segs: seq<Segment>): CapabilityReport
  {
    CapabilityReport(Report(inv, segs, |segs|))
  }

  /** `checkCapabilities`: one pass over the segments, an inner pass over each segment's diacritics. */
  method CheckCapabilities(segments: seq<Segment>) returns (report: CapabilityReport)
    ensures report == Capabilities(Starter, segments)
  {
    var unsupported: seq<CapabilityItem> := [];
    for i := 0 to |segments|
      invariant unsupported == Report(Starter, segments, i)
    {
      unsupported := PushSegmentItems(i, segments[i], unsupported);
    }
    report := CapabilityReport(unsupported);
  }

  /** The `forEach` callback of `checkCapabilities` for segment `seg` at index `i`. */
  method PushSegmentItems(i: nat, seg: Segment, items: seq<CapabilityItem>) returns (out: seq<CapabilityItem>)
    ensures out == items + SegmentItems(Starter, i, seg)
  {
    out := items;
    if BoundaryTest(seg.base) {
      assert Starter.boundary(seg.base);
      return;
    }
    assert !Starter.boundary(seg.base);
    if !IsSupportedBase(seg.base) && !IsSpacingModifier(seg.base) {
      assert !BaseSupported(Starter, seg.base);
      out := out + [CapabilityItem(i, seg.base, Base)];
    } else {
      assert BaseSupported(Starter, seg.base);
    }
    ghost var withBase := out;
    assert withBase == items + BaseItems(Starter, i, seg);
    out := PushDiacriticItems(i, seg.diacritics, out);
    assert out == items + (BaseItems(Starter, i, seg) + DiacriticItems(Starter, i, seg.diacritics, |seg.diacritics|));
  }

  /** The inner loop of `checkCapabilities`: an item for each diacritic outside the inventory, in order. */
  method PushDiacriticItems(i: nat, diacritics: Str, items: seq<CapabilityItem>) returns (out: seq<CapabilityItem>)
    ensures out == items + DiacriticItems(Starter, i, diacritics, |diacritics|)
  {
    out := items;
    for j := 0 to |diacritics|
      invariant out == items + DiacriticItems(Starter, i, diacritics, j)
    {
      var d := diacritics[j];
      if !IsSupportedDiacritic(d) {
        out := out + [CapabilityItem(i, d, Diacritic)];
      }
    }
  }

  // ---- what is reported ----

  /** A diacritic item is reported exactly for an unsupported diacritic of the segment. */
  lemma {:induction false} DiacriticItemsIff(inv: Inventory, i: nat, ds: Str, n: nat, x: CapabilityItem)
    requires n <= |ds|
    ensures x in DiacriticItems(inv, i, ds, n) <==>
      x.index == i && x.kind == Diacritic && x.symbol in ds[..n] && !inv.diacritics(x.symbol)
  {
    if n > 0 {
      DiacriticItemsIff(inv, i, ds, n - 1, x);
      assert ds[..n] == ds[..n - 1] + [ds[n - 1]];
    }
  }

  /**
   * The parts of segment `g` that are reported: nothing for a boundary;
   * otherwise its base when the base is in neither the base nor the
   * spacing-modifier inventory, and each diacritic not in the diacritic
   * inventory.
   */
  predicate Unsupported(inv: Inventory, g: Segment, x: CapabilityItem)
  {
    !inv.boundary(g.base) &&
    ((x.kind == Base && x.symbol == g.base && !BaseSupported(inv, g.base)) ||
     (x.kind == Diacritic && x.symbol in g.diacritics && !inv.diacritics(x.symbol)))
  }

  /** Segment `i` contributes an item exactly for each of its unsupported parts. */
  lemma SegmentItemsIff(inv: Inventory, i: nat, g: Segment, x: CapabilityItem)
    ensures x in SegmentItems(inv, i, g) <==> x.index == i && Unsupported(inv, g, x)
  {
    DiacriticItemsIff(inv, i, g.diacritics, |g.diacritics|, x);
    assert g.diacritics[..|g.diacritics|] == g.diacritics;
  }

  /**
   * The report lists exactly the unsupported parts of the segments: every
   * item names one of the segments, and is an unsupported part of it.
   */
  lemma ReportIff(inv: Inventory, segs: seq<Segment>, n: nat, x: CapabilityItem)
    requires n <= |segs|
    ensures x in Report(inv, segs, n) <==> x.index < n && Unsupported(inv, segs[x.index], x)
  {
    var ps := Parts(inv, segs);
    JoinIn(ps, n, x);
    if x in Join(ps, n) {
      var k :| 0 <= k < n && x in ps[k];
      SegmentItemsIff(inv, k, segs[k], x);
    } else if x.index < n {
      SegmentItemsIff(inv, x.index, segs[x.index], x);
      assert ps[x.index] == SegmentItems(inv, x.index, segs[x.index]);
    }
  }

  /** Boundary segments are skipped: no item ever names one. */
  lemma BoundariesSilent(inv: Inventory, segs: seq<Segment>, x: CapabilityItem)
    requires x in Capabilities(inv, segs).unsupported
    ensures x.index < |segs| && !inv.boundary(segs[x.index].base)
  {
    ReportIff(inv, segs, |segs|, x);
  }

  /** ʔ is in neither base inventory; ː and ˥ are spacing modifiers. */
  lemma StarterMembership()
    ensures !BaseSupported(Starter, 0x294)
    ensures BaseSupported(Starter, 0x2D0) && BaseSupported(Starter, 0x2E5)
  {
  }

  /** ʔ, ː and ˥ as the whole input: the glottal stop is reported, the length mark and the tone letter are not. */
  lemma InventoryScenario()
    ensures Capabilities(Starter, [Segment(0x294, [])]) == CapabilityReport([CapabilityItem(0, 0x294, Base)])
    ensures Capabilities(Starter, [Segment(0x2D0, []), Segment(0x2E5, [])]) == CapabilityReport([])
  {
    StarterMembership();
    var one := [Segment(0x294, [])];
    var p1 := Parts(Starter, one);
    assert p1[0] == SegmentItems(Starter, 0, one[0]) == [CapabilityItem(0, 0x294, Base)];
    assert Join(p1, 1) == Join(p1, 0) + p1[0];
    var two := [Segment(0x2D0, []), Segment(0x2E5, [])];
    var p2 := Parts(Starter, two);
    assert p2[0] == SegmentItems(Starter, 0, two[0]) == [];
    assert p2[1] == SegmentItems(Starter, 1, two[1]) == [];
    assert Join(p2, 1) == Join(p2, 0) + p2[0] == [];
    assert Join(p2, 2) == Join(p2, 1) + p2[1] == [];
  }

  // ---- order and size ----

  /** Item indices never decrease along `items`. */
  predicate IndicesNondecreasing(items: seq<CapabilityItem>)
  {
    forall j, k :: 0 <= j < k < |items| ==> items[j].index <= items[k].index
  }

  /** Two items of the same segment: the later one is a diacritic item, so a base item comes first. */
  predicate BaseFirst(items: seq<CapabilityItem>)
  {
    forall j, k :: 0 <= j < k < |items| && items[j].index == items[k].index ==> items[k].kind == Diacritic
  }

  /** Every item of segment `i` names `i`, and only its first item can be its base item. */
  lemma SegmentItemsShape(inv: Inventory, i: nat, g: Segment)
    ensures OneSegment(SegmentItems(inv, i, g), i)
  {
    forall x | x in SegmentItems(inv, i, g) ensures x.index == i {
      SegmentItemsIff(inv, i, g, x);
    }
    var items := SegmentItems(inv, i, g);
    if !inv.boundary(g.base) {
      var b := BaseItems(inv, i, g);
      var ds := DiacriticItems(inv, i, g.diacritics, |g.diacritics|);
      forall k | 0 <= k < |ds| ensures ds[k].kind == Diacritic {
        DiacriticItemsIff(inv, i, g.diacritics, |g.diacritics|, ds[k]);
      }
      forall k | 0 < k < |items| ensures items[k].kind == Diacritic {
        assert items[k] == ds[k - |b|];
      }
    }
  }

  /** Every item names a segment before `m`. */
  predicate AllBefore(items: seq<CapabilityItem>, m: nat)
  {
    forall x :: x in items ==> x.index < m
  }

  /** Every item names segment `m`, and only the first can be a base item. */
  predicate OneSegment(items: seq<CapabilityItem>, m: nat)
  {
    (forall x :: x in items ==> x.index == m) &&
    (forall k :: 0 < k < |items| ==> items[k].kind == Diacritic)
  }

  /** Appending the items of a later segment keeps both orders. */
  lemma AppendSegmentOrdered(prior: seq<CapabilityItem>, here: seq<CapabilityItem>, m: nat)
    requires IndicesNondecreasing(prior) && BaseFirst(prior)
    requires AllBefore(prior, m) && OneSegment(here, m)
    ensures IndicesNondecreasing(prior + here) && BaseFirst(prior + here)
  {
    var r := prior + here;
    forall j, k | 0 <= j < k < |r|
      ensures r[j].index <= r[k].index && (r[j].index == r[k].index ==> r[k].kind == Diacritic)
    {
      if k >= |prior| {
        assert r[k] == here[k - |prior|] && here[k - |prior|] in here;
        if j < |prior| {
          assert r[j] == prior[j] && prior[j] in prior;
        } else {
          assert r[j] == here[j - |prior|] && here[j - |prior|] in here;
        }
      } else {
        assert r[j] == prior[j] && r[k] == prior[k];
      }
    }
  }

  /** Parts that each name their own position join into items in position order, base items first. */
  lemma {:induction false} JoinOrdered(ps: seq<seq<CapabilityItem>>, n: nat)
    requires n <= |ps|
    requires forall k :: 0 <= k < |ps| ==> OneSegment(ps[k], k)
    ensures IndicesNondecreasing(Join(ps, n)) && BaseFirst(Join(ps, n))
  {
    if n > 0 {
      JoinOrdered(ps, n - 1);
      var prior := Join(ps, n - 1);
      forall x | x in prior ensures x.index < n - 1 {
        JoinIn(ps, n - 1, x);
        var k :| 0 <= k < n - 1 && x in ps[k];
        assert OneSegment(ps[k], k);
      }
      assert OneSegment(ps[n - 1], n - 1);
      AppendSegmentOrdered(prior, ps[n - 1], n - 1);
    }
  }

  /** The sum of the first `n` bounds. */
  function Total(bs: seq<nat>, n: nat): nat
    requires n <= |bs|
  {
    if n == 0 then 0 else Total(bs, n - 1) + bs[n - 1]
  }

  /** Parts each within their bound join into no more items than the bounds' sum. */
  lemma {:induction false} JoinSize(ps: seq<seq<CapabilityItem>>, bs: seq<nat>, n: nat)
    requires n <= |ps| == |bs|
    requires forall k :: 0 <= k < |ps| ==> |ps[k]| <= bs[k]
    ensures |Join(ps, n)| <= Total(bs, n)
  {
    if n > 0 {
      JoinSize(ps, bs, n - 1);
      assert |ps[n - 1]| <= bs[n - 1];
    }
  }

  /** Every item names a segment before `n`. */
  lemma ReportIndicesBelow(inv: Inventory, segs: seq<Segment>, n: nat)
    requires n <= |segs|
    ensures AllBefore(Report(inv, segs, n), n)
  {
    forall x | x in Report(inv, segs, n) ensures x.index < n {
      ReportIff(inv, segs, n, x);
    }
  }

  /** Items come in segment order, and within a segment the base item (if any) precedes the diacritic items. */
  lemma ReportOrdered(inv: Inventory, segs: seq<Segment>, n: nat)
    requires n <= |segs|
    ensures IndicesNondecreasing(Report(inv, segs, n)) && BaseFirst(Report(inv, segs, n))
  {
    var ps := Parts(inv, segs);
    forall k | 0 <= k < |ps| ensures OneSegment(ps[k], k) {
      SegmentItemsShape(inv, k, segs[k]);
    }
    JoinOrdered(ps, n);
  }

  /** The most items segment `g` can contribute: none for a boundary, else one plus its number of diacritics. */
  function Allowance(inv: Inventory, g: Segment): nat
  {
    if inv.boundary(g.base) then 0 else 1 + |g.diacritics|
  }

  /** The most items the first `n` segments can contribute: the sum of their allowances. */
  function Budget(inv: Inventory, segs: seq<Segment>, n: nat): nat
    requires n <= |segs|
  {
    Total(seq(|segs|, i requires 0 <= i < |segs| => Allowance(inv, segs[i])), n)
  }

  lemma {:induction false} DiacriticItemsCount(inv: Inventory, i: nat, ds: Str, n: nat)
    requires n <= |ds|
    ensures |DiacriticItems(inv, i, ds, n)| <= n
  {
    if n > 0 {
      DiacriticItemsCount(inv, i, ds, n - 1);
    }
  }

  lemma SegmentItemsCount(inv: Inventory, i: nat, g: Segment)
    ensures |SegmentItems(inv, i, g)| <= Allowance(inv, g)
  {
    DiacriticItemsCount(inv, i, g.diacritics, |g.diacritics|);
  }

  /** The report is no longer than the budget; so no segments, or only boundaries, give an empty report. */
  lemma ReportSize(inv: Inventory, segs: seq<Segment>, n: nat)
    requires n <= |segs|
    ensures |Report(inv, segs, n)| <= Budget(inv, segs, n)
  {
    var ps := Parts(inv, segs);
    var bs := seq(|segs|, i requires 0 <= i < |segs| => Allowance(inv, segs[i]));
    forall k | 0 <= k < |ps| ensures |ps[k]| <= bs[k] {
      SegmentItemsCount(inv, k, segs[k]);
    }
    JoinSize(ps, bs, n);
  }
}
