/**
 * The fixed taxonomy of notehead, key-signature and accidental categories,
 * and the filter that keeps the detections whose category belongs to it.
 */
module Taxonomy {
  import opened Detections

  /** The 14 category names that count as noteheads and accidentals. */
  const NoteheadsAndAccidentals: set<string> := {
    "noteheadBlackInSpace", "noteheadBlackOnLine", "noteheadWhiteInSpace",
    "noteheadWhiteOnLine", "noteheadHalfInSpace", "noteheadHalfOnLine",
    "keyFlat", "keySharp", "keyNatural", "accidentalFlat", "accidentalSharp",
    "accidentalNatural", "accidentalDoubleSharp", "accidentalDoubleFlat"
  }

  /** The detections of `s` whose category name is a member of `taxonomy`,
      in their original order. Written from the end of the list so that the
      kept positions of a prefix do not move when an element is appended. */
  function Filter(s: seq<Detection>, taxonomy: set<string>): (r: seq<Detection>)
    ensures |r| <= |s|
    ensures forall i :: 0 <= i < |r| ==> r[i].category in taxonomy
    ensures forall i :: 0 <= i < |r| ==> r[i] in s
  {
    if s == [] then []
    else
      var d := s[|s| - 1];
      var r := Filter(s[..|s| - 1], taxonomy);
      r + (if d.category in taxonomy then [d] else [])
  }

  /** The positions of `s` that the filter keeps, in increasing order. */
  ghost function KeptPositions(s: seq<Detection>, taxonomy: set<string>): seq<nat>
  {
    if s == [] then []
    else
      var ks := KeptPositions(s[..|s| - 1], taxonomy);
      ks + (if s[|s| - 1].category in taxonomy then [|s| - 1] else [])
  }

  /** `r` is the subsequence of `s` at the strictly increasing positions `ks`. */
  ghost predicate SubsequenceAt<T>(r: seq<T>, s: seq<T>, ks: seq<nat>)
  {
    && |ks| == |r|
    && (forall k :: 0 <= k < |ks| ==> ks[k] < |s| && r[k] == s[ks[k]])
    && (forall k, l :: 0 <= k < l < |ks| ==> ks[k] < ks[l])
  }

  /** The filtered list is a subsequence of its input, taken at exactly the
      positions whose category is in the taxonomy: relative order is kept,
      no element is introduced, and no relevant element is dropped. */
  lemma {:induction false} FilterIsSubsequence(s: seq<Detection>, taxonomy: set<string>)
    ensures SubsequenceAt(Filter(s, taxonomy), s, KeptPositions(s, taxonomy))
    ensures forall i :: 0 <= i < |s| ==>
              (i in KeptPositions(s, taxonomy) <==> s[i].category in taxonomy)
  {
    if s != [] {
      var p := s[..|s| - 1];
      FilterIsSubsequence(p, taxonomy);
      var ks := KeptPositions(p, taxonomy);
      forall k | 0 <= k < |ks|
        ensures ks[k] < |p|
      {
      }
    }
  }

  /** Exact-membership multiplicities: every detection whose category is in
      the taxonomy survives as often as it occurs, every other one vanishes. */
  lemma {:induction false} FilterMultiset(s: seq<Detection>, taxonomy: set<string>, d: Detection)
    ensures multiset(Filter(s, taxonomy))[d] ==
              if d.category in taxonomy then multiset(s)[d] else 0
  {
    if s != [] {
      var p := s[..|s| - 1];
      FilterMultiset(p, taxonomy, d);
      assert s == p + [s[|s| - 1]];
    }
  }

  /** A list whose categories all belong to the taxonomy passes unchanged. */
  lemma {:induction false} FilterKeepsRelevant(s: seq<Detection>, taxonomy: set<string>)
    requires forall i :: 0 <= i < |s| ==> s[i].category in taxonomy
    ensures Filter(s, taxonomy) == s
  {
    if s != [] {
      var p := s[..|s| - 1];
      FilterKeepsRelevant(p, taxonomy);
      assert s == p + [s[|s| - 1]];
    }
  }

  /** A list with no category in the taxonomy filters to nothing. */
  lemma {:induction false} FilterDropsIrrelevant(s: seq<Detection>, taxonomy: set<string>)
    requires forall i :: 0 <= i < |s| ==> s[i].category !in taxonomy
    ensures Filter(s, taxonomy) == []
  {
    if s != [] {
      FilterDropsIrrelevant(s[..|s| - 1], taxonomy);
    }
  }

  /** Filtering twice gives the same list as filtering once. */
  lemma FilterIdempotent(s: seq<Detection>, taxonomy: set<string>)
    ensures Filter(Filter(s, taxonomy), taxonomy) == Filter(s, taxonomy)
  {
    FilterKeepsRelevant(Filter(s, taxonomy), taxonomy);
  }

  /** Filtering a concatenation filters each part. */
  lemma {:induction false} FilterAppend(a: seq<Detection>, b: seq<Detection>, taxonomy: set<string>)
    ensures Filter(a + b, taxonomy) == Filter(a, taxonomy) + Filter(b, taxonomy)
    decreases |b|
  {
    if b == [] {
      assert a + b == a;
    } else {
      var b' := b[..|b| - 1];
      assert (a + b)[..|a + b| - 1] == a + b';
      FilterAppend(a, b', taxonomy);
    }
  }

  /** Per category, the filtered count is the full count for a taxonomy
      member and zero for any other category. */
  lemma {:induction false} FilterCount(s: seq<Detection>, taxonomy: set<string>, c: string)
    ensures Count(Filter(s, taxonomy), c) == if c in taxonomy then Count(s, c) else 0
  {
    if s != [] {
      var p := s[..|s| - 1];
      var d := s[|s| - 1];
      FilterCount(p, taxonomy, c);
      CountAppend(Filter(p, taxonomy), if d.category in taxonomy then [d] else [], c);
      assert [d][..0] == [];
    }
  }

  /** The categories left after filtering are the categories of the input
      that belong to the taxonomy. */
  lemma FilterCategories(s: seq<Detection>, taxonomy: set<string>)
    ensures Categories(Filter(s, taxonomy)) == Categories(s) * taxonomy
  {
    forall c
      ensures c in Categories(Filter(s, taxonomy)) <==> c in Categories(s) * taxonomy
    {
      FilterCount(s, taxonomy, c);
    }
  }

  /** The taxonomy has exactly 14 distinct names. */
  lemma TaxonomySize()
    ensures |NoteheadsAndAccidentals| == 14
  {
  }

  /** Membership is exact string equality: a lower-cased variant of a
      taxonomy name is not a member and is filtered out. */
  lemma CaseVariantExcluded(d: Detection)
    requires d.category == "noteheadblackinspace"
    ensures d.category !in NoteheadsAndAccidentals
    ensures Filter([d], NoteheadsAndAccidentals) == []
  {
  }

  /** A single black notehead in a space passes the filter unchanged. */
  lemma SingleNoteheadKept(d: Detection)
    requires d.category == "noteheadBlackInSpace"
    ensures Filter([d], NoteheadsAndAccidentals) == [d]
  {
  }
}
