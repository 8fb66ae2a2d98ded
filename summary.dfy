/**
 * The per-category summaries (`Counter` over category names) and the
 * console report that lists them one `(category, count)` line at a time in
 * ascending category order (`for cat, count in sorted(counter.items())`).
 */
module Summary {
  import opened Detections
  import opened StringOrder
  import opened Taxonomy

  /** One report line: a category name and its count. */
  type Line = (string, nat)

  /** `Counter(pred.category.name for pred in s)`: one entry per distinct
      category present, built by counting the list element by element. */
  function Summarize(s: seq<Detection>): (counts: map<string, nat>)
    ensures counts.Keys == Categories(s)
    ensures forall c :: c in counts ==> counts[c] == Count(s, c)
  {
    if s == [] then map[]
    else
      var c := s[|s| - 1].category;
      var counts := Summarize(s[..|s| - 1]);
      CategoriesOfPrefix(s);
      counts[c := (if c in counts then counts[c] else 0) + 1]
  }

  /** The category column of a report. */
  function KeysOf(lines: seq<Line>): (ks: seq<string>)
    ensures |ks| == |lines|
    ensures forall i :: 0 <= i < |lines| ==> ks[i] == lines[i].0
  {
    seq(|lines|, i requires 0 <= i < |lines| => lines[i].0)
  }

  /** `lines` is `sorted(counts.items())`: every entry of `counts` exactly
      once, as `(category, count)`, in strictly ascending category order. */
  ghost predicate IsSortedItems(lines: seq<Line>, counts: map<string, nat>)
  {
    && StrictlyIncreasing(KeysOf(lines))
    && Elements(KeysOf(lines)) == counts.Keys
    && (forall i :: 0 <= i < |lines| ==> lines[i].0 in counts && lines[i].1 == counts[lines[i].0])
  }

  /** What the report loop keeps: the lines so far are the sorted items of
      the categories already emitted, each below every category still to go. */
  ghost predicate ReportSoFar(lines: seq<Line>, remaining: set<string>, counts: map<string, nat>)
  {
    && remaining <= counts.Keys
    && StrictlyIncreasing(KeysOf(lines))
    && Elements(KeysOf(lines)) == counts.Keys - remaining
    && (forall i :: 0 <= i < |lines| ==> lines[i].0 in counts && lines[i].1 == counts[lines[i].0])
    && (forall i, c :: 0 <= i < |lines| && c in remaining ==> Less(lines[i].0, c))
  }

  /** Emitting the least remaining category keeps `ReportSoFar`. */
  lemma ReportStep(lines: seq<Line>, remaining: set<string>, counts: map<string, nat>, k: string)
    requires ReportSoFar(lines, remaining, counts)
    requires IsLeast(k, remaining)
    ensures ReportSoFar(lines + [(k, counts[k])], remaining - {k}, counts)
  {
    var next := lines + [(k, counts[k])];
    assert KeysOf(next) == KeysOf(lines) + [k];
    IncreasingSnoc(KeysOf(lines), k);
    ElementsSnoc(KeysOf(lines), k);
    forall i, c | 0 <= i < |next| && c in remaining - {k}
      ensures Less(next[i].0, c)
    {
      if i < |lines| {
        LessTransitive(lines[i].0, k, c);
      }
    }
  }

  /** The report loop: emits the items of `counts` in ascending category
      order, each time taking the least category not yet emitted. */
  method Report(counts: map<string, nat>) returns (lines: seq<Line>)
    ensures IsSortedItems(lines, counts)
  {
    lines := [];
    var remaining := counts.Keys;
    while remaining != {}
      invariant ReportSoFar(lines, remaining, counts)
      decreases |remaining|
    {
      LeastExists(remaining);
      var k :| IsLeast(k, remaining);
      ReportStep(lines, remaining, counts, k);
      lines := lines + [(k, counts[k])];
      remaining := remaining - {k};
    }
  }

  /** There is only one sorted item list of a given counter, so the report
      does not depend on how the loop picks its next line. */
  lemma SortedItemsUnique(a: seq<Line>, b: seq<Line>, counts: map<string, nat>)
    requires IsSortedItems(a, counts) && IsSortedItems(b, counts)
    ensures a == b
  {
    StrictlyIncreasingUnique(KeysOf(a), KeysOf(b));
    assert forall i :: 0 <= i < |a| ==> a[i] == b[i] by {
      assert forall i :: 0 <= i < |a| ==> KeysOf(a)[i] == KeysOf(b)[i];
    }
  }

  /** The sum of the count column. */
  function Total(lines: seq<Line>): nat
  {
    if lines == [] then 0 else Total(lines[..|lines| - 1]) + lines[|lines| - 1].1
  }

  /** The sum, over the names `keys`, of their counts in `s`. */
  function SumOfCounts(s: seq<Detection>, keys: seq<string>): nat
  {
    if keys == [] then 0
    else SumOfCounts(s, keys[..|keys| - 1]) + Count(s, keys[|keys| - 1])
  }

  /** How many times `x` occurs in `keys`. */
  function Occurrences(keys: seq<string>, x: string): nat
  {
    if keys == [] then 0
    else Occurrences(keys[..|keys| - 1], x) + (if keys[|keys| - 1] == x then 1 else 0)
  }

  lemma {:induction false} OccursOnce(keys: seq<string>, x: string)
    requires StrictlyIncreasing(keys)
    ensures Occurrences(keys, x) == if x in Elements(keys) then 1 else 0
  {
    if keys != [] {
      var p := keys[..|keys| - 1];
      var y := keys[|keys| - 1];
      OccursOnce(p, x);
      assert Elements(keys) == Elements(p) + {y} by {
        assert forall i :: 0 <= i < |p| ==> p[i] == keys[i];
      }
      if y == x && x in Elements(p) {
        var i :| 0 <= i < |p| && p[i] == x;
        assert Less(keys[i], keys[|keys| - 1]);
        LessIrreflexive(x);
      }
    }
  }

  lemma {:induction false} SumOfCountsSnoc(s: seq<Detection>, d: Detection, keys: seq<string>)
    ensures SumOfCounts(s + [d], keys) == SumOfCounts(s, keys) + Occurrences(keys, d.category)
  {
    if keys != [] {
      SumOfCountsSnoc(s, d, keys[..|keys| - 1]);
      assert (s + [d])[..|s|] == s;
    }
  }

  /** Summing the counts of a sorted list of names that covers every
      category of `s` gives the length of `s`. */
  lemma {:induction false} SumOfCountsIsLength(s: seq<Detection>, keys: seq<string>)
    requires StrictlyIncreasing(keys)
    requires Categories(s) <= Elements(keys)
    ensures SumOfCounts(s, keys) == |s|
  {
    if s == [] {
      SumOfCountsOfEmpty(keys);
    } else {
      var p := s[..|s| - 1];
      var d := s[|s| - 1];
      CategoriesOfPrefix(s);
      SumOfCountsIsLength(p, keys);
      assert s == p + [d];
      SumOfCountsSnoc(p, d, keys);
      OccursOnce(keys, d.category);
    }
  }

  lemma {:induction false} SumOfCountsOfEmpty(keys: seq<string>)
    ensures SumOfCounts([], keys) == 0
  {
    if keys != [] {
      SumOfCountsOfEmpty(keys[..|keys| - 1]);
    }
  }

  lemma {:induction false} TotalIsSumOfCounts(s: seq<Detection>, lines: seq<Line>)
    requires forall i :: 0 <= i < |lines| ==> lines[i].1 == Count(s, lines[i].0)
    ensures Total(lines) == SumOfCounts(s, KeysOf(lines))
  {
    if lines != [] {
      var p := lines[..|lines| - 1];
      TotalIsSumOfCounts(s, p);
      assert KeysOf(lines)[..|lines| - 1] == KeysOf(p);
    }
  }

  /** The counts of a report add up to the length of the list it summarises
      ("Detected N total objects", "Filtered to M"). */
  lemma ReportTotal(s: seq<Detection>, lines: seq<Line>)
    requires IsSortedItems(lines, Summarize(s))
    ensures Total(lines) == |s|
  {
    TotalIsSumOfCounts(s, lines);
    SumOfCountsIsLength(s, KeysOf(lines));
  }

  /** An empty detection list produces no report lines. */
  lemma EmptyReport(lines: seq<Line>)
    requires IsSortedItems(lines, Summarize([]))
    ensures lines == []
  {
    ElementsEmpty(KeysOf(lines));
  }

  /** The lines of `lines` whose category is in `taxonomy`, in order. */
  function KeepLines(lines: seq<Line>, taxonomy: set<string>): (r: seq<Line>)
    ensures forall i :: 0 <= i < |r| ==> r[i] in lines && r[i].0 in taxonomy
    ensures forall i :: 0 <= i < |lines| && lines[i].0 in taxonomy ==> lines[i] in r
  {
    if lines == [] then []
    else
      var l := lines[|lines| - 1];
      var r := KeepLines(lines[..|lines| - 1], taxonomy);
      assert forall i :: 0 <= i < |lines| - 1 ==> lines[i] == lines[..|lines| - 1][i];
      r + (if l.0 in taxonomy then [l] else [])
  }

  lemma {:induction false} KeepLinesSorted(lines: seq<Line>, taxonomy: set<string>)
    requires StrictlyIncreasing(KeysOf(lines))
    ensures StrictlyIncreasing(KeysOf(KeepLines(lines, taxonomy)))
  {
    if lines != [] {
      var p := lines[..|lines| - 1];
      var l := lines[|lines| - 1];
      assert KeysOf(lines) == KeysOf(p) + [l.0];
      IncreasingPrefix(KeysOf(p), l.0);
      KeepLinesSorted(p, taxonomy);
      var r := KeepLines(p, taxonomy);
      if l.0 in taxonomy {
        forall i | 0 <= i < |r|
          ensures Less(KeysOf(r)[i], l.0)
        {
          var j :| 0 <= j < |p| && p[j] == r[i];
          assert KeysOf(lines)[j] == r[i].0;
        }
        assert KeysOf(KeepLines(lines, taxonomy)) == KeysOf(r) + [l.0];
        IncreasingSnoc(KeysOf(r), l.0);
      } else {
        assert KeepLines(lines, taxonomy) == r;
      }
    }
  }

  /** Keeping the taxonomy lines of the full report yields the sorted items
      of the filtered list's counter. */
  lemma KeepLinesIsFilteredItems(s: seq<Detection>, taxonomy: set<string>, full: seq<Line>)
    requires IsSortedItems(full, Summarize(s))
    ensures IsSortedItems(KeepLines(full, taxonomy), Summarize(Filter(s, taxonomy)))
  {
    var kept := KeepLines(full, taxonomy);
    var counts := Summarize(Filter(s, taxonomy));
    KeepLinesSorted(full, taxonomy);
    FilterCategories(s, taxonomy);
    assert counts.Keys == Categories(s) * taxonomy;
    forall i | 0 <= i < |kept|
      ensures kept[i].0 in counts && kept[i].1 == counts[kept[i].0]
    {
      FilterCount(s, taxonomy, kept[i].0);
    }
    forall c | c in counts
      ensures c in Elements(KeysOf(kept))
    {
      assert c in Elements(KeysOf(full));
      var j :| 0 <= j < |full| && KeysOf(full)[j] == c;
      assert full[j].0 in taxonomy;
      var i :| 0 <= i < |kept| && kept[i] == full[j];
      assert KeysOf(kept)[i] == c;
    }
    assert Elements(KeysOf(kept)) == counts.Keys;
  }

  /** The filtered report is the full report with every line whose category
      is outside the taxonomy removed. */
  lemma FilteredReport(s: seq<Detection>, taxonomy: set<string>, full: seq<Line>, filtered: seq<Line>)
    requires IsSortedItems(full, Summarize(s))
    requires IsSortedItems(filtered, Summarize(Filter(s, taxonomy)))
    ensures filtered == KeepLines(full, taxonomy)
  {
    KeepLinesIsFilteredItems(s, taxonomy, full);
    SortedItemsUnique(filtered, KeepLines(full, taxonomy), Summarize(Filter(s, taxonomy)));
  }
}
