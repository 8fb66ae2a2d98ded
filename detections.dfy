/**
 * The detection result model: one detected symbol as the external detector
 * returns it, and the per-category count that the counters are built from.
 */
module Detections {

  /** The detector's bounding box, left uninterpreted: no modelled step
      reads it, it is only carried along. */
  type Box(==)

  /** One element of `result.object_prediction_list`. Only `category`
      (the `category.name` string) is read by the modelled code;
      the confidence and the box are carried along unchanged. */
  datatype Detection = Detection(category: string, score: real, box: Box)

  /** The distinct category names occurring in a detection list. */
  function Categories(s: seq<Detection>): set<string>
  {
    set i | 0 <= i < |s| :: s[i].category
  }

  /** Number of detections in `s` whose category name is exactly `c`. */
  function Count(s: seq<Detection>, c: string): (n: nat)
    ensures n <= |s|
    ensures n > 0 <==> c in Categories(s)
  {
    if s == [] then 0
    else
      CategoriesOfPrefix(s);
      Count(s[..|s| - 1], c) + (if s[|s| - 1].category == c then 1 else 0)
  }

  /** The categories of a non-empty list are those of all but its last
      element, plus the last element's. */
  lemma CategoriesOfPrefix(s: seq<Detection>)
    requires s != []
    ensures Categories(s) == Categories(s[..|s| - 1]) + {s[|s| - 1].category}
  {
    var p := s[..|s| - 1];
    assert forall i :: 0 <= i < |p| ==> p[i] == s[i];
  }

  /** Counting distributes over concatenation. */
  lemma {:induction false} CountAppend(a: seq<Detection>, b: seq<Detection>, c: string)
    ensures Count(a + b, c) == Count(a, c) + Count(b, c)
    decreases |b|
  {
    if b == [] {
      assert a + b == a;
    } else {
      var b' := b[..|b| - 1];
      assert (a + b)[..|a + b| - 1] == a + b';
      CountAppend(a, b', c);
    }
  }
}
