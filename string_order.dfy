/**
 * The order Python's `sorted` uses on category names: lexicographic
 * comparison by code point, a proper prefix coming first.
 */
module StringOrder {

  /** `a < b` on Python strings. */
  predicate Less(a: string, b: string)
    decreases |a|
  {
    if |a| == 0 then |b| > 0
    else if |b| == 0 then false
    else if a[0] != b[0] then a[0] < b[0]
    else Less(a[1..], b[1..])
  }

  lemma {:induction false} LessIrreflexive(a: string)
    ensures !Less(a, a)
    decreases |a|
  {
    if |a| > 0 {
      LessIrreflexive(a[1..]);
    }
  }

  lemma {:induction false} LessTransitive(a: string, b: string, c: string)
    requires Less(a, b) && Less(b, c)
    ensures Less(a, c)
    decreases |a|
  {
    if |a| > 0 && a[0] == b[0] && b[0] == c[0] {
      LessTransitive(a[1..], b[1..], c[1..]);
    }
  }

  lemma {:induction false} LessAsymmetric(a: string, b: string)
    requires Less(a, b)
    ensures !Less(b, a)
    decreases |a|
  {
    if |a| > 0 && a[0] == b[0] {
      LessAsymmetric(a[1..], b[1..]);
    }
  }

  /** Any two distinct names are ordered one way or the other. */
  lemma {:induction false} LessTotal(a: string, b: string)
    ensures a == b || Less(a, b) || Less(b, a)
    decreases |a|
  {
    if |a| > 0 && |b| > 0 && a[0] == b[0] {
      LessTotal(a[1..], b[1..]);
      if a[1..] == b[1..] {
        assert a == [a[0]] + a[1..] && b == [b[0]] + b[1..];
      }
    }
  }

  /** `m` is the least element of `names`. */
  predicate IsLeast(m: string, names: set<string>)
  {
    m in names && forall x :: x in names && x != m ==> Less(m, x)
  }

  /** Every finite non-empty set of names has a least element, so the
      names can be emitted one least element at a time. */
  lemma {:induction false} LeastExists(names: set<string>)
    requires names != {}
    ensures exists m :: IsLeast(m, names)
    decreases |names|
  {
    var x :| x in names;
    var rest := names - {x};
    if rest == {} {
      assert names == {x};
      assert IsLeast(x, names);
    } else {
      LeastExists(rest);
      var m :| IsLeast(m, rest);
      LessTotal(x, m);
      if Less(x, m) {
        forall y | y in names && y != x
          ensures Less(x, y)
        {
          if y != m {
            LessTransitive(x, m, y);
          }
        }
        assert IsLeast(x, names);
      } else {
        assert IsLeast(m, names);
      }
    }
  }

  /** Names in strictly ascending order (hence without repetition). */
  predicate StrictlyIncreasing(ks: seq<string>)
  {
    forall i, j :: 0 <= i < j < |ks| ==> Less(ks[i], ks[j])
  }

  /** Appending a name above every listed name keeps the order strict. */
  lemma IncreasingSnoc(ks: seq<string>, k: string)
    requires StrictlyIncreasing(ks)
    requires forall i :: 0 <= i < |ks| ==> Less(ks[i], k)
    ensures StrictlyIncreasing(ks + [k])
  {
  }

  /** A prefix of a strictly increasing sequence is strictly increasing,
      and its names are all below the appended one. */
  lemma IncreasingPrefix(ks: seq<string>, k: string)
    requires StrictlyIncreasing(ks + [k])
    ensures StrictlyIncreasing(ks)
    ensures forall i :: 0 <= i < |ks| ==> Less(ks[i], k)
  {
    assert forall i :: 0 <= i < |ks| ==> (ks + [k])[i] == ks[i];
    assert forall i :: 0 <= i < |ks| ==> Less((ks + [k])[i], (ks + [k])[|ks|]);
  }

  /** The set of names listed in `ks`. */
  function Elements(ks: seq<string>): set<string>
  {
    set i | 0 <= i < |ks| :: ks[i]
  }

  lemma ElementsEmpty(ks: seq<string>)
    ensures Elements(ks) == {} <==> |ks| == 0
  {
    if |ks| > 0 {
      assert ks[0] in Elements(ks);
    }
  }

  lemma ElementsSnoc(ks: seq<string>, k: string)
    ensures Elements(ks + [k]) == Elements(ks) + {k}
  {
    assert forall i :: 0 <= i < |ks| ==> (ks + [k])[i] == ks[i];
    assert (ks + [k])[|ks|] == k;
  }

  /** Dropping the head of a strictly increasing sequence removes exactly
      that name from its set of elements. */
  lemma ElementsOfTail(a: seq<string>)
    requires |a| > 0 && StrictlyIncreasing(a)
    ensures Elements(a[1..]) == Elements(a) - {a[0]}
  {
    forall x | x in Elements(a[1..])
      ensures x != a[0]
    {
      var k :| 0 <= k < |a[1..]| && a[1..][k] == x;
      assert Less(a[0], a[k + 1]);
      LessIrreflexive(a[0]);
    }
    forall x | x in Elements(a) && x != a[0]
      ensures x in Elements(a[1..])
    {
      var k :| 0 <= k < |a| && a[k] == x;
      assert a[1..][k - 1] == x;
    }
  }

  /** A strictly increasing sequence is determined by the set of its
      elements: there is only one way to list a set of names in order. */
  lemma {:induction false} StrictlyIncreasingUnique(a: seq<string>, b: seq<string>)
    requires StrictlyIncreasing(a) && StrictlyIncreasing(b)
    requires Elements(a) == Elements(b)
    ensures a == b
    decreases |a|
  {
    ElementsEmpty(a);
    ElementsEmpty(b);
    if |a| > 0 {
      assert a[0] in Elements(b);
      assert |b| > 0;
      if a[0] != b[0] {
        assert b[0] in Elements(a);
        var k :| 0 <= k < |a| && a[k] == b[0];
        var l :| 0 <= l < |b| && b[l] == a[0];
        assert Less(a[0], b[0]) && Less(b[0], a[0]);
        LessAsymmetric(a[0], b[0]);
      }
      ElementsOfTail(a);
      ElementsOfTail(b);
      StrictlyIncreasingUnique(a[1..], b[1..]);
      assert a == [a[0]] + a[1..] && b == [b[0]] + b[1..];
    }
  }
}
