// Keeping the elements that pass a test, in order: what the library's retain does.
module Filtering {
  function Filter<T>(s: seq<T>, keep: T -> bool): (r: seq<T>)
    ensures |r| <= |s|
  {
    if s == [] then []
    else Filter(s[..|s| - 1], keep) + (if keep(s[|s| - 1]) then [s[|s| - 1]] else [])
  }

  lemma {:induction false} FilterKeeps<T(!new)>(s: seq<T>, keep: T -> bool)
    ensures forall x :: x in Filter(s, keep) <==> x in s && keep(x)
  {
    if s != [] {
      FilterKeeps(s[..|s| - 1], keep);
      assert s == s[..|s| - 1] + [s[|s| - 1]];
    }
  }

  lemma FilterAppend<T>(s: seq<T>, x: T, keep: T -> bool)
    ensures Filter(s + [x], keep) == Filter(s, keep) + (if keep(x) then [x] else [])
  {
    assert (s + [x])[..|s|] == s;
  }

  // Only what the test says of the elements matters.
  lemma {:induction false} FilterSame<T>(s: seq<T>, keep: T -> bool, also: T -> bool)
    requires forall x :: x in s ==> (keep(x) <==> also(x))
    ensures Filter(s, keep) == Filter(s, also)
  {
    if s != [] {
      FilterSame(s[..|s| - 1], keep, also);
      assert s[|s| - 1] in s;
    }
  }

  // What held of every pair in order still does.
  lemma {:induction false} FilterOrdered<T(!new)>(s: seq<T>, keep: T -> bool, before: (T, T) -> bool)
    requires forall i, j :: 0 <= i < j < |s| ==> before(s[i], s[j])
    ensures forall i, j :: 0 <= i < j < |Filter(s, keep)| ==> before(Filter(s, keep)[i], Filter(s, keep)[j])
  {
    if s != [] {
      var rest, last := s[..|s| - 1], s[|s| - 1];
      FilterOrdered(rest, keep, before);
      forall x | x in Filter(rest, keep) ensures before(x, last) {
        FilterKeeps(rest, keep);
        var j :| 0 <= j < |rest| && rest[j] == x;
        assert before(s[j], s[|s| - 1]);
      }
    }
  }

  // Filtering by two tests is filtering by both at once.
  lemma {:induction false} FilterTwice<T>(s: seq<T>, p: T -> bool, q: T -> bool, both: T -> bool)
    requires forall x :: x in s ==> (both(x) <==> p(x) && q(x))
    ensures Filter(Filter(s, p), q) == Filter(s, both)
  {
    if s != [] {
      var rest, last := s[..|s| - 1], s[|s| - 1];
      FilterTwice(rest, p, q, both);
      assert last in s;
      if p(last) {
        FilterAppend(Filter(rest, p), last, q);
      } else {
        assert Filter(s, p) == Filter(rest, p);
      }
    }
  }
}
