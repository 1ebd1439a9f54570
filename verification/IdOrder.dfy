// The order of string keys in an ordered map, and the keys of a map listed in that order.
module IdOrder {
  import opened IdGenerator
  import opened StableSort

  predicate Before(a: Id, b: Id) {
    if b == [] then false
    else if a == [] then true
    else if a[0] != b[0] then a[0] < b[0]
    else Before(a[1..], b[1..])
  }

  lemma {:induction false} BeforeIrreflexive(a: Id)
    ensures !Before(a, a)
  {
    if a != [] {
      BeforeIrreflexive(a[1..]);
    }
  }

  lemma {:induction false} BeforeTransitive(a: Id, b: Id, c: Id)
    requires Before(a, b) && Before(b, c)
    ensures Before(a, c)
  {
    if a != [] && a[0] == b[0] == c[0] {
      BeforeTransitive(a[1..], b[1..], c[1..]);
    }
  }

  lemma {:induction false} BeforeTotal(a: Id, b: Id)
    ensures a == b || Before(a, b) || Before(b, a)
  {
    if a != [] && b != [] && a[0] == b[0] {
      BeforeTotal(a[1..], b[1..]);
      assert a == [a[0]] + a[1..] && b == [b[0]] + b[1..];
    }
  }

  lemma BeforeStrict()
    ensures StrictOrder(Before)
  {
    forall a ensures !Before(a, a) {
      BeforeIrreflexive(a);
    }
    forall a, b, c | Before(a, b) && Before(b, c) ensures Before(a, c) {
      BeforeTransitive(a, b, c);
    }
  }

  predicate IsFirst(m: Id, s: set<Id>) {
    m in s && forall x :: x in s ==> x == m || Before(m, x)
  }

  lemma {:induction false} FirstExists(s: set<Id>)
    requires s != {}
    ensures exists m :: IsFirst(m, s)
    decreases |s|
  {
    var x :| x in s;
    var rest := s - {x};
    if rest == {} {
      assert s == {x};
      assert IsFirst(x, s);
    } else {
      FirstExists(rest);
      var m :| IsFirst(m, rest);
      BeforeTotal(x, m);
      var first := if Before(x, m) then x else m;
      forall y | y in s ensures y == first || Before(first, y) {
        if Before(x, m) && y != x && y != m {
          BeforeTransitive(x, m, y);
        }
      }
      assert IsFirst(first, s);
    }
  }

  lemma FirstUnique(s: set<Id>, m: Id, n: Id)
    requires IsFirst(m, s) && IsFirst(n, s)
    ensures m == n
  {
    if m != n {
      BeforeTransitive(m, n, m);
      BeforeIrreflexive(m);
    }
  }

  // The elements of s in ascending order.
  function Ascending(s: set<Id>): (r: seq<Id>)
    ensures |r| == |s|
    decreases |s|
  {
    if s == {} then []
    else
      FirstExists(s);
      assert forall m, n :: IsFirst(m, s) && IsFirst(n, s) ==> m == n by {
        forall m, n | IsFirst(m, s) && IsFirst(n, s) {
          FirstUnique(s, m, n);
        }
      }
      var m :| IsFirst(m, s);
      [m] + Ascending(s - {m})
  }

  lemma {:induction false} AscendingLists(s: set<Id>)
    ensures Sorted(Ascending(s), Before)
    ensures forall x :: x in Ascending(s) <==> x in s
    decreases |s|
  {
    if s != {} {
      var r := Ascending(s);
      assert IsFirst(r[0], s) && r[1..] == Ascending(s - {r[0]});
      AscendingLists(s - {r[0]});
      forall i, j | 0 <= i < j < |r| ensures Before(r[i], r[j]) {
        assert r[j] == r[1..][j - 1] && r[j] in r[1..];
        if i > 0 {
          assert r[i] == r[1..][i - 1];
        }
      }
    }
  }

  // It is the only strictly ascending list of those elements.
  lemma AscendingUnique(s: set<Id>, r: seq<Id>)
    requires Sorted(r, Before) && forall x :: x in r <==> x in s
    ensures r == Ascending(s)
  {
    BeforeStrict();
    AscendingLists(s);
    StrictUnique(r, Ascending(s), Before);
  }
}
