// The library sort: a stable sort by a total preorder, its characterisation as the only
// rearrangement that is strictly ordered by (key, original position), and how a prefix of the
// result reacts to more input. Search, re-ranking, pruning and eviction all sort through it.
module StableSort {

  ghost predicate TotalPreorder<T(!new)>(le: (T, T) -> bool) {
    && (forall a, b :: le(a, b) || le(b, a))
    && (forall a, b, c :: le(a, b) && le(b, c) ==> le(a, c))
  }

  ghost predicate StrictOrder<T(!new)>(lt: (T, T) -> bool) {
    && (forall a :: !lt(a, a))
    && (forall a, b, c :: lt(a, b) && lt(b, c) ==> lt(a, c))
  }

  ghost predicate Sorted<T>(s: seq<T>, le: (T, T) -> bool) {
    forall i, j :: 0 <= i < j < |s| ==> le(s[i], s[j])
  }

  // `le` first; where it ties, `lt`.
  ghost predicate Refined<T>(le: (T, T) -> bool, lt: (T, T) -> bool, a: T, b: T) {
    le(a, b) && (le(b, a) ==> lt(a, b))
  }

  ghost predicate RefinedSorted<T>(s: seq<T>, le: (T, T) -> bool, lt: (T, T) -> bool) {
    forall i, j :: 0 <= i < j < |s| ==> Refined(le, lt, s[i], s[j])
  }

  // The end of the leading run of elements that may stand before x.
  function PartitionPoint<T>(s: seq<T>, x: T, le: (T, T) -> bool): (p: nat)
    ensures p <= |s|
  {
    if s == [] || !le(s[0], x) then 0 else 1 + PartitionPoint(s[1..], x, le)
  }

  lemma {:induction false} PartitionPointSplits<T>(s: seq<T>, x: T, le: (T, T) -> bool)
    ensures var p := PartitionPoint(s, x, le);
            (forall i :: 0 <= i < p ==> le(s[i], x)) && (p < |s| ==> !le(s[p], x))
  {
    if s != [] && le(s[0], x) {
      PartitionPointSplits(s[1..], x, le);
    }
  }

  function InsertAt<T>(s: seq<T>, p: nat, x: T): seq<T>
    requires p <= |s|
  {
    s[..p] + [x] + s[p..]
  }

  function Insert<T>(s: seq<T>, x: T, le: (T, T) -> bool): (r: seq<T>)
    ensures |r| == |s| + 1
  {
    InsertAt(s, PartitionPoint(s, x, le), x)
  }

  function Sort<T>(s: seq<T>, le: (T, T) -> bool): (r: seq<T>)
    ensures |r| == |s|
  {
    if s == [] then [] else Insert(Sort(s[..|s| - 1], le), s[|s| - 1], le)
  }

  lemma {:induction false} SortPermutes<T>(s: seq<T>, le: (T, T) -> bool)
    ensures multiset(Sort(s, le)) == multiset(s)
  {
    if s != [] {
      var t, x := Sort(s[..|s| - 1], le), s[|s| - 1];
      SortPermutes(s[..|s| - 1], le);
      assert s == s[..|s| - 1] + [x];
      var p := PartitionPoint(t, x, le);
      assert t == t[..p] + t[p..];
    }
  }

  lemma SortElements<T>(s: seq<T>, le: (T, T) -> bool)
    ensures forall x :: x in Sort(s, le) <==> x in s
  {
    SortPermutes(s, le);
    forall x ensures x in Sort(s, le) <==> x in s {
      assert x in Sort(s, le) <==> x in multiset(Sort(s, le));
      assert x in s <==> x in multiset(s);
    }
  }

  lemma SortAppend<T>(s: seq<T>, x: T, le: (T, T) -> bool)
    ensures Sort(s + [x], le) == Insert(Sort(s, le), x, le)
  {
    assert (s + [x])[..|s|] == s;
  }

  lemma InsertSorted<T(!new)>(s: seq<T>, x: T, le: (T, T) -> bool)
    requires TotalPreorder(le) && Sorted(s, le)
    ensures Sorted(Insert(s, x, le), le)
  {
    var p := PartitionPoint(s, x, le);
    var r := Insert(s, x, le);
    PartitionPointSplits(s, x, le);
    forall i, j | 0 <= i < j < |r| ensures le(r[i], r[j]) {
      if i == p {
        assert r[j] == s[j - 1];
        assert j - 1 == p || le(s[p], s[j - 1]);
      }
    }
  }

  lemma {:induction false} SortSorted<T(!new)>(s: seq<T>, le: (T, T) -> bool)
    requires TotalPreorder(le)
    ensures Sorted(Sort(s, le), le)
  {
    if s != [] {
      SortSorted(s[..|s| - 1], le);
      InsertSorted(Sort(s[..|s| - 1], le), s[|s| - 1], le);
    }
  }

  // Stability: input that is strictly ordered by `lt` (say, by position) comes out strictly
  // ordered by the key with ties broken by `lt`.
  lemma {:induction false} SortStable<T(!new)>(s: seq<T>, le: (T, T) -> bool, lt: (T, T) -> bool)
    requires TotalPreorder(le) && StrictOrder(lt) && Sorted(s, lt)
    ensures RefinedSorted(Sort(s, le), le, lt)
  {
    if s != [] {
      var n := |s| - 1;
      var t, x := Sort(s[..n], le), s[n];
      SortStable(s[..n], le, lt);
      SortElements(s[..n], le);
      assert forall y :: y in t ==> lt(y, x);
      var p := PartitionPoint(t, x, le);
      var r := Insert(t, x, le);
      PartitionPointSplits(t, x, le);
      forall i, j | 0 <= i < j < |r| ensures Refined(le, lt, r[i], r[j]) {
        if i == p {
          assert r[j] == t[j - 1];
          assert j - 1 == p || Refined(le, lt, t[p], t[j - 1]);
        } else if j == p {
          assert r[i] == t[i] && t[i] in t;
        }
      }
    }
  }

  // A strictly ordered list is determined by its elements.
  lemma {:induction false} StrictUnique<T(!new)>(a: seq<T>, b: seq<T>, lt: (T, T) -> bool)
    requires StrictOrder(lt) && Sorted(a, lt) && Sorted(b, lt)
    requires forall x :: x in a <==> x in b
    ensures a == b
  {
    if a == [] {
      NonEmptyHasMember(b);
    } else {
      assert a[0] in b && b[0] in a;
      var a', b' := a[1..], b[1..];
      assert a[0] == b[0];
      assert a == [a[0]] + a' && b == [a[0]] + b';
      HeadFresh(a, lt);
      HeadFresh(b, lt);
      forall x ensures x in a' <==> x in b' {
        assert x in a <==> x == a[0] || x in a';
        assert x in b <==> x == a[0] || x in b';
      }
      StrictUnique(a', b', lt);
    }
  }

  lemma NonEmptyHasMember<T>(s: seq<T>)
    ensures s != [] ==> exists x :: x in s
  {
    if s != [] {
      assert s[0] in s;
    }
  }

  lemma HeadFresh<T(!new)>(a: seq<T>, lt: (T, T) -> bool)
    requires a != [] && StrictOrder(lt) && Sorted(a, lt)
    ensures a[0] !in a[1..]
  {
  }

  // In a strictly ordered list, what precedes an element is the prefix before it.
  lemma PredecessorsArePrefix<T(!new)>(s: seq<T>, i: nat, lt: (T, T) -> bool)
    requires StrictOrder(lt) && Sorted(s, lt) && i < |s|
    ensures forall x :: x in s ==> (lt(x, s[i]) <==> x in s[..i])
  {
    forall x | x in s ensures lt(x, s[i]) <==> x in s[..i] {
      var j :| 0 <= j < |s| && s[j] == x;
      if j < i {
        assert s[..i][j] == x;
      } else {
        assert j == i || lt(s[i], s[j]);
      }
    }
  }

  lemma RefinedUnique<T(!new)>(a: seq<T>, b: seq<T>, le: (T, T) -> bool, lt: (T, T) -> bool)
    requires TotalPreorder(le) && StrictOrder(lt)
    requires RefinedSorted(a, le, lt) && RefinedSorted(b, le, lt)
    requires forall x :: x in a <==> x in b
    ensures a == b
  {
    StrictUnique(a, b, (x, y) => Refined(le, lt, x, y));
  }

  // The sort is the only rearrangement of its input that is sorted and stable.
  lemma SortCharacterised<T(!new)>(s: seq<T>, r: seq<T>, le: (T, T) -> bool, lt: (T, T) -> bool)
    requires TotalPreorder(le) && StrictOrder(lt) && Sorted(s, lt)
    ensures r == Sort(s, le) <==> RefinedSorted(r, le, lt) && (forall x :: x in r <==> x in s)
  {
    SortStable(s, le, lt);
    SortElements(s, le);
    if RefinedSorted(r, le, lt) && (forall x :: x in r <==> x in s) {
      RefinedUnique(r, Sort(s, le), le, lt);
    }
  }

  function Take<T>(s: seq<T>, k: nat): seq<T> {
    if |s| <= k then s else s[..k]
  }

  // Dropping what overflows a shortlist of k never changes the first k of later insertions.
  lemma InsertThenTake<T>(s: seq<T>, x: T, k: nat, le: (T, T) -> bool)
    ensures PartitionPoint(Take(s, k), x, le) < k ==>
              Take(Insert(Take(s, k), x, le), k) == Take(Insert(s, x, le), k)
    ensures PartitionPoint(Take(s, k), x, le) >= k ==> Take(s, k) == Take(Insert(s, x, le), k)
  {
    var p, t := PartitionPoint(s, x, le), Take(s, k);
    PartitionPointOfPrefix(s, x, k, le);
    if p < k {
      TakeOfInsertAt(s, p, x, k);
    }
  }

  lemma TakeOfInsertAt<T>(s: seq<T>, p: nat, x: T, k: nat)
    requires p <= |s| && p < k
    ensures Take(InsertAt(Take(s, k), p, x), k) == Take(InsertAt(s, p, x), k)
  {
    var a, b := InsertAt(Take(s, k), p, x), InsertAt(s, p, x);
    if |s| > k {
      assert forall i :: 0 <= i < k ==> a[i] == b[i];
    }
  }

  lemma {:induction false} PartitionPointOfPrefix<T>(s: seq<T>, x: T, k: nat, le: (T, T) -> bool)
    ensures PartitionPoint(Take(s, k), x, le) ==
            if PartitionPoint(s, x, le) < k then PartitionPoint(s, x, le) else |Take(s, k)|
  {
    if s != [] && k > 0 && le(s[0], x) {
      PartitionPointOfPrefix(s[1..], x, k - 1, le);
      assert Take(s, k)[1..] == Take(s[1..], k - 1);
    }
  }

  // Later input b leaves the first k of the sorted a alone exactly when there is none of it, or
  // a already fills the k places and nothing in b strictly precedes the last of them.
  ghost predicate Displaced<T>(a: seq<T>, b: seq<T>, k: nat, le: (T, T) -> bool) {
    b != [] && (|a| < k || (k > 0 && exists x :: x in b && !le(Sort(a, le)[k - 1], x)))
  }

  lemma TakeUnchanged<T(!new)>(a: seq<T>, b: seq<T>, k: nat, le: (T, T) -> bool)
    requires TotalPreorder(le)
    ensures Take(Sort(a + b, le), k) == Take(Sort(a, le), k) <==> !Displaced(a, b, k, le)
  {
    if b == [] {
      assert a + b == a;
    } else if k > 0 && |a| >= k {
      SortSorted(a, le);
      if x :| x in b && !le(Sort(a, le)[k - 1], x) {
        SortSorted(a + b, le);
        LatecomerGains(a, b, le, x);
        if Take(Sort(a + b, le), k) == Take(Sort(a, le), k) {
          EarlyCopiesAgree(Sort(a + b, le), Sort(a, le), k, le, x);
        }
      } else {
        PrefixPrecedes(Sort(a, le), b, k, le);
        TakeKept(a, b, k, le);
      }
    }
  }

  lemma PrefixPrecedes<T(!new)>(t: seq<T>, b: seq<T>, k: nat, le: (T, T) -> bool)
    requires TotalPreorder(le) && Sorted(t, le) && 0 < k <= |t|
    requires forall x :: x in b ==> le(t[k - 1], x)
    ensures forall x, i :: x in b && 0 <= i < k ==> le(t[i], x)
  {
    forall x, i | x in b && 0 <= i < k ensures le(t[i], x) {
      assert i == k - 1 || le(t[i], t[k - 1]);
    }
  }

  lemma {:induction false} TakeKept<T>(a: seq<T>, b: seq<T>, k: nat, le: (T, T) -> bool)
    requires k <= |a| && forall x, i :: x in b && 0 <= i < k ==> le(Sort(a, le)[i], x)
    ensures Take(Sort(a + b, le), k) == Take(Sort(a, le), k)
    decreases |b|
  {
    if b == [] {
      assert a + b == a;
    } else {
      var b', x := b[..|b| - 1], b[|b| - 1];
      assert x in b && forall y :: y in b' ==> y in b;
      TakeKept(a, b', k, le);
      assert a + b == (a + b') + [x];
      SortAppend(a + b', x, le);
      InsertBeyond(Sort(a, le), Sort(a + b', le), x, k, le);
    }
  }

  lemma InsertBeyond<T>(t: seq<T>, s: seq<T>, x: T, k: nat, le: (T, T) -> bool)
    requires k <= |t| && k <= |s| && Take(s, k) == Take(t, k)
    requires forall i :: 0 <= i < k ==> le(t[i], x)
    ensures Take(Insert(s, x, le), k) == Take(t, k)
  {
    forall i | 0 <= i < k ensures le(s[i], x) {
      assert Take(s, k)[i] == s[i] && Take(t, k)[i] == t[i];
    }
    PartitionPointSplits(s, x, le);
    assert PartitionPoint(s, x, le) >= k;
  }

  lemma LatecomerGains<T>(a: seq<T>, b: seq<T>, le: (T, T) -> bool, x: T)
    requires x in b
    ensures multiset(Sort(a + b, le))[x] > multiset(Sort(a, le))[x]
  {
    SortPermutes(a, le);
    SortPermutes(a + b, le);
    MoreCopies(a, b, x);
  }

  // Everything that strictly precedes the k-th place of a sorted list stands before it.
  lemma EarlyCopiesAgree<T(!new)>(s: seq<T>, t: seq<T>, k: nat, le: (T, T) -> bool, x: T)
    requires TotalPreorder(le) && Sorted(s, le) && 0 < k <= |t| && k <= |s|
    requires Take(s, k) == Take(t, k) && !le(t[k - 1], x)
    ensures multiset(s)[x] <= multiset(t)[x]
  {
    assert s[k - 1] == Take(s, k)[k - 1] == t[k - 1];
    assert forall y :: y in s[k..] ==> y != x;
    CountSplit(s, k, x);
    CountSplit(t, k, x);
  }

  lemma MoreCopies<T>(a: seq<T>, b: seq<T>, x: T)
    requires x in b
    ensures multiset(a + b)[x] > multiset(a)[x]
  {
    assert x in multiset(b);
  }

  lemma CountSplit<T>(s: seq<T>, k: nat, x: T)
    requires k <= |s|
    ensures multiset(s)[x] == multiset(Take(s, k))[x] + multiset(s[k..])[x]
  {
    assert s == Take(s, k) + s[k..];
  }

  // ---- Sorting repeats nothing

  ghost predicate NoRepeats<T>(s: seq<T>) {
    forall i, j :: 0 <= i < j < |s| ==> s[i] != s[j]
  }

  lemma {:induction false} NoRepeatsCount<T>(s: seq<T>, x: T)
    requires NoRepeats(s)
    ensures multiset(s)[x] <= 1
  {
    if s != [] {
      var front, last := s[..|s| - 1], s[|s| - 1];
      NoRepeatsCount(front, x);
      assert s == front + [last];
    }
  }

  lemma RepeatCounts<T>(s: seq<T>, i: nat, j: nat)
    requires i < j < |s| && s[i] == s[j]
    ensures multiset(s)[s[i]] >= 2
  {
    assert s == s[..j] + s[j..];
    assert s[..j][i] in multiset(s[..j]) && s[j..][0] in multiset(s[j..]);
  }

  lemma SortRepeatsNothing<T>(s: seq<T>, le: (T, T) -> bool)
    requires NoRepeats(s)
    ensures NoRepeats(Sort(s, le))
  {
    var r := Sort(s, le);
    SortPermutes(s, le);
    forall i, j | 0 <= i < j < |r| ensures r[i] != r[j] {
      NoRepeatsCount(s, r[i]);
      if r[i] == r[j] {
        RepeatCounts(r, i, j);
      }
    }
  }
}
