// The bounded shortlist both vector indexes keep while scanning: at most k (score, slot) pairs,
// best score first and earlier slots first among equals.
module Shortlist {
  import opened StableSort

  datatype Hit = Hit(score: real, slot: nat)

  predicate ScoreDescending(a: Hit, b: Hit) {
    a.score >= b.score
  }

  ghost predicate SlotAscending(a: Hit, b: Hit) {
    a.slot < b.slot
  }

  ghost predicate Precedes(a: Hit, b: Hit) {
    a.score > b.score || (a.score == b.score && a.slot < b.slot)
  }

  function Hits(scores: seq<real>): seq<Hit> {
    seq(|scores|, i requires 0 <= i < |scores| => Hit(scores[i], i))
  }

  // Score everything, sort it stably, keep the first k: the form the shortlist replaced.
  function TopHits(scores: seq<real>, k: nat): seq<Hit> {
    Take(Sort(Hits(scores), ScoreDescending), k)
  }

  lemma HitsOrdered(scores: seq<real>)
    ensures TotalPreorder(ScoreDescending) && StrictOrder(SlotAscending)
    ensures Sorted(Hits(scores), SlotAscending)
  {
  }

  // One scanned vector: insert at the partition point, drop the overflow.
  method Offer(best: seq<Hit>, score: real, slot: nat, k: nat, ghost scores: seq<real>) returns (r: seq<Hit>)
    requires slot == |scores|
    requires best == TopHits(scores, k)
    ensures r == TopHits(scores + [score], k)
  {
    var hit := Hit(score, slot);
    assert Hits(scores + [score]) == Hits(scores) + [hit];
    SortAppend(Hits(scores), hit, ScoreDescending);
    InsertThenTake(Sort(Hits(scores), ScoreDescending), hit, k, ScoreDescending);
    var pos := PartitionPoint(best, hit, ScoreDescending);
    r := best;
    if pos < k {
      r := InsertAt(best, pos, hit);
      if |r| > k {
        r := r[..|r| - 1];
      }
      assert r == Take(Insert(best, hit, ScoreDescending), k);
    }
  }

  // What the first k of the stable sort are, without sorting.
  ghost predicate IsTop(r: seq<Hit>, scores: seq<real>, k: nat) {
    && |r| == (if k < |scores| then k else |scores|)
    && (forall h :: h in r ==> h.slot < |scores| && h.score == scores[h.slot])
    && Sorted(r, Precedes)
    && forall h, i :: h in r && 0 <= i < |scores| && Hit(scores[i], i) !in r ==> Precedes(h, Hit(scores[i], i))
  }

  lemma TopHitsIsTop(scores: seq<real>, k: nat)
    ensures IsTop(TopHits(scores, k), scores, k)
  {
    var s := Sort(Hits(scores), ScoreDescending);
    HitsOrdered(scores);
    SortStable(Hits(scores), ScoreDescending, SlotAscending);
    SortElements(Hits(scores), ScoreDescending);
    var r := TopHits(scores, k);
    forall h | h in r ensures h.slot < |scores| && h.score == scores[h.slot] {
      assert h in s;
    }
    forall i, j | 0 <= i < j < |s| ensures Precedes(s[i], s[j]) {
      assert Refined(ScoreDescending, SlotAscending, s[i], s[j]);
    }
    forall h, i | h in r && 0 <= i < |scores| && Hit(scores[i], i) !in r
      ensures Precedes(h, Hit(scores[i], i))
    {
      assert Hit(scores[i], i) == Hits(scores)[i];
      assert Hit(scores[i], i) in s;
    }
  }

  // There is only one such list, so IsTop determines the result.
  lemma TopHitsCharacterised(r: seq<Hit>, scores: seq<real>, k: nat)
    ensures r == TopHits(scores, k) <==> IsTop(r, scores, k)
  {
    TopHitsIsTop(scores, k);
    if IsTop(r, scores, k) {
      TopUnique(r, scores, k);
    }
  }

  lemma TopUnique(r: seq<Hit>, scores: seq<real>, k: nat)
    requires IsTop(r, scores, k)
    ensures r == TopHits(scores, k)
  {
    var t := TopHits(scores, k);
    TopHitsIsTop(scores, k);
    TopAgree(r, t, scores, k, |r|);
    assert r == r[..|r|] && t == t[..|r|];
  }

  lemma {:induction false} TopAgree(r: seq<Hit>, t: seq<Hit>, scores: seq<real>, k: nat, n: nat)
    requires IsTop(r, scores, k) && IsTop(t, scores, k) && n <= |r|
    ensures r[..n] == t[..n]
  {
    if n > 0 {
      TopAgree(r, t, scores, k, n - 1);
      TopNotEarlier(r, t, scores, k, n - 1);
      TopNotEarlier(t, r, scores, k, n - 1);
      var a, b := r[n - 1], t[n - 1];
      assert a.slot == b.slot ==> a == b;
      assert r[..n] == r[..n - 1] + [a] && t[..n] == t[..n - 1] + [b];
    }
  }

  lemma TopNotEarlier(r: seq<Hit>, t: seq<Hit>, scores: seq<real>, k: nat, j: nat)
    requires IsTop(r, scores, k) && IsTop(t, scores, k) && j < |r|
    requires r[..j] == t[..j]
    ensures !Precedes(r[j], t[j])
  {
    var a := r[j];
    assert a == Hit(scores[a.slot], a.slot);
    if a in t {
      var i :| 0 <= i < |t| && t[i] == a;
      assert i < j ==> r[i] == r[..j][i] == t[..j][i] && Precedes(r[i], r[j]);
      assert i > j ==> Precedes(t[j], t[i]);
    } else {
      assert Precedes(t[j], Hit(scores[a.slot], a.slot));
    }
  }
}
