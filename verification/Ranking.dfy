/** Python's stable descending sort, as a ranking of indices by a key. */
module Ranking {

  /** `i` comes before `j`: a larger key, or an equal key and an earlier position. */
  predicate Before(keys: seq<real>, i: nat, j: nat)
    requires i < |keys| && j < |keys|
  {
    keys[i] > keys[j] || (keys[i] == keys[j] && i < j)
  }

  ghost predicate Indices(order: seq<nat>, n: nat) {
    forall a :: 0 <= a < |order| ==> order[a] < n
  }

  ghost predicate Sorted(keys: seq<real>, order: seq<nat>)
    requires Indices(order, |keys|)
  {
    forall a, b :: 0 <= a < b < |order| ==> Before(keys, order[a], order[b])
  }

  function Inserted(keys: seq<real>, order: seq<nat>, x: nat): (r: seq<nat>)
    requires Indices(order, |keys|) && x < |keys|
    ensures |r| == |order| + 1 && Indices(r, |keys|)
    ensures forall i :: i in r <==> i in order || i == x
  {
    if order != [] && Before(keys, x, order[|order| - 1]) then
      var r := Inserted(keys, order[..|order| - 1], x) + [order[|order| - 1]];
      assert order == order[..|order| - 1] + [order[|order| - 1]];
      r
    else order + [x]
  }

  lemma {:induction false} InsertedSorted(keys: seq<real>, order: seq<nat>, x: nat)
    requires Indices(order, |keys|) && x < |keys| && Sorted(keys, order) && x !in order
    ensures Sorted(keys, Inserted(keys, order, x))
  {
    var r := Inserted(keys, order, x);
    if order != [] && Before(keys, x, order[|order| - 1]) {
      var front, last := order[..|order| - 1], order[|order| - 1];
      InsertedSorted(keys, front, x);
      forall a | 0 <= a < |r| - 1 ensures Before(keys, r[a], last) {
        assert r[a] in Inserted(keys, front, x);
        if r[a] != x {
          var b :| 0 <= b < |front| && front[b] == r[a];
          assert order[b] == r[a];
        }
      }
    } else if order != [] {
      var last := |order| - 1;
      assert order[last] in order;
      forall a | 0 <= a < |order| ensures Before(keys, order[a], x) {
        if a < last {
          assert Before(keys, order[a], order[last]);
        }
      }
    }
  }

  /** The positions `0 .. n` in stable descending order of their keys. */
  function RankedUpTo(keys: seq<real>, n: nat): (r: seq<nat>)
    requires n <= |keys|
    ensures |r| == n && Indices(r, |keys|)
    ensures forall i: nat :: i in r <==> i < n
  {
    if n == 0 then [] else Inserted(keys, RankedUpTo(keys, n - 1), n - 1)
  }

  function Ranked(keys: seq<real>): (r: seq<nat>)
    ensures |r| == |keys| && Indices(r, |keys|)
    ensures forall i: nat :: i in r <==> i < |keys|
  {
    RankedUpTo(keys, |keys|)
  }

  lemma {:induction false} RankedUpToSorted(keys: seq<real>, n: nat)
    requires n <= |keys|
    ensures Sorted(keys, RankedUpTo(keys, n))
  {
    if n > 0 {
      RankedUpToSorted(keys, n - 1);
      InsertedSorted(keys, RankedUpTo(keys, n - 1), n - 1);
    }
  }

  lemma RankedSorted(keys: seq<real>)
    ensures Sorted(keys, Ranked(keys))
  {
    RankedUpToSorted(keys, |keys|);
  }

  lemma SortedDistinct(keys: seq<real>, order: seq<nat>, a: nat, b: nat)
    requires Indices(order, |keys|) && Sorted(keys, order) && a < b < |order|
    ensures order[a] != order[b]
  {
    assert Before(keys, order[a], order[b]);
  }

  /** The ranking is the only order of all positions that its sorting rule allows. */
  lemma {:induction false} SortedUnique(keys: seq<real>, r: seq<nat>, s: seq<nat>)
    requires Indices(r, |keys|) && Indices(s, |keys|) && Sorted(keys, r) && Sorted(keys, s)
    requires forall i :: i in r <==> i in s
    ensures r == s
    decreases |r|
  {
    assert |s| > 0 ==> s[0] in r;
    if r != [] {
      assert r[0] in r;
      var a :| 0 <= a < |s| && s[a] == r[0];
      var b :| 0 <= b < |r| && r[b] == s[0];
      assert forall c :: 0 < c < |s| ==> Before(keys, s[0], s[c]);
      assert forall c :: 0 < c < |r| ==> Before(keys, r[0], r[c]);
      assert r[0] == s[0];
      forall i ensures i in r[1..] <==> i in s[1..] {
        if i in r[1..] {
          var c :| 0 < c < |r| && r[c] == i;
          SortedDistinct(keys, r, 0, c);
          assert i in s;
        }
        if i in s[1..] {
          var c :| 0 < c < |s| && s[c] == i;
          SortedDistinct(keys, s, 0, c);
          assert i in r;
        }
      }
      SortedUnique(keys, r[1..], s[1..]);
      assert r == [r[0]] + r[1..] && s == [s[0]] + s[1..];
    }
  }

  // ----- the best k --------------------------------------------------------------------

  function Total(keys: seq<real>, picked: seq<nat>): real
    requires Indices(picked, |keys|)
  {
    if picked == [] then 0.0
    else Total(keys, picked[..|picked| - 1]) + keys[picked[|picked| - 1]]
  }

  ghost predicate NoRepeats(picked: seq<nat>) {
    forall a, b :: 0 <= a < b < |picked| ==> picked[a] != picked[b]
  }

  lemma {:induction false} TotalWithout(keys: seq<real>, picked: seq<nat>, x: nat)
    requires Indices(picked, |keys|) && x < |picked|
    ensures Indices(picked[..x] + picked[x + 1..], |keys|)
    ensures Total(keys, picked) == Total(keys, picked[..x] + picked[x + 1..]) + keys[picked[x]]
    decreases |picked|
  {
    var front, last := picked[..|picked| - 1], picked[|picked| - 1];
    var rest := picked[..x] + picked[x + 1..];
    if x == |picked| - 1 {
      assert rest == front;
    } else {
      TotalWithout(keys, front, x);
      assert rest == front[..x] + front[x + 1..] + [last];
      TotalOfOneMore(keys, front[..x] + front[x + 1..], last);
    }
  }

  lemma TotalOfOneMore(keys: seq<real>, picked: seq<nat>, last: nat)
    requires Indices(picked, |keys|) && last < |keys| && Indices(picked + [last], |keys|)
    ensures Total(keys, picked + [last]) == Total(keys, picked) + keys[last]
  {
    assert (picked + [last])[..|picked|] == picked;
  }

  /** Some pick is outside any smaller set. */
  lemma {:induction false} PickOutside(picked: seq<nat>, small: seq<nat>) returns (x: nat)
    requires NoRepeats(picked) && |small| < |picked|
    ensures x < |picked| && picked[x] !in small
  {
    var all := set a | 0 <= a < |picked| :: picked[a];
    var few := set a | 0 <= a < |small| :: small[a];
    CountDistinct(picked);
    CountAtMost(small);
    if all <= few {
      CardinalityMonotone(all, few);
    }
    var p :| p in all && p !in few;
    x :| 0 <= x < |picked| && picked[x] !in few;
  }

  lemma {:induction false} CountDistinct(picked: seq<nat>)
    requires NoRepeats(picked)
    ensures |set a | 0 <= a < |picked| :: picked[a]| == |picked|
    decreases |picked|
  {
    if picked != [] {
      var front := picked[..|picked| - 1];
      CountDistinct(front);
      assert (set a | 0 <= a < |picked| :: picked[a])
          == (set a | 0 <= a < |front| :: front[a]) + {picked[|picked| - 1]};
    }
  }

  lemma {:induction false} CountAtMost(s: seq<nat>)
    ensures |set a | 0 <= a < |s| :: s[a]| <= |s|
    decreases |s|
  {
    if s != [] {
      var front := s[..|s| - 1];
      CountAtMost(front);
      assert (set a | 0 <= a < |s| :: s[a]) == (set a | 0 <= a < |front| :: front[a]) + {s[|s| - 1]};
    }
  }

  lemma CardinalityMonotone(a: set<nat>, b: set<nat>)
    requires a <= b
    ensures |a| <= |b|
  {
    assert b == a + (b - a);
  }

  /** No choice of `k` distinct positions has a larger total than the first `k` of the ranking. */
  lemma {:induction false} TopHasLargestTotal(keys: seq<real>, picked: seq<nat>)
    requires Indices(picked, |keys|) && NoRepeats(picked) && |picked| <= |keys|
    ensures Total(keys, picked) <= Total(keys, Ranked(keys)[..|picked|])
    decreases |picked|
  {
    var k := |picked|;
    if k > 0 {
      var order := Ranked(keys);
      RankedSorted(keys);
      var x := PickOutside(picked, order[..k - 1]);
      TotalWithout(keys, picked, x);
      TopHasLargestTotal(keys, picked[..x] + picked[x + 1..]);
      var p := WhereRanked(keys, picked[x]);
      assert keys[picked[x]] <= keys[order[k - 1]] by {
        if p > k - 1 {
          assert Before(keys, order[k - 1], order[p]);
        }
      }
      assert order[..k][..k - 1] == order[..k - 1];
    }
  }

  lemma WhereRanked(keys: seq<real>, i: nat) returns (p: nat)
    requires i < |keys|
    ensures p < |keys| && Ranked(keys)[p] == i
  {
    assert i in Ranked(keys);
    p :| 0 <= p < |keys| && Ranked(keys)[p] == i;
  }
}
