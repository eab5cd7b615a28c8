/** Bounded insertion: offering values one by one to a heap of capacity `n` keeps the `n` greatest of them. */
module KeepLargest {
  import opened HeapOrder

  /** What `insert_extract` leaves in a heap of capacity `n` when `v` is offered. */
  function Offered<V>(less: (V, V) -> bool, n: nat, s: seq<V>, v: V): seq<V> {
    if s == [] || |s| != n then Inserted(less, s, v)
    else if less(v, s[0]) then s
    else Inserted(less, Extracted(less, s), v)
  }

  /** What the offer turns away: nothing, the offered value, or the old root. */
  ghost function TurnedAway<V>(less: (V, V) -> bool, n: nat, s: seq<V>, v: V): multiset<V> {
    if s == [] || |s| != n then multiset{}
    else if less(v, s[0]) then multiset{v}
    else multiset{s[0]}
  }

  function OfferAll<V>(less: (V, V) -> bool, n: nat, vs: seq<V>): seq<V> {
    if vs == [] then [] else Offered(less, n, OfferAll(less, n, vs[..|vs| - 1]), vs[|vs| - 1])
  }

  ghost function AllTurnedAway<V>(less: (V, V) -> bool, n: nat, vs: seq<V>): multiset<V> {
    if vs == [] then multiset{} else
      var before := vs[..|vs| - 1];
      AllTurnedAway(less, n, before) + TurnedAway(less, n, OfferAll(less, n, before), vs[|vs| - 1])
  }

  /** `kept` and `lost` split `all`, at most `n` are kept, nothing is lost while there is room, and no kept value
      is less than a lost one. */
  ghost predicate Split<V>(less: (V, V) -> bool, n: nat, all: multiset<V>, kept: multiset<V>, lost: multiset<V>) {
    && all == kept + lost
    && |kept| <= n
    && (lost != multiset{} ==> |kept| == n)
    && (forall x, y | x in lost && y in kept :: !less(y, x))
  }

  lemma OfferKeepsSplit<V(!new)>(less: (V, V) -> bool, n: nat, all: multiset<V>, s: seq<V>, lost: multiset<V>, v: V)
    requires TotalPreorder(less) && 0 < n && IsHeap(less, s) && Split(less, n, all, multiset(s), lost)
    ensures IsHeap(less, Offered(less, n, s, v))
    ensures Split(less, n, all + multiset{v}, multiset(Offered(less, n, s, v)), lost + TurnedAway(less, n, s, v))
  {
    if s == [] || |s| != n {
      InsertedIsHeap(less, s, v);
    } else {
      ExtractTakesLeast(less, s);
      if !less(v, s[0]) {
        InsertedIsHeap(less, Extracted(less, s), v);
        ReplaceLeast(less, n, all, multiset(s), lost, s[0], v);
      } else {
        forall y | y in multiset(s) ensures !less(y, v) {
          assert !less(y, s[0]) && !less(s[0], v);
        }
      }
    }
  }

  /** Trading a least kept value for one that is not less keeps the split. */
  lemma ReplaceLeast<V(!new)>(less: (V, V) -> bool, n: nat, all: multiset<V>, kept: multiset<V>, lost: multiset<V>,
                              least: V, v: V)
    requires TotalPreorder(less) && Split(less, n, all, kept, lost) && |kept| == n
    requires least in kept && (forall y | y in kept :: !less(y, least)) && !less(v, least)
    ensures Split(less, n, all + multiset{v}, kept - multiset{least} + multiset{v}, lost + multiset{least})
  {
  }

  lemma {:induction false} OfferAllSplits<V(!new)>(less: (V, V) -> bool, n: nat, vs: seq<V>)
    requires TotalPreorder(less) && 0 < n
    ensures IsHeap(less, OfferAll(less, n, vs))
    ensures Split(less, n, multiset(vs), multiset(OfferAll(less, n, vs)), AllTurnedAway(less, n, vs))
  {
    if vs != [] {
      hide TotalPreorder, IsHeap, Split, Offered, TurnedAway;
      var before, v := vs[..|vs| - 1], vs[|vs| - 1];
      OfferAllSplits(less, n, before);
      LastOf(vs);
      OfferKeepsSplit(less, n, multiset(before), OfferAll(less, n, before), AllTurnedAway(less, n, before), v);
    }
  }

  lemma LastOf<V>(vs: seq<V>)
    requires vs != []
    ensures multiset(vs) == multiset(vs[..|vs| - 1]) + multiset{vs[|vs| - 1]}
  {
    assert vs == vs[..|vs| - 1] + [vs[|vs| - 1]];
  }

  // ---------- the n greatest ----------

  function Count<V>(p: V -> bool, s: seq<V>): (n: nat)
    ensures n <= |s|
  {
    if s == [] then 0 else (if p(s[0]) then 1 else 0) + Count(p, s[1..])
  }

  function NotLess<V>(less: (V, V) -> bool, t: V): V -> bool {
    x => !less(x, t)
  }

  /** How many values of `s` are not less than `t`. */
  function CountAtLeast<V>(less: (V, V) -> bool, s: seq<V>, t: V): nat {
    Count(NotLess(less, t), s)
  }

  /** How many values of `s` are greater than `t`. */
  function CountGreater<V>(less: (V, V) -> bool, s: seq<V>, t: V): nat {
    Count(x => less(t, x), s)
  }

  /** Counting is counting: as many as there are positions whose value passes. */
  lemma {:induction false} CountIsSize<V>(p: V -> bool, s: seq<V>)
    ensures Count(p, s) == |set i: nat | i < |s| && p(s[i])|
  {
    var all := set i: nat | i < |s| && p(s[i]);
    if s == [] {
      assert all == {};
    } else {
      var rest := set i: nat | i < |s[1..]| && p(s[1..][i]);
      var later := set i: nat | i in rest :: i + 1;
      CountIsSize(p, s[1..]);
      Shifted(rest, later);
      var first: set<nat> := if p(s[0]) then {0} else {};
      forall i: nat ensures i in all <==> i in first + later {
        if 0 < i < |s| {
          assert s[1..][i - 1] == s[i];
          assert i in later <==> i - 1 in rest;
        }
      }
      assert all == first + later && first !! later;
    }
  }

  lemma {:induction false} Shifted(a: set<nat>, b: set<nat>)
    requires b == set i | i in a :: i + 1
    ensures |a| == |b|
  {
    if a != {} {
      var x :| x in a;
      forall i | i in b ensures i == x + 1 || i - 1 in a - {x} {}
      assert b - {x + 1} == set i | i in a - {x} :: i + 1;
      Shifted(a - {x}, b - {x + 1});
    }
  }

  lemma {:induction false} CountConcat<V>(p: V -> bool, a: seq<V>, b: seq<V>)
    ensures Count(p, a + b) == Count(p, a) + Count(p, b)
  {
    if a == [] {
      assert a + b == b;
    } else {
      CountConcat(p, a[1..], b);
      assert (a + b)[1..] == a[1..] + b;
    }
  }

  lemma RemoveOne<V>(s: seq<V>, i: nat)
    requires i < |s|
    ensures multiset(s[..i] + s[i + 1..]) == multiset(s) - multiset{s[i]}
  {
    assert s == s[..i] + ([s[i]] + s[i + 1..]);
  }

  lemma {:induction false} CountPermutation<V>(p: V -> bool, a: seq<V>, b: seq<V>)
    requires multiset(a) == multiset(b)
    ensures Count(p, a) == Count(p, b)
  {
    if a == [] {
      assert |b| == |multiset(b)| == 0;
    } else {
      assert a[0] in multiset(b);
      var i: nat :| i < |b| && b[i] == a[0];
      assert a[..0] + a[1..] == a[1..];
      RemoveOne(a, 0);
      RemoveOne(b, i);
      CountPermutation(p, a[1..], b[..i] + b[i + 1..]);
      CountConcat(p, b[..i], b[i + 1..]);
      CountConcat(p, b[..i], b[i..]);
      assert b == b[..i] + b[i..];
    }
  }

  lemma {:induction false} CountAll<V>(p: V -> bool, s: seq<V>)
    ensures Count(p, s) == |s| <==> forall x | x in s :: p(x)
    ensures Count(p, s) == 0 <==> forall x | x in s :: !p(x)
  {
    if s != [] {
      CountAll(p, s[1..]);
      assert s == [s[0]] + s[1..];
    }
  }

  ghost function Listed<V>(m: multiset<V>): (s: seq<V>)
    ensures multiset(s) == m
  {
    if m == multiset{} then [] else var x :| x in m; [x] + Listed(m - multiset{x})
  }

  /** For every threshold, the heap holds as many values at or above it as were offered, up to its capacity. So it
      holds the `n` greatest values offered; where distinct values tie it is their ranks that are fixed. */
  lemma KeepsGreatest<V(!new)>(less: (V, V) -> bool, n: nat, vs: seq<V>, t: V)
    requires TotalPreorder(less) && 0 < n
    ensures var kept := OfferAll(less, n, vs);
            && |kept| == (if |vs| < n then |vs| else n)
            && CountAtLeast(less, kept, t) == if CountAtLeast(less, vs, t) < n then CountAtLeast(less, vs, t) else n
  {
    assert |multiset(vs)| == |vs| && |multiset(OfferAll(less, n, vs))| == |OfferAll(less, n, vs)|;
    OfferAllSplits(less, n, vs);
    SplitCount(less, n, vs, OfferAll(less, n, vs), Listed(AllTurnedAway(less, n, vs)), t);
  }

  lemma SplitCount<V(!new)>(less: (V, V) -> bool, n: nat, all: seq<V>, kept: seq<V>, lost: seq<V>, t: V)
    requires TotalPreorder(less) && Split(less, n, multiset(all), multiset(kept), multiset(lost))
    ensures CountAtLeast(less, kept, t) == if CountAtLeast(less, all, t) < n then CountAtLeast(less, all, t) else n
  {
    var p := NotLess(less, t);
    CountPermutation(p, all, kept + lost);
    CountConcat(p, kept, lost);
    CountAll(p, lost);
    if Count(p, lost) != 0 {
      var x :| x in lost && !less(x, t);
      forall y | y in kept ensures p(y) {
        assert x in multiset(lost) && y in multiset(kept);
      }
      CountAll(p, kept);
    }
  }

  /** Nothing is kept that was not offered. */
  lemma KeepsOnlyOffered<V(!new)>(less: (V, V) -> bool, n: nat, vs: seq<V>, v: V)
    requires TotalPreorder(less) && 0 < n && v in OfferAll(less, n, vs)
    ensures v in vs
  {
    OfferAllSplits(less, n, vs);
    hide TotalPreorder, IsHeap, OfferAll;
    assert v in multiset(OfferAll(less, n, vs));
    assert v in multiset(vs);
  }

  /** Under a total order, where only equal values tie, the heap holds exactly those of the distinct values offered
      that fewer than `n` offered values exceed. */
  lemma KeepsExactlyTop<V(!new)>(less: (V, V) -> bool, n: nat, vs: seq<V>, v: V)
    requires TotalPreorder(less) && 0 < n
    requires forall a, b :: !less(a, b) && !less(b, a) ==> a == b
    requires multiset(vs)[v] <= 1
    ensures v in OfferAll(less, n, vs) <==> v in vs && CountGreater(less, vs, v) < n
  {
    if v in vs {
      assert multiset(vs)[v] == 1;
      OfferedIsTop(less, n, vs, v);
    } else if v in OfferAll(less, n, vs) {
      KeepsOnlyOffered(less, n, vs, v);
    }
  }

  lemma OfferedIsTop<V(!new)>(less: (V, V) -> bool, n: nat, vs: seq<V>, v: V)
    requires TotalPreorder(less) && 0 < n
    requires forall a, b :: !less(a, b) && !less(b, a) ==> a == b
    requires multiset(vs)[v] == 1
    ensures v in OfferAll(less, n, vs) <==> CountGreater(less, vs, v) < n
  {
    var kept, lost := OfferAll(less, n, vs), Listed(AllTurnedAway(less, n, vs));
    var p := x => less(v, x);
    OfferAllSplits(less, n, vs);
    CountPermutation(p, vs, kept + lost);
    CountConcat(p, kept, lost);
    CountAll(p, kept);
    CountAll(p, lost);
    assert multiset(vs)[v] == multiset(kept)[v] + multiset(lost)[v];
    if v in kept {
      assert v in multiset(kept) && !p(v);
      forall x | x in lost ensures !p(x) {
        assert x in multiset(lost);
      }
    } else {
      assert multiset(kept)[v] == 0;
      assert v in multiset(lost) && |multiset(lost)| != 0;
      forall y | y in kept ensures p(y) {
        assert y in multiset(kept);
      }
    }
  }
}
