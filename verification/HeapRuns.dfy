/** Whole runs of heap operations: what every run keeps, and what a run of offers ends with. */
module HeapRuns {
  import opened Bytes
  import opened IndexCells
  import opened IndexMaps
  import opened HeapOrder
  import opened KeepLargest
  import opened IndexHeaps

  datatype Op<+V> =
    | Insert(value: V)
    | Extract
    | InsertExtract(value: V)
    | ChangeKey(value: V)
    | RemoveItem(key: Bytes)
    | Clear

  /** The heap an operation leaves. */
  ghost function Step<V>(c: Codec<V>, less: (V, V) -> bool, cap: nat, s: seq<V>, op: Op<V>): seq<V> {
    match op
    case Insert(v) => if |s| == cap then s else Inserted(less, s, v)
    case Extract => if s == [] then s else Extracted(less, s)
    case InsertExtract(v) => Offered(less, cap, s, v)
    case ChangeKey(v) => if HasKey(c, s, c.key(v)) then Changed(less, s, Position(c, s, c.key(v)), v) else s
    case RemoveItem(key) => if HasKey(c, s, key) then Removed(less, s, Position(c, s, key)) else s
    case Clear => []
  }

  /** What callers owe: a new key for each value that goes in, and room for one value before offering. */
  ghost predicate Allowed<V>(c: Codec<V>, less: (V, V) -> bool, cap: nat, s: seq<V>, op: Op<V>) {
    match op
    case Insert(v) => |s| < cap ==> !HasKey(c, s, c.key(v))
    case InsertExtract(v) => 0 < cap && Offerable(c, less, cap, s, v)
    case _ => true
  }

  ghost function Run<V>(c: Codec<V>, less: (V, V) -> bool, cap: nat, s: seq<V>, ops: seq<Op<V>>): seq<V> {
    if ops == [] then s else
      var last := |ops| - 1;
      Step(c, less, cap, Run(c, less, cap, s, ops[..last]), ops[last])
  }

  ghost predicate AllowedRun<V>(c: Codec<V>, less: (V, V) -> bool, cap: nat, s: seq<V>, ops: seq<Op<V>>) {
    forall i: nat | i < |ops| :: Allowed(c, less, cap, Run(c, less, cap, s, ops[..i]), ops[i])
  }

  /** Heap order, one entry a key, and a length within the capacity. */
  ghost predicate Sound<V>(c: Codec<V>, less: (V, V) -> bool, cap: nat, s: seq<V>) {
    IsHeap(less, s) && DistinctKeys(c, s) && |s| <= cap
  }

  /** Distinct keys are kept by anything that only rearranges or drops entries. */
  lemma FewerKeepDistinct<V>(c: Codec<V>, s: seq<V>, t: seq<V>)
    requires DistinctKeys(c, s) && multiset(t) <= multiset(s)
    ensures DistinctKeys(c, t) && |t| <= |s|
  {
    assert |multiset(t)| <= |multiset(s)| by {
      assert multiset(s) == multiset(t) + (multiset(s) - multiset(t));
    }
    forall p: nat, q: nat | p < q < |t| ensures c.key(t[p]) != c.key(t[q]) {
      assert t[p] in multiset(t) && t[q] in multiset(t);
      assert t[p] in multiset(s) && t[q] in multiset(s);
      var i: nat :| i < |s| && s[i] == t[p];
      var j: nat :| j < |s| && s[j] == t[q];
      DistinctOccurOnce(c, s, i);
      Repeated(t, p, q);
    }
  }

  lemma Repeated<V>(t: seq<V>, p: nat, q: nat)
    requires p < q < |t|
    ensures t[p] == t[q] ==> multiset(t)[t[p]] >= 2
  {
    assert t == t[..p] + ([t[p]] + (t[p + 1..q] + ([t[q]] + t[q + 1..])));
  }

  lemma StepKeeps<V(!new)>(c: Codec<V>, less: (V, V) -> bool, cap: nat, s: seq<V>, op: Op<V>)
    requires Ordered(c, less) && Sound(c, less, cap, s) && Allowed(c, less, cap, s, op)
    ensures Sound(c, less, cap, Step(c, less, cap, s, op))
  {
    match op
    case Insert(v) => if |s| < cap { InsertKeeps(c, less, cap, s, v); }
    case Extract => if s != [] { ExtractKeeps(c, less, cap, s); }
    case InsertExtract(v) =>
      if s == [] || |s| != cap {
        InsertKeeps(c, less, cap, s, v);
      } else if !less(v, s[0]) {
        ExtractKeeps(c, less, cap, s);
        EvictedKeyGoes(c, less, cap, s, v);
        InsertKeeps(c, less, cap, Extracted(less, s), v);
      }
    case ChangeKey(v) =>
      if HasKey(c, s, c.key(v)) {
        var i := Position(c, s, c.key(v));
        ChangedIsHeap(less, s, i, v);
        OverwriteKeepsDistinct(c, s, i, v);
        assert multiset(s[i := v]) == multiset(s) - multiset{s[i]} + multiset{v};
        FewerKeepDistinct(c, s[i := v], Changed(less, s, i, v));
      }
    case RemoveItem(key) =>
      if HasKey(c, s, key) {
        var i := Position(c, s, key);
        RemovedIsHeap(less, s, i);
        FewerKeepDistinct(c, s, Removed(less, s, i));
      }
    case Clear =>
  }

  lemma InsertKeeps<V(!new)>(c: Codec<V>, less: (V, V) -> bool, cap: nat, s: seq<V>, v: V)
    requires Ordered(c, less) && Sound(c, less, cap, s) && |s| < cap && !HasKey(c, s, c.key(v))
    ensures Sound(c, less, cap, Inserted(less, s, v))
  {
    InsertedIsHeap(less, s, v);
    AppendKeepsDistinct(c, s, v);
    FewerKeepDistinct(c, s + [v], Inserted(less, s, v));
  }

  lemma ExtractKeeps<V(!new)>(c: Codec<V>, less: (V, V) -> bool, cap: nat, s: seq<V>)
    requires Ordered(c, less) && Sound(c, less, cap, s) && s != []
    ensures Sound(c, less, cap, Extracted(less, s)) && |Extracted(less, s)| == |s| - 1
  {
    ExtractTakesLeast(less, s);
    FewerKeepDistinct(c, s, Extracted(less, s));
    assert |multiset(Extracted(less, s))| == |multiset(s)| - 1;
  }

  /** What offering demands of the key is exactly what keeps keys distinct. */
  lemma OfferableExactly<V(!new)>(c: Codec<V>, less: (V, V) -> bool, cap: nat, s: seq<V>, v: V)
    requires Ordered(c, less) && Sound(c, less, cap, s) && 0 < cap
    ensures Offerable(c, less, cap, s, v) <==> DistinctKeys(c, Offered(less, cap, s, v))
  {
    if Offerable(c, less, cap, s, v) {
      StepKeeps(c, less, cap, s, InsertExtract(v));
    } else {
      var i: nat :| i < |s| && c.key(s[i]) == c.key(v) && !(|s| == cap && (less(v, s[0]) || i == 0));
      if |s| != cap {
        InsertedIsHeap(less, s, v);
        Collide(c, multiset(s), s[i], v, Inserted(less, s, v));
      } else {
        ExtractTakesLeast(less, s);
        DistinctOccurOnce(c, s, 0);
        assert c.key(s[i]) != c.key(s[0]) && s[i] in multiset(s);
        InsertedIsHeap(less, Extracted(less, s), v);
        Collide(c, multiset(Extracted(less, s)), s[i], v, Inserted(less, Extracted(less, s), v));
      }
    }
  }

  lemma Collide<V>(c: Codec<V>, m: multiset<V>, x: V, v: V, t: seq<V>)
    requires multiset(t) == m + multiset{v} && x in m && c.key(x) == c.key(v)
    ensures !DistinctKeys(c, t)
  {
    assert x in multiset(t) && v in multiset(t);
    var p: nat :| p < |t| && t[p] == x;
    var q: nat :| q < |t| && t[q] == v;
    if DistinctKeys(c, t) {
      assert p == q;
      DistinctOccurOnce(c, t, p);
    }
  }

  /** Every run keeps heap order, distinct keys and the capacity. */
  lemma {:induction false} RunKeeps<V(!new)>(c: Codec<V>, less: (V, V) -> bool, cap: nat, s: seq<V>, ops: seq<Op<V>>)
    requires Ordered(c, less) && Sound(c, less, cap, s) && AllowedRun(c, less, cap, s, ops)
    ensures Sound(c, less, cap, Run(c, less, cap, s, ops))
  {
    if ops == [] {
      assert Run(c, less, cap, s, ops) == s;
    } else {
      var last := |ops| - 1;
      hide *;
      RunNext(c, less, cap, s, ops);
      RunKeeps(c, less, cap, s, ops[..last]);
      StepKeeps(c, less, cap, Run(c, less, cap, s, ops[..last]), ops[last]);
    }
  }

  lemma RunNext<V>(c: Codec<V>, less: (V, V) -> bool, cap: nat, s: seq<V>, ops: seq<Op<V>>)
    requires AllowedRun(c, less, cap, s, ops) && ops != []
    ensures var last := |ops| - 1;
            && AllowedRun(c, less, cap, s, ops[..last])
            && Allowed(c, less, cap, Run(c, less, cap, s, ops[..last]), ops[last])
            && Run(c, less, cap, s, ops) == Step(c, less, cap, Run(c, less, cap, s, ops[..last]), ops[last])
  {
    hide *;
    RunIsStep(c, less, cap, s, ops);
    AllowedAt(c, less, cap, s, ops, |ops| - 1);
    AllowedPrefix(c, less, cap, s, ops, |ops| - 1);
  }

  lemma RunIsStep<V>(c: Codec<V>, less: (V, V) -> bool, cap: nat, s: seq<V>, ops: seq<Op<V>>)
    requires ops != []
    ensures var last := |ops| - 1;
            Run(c, less, cap, s, ops) == Step(c, less, cap, Run(c, less, cap, s, ops[..last]), ops[last])
  {
    hide Step, Allowed;
  }

  lemma AllowedAt<V>(c: Codec<V>, less: (V, V) -> bool, cap: nat, s: seq<V>, ops: seq<Op<V>>, i: nat)
    requires AllowedRun(c, less, cap, s, ops) && i < |ops|
    ensures Allowed(c, less, cap, Run(c, less, cap, s, ops[..i]), ops[i])
  {
    hide Run, Allowed;
  }

  lemma AllowedPrefix<V>(c: Codec<V>, less: (V, V) -> bool, cap: nat, s: seq<V>, ops: seq<Op<V>>, n: nat)
    requires AllowedRun(c, less, cap, s, ops) && n <= |ops|
    ensures AllowedRun(c, less, cap, s, ops[..n])
  {
    hide Run, Allowed;
    forall i: nat | i < n ensures Allowed(c, less, cap, Run(c, less, cap, s, ops[..n][..i]), ops[..n][i]) {
      assert ops[..n][..i] == ops[..i];
      AllowedAt(c, less, cap, s, ops, i);
    }
  }

  /** Over every allowed run on the store, the bytes decode to the heap that the run on sequences leaves, and
      nothing outside the domain changes. */
  method Execute<V(!new)>(h: IndexHeap<V>, ops: seq<Op<V>>)
    requires h.Valid() && AllowedRun(h.inner.codec, h.less, h.inner.capacity, h.Items(), ops)
    modifies h.inner.store
    ensures h.Valid()
    ensures h.Items() == Run(h.inner.codec, h.less, h.inner.capacity, old(h.Items()), ops)
    ensures Outside(h.inner.store.data, h.inner.domain) == old(Outside(h.inner.store.data, h.inner.domain))
  {
    ghost var c, cap, s := h.inner.codec, h.inner.capacity, h.Items();
    var i := 0;
    assert ops[..0] == [];
    while i < |ops|
      invariant i <= |ops|
      invariant h.Valid() && h.Items() == Run(c, h.less, cap, s, ops[..i])
      invariant Outside(h.inner.store.data, h.inner.domain) == old(Outside(h.inner.store.data, h.inner.domain))
    {
      assert Allowed(c, h.less, cap, Run(c, h.less, cap, s, ops[..i]), ops[i]);
      Apply(h, ops[i]);
      assert ops[..i + 1][..i] == ops[..i];
      i := i + 1;
    }
    assert ops[..i] == ops;
  }

  method Apply<V(!new)>(h: IndexHeap<V>, op: Op<V>)
    requires h.Valid() && Allowed(h.inner.codec, h.less, h.inner.capacity, h.Items(), op)
    modifies h.inner.store
    ensures h.Valid()
    ensures h.Items() == Step(h.inner.codec, h.less, h.inner.capacity, old(h.Items()), op)
    ensures Outside(h.inner.store.data, h.inner.domain) == old(Outside(h.inner.store.data, h.inner.domain))
  {
    match op
    case Insert(v) => var r := h.Insert(v);
    case Extract => var r := h.Extract();
    case InsertExtract(v) => var r := h.InsertExtract(v);
    case ChangeKey(v) => h.ChangeKey(v);
    case RemoveItem(key) => h.RemoveItem(key);
    case Clear => h.Clear();
  }

  /** Extract until the heap is empty: the values come out sorted and only the length cell is left. */
  method Drain<V(!new)>(h: IndexHeap<V>) returns (values: seq<V>)
    requires h.Valid()
    modifies h.inner.store
    ensures h.Valid() && h.Items() == []
    ensures values == Drained(h.less, old(h.Items()))
    ensures Sorted(h.less, values) && multiset(values) == multiset(old(h.Items()))
    ensures old(h.Items()) != [] ==> |Inside(h.inner.store.data, h.inner.domain)| == 1
    ensures Outside(h.inner.store.data, h.inner.domain) == old(Outside(h.inner.store.data, h.inner.domain))
  {
    ghost var s := h.Items();
    DrainSorts(h.less, s);
    hide Outside, Inside, Sorted, IsHeap;
    values := ExtractAll(h);
    if s != [] { h.Footprint(); }
  }

  method ExtractAll<V(!new)>(h: IndexHeap<V>) returns (values: seq<V>)
    requires h.Valid()
    modifies h.inner.store
    ensures h.Valid() && h.Items() == [] && values == Drained(h.less, old(h.Items()))
    ensures old(h.Items()) != [] ==> LenKey(h.inner.domain) in h.inner.store.data
    ensures Outside(h.inner.store.data, h.inner.domain) == old(Outside(h.inner.store.data, h.inner.domain))
  {
    ghost var s, t, d, m := h.Items(), h.Items(), h.inner.domain, h.inner.store.data;
    hide Outside, IsHeap, Drained, TotalPreorder, DistinctKeys, Lawful;
    values := [];
    while true
      invariant h.Valid() && h.Items() == t
      invariant Drained(h.less, s) == values + Drained(h.less, t)
      invariant t != s ==> LenKey(d) in h.inner.store.data
      invariant Outside(h.inner.store.data, d) == Outside(m, d)
      decreases |t|
    {
      DrainTakes(h.less, t);
      var next := h.Extract();
      if next == None {
        break;
      }
      TakeFirst(values, next.value, Drained(h.less, h.Items()));
      values := values + [next.value];
      t := h.Items();
    }
  }

  lemma TakeFirst<V>(a: seq<V>, x: V, b: seq<V>)
    ensures a + ([x] + b) == a + [x] + b
  {
  }

  lemma DrainTakes<V(!new)>(less: (V, V) -> bool, s: seq<V>)
    requires TotalPreorder(less) && IsHeap(less, s)
    ensures Drained(less, s) == if s == [] then [] else [s[0]] + Drained(less, Extracted(less, s))
    ensures s != [] ==> |Extracted(less, s)| < |s|
  {
  }

  // ---------- entries by key ----------

  /** After `change_key` the key has the new value and every other key has the value it had. */
  lemma ChangedByKey<V(!new)>(c: Codec<V>, less: (V, V) -> bool, cap: nat, s: seq<V>, v: V, w: V)
    requires Ordered(c, less) && Sound(c, less, cap, s) && HasKey(c, s, c.key(v))
    ensures var s' := Step(c, less, cap, s, ChangeKey(v));
            w in s' <==> w == v || (w in s && c.key(w) != c.key(v))
  {
    var i := Position(c, s, c.key(v));
    var s' := Changed(less, s, i, v);
    ChangedIsHeap(less, s, i, v);
    DistinctOccurOnce(c, s, i);
    assert w in s' <==> w in multiset(s');
    assert w in s <==> w in multiset(s);
    if w in s && c.key(w) == c.key(v) {
      var j: nat :| j < |s| && s[j] == w;
      assert i == j;
    }
  }

  /** After `remove_item` the key is gone and every other entry is there. */
  lemma RemovedByKey<V(!new)>(c: Codec<V>, less: (V, V) -> bool, cap: nat, s: seq<V>, key: Bytes, w: V)
    requires Ordered(c, less) && Sound(c, less, cap, s)
    ensures w in Step(c, less, cap, s, RemoveItem(key)) <==> w in s && c.key(w) != key
  {
    if HasKey(c, s, key) {
      var i := Position(c, s, key);
      var s' := Removed(less, s, i);
      RemovedIsHeap(less, s, i);
      DistinctOccurOnce(c, s, i);
      hide Ordered, IsHeap, Removed;
      assert w in s' <==> w in multiset(s');
      assert w in s <==> w in multiset(s);
      if w in s && c.key(w) == key {
        var j: nat :| j < |s| && s[j] == w;
        assert i == j;
      }
    }
  }

  // ---------- runs of offers ----------

  function Offers<V>(vs: seq<V>): seq<Op<V>> {
    seq(|vs|, i requires 0 <= i < |vs| => InsertExtract(vs[i]))
  }

  /** A heap filled by offers holds nothing but offered values, so the key of a further value is new to it. */
  lemma OfferedKeyIsNew<V(!new)>(c: Codec<V>, less: (V, V) -> bool, n: nat, vs: seq<V>)
    requires Ordered(c, less) && 0 < n && DistinctKeys(c, vs) && vs != []
    ensures !HasKey(c, OfferAll(less, n, vs[..|vs| - 1]), c.key(vs[|vs| - 1]))
  {
    var before := vs[..|vs| - 1];
    var s := OfferAll(less, n, before);
    OfferAllSplits(less, n, before);
    forall i: nat | i < |s| ensures c.key(s[i]) != c.key(vs[|vs| - 1]) {
      assert s[i] in multiset(s);
      assert s[i] in multiset(before);
      var j: nat :| j < |before| && before[j] == s[i];
      assert vs[j] == s[i];
    }
  }

  /** Offering values with distinct keys to an empty heap is an allowed run, and it ends with the values that
      `OfferAll` keeps, so with the greatest ones. */
  lemma {:induction false} OffersKeepGreatest<V(!new)>(c: Codec<V>, less: (V, V) -> bool, n: nat, vs: seq<V>)
    requires Ordered(c, less) && 0 < n && DistinctKeys(c, vs)
    ensures AllowedRun(c, less, n, [], Offers(vs))
    ensures Run(c, less, n, [], Offers(vs)) == OfferAll(less, n, vs)
  {
    if vs == [] {
      assert Offers(vs) == [] && OfferAll(less, n, vs) == [];
    } else {
      var before, v := vs[..|vs| - 1], vs[|vs| - 1];
      assert OfferAll(less, n, vs) == Offered(less, n, OfferAll(less, n, before), v);
      assert Offers(vs) == Offers(before) + [InsertExtract(v)];
      hide *;
      PrefixKeepsDistinct(c, vs, |vs| - 1);
      OffersKeepGreatest(c, less, n, before);
      OfferedKeyIsNew(c, less, n, vs);
      NewIsAllowed(c, less, n, OfferAll(less, n, before), v);
      AllowedOneMore(c, less, n, [], Offers(before), InsertExtract(v));
    }
  }

  lemma NewIsAllowed<V>(c: Codec<V>, less: (V, V) -> bool, n: nat, s: seq<V>, v: V)
    requires 0 < n && !HasKey(c, s, c.key(v))
    ensures Allowed(c, less, n, s, InsertExtract(v))
    ensures Step(c, less, n, s, InsertExtract(v)) == Offered(less, n, s, v)
  {
  }

  lemma AllowedOneMore<V>(c: Codec<V>, less: (V, V) -> bool, cap: nat, s: seq<V>, ops: seq<Op<V>>, op: Op<V>)
    requires AllowedRun(c, less, cap, s, ops) && Allowed(c, less, cap, Run(c, less, cap, s, ops), op)
    ensures AllowedRun(c, less, cap, s, ops + [op])
    ensures Run(c, less, cap, s, ops + [op]) == Step(c, less, cap, Run(c, less, cap, s, ops), op)
  {
    var more := ops + [op];
    hide Run, Allowed, Step;
    assert more[..|ops|] == ops;
    RunIsStep(c, less, cap, s, more);
    forall i: nat | i < |more| ensures Allowed(c, less, cap, Run(c, less, cap, s, more[..i]), more[i]) {
      if i < |ops| {
        assert more[..i] == ops[..i];
        AllowedAt(c, less, cap, s, ops, i);
      }
    }
  }

  // ---------- copying ----------

  /** Resetting a heap from the unordered values of another heap of the same kind copies it index for index, so heap
      order carries over; a heap without room for them is left alone. */
  method CopyHeap<V(!new)>(source: IndexHeap<V>, target: IndexHeap<V>) returns (r: Outcome)
    requires source.Valid() && target.Valid() && source.inner.store == target.inner.store
    requires source.inner.codec == target.inner.codec && source.less == target.less
    requires forall k :: !(Owned(source.inner.domain, k) && Owned(target.inner.domain, k))
    modifies target.inner.store
    ensures source.Valid() && source.Items() == old(source.Items())
    ensures target.Valid()
    ensures r == Ok <==> |old(source.Items())| <= target.inner.capacity
    ensures target.Items() == if r == Ok then old(source.Items()) else old(target.Items())
    ensures Outside(target.inner.store.data, target.inner.domain)
         == old(Outside(target.inner.store.data, target.inner.domain))
  {
    ghost var s, t, before := source.Items(), target.Items(), source.inner.store.data;
    var values := source.UnorderedValues();
    r := target.inner.Reset(values);
    forall k | Owned(source.inner.domain, k) ensures Lookup(before, k) == Lookup(source.inner.store.data, k) {
      OutsideCell(before, source.inner.store.data, target.inner.domain, k);
    }
    InsideDecides(source.inner.codec, before, source.inner.store.data, source.inner.domain, s);
    source.ItemsAre(s);
    target.ItemsAre(if r == Ok then s else t);
  }
}
