/** Whole runs of pushes and clears on a validator set, and what reading it back gives. */
module PoolRuns {
  import opened Bytes
  import opened IndexCells
  import opened IndexHeaps
  import opened Stakes
  import opened PoolCells
  import opened Pools
  import HeapOrder

  datatype Op = Push(entry: Entry) | Clear

  function Step(n: nat, max: nat, f: Filling, op: Op): Filling {
    match op
    case Push(e) => Pushed(n, max, f, e.pool, e.stakes)
    case Clear => EMPTY
  }

  function Run(n: nat, max: nat, f: Filling, ops: seq<Op>): Filling {
    if ops == [] then f else Step(n, max, Run(n, max, f, ops[..|ops| - 1]), ops[|ops| - 1])
  }

  /** The pushes since the last clear. */
  function SinceClear(ops: seq<Op>): seq<Entry> {
    if ops == [] then [] else
      match ops[|ops| - 1]
      case Push(e) => SinceClear(ops[..|ops| - 1]) + [e]
      case Clear => []
  }

  /** What pushing `es` to an empty set leaves. */
  function Filled(n: nat, max: nat, es: seq<Entry>): Filling {
    if es == [] then EMPTY else
      var e := es[|es| - 1];
      Pushed(n, max, Filled(n, max, es[..|es| - 1]), e.pool, e.stakes)
  }

  /** Only the pushes since the last clear matter, however often the set was filled before. */
  lemma {:induction false} OnlyLastFilling(n: nat, max: nat, ops: seq<Op>)
    ensures Run(n, max, EMPTY, ops) == Filled(n, max, SinceClear(ops))
  {
    if ops != [] {
      var before := ops[..|ops| - 1];
      OnlyLastFilling(n, max, before);
      if ops[|ops| - 1].Push? {
        assert SinceClear(ops)[..|SinceClear(ops)| - 1] == SinceClear(before);
      }
    }
  }

  /** The operator that an operation pushes, unless the set is full. */
  function Accepted(n: nat, f: Filling, op: Op): set<Address> {
    if op.Push? && |f.ops| < n then {op.entry.pool.operator} else {}
  }

  /** The operators of all pushes that were accepted, in any filling. */
  function EverPushed(n: nat, max: nat, f: Filling, ops: seq<Op>): set<Address> {
    if ops == [] then {} else
      var before := ops[..|ops| - 1];
      EverPushed(n, max, f, before) + Accepted(n, Run(n, max, f, before), ops[|ops| - 1])
  }

  lemma RunNone(n: nat, max: nat, f: Filling)
    ensures Run(n, max, f, []) == f && EverPushed(n, max, f, []) == {}
  {
  }

  lemma RunOneMore(n: nat, max: nat, f: Filling, ops: seq<Op>, i: nat)
    requires i < |ops|
    ensures Run(n, max, f, ops[..i + 1]) == Step(n, max, Run(n, max, f, ops[..i]), ops[i])
    ensures EverPushed(n, max, f, ops[..i + 1])
            == EverPushed(n, max, f, ops[..i]) + Accepted(n, Run(n, max, f, ops[..i]), ops[i])
  {
    assert ops[..i + 1][..i] == ops[..i];
    hide Step, Accepted;
  }

  /** Every operator of a set that was empty at first was pushed at some time. */
  lemma {:induction false} MembersWerePushed(n: nat, max: nat, ops: seq<Op>, op: Address)
    requires PoolAddress(op) in Run(n, max, EMPTY, ops).ops
    ensures op in EverPushed(n, max, EMPTY, ops)
  {
    var before := ops[..|ops| - 1];
    if PoolAddress(op) in Run(n, max, EMPTY, before).ops { MembersWerePushed(n, max, before, op); }
  }

  function Operator(e: Entry): Address {
    e.pool.operator
  }

  /** No push after `i`, among the `n` that fit, is for the same operator. */
  ghost predicate LastFor(n: nat, es: seq<Entry>, i: nat)
    requires i < |es|
  {
    forall j: nat | i < j < |es| && j < n :: Operator(es[j]) != Operator(es[i])
  }

  /** The first `n` pushes are accepted, index `i` leads to the operator of the i-th of them, and what is nested there
      is the pool that the last accepted push for that operator brought, with its stakes exactly if they fit. */
  lemma {:induction false} ReadsBackLast(n: nat, max: nat, es: seq<Entry>, i: nat)
    requires i < |es| && i < n
    ensures var f := Filled(n, max, es);
            && |f.ops| == (if |es| < n then |es| else n)
            && f.ops[i] == PoolAddress(Operator(es[i]))
            && Operator(es[i]) in f.entries
            && (LastFor(n, es, i) ==> f.entries[Operator(es[i])].pool == es[i].pool)
            && (LastFor(n, es, i) ==> (f.entries[Operator(es[i])].stakes == es[i].stakes <==> |es[i].stakes| <= max))
  {
    var last := |es| - 1;
    var before := es[..last];
    FilledLength(n, max, before);
    if i < last {
      ReadsBackLast(n, max, before, i);
      LastForPrefix(n, es, i);
      hide Filled, LastFor, Operator, StakesOf;
      FilledNext(n, max, es);
    } else {
      KeptFit(n, max, before);
    }
  }

  lemma FilledNext(n: nat, max: nat, es: seq<Entry>)
    requires es != []
    ensures var e := es[|es| - 1];
            Filled(n, max, es) == Pushed(n, max, Filled(n, max, es[..|es| - 1]), e.pool, e.stakes)
  {
  }

  lemma LastForPrefix(n: nat, es: seq<Entry>, i: nat)
    requires i + 1 < |es|
    ensures var last := |es| - 1;
            LastFor(n, es, i) ==> LastFor(n, es[..last], i) && (last < n ==> Operator(es[last]) != Operator(es[i]))
  {
  }

  /** Every pool is held under its own operator, and no more stakes are held than fit. */
  lemma {:induction false} KeptFit(n: nat, max: nat, es: seq<Entry>)
    ensures forall op | op in Filled(n, max, es).entries ::
              Operator(Filled(n, max, es).entries[op]) == op && |Filled(n, max, es).entries[op].stakes| <= max
  {
    if es != [] { KeptFit(n, max, es[..|es| - 1]); }
  }

  /** Push `j` is accepted, is for `op`, and its stakes fit. */
  predicate Brings(n: nat, max: nat, es: seq<Entry>, op: Address, j: nat)
    requires j < |es|
  {
    j < n && Operator(es[j]) == op && |es[j].stakes| <= max
  }

  /** The stakes of an operator are those of the last accepted push for it whose list fits. */
  lemma {:induction false} StakesAreLastThatFit(n: nat, max: nat, es: seq<Entry>, op: Address, j: nat)
    requires j < |es| && Brings(n, max, es, op, j)
    requires forall k: nat | j < k < |es| :: !Brings(n, max, es, op, k)
    ensures StakesOf(Filled(n, max, es).entries, op) == es[j].stakes
  {
    var last := |es| - 1;
    FilledLength(n, max, es[..last]);
    if j < last {
      assert !Brings(n, max, es, op, last);
      forall k: nat | j < k < last ensures !Brings(n, max, es[..last], op, k) { assert !Brings(n, max, es, op, k); }
      StakesAreLastThatFit(n, max, es[..last], op, j);
    }
  }

  /** An operator none of whose accepted pushes brought a list that fits has no stakes. */
  lemma {:induction false} NoneThatFits(n: nat, max: nat, es: seq<Entry>, op: Address)
    requires forall j: nat | j < |es| :: !Brings(n, max, es, op, j)
    ensures StakesOf(Filled(n, max, es).entries, op) == []
  {
    if es != [] {
      var last := |es| - 1;
      FilledLength(n, max, es[..last]);
      assert !Brings(n, max, es, op, last);
      forall j: nat | j < last ensures !Brings(n, max, es[..last], op, j) { assert !Brings(n, max, es, op, j); }
      NoneThatFits(n, max, es[..last], op);
    }
  }

  /** A push that does not read back: one stake more than fits to an empty set leaves the pool there with no stake. */
  lemma OneStakeTooMany(n: nat, max: nat, pool: Pool, stakes: seq<Stake>)
    requires 0 < n && |stakes| == max + 1
    ensures var f := Run(n, max, EMPTY, [Push(Entry(pool, stakes))]);
            f.ops == [PoolAddress(pool.operator)]
                && Lookup(f.entries, pool.operator) == Some(Entry(pool, [])) != Some(Entry(pool, stakes))
  {
    var op := Push(Entry(pool, stakes));
    assert [op][..0] == [] && Run(n, max, EMPTY, []) == EMPTY;
  }

  lemma {:induction false} FilledLength(n: nat, max: nat, es: seq<Entry>)
    ensures |Filled(n, max, es).ops| == if |es| < n then |es| else n
  {
    if es != [] { FilledLength(n, max, es[..|es| - 1]); }
  }

  /** With distinct operators and stake lists that fit, every index reads back exactly the pool pushed there. */
  lemma ReadsBackAll(n: nat, max: nat, es: seq<Entry>, i: nat)
    requires forall j: nat, k: nat | j < k < |es| :: Operator(es[j]) != Operator(es[k])
    requires forall j: nat | j < |es| :: |es[j].stakes| <= max
    requires i < |es| && i < n
    ensures var f := Filled(n, max, es);
            i < |f.ops| && Lookup(f.entries, f.ops[i].address) == Some(es[i])
  {
    ReadsBackLast(n, max, es, i);
  }

  /** Every push that is accepted brings a stake list that settles. */
  ghost predicate Settling(n: nat, max: u32, f: Filling, ops: seq<Op>) {
    forall i: nat | i < |ops| && ops[i].Push? && |Run(n, max, f, ops[..i]).ops| < n :: Settles(max, ops[i].entry.stakes)
  }

  /** Over every run on the store, the bytes decode to the set that the run on values leaves, and `pool` answers for
      the operators it answered for before and those pushed since. */
  method Execute(v: ValidatorPool, ops: seq<Op>)
    requires v.Valid() && Settling(v.inner.capacity, v.maxStakes, v.Contents(), ops)
    modifies v.inner.store
    ensures v.Valid() && v.Contents() == Run(v.inner.capacity, v.maxStakes, old(v.Contents()), ops)
    ensures forall op: Address :: v.Answers(op) <==>
              old(v.Answers(op)) || op in EverPushed(v.inner.capacity, v.maxStakes, old(v.Contents()), ops)
    ensures Beyond(v.inner.store.data, v.inner.domain) == old(Beyond(v.inner.store.data, v.inner.domain))
  {
    ghost var n, max, f, d, m := v.inner.capacity, v.maxStakes, v.Contents(), v.inner.domain, v.inner.store.data;
    assert forall op: Address :: v.Answers(op) <==> KiKey(d, op) in m;
    var i := 0;
    assert ops[..0] == [];
    RunNone(n, max, f);
    hide *;
    while i < |ops|
      invariant i <= |ops|
      invariant v.Valid() && v.Contents() == Run(n, max, f, ops[..i])
      invariant forall op: Address :: v.Answers(op) <==> KiKey(d, op) in m || op in EverPushed(n, max, f, ops[..i])
      invariant Beyond(v.inner.store.data, d) == Beyond(m, d)
    {
      SettlesAt(n, max, f, ops, i);
      RunOneMore(n, max, f, ops, i);
      Apply(v, ops[i]);
      i := i + 1;
    }
    assert ops[..i] == ops;
  }

  lemma SettlesAt(n: nat, max: u32, f: Filling, ops: seq<Op>, i: nat)
    requires Settling(n, max, f, ops) && i < |ops|
    ensures ops[i].Push? && |Run(n, max, f, ops[..i]).ops| < n ==> Settles(max, ops[i].entry.stakes)
  {
  }

  method Apply(v: ValidatorPool, op: Op)
    requires v.Valid()
    requires op.Push? && |v.Contents().ops| < v.inner.capacity ==> Settles(v.maxStakes, op.entry.stakes)
    modifies v.inner.store
    ensures v.Valid() && v.Contents() == Step(v.inner.capacity, v.maxStakes, old(v.Contents()), op)
    ensures forall a: Address :: v.Answers(a) <==>
              old(v.Answers(a)) || a in Accepted(v.inner.capacity, old(v.Contents()), op)
    ensures Beyond(v.inner.store.data, v.inner.domain) == old(Beyond(v.inner.store.data, v.inner.domain))
  {
    match op
    case Push(e) => var r := v.Push(e.pool, e.stakes);
    case Clear => v.Clear();
  }

  /** From a domain that answers for nobody, `pool` tells membership exactly if every operator that was ever pushed is
      in the current filling. */
  method ExecuteFresh(v: ValidatorPool, ops: seq<Op>)
    requires v.Valid() && v.Contents() == EMPTY && forall op: Address :: !v.Answers(op)
    requires Settling(v.inner.capacity, v.maxStakes, EMPTY, ops)
    modifies v.inner.store
    ensures v.Valid() && v.Contents() == Run(v.inner.capacity, v.maxStakes, EMPTY, ops)
    ensures (forall op: Address :: v.Answers(op) <==> PoolAddress(op) in v.Contents().ops)
       <==> (forall op | op in EverPushed(v.inner.capacity, v.maxStakes, EMPTY, ops) ::
           PoolAddress(op) in v.Contents().ops)
  {
    Execute(v, ops);
    ghost var n, max := v.inner.capacity, v.maxStakes;
    forall op: Address | PoolAddress(op) in v.Contents().ops ensures op in EverPushed(n, max, EMPTY, ops) {
      MembersWerePushed(n, max, ops, op);
    }
  }

  /** After any run from an empty set, `pool_at(i)` leads to the operator of the i-th push since the last clear, and to
      the pool that the last accepted push for that operator brought; the stakes are those of that push exactly if
      they fit. */
  method RunAndRead(v: ValidatorPool, ops: seq<Op>, i: u32) returns (e: Entry)
    requires v.Valid() && v.Contents() == EMPTY && Settling(v.inner.capacity, v.maxStakes, EMPTY, ops)
    requires i < |SinceClear(ops)| && i < v.inner.capacity
    modifies v.inner.store
    ensures v.Valid() && Operator(e) == Operator(SinceClear(ops)[i])
    ensures var es := SinceClear(ops);
            forall j: nat | j < |es| && j < v.inner.capacity && Operator(es[j]) == Operator(e)
                && LastFor(v.inner.capacity, es, j) ::
              e.pool == es[j].pool && (e == es[j] <==> |es[j].stakes| <= v.maxStakes)
  {
    hide *;
    ghost var n, max, es := v.inner.capacity, v.maxStakes, SinceClear(ops);
    Execute(v, ops);
    OnlyLastFilling(n, max, ops);
    IndexIsThere(n, max, es, i);
    e := ReadBack(v, i);
    EntryAt(n, max, es, i, e);
  }

  lemma IndexIsThere(n: nat, max: nat, es: seq<Entry>, i: nat)
    requires i < |es| && i < n
    ensures i < |Filled(n, max, es).ops|
  {
    FilledLength(n, max, es);
  }

  /** What is found under the operator at an index. */
  lemma EntryAt(n: nat, max: nat, es: seq<Entry>, i: nat, e: Entry)
    requires i < |es| && i < n && i < |Filled(n, max, es).ops|
    requires Lookup(Filled(n, max, es).entries, Filled(n, max, es).ops[i].address) == Some(e)
    ensures Operator(e) == Operator(es[i])
    ensures forall j: nat | j < |es| && j < n && Operator(es[j]) == Operator(e) && LastFor(n, es, j) ::
              e.pool == es[j].pool && (e == es[j] <==> |es[j].stakes| <= max)
  {
    ReadsBackLast(n, max, es, i);
    KeptFit(n, max, es);
    hide Filled, LastFor;
    forall j: nat | j < |es| && j < n && Operator(es[j]) == Operator(e) && LastFor(n, es, j)
      ensures e.pool == es[j].pool && (e == es[j] <==> |es[j].stakes| <= max)
    {
      ReadsBackLast(n, max, es, j);
    }
  }

  /** Reading index `index` through `pool_at`: the pool's fields and its stakes in order. */
  method ReadBack(v: ValidatorPool, index: u32) returns (e: Entry)
    requires v.Valid() && index < |v.Contents().ops|
    ensures Lookup(v.Contents().entries, v.Contents().ops[index].address) == Some(e)
  {
    ghost var f := v.Contents();
    ghost var op := f.ops[index].address;
    hide *;
    var found := v.PoolAt(index);
    MemberIsHeld(v, f, index, found.value);
    e := ReadPool(found.value, f.entries[op]);
    SomeOf(f.entries, op);
  }

  /** The dictionary of a member holds its pool and stakes. */
  lemma MemberIsHeld(v: ValidatorPool, f: Filling, index: u32, p: PoolDict)
    requires v.Holds(f) && index < |f.ops| && v.IsPool(p, f.ops[index].address)
    ensures f.ops[index].address in f.entries && p.Holds(Some(f.entries[f.ops[index].address]))
  {
    var op := f.ops[index].address;
    assert PoolAddress(op) in f.ops;
    SetParts(v.inner.store.data, v.inner.domain, v.inner.capacity, v.maxStakes, f);
    NestedFor(v.inner.store.data, v.inner.domain, v.maxStakes, f.entries, op);
    SomeOf(f.entries, op);
    hide SetHolds, Nested;
    assert NestedPrefix(v.inner.domain, op) == p.prefix;
  }

  /** All of a pool that is held: its fields and its stakes in order. */
  method ReadPool(p: PoolDict, ghost held: Entry) returns (e: Entry)
    requires p.Holds(Some(held))
    ensures e == held
  {
    p.HeldIsReadable(Some(held));
    var pool := p.TryIntoPool();
    var h := p.DelegatedStakes();
    StakesOrdered();
    h.inner.ItemsAre(held.stakes);
    var stakes := h.UnorderedValues();
    e := Entry(pool.value, stakes);
  }

  /** Membership cannot be read off `pool`: after one pool is pushed and the set is cleared, `pool` still answers for
      its operator. */
  method ClearedOperatorStillAnswers(v: ValidatorPool, pool: Pool)
    requires v.Valid() && v.Contents() == EMPTY && 0 < v.inner.capacity
    modifies v.inner.store
    ensures v.Valid() && v.Contents() == EMPTY && v.Answers(pool.operator)
  {
    var r := v.Push(pool, []);
    v.Clear();
  }

  /** Stakes pushed in heap order, with distinct owners, are stored as a heap. */
  method PushedStakesAreHeap(v: ValidatorPool, index: u32) returns (h: IndexHeap<Stake>)
    requires v.Valid() && index < |v.Contents().ops| && v.maxStakes <= MAX_CAPACITY
    requires var op := v.Contents().ops[index].address;
             op in v.Contents().entries
             && DistinctKeys(StakeCodec(), v.Contents().entries[op].stakes)
             && HeapOrder.IsHeap(StakeLess, v.Contents().entries[op].stakes)
    ensures h.inner.store == v.inner.store && h.Valid()
    ensures h.Items() == v.Contents().entries[v.Contents().ops[index].address].stakes
  {
    ghost var f := v.Contents();
    ghost var op := f.ops[index].address;
    var found := v.PoolAt(index);
    MemberIsHeld(v, f, index, found.value);
    h := found.value.DelegatedStakes();
    StakesOrdered();
    h.ItemsAre(f.entries[op].stakes);
  }
}
