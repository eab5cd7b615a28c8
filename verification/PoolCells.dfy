/** How pools and the pools of a validator set lie in the store.

    A pool at prefix `p` has its fields at `p 0` .. `p 3` and a heap of stakes at domain `p 4`. A validator set at
    domain `d` is an indexed map of operator addresses with, nested at `d 3 operator`, a pool for each member. */
module PoolCells {
  import opened Bytes
  import opened KeyValueStore
  import opened IndexCells
  import opened Stakes

  datatype Pool = Pool(operator: Address, commissionRate: u8, power: u64, operatorStake: Option<Stake>)

  /** A pool with its delegated stakes in index order. */
  datatype Entry = Entry(pool: Pool, stakes: seq<Stake>)

  /** A validator set: the operators by index, and what is nested for each. */
  datatype Filling = Filling(ops: seq<PoolAddress>, entries: map<Address, Entry>)

  const OPERATOR: u8 := 0
  const POWER: u8 := 1
  const COMMISSION_RATE: u8 := 2
  const OPERATOR_STAKE: u8 := 3
  const DELEGATED_STAKES: u8 := 4
  const PREFIX_NESTED_MAP: u8 := 3

  function FieldKey(p: Bytes, field: u8): (k: Bytes)
    ensures |k| == |p| + 1 && k[..|p|] == p && k[|p|] == field
  {
    p + [field]
  }

  function NestedPrefix(d: Bytes, operator: Address): (p: Bytes)
    ensures |p| == |d| + 33 && p[..|d|] == d && p[|d|] == PREFIX_NESTED_MAP && p[|d| + 1..] == operator
  {
    d + [PREFIX_NESTED_MAP] + operator
  }

  predicate Under(p: Bytes, k: Bytes) {
    |p| <= |k| && k[..|p|] == p
  }

  /** The part of the store that nothing under prefix `p` touches. */
  function Beyond(m: Cells, p: Bytes): Cells {
    map k | k in m && !Under(p, k) :: m[k]
  }

  predicate SameUnder(m: Cells, m': Cells, p: Bytes) {
    (forall k | k in m && Under(p, k) :: Lookup(m, k) == Lookup(m', k))
    && (forall k | k in m' && Under(p, k) :: Lookup(m, k) == Lookup(m', k))
  }

  // ---------- one pool ----------

  function EncodeU8(n: u8): Bytes {
    [n]
  }

  predicate FieldsHold(m: Cells, p: Bytes, pool: Pool) {
    && Lookup(m, FieldKey(p, OPERATOR)) == Some(pool.operator)
    && Lookup(m, FieldKey(p, POWER)) == Some(Le64(pool.power))
    && Lookup(m, FieldKey(p, COMMISSION_RATE)) == Some(EncodeU8(pool.commissionRate))
    && Lookup(m, FieldKey(p, OPERATOR_STAKE)) == Some(EncodeOptionalStake(pool.operatorStake))
  }

  predicate FieldsAbsent(m: Cells, p: Bytes) {
    forall field: u8 | field <= OPERATOR_STAKE :: FieldKey(p, field) !in m
  }

  /** The four field writes of a push, in the order it makes them. */
  function WithFields(m: Cells, p: Bytes, pool: Pool): Cells {
    m[FieldKey(p, OPERATOR) := pool.operator]
     [FieldKey(p, POWER) := Le64(pool.power)]
     [FieldKey(p, COMMISSION_RATE) := EncodeU8(pool.commissionRate)]
     [FieldKey(p, OPERATOR_STAKE) := EncodeOptionalStake(pool.operatorStake)]
  }

  function WithoutFields(m: Cells, p: Bytes): Cells {
    m - {FieldKey(p, OPERATOR)} - {FieldKey(p, POWER)} - {FieldKey(p, COMMISSION_RATE)} - {FieldKey(p, OPERATOR_STAKE)}
  }

  ghost predicate StakesHold(m: Cells, p: Bytes, max: u32, stakes: seq<Stake>) {
    |stakes| <= max && Stored(StakeCodec(), m, FieldKey(p, DELEGATED_STAKES), stakes)
  }

  /** What is nested at `p`: a pool with its stakes, or nothing but perhaps the length cell of an empty heap. */
  ghost predicate Nested(m: Cells, p: Bytes, max: u32, e: Option<Entry>) {
    match e
    case Some(entry) => FieldsHold(m, p, entry.pool) && StakesHold(m, p, max, entry.stakes)
    case None => FieldsAbsent(m, p) && StakesHold(m, p, max, [])
  }

  lemma NestedDependsOnPrefix(m: Cells, m': Cells, p: Bytes, max: u32, e: Option<Entry>)
    requires Nested(m, p, max, e) && SameUnder(m, m', p)
    ensures Nested(m', p, max, e)
  {
    var d := FieldKey(p, DELEGATED_STAKES);
    var stakes := if e.Some? then e.value.stakes else [];
    forall k | Owned(d, k) ensures Lookup(m, k) == Lookup(m', k) {
      assert k[..|p|] == k[..|d|][..|p|] == p;
    }
    InsideDecides(StakeCodec(), m, m', d, stakes);
    forall field: u8 ensures Lookup(m, FieldKey(p, field)) == Lookup(m', FieldKey(p, field)) {
      assert Under(p, FieldKey(p, field));
    }
  }

  /** The stakes of the pool at `p` lie under `p` and apart from its fields. */
  lemma StakeCells(p: Bytes, k: Bytes)
    requires Owned(FieldKey(p, DELEGATED_STAKES), k)
    ensures Under(p, k) && |p| + 1 < |k| && k[|p|] == DELEGATED_STAKES
  {
  }

  /** The field writes of a push put the pool there and keep the stakes. */
  lemma WriteFields(m: Cells, p: Bytes, max: u32, pool: Pool, stakes: seq<Stake>)
    requires StakesHold(m, p, max, stakes)
    ensures FieldsHold(WithFields(m, p, pool), p, pool) && StakesHold(WithFields(m, p, pool), p, max, stakes)
    ensures Beyond(WithFields(m, p, pool), p) == Beyond(m, p)
  {
    var d := FieldKey(p, DELEGATED_STAKES);
    forall k | Owned(d, k) ensures Lookup(m, k) == Lookup(WithFields(m, p, pool), k) {
      StakeCells(p, k);
    }
    InsideDecides(StakeCodec(), m, WithFields(m, p, pool), d, stakes);
  }

  /** The field deletes leave no field and keep the stakes. */
  lemma DeleteFields(m: Cells, p: Bytes, max: u32, stakes: seq<Stake>)
    requires StakesHold(m, p, max, stakes)
    ensures FieldsAbsent(WithoutFields(m, p), p) && StakesHold(WithoutFields(m, p), p, max, stakes)
    ensures Beyond(WithoutFields(m, p), p) == Beyond(m, p)
  {
    var d := FieldKey(p, DELEGATED_STAKES);
    forall k | Owned(d, k) ensures Lookup(m, k) == Lookup(WithoutFields(m, p), k) {
      StakeCells(p, k);
    }
    InsideDecides(StakeCodec(), m, WithoutFields(m, p), d, stakes);
  }

  /** Stake writes keep the fields and everything beyond the pool. */
  lemma StakesKeepFields(m: Cells, m': Cells, p: Bytes)
    requires Outside(m, FieldKey(p, DELEGATED_STAKES)) == Outside(m', FieldKey(p, DELEGATED_STAKES))
    ensures forall field: u8 | field <= OPERATOR_STAKE ::
            Lookup(m, FieldKey(p, field)) == Lookup(m', FieldKey(p, field))
    ensures Beyond(m, p) == Beyond(m', p)
  {
    var d := FieldKey(p, DELEGATED_STAKES);
    forall field: u8 | field <= OPERATOR_STAKE ensures Lookup(m, FieldKey(p, field)) == Lookup(m', FieldKey(p, field)) {
      OutsideCell(m, m', d, FieldKey(p, field));
    }
    forall k | !Under(p, k) ensures Lookup(m, k) == Lookup(m', k) {
      if Owned(d, k) { StakeCells(p, k); }
      OutsideCell(m, m', d, k);
    }
    SameBeyond(m, m', p);
  }

  lemma SameBeyond(m: Cells, m': Cells, p: Bytes)
    requires forall k | !Under(p, k) :: Lookup(m, k) == Lookup(m', k)
    ensures Beyond(m, p) == Beyond(m', p)
  {
  }

  // ---------- a validator set ----------

  /** The outer map encodes `ops`. Entries of earlier fillings may be left behind, but what is left can be read. */
  ghost predicate OuterHolds(m: Cells, d: Bytes, n: u32, ops: seq<PoolAddress>) {
    |ops| <= n && Linked(PoolAddressCodec(), m, d, ops) && Readable(m, d, n)
  }

  /** Every entry, of this filling or an earlier one, can be read. */
  ghost predicate Readable(m: Cells, d: Bytes, n: u32) {
    && (forall i: u32 | i < n && IvKey(d, i) in m :: |m[IvKey(d, i)]| == 32)
    && (forall key | KiKey(d, key) in m :: Leads(m, d, n, m[KiKey(d, key)]))
  }

  /** An index, within the capacity, of an IV cell that exists. */
  predicate Leads(m: Cells, d: Bytes, n: u32, bytes: Bytes) {
    |bytes| == 4 && FromLe32(bytes) < n && IvKey(d, FromLe32(bytes)) in m
  }

  ghost predicate NestedHold(m: Cells, d: Bytes, max: u32, entries: map<Address, Entry>) {
    forall op: Address :: Nested(m, NestedPrefix(d, op), max, Lookup(entries, op))
  }

  ghost predicate SetHolds(m: Cells, d: Bytes, n: u32, max: u32, f: Filling) {
    && OuterHolds(m, d, n, f.ops)
    && NestedHold(m, d, max, f.entries)
    && (forall op: Address :: op in f.entries <==> PoolAddress(op) in f.ops)
  }

  const EMPTY: Filling := Filling([], map[])

  /** No key belongs both to the outer map and to a nested pool. */
  lemma OwnedNotNested(d: Bytes, op: Address, k: Bytes)
    ensures !(Owned(d, k) && Under(NestedPrefix(d, op), k))
  {
  }

  lemma NestedIsUnder(d: Bytes, op: Address, k: Bytes)
    requires Under(NestedPrefix(d, op), k)
    ensures Under(d, k)
  {
  }

  /** No key belongs to the pools of two operators. */
  lemma UnderOneOnly(d: Bytes, op: Address, other: Address, k: Bytes)
    requires Under(NestedPrefix(d, op), k) && Under(NestedPrefix(d, other), k)
    ensures op == other
  {
  }

  function StakesOf(entries: map<Address, Entry>, op: Address): seq<Stake> {
    if op in entries then entries[op].stakes else []
  }

  /** What `push` leaves: the operator is appended and its nested pool is replaced. A stake list longer than the
      heap of stakes allows is dropped, which keeps the stakes that were there. */
  function Pushed(n: nat, max: nat, f: Filling, pool: Pool, stakes: seq<Stake>): Filling {
    if |f.ops| >= n then f else
      var kept := if |stakes| <= max then stakes else StakesOf(f.entries, pool.operator);
      Filling(f.ops + [PoolAddress(pool.operator)], f.entries[pool.operator := Entry(pool, kept)])
  }

  /** A stake list that `push` handles as a list: it is replaced as a whole or dropped as a whole. The length is taken
      modulo 2^32 before it is compared with the capacity, so only a list of 2^32 stakes or more can fail. */
  predicate Settles(max: u32, stakes: seq<Stake>) {
    |stakes| < TWO_32 || |stakes| % TWO_32 > max
  }

  /** What is nested once the pools of the first `i` operators are deleted. */
  function Remaining(f: Filling, i: nat): map<Address, Entry>
    requires i <= |f.ops|
  {
    map op | op in f.entries && PoolAddress(op) !in f.ops[..i] :: f.entries[op]
  }

  lemma RemainingNext(f: Filling, i: nat)
    requires i < |f.ops|
    ensures Remaining(f, i + 1) == Remaining(f, i) - {f.ops[i].address}
  {
  }

  /** Writes to the outer map stay clear of everything nested. */
  lemma OuterKeepsNested(m: Cells, m': Cells, d: Bytes, max: u32, entries: map<Address, Entry>)
    requires NestedHold(m, d, max, entries) && Outside(m, d) == Outside(m', d)
    ensures NestedHold(m', d, max, entries)
  {
    forall op: Address ensures Nested(m', NestedPrefix(d, op), max, Lookup(entries, op)) {
      var p := NestedPrefix(d, op);
      forall k | Under(p, k) ensures Lookup(m, k) == Lookup(m', k) {
        OwnedNotNested(d, op, k);
        OutsideCell(m, m', d, k);
      }
      NestedDependsOnPrefix(m, m', p, max, Lookup(entries, op));
    }
  }

  lemma BeyondCell(m: Cells, m': Cells, p: Bytes, k: Bytes)
    requires Beyond(m, p) == Beyond(m', p) && !Under(p, k)
    ensures Lookup(m, k) == Lookup(m', k)
  {
    assert k in Beyond(m, p) <==> k in m;
    assert k in Beyond(m', p) <==> k in m';
  }

  /** Writes under one operator's prefix stay clear of the pools of all others. */
  lemma OneNestedChanges(m: Cells, m': Cells, d: Bytes, max: u32, entries: map<Address, Entry>, op: Address,
                         e: Option<Entry>)
    requires NestedHold(m, d, max, entries) && Beyond(m, NestedPrefix(d, op)) == Beyond(m', NestedPrefix(d, op))
    requires Nested(m', NestedPrefix(d, op), max, e)
    ensures NestedHold(m', d, max, match e case Some(v) => entries[op := v] case None => entries - {op})
  {
    var entries' := match e case Some(v) => entries[op := v] case None => entries - {op};
    forall other: Address ensures Nested(m', NestedPrefix(d, other), max, Lookup(entries', other)) {
      if other != op {
        var p, q := NestedPrefix(d, op), NestedPrefix(d, other);
        forall k | Under(q, k) ensures Lookup(m, k) == Lookup(m', k) {
          if Under(p, k) { UnderOneOnly(d, op, other, k); }
          BeyondCell(m, m', p, k);
        }
        NestedDependsOnPrefix(m, m', q, max, Lookup(entries, other));
      }
    }
  }

  /** ... and clear of the outer map. */
  lemma NestedKeepsOuter(m: Cells, m': Cells, d: Bytes, n: u32, ops: seq<PoolAddress>, op: Address)
    requires OuterHolds(m, d, n, ops) && Beyond(m, NestedPrefix(d, op)) == Beyond(m', NestedPrefix(d, op))
    ensures OuterHolds(m', d, n, ops)
    ensures forall key :: KiKey(d, key) in m <==> KiKey(d, key) in m'
  {
    forall k | Owned(d, k) ensures Lookup(m, k) == Lookup(m', k) {
      OwnedNotNested(d, op, k);
      BeyondCell(m, m', NestedPrefix(d, op), k);
    }
    OuterDecides(m, m', d, n, ops);
  }

  /** The outer map is decided by its own cells. */
  lemma OuterDecides(m: Cells, m': Cells, d: Bytes, n: u32, ops: seq<PoolAddress>)
    requires OuterHolds(m, d, n, ops) && forall k | Owned(d, k) :: Lookup(m, k) == Lookup(m', k)
    ensures OuterHolds(m', d, n, ops)
    ensures forall key :: KiKey(d, key) in m <==> KiKey(d, key) in m'
  {
    var c := PoolAddressCodec();
    assert Lookup(m, LenKey(d)) == Lookup(m', LenKey(d));
    forall i: u32 ensures Lookup(m, IvKey(d, i)) == Lookup(m', IvKey(d, i)) {}
    forall key ensures Lookup(m, KiKey(d, key)) == Lookup(m', KiKey(d, key)) {}
    forall i: nat | i < |ops| ensures ValueCell(c, m', d, i, ops[i]) {
      assert ValueCell(c, m, d, i, ops[i]);
    }
    forall i: nat | i < |ops| ensures IndexCell(c, m', d, ops, c.key(ops[i])) {
      assert IndexCell(c, m, d, ops, c.key(ops[i]));
    }
    forall key | KiKey(d, key) in m' ensures Leads(m', d, n, m'[KiKey(d, key)]) {
      assert Leads(m, d, n, m[KiKey(d, key)]);
    }
  }

  /** Writes to the outer map stay under the prefix of the set. */
  lemma OuterStaysUnder(m: Cells, m': Cells, d: Bytes)
    requires Outside(m, d) == Outside(m', d)
    ensures Beyond(m, d) == Beyond(m', d)
  {
    forall k | !Under(d, k) ensures Lookup(m, k) == Lookup(m', k) {
      OutsideCell(m, m', d, k);
    }
    SameBeyond(m, m', d);
  }

  /** Writes to a nested pool stay under the prefix of the set. */
  lemma NestedStaysUnder(m: Cells, m': Cells, d: Bytes, op: Address)
    requires Beyond(m, NestedPrefix(d, op)) == Beyond(m', NestedPrefix(d, op))
    ensures Beyond(m, d) == Beyond(m', d)
  {
    var p := NestedPrefix(d, op);
    forall k | !Under(d, k) ensures Lookup(m, k) == Lookup(m', k) {
      if Under(p, k) { NestedIsUnder(d, op, k); }
      BeyondCell(m, m', p, k);
    }
    SameBeyond(m, m', d);
  }

  lemma OuterLength(m: Cells, d: Bytes, n: u32, ops: seq<PoolAddress>)
    requires OuterHolds(m, d, n, ops)
    ensures LengthReadable(m, d) && LengthOf(m, d) == |ops| <= n
  {
  }

  lemma NestedStakes(m: Cells, d: Bytes, max: u32, entries: map<Address, Entry>, op: Address)
    requires NestedHold(m, d, max, entries)
    ensures StakesHold(m, NestedPrefix(d, op), max, StakesOf(entries, op))
  {
  }

  /** Appending an operator to the outer map, stale entries or not. */
  lemma OuterAppend(m: Cells, d: Bytes, n: u32, ops: seq<PoolAddress>, op: PoolAddress)
    requires OuterHolds(m, d, n, ops) && |ops| < n
    ensures var m' := WithLength(WithEntry(PoolAddressCodec(), m, d, |ops|, op), d, |ops| + 1);
            && OuterHolds(m', d, n, ops + [op])
            && forall key :: KiKey(d, key) in m' <==> KiKey(d, key) in m || key == op.address
  {
    var c := PoolAddressCodec();
    var m1 := WithEntry(c, m, d, |ops|, op);
    AppendEntry(c, m, d, ops, op);
    WritesEntry(c, m, d, |ops|, op);
    WritesLength(m1, d, |ops| + 1);
    hide WithEntry, WithLength, Linked, LenKey, KiKey, IvKey;
    ReadableAppend(m, m1, WithLength(m1, d, |ops| + 1), d, n, |ops|, op);
  }

  lemma ReadableAppend(m: Cells, m1: Cells, m2: Cells, d: Bytes, n: u32, i: u32, op: PoolAddress)
    requires Readable(m, d, n) && i < n
    requires EntryWritten(PoolAddressCodec(), m, m1, d, i, op) && LengthWritten(m1, m2, d, i + 1)
    ensures Readable(m2, d, n)
    ensures forall key :: KiKey(d, key) in m2 <==> KiKey(d, key) in m || key == op.address
  {
    hide LenKey, KiKey, IvKey, NewAreShaped;
    forall key
      ensures Lookup(m2, KiKey(d, key)) == if key == op.address then Some(Le32(i)) else Lookup(m, KiKey(d, key))
    {
    }
    forall j: u32 ensures Lookup(m2, IvKey(d, j)) == if j == i then Some(op.address) else Lookup(m, IvKey(d, j)) {}
    forall key | KiKey(d, key) in m2 ensures Leads(m2, d, n, m2[KiKey(d, key)]) {
      if key != op.address {
        assert Leads(m, d, n, m[KiKey(d, key)]);
      }
    }
  }

  /** Zeroing the length forgets the operators and leaves their entries behind. */
  lemma OuterForget(m: Cells, d: Bytes, n: u32, ops: seq<PoolAddress>)
    requires OuterHolds(m, d, n, ops)
    ensures OuterHolds(WithLength(m, d, 0), d, n, [])
    ensures forall key :: KiKey(d, key) in WithLength(m, d, 0) <==> KiKey(d, key) in m
  {
  }

  lemma NestedFor(m: Cells, d: Bytes, max: u32, entries: map<Address, Entry>, op: Address)
    requires NestedHold(m, d, max, entries)
    ensures Nested(m, NestedPrefix(d, op), max, Lookup(entries, op))
  {
  }

  lemma RemainingBounds(m: Cells, d: Bytes, n: u32, max: u32, f: Filling)
    requires SetHolds(m, d, n, max, f)
    ensures OuterHolds(m, d, n, f.ops) && NestedHold(m, d, max, f.entries)
    ensures Remaining(f, 0) == f.entries && Remaining(f, |f.ops|) == map[]
  {
    hide OuterHolds, NestedHold;
    assert f.ops[..|f.ops|] == f.ops;
  }

  /** The bytes determine the validator set. */
  lemma FillingUnique(m: Cells, d: Bytes, n: u32, max: u32, f: Filling, g: Filling)
    requires SetHolds(m, d, n, max, f) && SetHolds(m, d, n, max, g)
    ensures f == g
  {
    hide *;
    SetParts(m, d, n, max, f);
    SetParts(m, d, n, max, g);
    OpsUnique(m, d, n, f.ops, g.ops);
    forall op: Address | op in f.entries ensures f.entries[op] == g.entries[op] {
      NestedFor(m, d, max, f.entries, op);
      NestedFor(m, d, max, g.entries, op);
      SomeOf(f.entries, op);
      SomeOf(g.entries, op);
      EntryUnique(m, NestedPrefix(d, op), max, f.entries[op], g.entries[op]);
    }
    assert f.entries == g.entries;
  }

  lemma SetParts(m: Cells, d: Bytes, n: u32, max: u32, f: Filling)
    requires SetHolds(m, d, n, max, f)
    ensures OuterHolds(m, d, n, f.ops) && NestedHold(m, d, max, f.entries)
    ensures forall op: Address :: op in f.entries <==> PoolAddress(op) in f.ops
  {
    hide OuterHolds, NestedHold;
  }

  lemma OpsUnique(m: Cells, d: Bytes, n: u32, ops: seq<PoolAddress>, ops': seq<PoolAddress>)
    requires OuterHolds(m, d, n, ops) && OuterHolds(m, d, n, ops')
    ensures ops == ops'
  {
    hide Linked, Readable;
    LinkedUnique(PoolAddressCodec(), m, d, ops, ops');
  }

  lemma SomeOf(entries: map<Address, Entry>, op: Address)
    requires op in entries
    ensures Lookup(entries, op) == Some(entries[op])
  {
  }

  lemma EntryUnique(m: Cells, p: Bytes, max: u32, e: Entry, g: Entry)
    requires Nested(m, p, max, Some(e)) && Nested(m, p, max, Some(g))
    ensures e == g
  {
    StakesOrdered();
    LinkedUnique(StakeCodec(), m, FieldKey(p, DELEGATED_STAKES), e.stakes, g.stakes);
    assert FromLe64(Le64(e.pool.power)) == FromLe64(Le64(g.pool.power));
    OptionalStakeRoundTrip(e.pool.operatorStake);
    OptionalStakeRoundTrip(g.pool.operatorStake);
  }
}
