/** Pools as dictionaries of fields, and the validator set that nests one for each of its members. */
module Pools {
  import opened Bytes
  import opened KeyValueStore
  import opened IndexCells
  import opened IndexMaps
  import opened IndexHeaps
  import opened Stakes
  import opened PoolCells

  class PoolDict {
    const prefix: Bytes
    const store: Store
    const maxStakes: u32

    constructor (prefix: Bytes, store: Store, maxStakes: u32)
      ensures this.prefix == prefix && this.store == store && this.maxStakes == maxStakes
    {
      this.prefix, this.store, this.maxStakes := prefix, store, maxStakes;
    }

    ghost predicate Holds(e: Option<Entry>)
      reads store
    {
      Nested(store.data, prefix, maxStakes, e)
    }

    method Exists() returns (r: bool)
      ensures r <==> prefix + [0] in store.data
      ensures forall e | Holds(e) :: r <==> e.Some?
    {
      r := store.Contains(FieldKey(prefix, OPERATOR));
    }

    /** Nothing if the cell is absent or not an address; the other cells of the pool do not matter. */
    method Operator() returns (r: Option<Address>)
      ensures r.Some? <==> prefix + [0] in store.data && |store.data[prefix + [0]]| == 32
      ensures forall a: Address | Lookup(store.data, prefix + [0]) == Some(a) :: r == Some(a)
      ensures forall e | Holds(e) :: r == if e.Some? then Some(e.value.pool.operator) else None
    {
      var bytes := store.Get(FieldKey(prefix, OPERATOR));
      r := if bytes.Some? && |bytes.value| == 32 then Some(bytes.value) else None;
    }

    method Power() returns (r: Option<u64>)
      ensures r.Some? <==> prefix + [1] in store.data && |store.data[prefix + [1]]| == 8
      ensures forall n: u64 | Lookup(store.data, prefix + [1]) == Some(Le64(n)) :: r == Some(n)
      ensures forall e | Holds(e) :: r == if e.Some? then Some(e.value.pool.power) else None
    {
      var bytes := store.Get(FieldKey(prefix, POWER));
      r := if bytes.Some? && |bytes.value| == 8 then Some(FromLe64(bytes.value)) else None;
    }

    method CommissionRate() returns (r: Option<u8>)
      ensures r.Some? <==> prefix + [2] in store.data && |store.data[prefix + [2]]| == 1
      ensures forall n: u8 | Lookup(store.data, prefix + [2]) == Some([n]) :: r == Some(n)
      ensures forall e | Holds(e) :: r == if e.Some? then Some(e.value.pool.commissionRate) else None
    {
      var bytes := store.Get(FieldKey(prefix, COMMISSION_RATE));
      r := if bytes.Some? && |bytes.value| == 1 then Some(bytes.value[0]) else None;
    }

    /** Reading the operator's stake panics on bytes that do not decode. */
    ghost predicate StakeReadable()
      reads store
    {
      prefix + [3] in store.data ==> DecodeOptionalStake(store.data[prefix + [3]]).Some?
    }

    lemma HeldIsReadable(e: Option<Entry>)
      requires Holds(e)
      ensures StakeReadable()
    {
      assert FieldKey(prefix, OPERATOR_STAKE) == prefix + [3];
      if e.Some? { OptionalStakeRoundTrip(e.value.pool.operatorStake); }
    }

    method OperatorStake() returns (r: Option<Option<Stake>>)
      requires StakeReadable()
      ensures r.Some? <==> prefix + [3] in store.data
      ensures forall s | Lookup(store.data, prefix + [3]) == Some(EncodeOptionalStake(s)) :: r == Some(s)
      ensures forall e | Holds(e) :: r == if e.Some? then Some(e.value.pool.operatorStake) else None
    {
      assert FieldKey(prefix, OPERATOR_STAKE) == prefix + [3];
      forall s: Option<Stake> ensures DecodeOptionalStake(EncodeOptionalStake(s)) == Some(s) {
        OptionalStakeRoundTrip(s);
      }
      hide EncodeOptionalStake, DecodeOptionalStake;
      var bytes := store.Get(FieldKey(prefix, OPERATOR_STAKE));
      r := match bytes case None => None case Some(b) => Some(DecodeOptionalStake(b).value);
    }

    /** The whole pool, or nothing if a field is missing or malformed. */
    method TryIntoPool() returns (r: Option<Pool>)
      requires StakeReadable()
      ensures r.Some? <==>
                && prefix + [0] in store.data && |store.data[prefix + [0]]| == 32
                && prefix + [1] in store.data && |store.data[prefix + [1]]| == 8
                && prefix + [2] in store.data && |store.data[prefix + [2]]| == 1
                && prefix + [3] in store.data
      ensures forall pool | FieldsHold(store.data, prefix, pool) :: r == Some(pool)
      ensures forall e | Holds(e) :: r == if e.Some? then Some(e.value.pool) else None
    {
      var operator := Operator();
      var commissionRate := CommissionRate();
      var power := Power();
      var operatorStake := OperatorStake();
      hide DecodeOptionalStake, EncodeOptionalStake, StakesHold;
      if operator == None || commissionRate == None || power == None || operatorStake == None {
        return None;
      }
      r := Some(Pool(operator.value, commissionRate.value, power.value, operatorStake.value));
    }

    method SetOperator(operator: Address)
      modifies store
      ensures store.data == old(store.data)[prefix + [0] := operator]
    {
      store.Set(FieldKey(prefix, OPERATOR), operator);
    }

    method SetPower(power: u64)
      modifies store
      ensures store.data == old(store.data)[prefix + [1] := Le64(power)]
    {
      store.Set(FieldKey(prefix, POWER), Le64(power));
    }

    method SetCommissionRate(commissionRate: u8)
      modifies store
      ensures store.data == old(store.data)[prefix + [2] := [commissionRate]]
    {
      store.Set(FieldKey(prefix, COMMISSION_RATE), EncodeU8(commissionRate));
    }

    method SetOperatorStake(stake: Option<Stake>)
      modifies store
      ensures store.data == old(store.data)[prefix + [3] := EncodeOptionalStake(stake)]
    {
      store.Set(FieldKey(prefix, OPERATOR_STAKE), EncodeOptionalStake(stake));
    }

    method DelegatedStakes() returns (h: IndexHeap<Stake>)
      ensures fresh(h) && fresh(h.inner) && h.inner.codec == StakeCodec() && h.less == StakeLess
              && h.inner.store == store
      ensures h.inner.domain == FieldKey(prefix, DELEGATED_STAKES) == prefix + [4] && h.inner.capacity == maxStakes
    {
      h := new IndexHeap(StakeCodec(), StakeLess, FieldKey(prefix, DELEGATED_STAKES), store, maxStakes);
    }

    /** Delete the fields and clear the stakes. */
    method Delete()
      requires exists stakes :: StakesHold(store.data, prefix, maxStakes, stakes)
      modifies store
      ensures Holds(None) && Inside(store.data, prefix + [4]) == map[prefix + [4, 0] := Le32(0)]
      ensures Outside(store.data, prefix + [4])
           == Outside(old(store.data) - {prefix + [0], prefix + [1], prefix + [2], prefix + [3]}, prefix + [4])
      ensures Beyond(store.data, prefix) == old(Beyond(store.data, prefix))
    {
      ghost var before := store.data;
      ghost var stakes :| StakesHold(store.data, prefix, maxStakes, stakes);
      store.Delete(FieldKey(prefix, OPERATOR));
      store.Delete(FieldKey(prefix, POWER));
      store.Delete(FieldKey(prefix, COMMISSION_RATE));
      store.Delete(FieldKey(prefix, OPERATOR_STAKE));
      assert store.data == WithoutFields(before, prefix);
      assert store.data == before - {prefix + [0], prefix + [1], prefix + [2], prefix + [3]};
      DeleteFields(before, prefix, maxStakes, stakes);
      hide Outside, Inside, Beyond, StakesHold, WithoutFields;
      ClearStakes(stakes);
    }

    /** `delegated_stakes().clear()`. */
    method ClearStakes(ghost stakes: seq<Stake>)
      requires StakesHold(store.data, prefix, maxStakes, stakes)
      modifies store
      ensures StakesHold(store.data, prefix, maxStakes, [])
      ensures Inside(store.data, prefix + [4]) == map[prefix + [4, 0] := Le32(0)]
      ensures Outside(store.data, prefix + [4]) == old(Outside(store.data, prefix + [4]))
      ensures old(FieldsAbsent(store.data, prefix)) ==> FieldsAbsent(store.data, prefix)
      ensures Beyond(store.data, prefix) == old(Beyond(store.data, prefix))
    {
      ghost var before := store.data;
      var h := DelegatedStakes();
      StakesOrdered();
      h.inner.ItemsAre(stakes);
      h.inner.Clear();
      assert prefix + [4] + [0] == prefix + [4, 0];
      StakesKeepFields(before, store.data, prefix);
    }

    /** `delegated_stakes().reset(stakes)`, with the answer dropped: a list that is too long changes nothing, unless it
        is so long that its length wraps around; then no list of stakes is left. */
    method ResetStakes(stakes: seq<Stake>, ghost before: seq<Stake>)
      requires StakesHold(store.data, prefix, maxStakes, before)
      modifies store
      ensures Settles(maxStakes, stakes) ==>
                StakesHold(store.data, prefix, maxStakes, if |stakes| <= maxStakes then stakes else before)
      ensures !Settles(maxStakes, stakes) ==> forall s :: !StakesHold(store.data, prefix, maxStakes, s)
      ensures Outside(store.data, prefix + [4]) == old(Outside(store.data, prefix + [4]))
      ensures forall pool | old(FieldsHold(store.data, prefix, pool)) :: FieldsHold(store.data, prefix, pool)
      ensures Beyond(store.data, prefix) == old(Beyond(store.data, prefix))
    {
      ghost var m := store.data;
      var h := DelegatedStakes();
      StakesOrdered();
      h.inner.ItemsAre(before);
      var r := h.inner.Reset(stakes);
      forall s | StakesHold(store.data, prefix, maxStakes, s) ensures h.inner.Valid() {
        assert h.inner.Holds(s);
      }
      StakesKeepFields(m, store.data, prefix);
    }
  }

  class ValidatorPool {
    const inner: IndexMap<PoolAddress>
    const maxStakes: u32

    constructor (store: Store, prefix: Bytes, n: u32, m: u32)
      ensures fresh(inner) && inner.codec == PoolAddressCodec() && inner.store == store && inner.domain == prefix
      ensures inner.capacity == n && maxStakes == m
    {
      inner := new IndexMap(PoolAddressCodec(), prefix, store, n);
      maxStakes := m;
    }

    ghost predicate Holds(f: Filling)
      reads inner.store
    {
      inner.codec == PoolAddressCodec() && SetHolds(inner.store.data, inner.domain, inner.capacity, maxStakes, f)
    }

    ghost predicate Valid()
      reads inner.store
    {
      exists f :: Holds(f)
    }

    /** The validator set that the stored bytes decode to. */
    ghost function Contents(): (f: Filling)
      requires Valid()
      reads inner.store
      ensures Holds(f)
    {
      var f :| Holds(f); f
    }

    lemma ContentsAre(f: Filling)
      requires Holds(f)
      ensures Valid() && Contents() == f
    {
      FillingUnique(inner.store.data, inner.domain, inner.capacity, maxStakes, f, Contents());
    }

    /** A domain that was never written holds the empty set. */
    lemma Untouched()
      requires inner.codec == PoolAddressCodec() && forall k | k in inner.store.data :: !Under(inner.domain, k)
      ensures Valid() && Contents() == EMPTY && forall op: Address :: !Answers(op)
    {
      var m, d := inner.store.data, inner.domain;
      forall op: Address ensures Nested(m, NestedPrefix(d, op), maxStakes, None) {
        forall k | Under(NestedPrefix(d, op), k) ensures k !in m {
          NestedIsUnder(d, op, k);
        }
        forall k | Owned(FieldKey(NestedPrefix(d, op), DELEGATED_STAKES), k) ensures k !in m {
          StakeCells(NestedPrefix(d, op), k);
        }
      }
      assert forall key :: KiKey(d, key) !in m;
      assert forall i: u32 :: IvKey(d, i) !in m;
      ContentsAre(EMPTY);
    }

    method Length() returns (n: u32)
      requires Valid()
      ensures n == |Contents().ops|
    {
      n := inner.Length();
    }

    /** The pool of an operator. It answers whenever the operator has a KI entry, also for one of a cleared set. */
    method Pool(operator: Address) returns (r: Option<PoolDict>)
      requires Valid()
      ensures r.Some? <==> inner.domain + [1] + operator in inner.store.data
      ensures PoolAddress(operator) in Contents().ops ==> r.Some?
      ensures r.Some? ==> IsPool(r.value, operator)
    {
      r := PoolOf(operator, Contents().ops);
    }

    /** The dictionary that is nested for an operator. */
    predicate IsPool(p: PoolDict, operator: Address) {
      p.prefix == inner.domain + [3] + operator && p.store == inner.store && p.maxStakes == maxStakes
    }

    /** `pool`, also in the middle of a push. */
    method PoolOf(operator: Address, ghost ops: seq<PoolAddress>) returns (r: Option<PoolDict>)
      requires inner.codec == PoolAddressCodec()
      requires OuterHolds(inner.store.data, inner.domain, inner.capacity, ops)
      ensures r.Some? <==> inner.domain + [1] + operator in inner.store.data
      ensures PoolAddress(operator) in ops ==> r.Some?
      ensures r.Some? ==> IsPool(r.value, operator)
    {
      var m, d := inner.store.data, inner.domain;
      MemberHasIndex(m, d, inner.capacity, ops, operator);
      assert KiKey(d, operator) in m ==> Leads(m, d, inner.capacity, m[KiKey(d, operator)]);
      var address := inner.GetBy(operator);
      if address == None {
        return None;
      }
      var p := new PoolDict(NestedPrefix(d, operator), inner.store, maxStakes);
      r := Some(p);
    }

    /** The address in the IV cell at an index. */
    function AddressAt(index: u32): Bytes
      reads inner.store
      requires inner.domain + [2] + Le32(index) in inner.store.data
    {
      inner.store.data[inner.domain + [2] + Le32(index)]
    }

    /** The pool at an index: the one nested for the address in its IV cell, which below the length is the operator
        there. It answers exactly if the index is below the capacity and has such a cell, left from an earlier filling
        or not, and `pool` answers for the address; so nothing on a set that was never written. */
    method PoolAt(index: u32) returns (r: Option<PoolDict>)
      requires Valid()
      ensures r.Some? <==> && index < inner.capacity && inner.domain + [2] + Le32(index) in inner.store.data
                           && inner.domain + [1] + AddressAt(index) in inner.store.data
      ensures r.Some? ==> |AddressAt(index)| == 32 && IsPool(r.value, AddressAt(index))
      ensures index < |Contents().ops| ==> r.Some? && IsPool(r.value, Contents().ops[index].address)
    {
      r := PoolAtOf(index, Contents().ops);
    }

    /** `pool_at`, also in the middle of a clear. */
    method PoolAtOf(index: u32, ghost ops: seq<PoolAddress>) returns (r: Option<PoolDict>)
      requires inner.codec == PoolAddressCodec()
      requires OuterHolds(inner.store.data, inner.domain, inner.capacity, ops)
      ensures r.Some? <==> && index < inner.capacity && inner.domain + [2] + Le32(index) in inner.store.data
                           && inner.domain + [1] + AddressAt(index) in inner.store.data
      ensures r.Some? ==> |AddressAt(index)| == 32 && IsPool(r.value, AddressAt(index))
      ensures index < |ops| ==> r.Some? && IsPool(r.value, ops[index].address)
    {
      ghost var m, d := inner.store.data, inner.domain;
      assert IvKey(d, index) == d + [2] + Le32(index);
      if index < |ops| {
        assert ValueCell(PoolAddressCodec(), m, d, index, ops[index]);
      }
      var address := inner.Get(index);
      if address == None {
        return None;
      }
      assert address.value.address == AddressAt(index);
      assert index < |ops| ==> address.value == ops[index] && ops[index] in ops;
      hide OuterHolds;
      r := PoolOf(address.value.address, ops);
    }

    /** The operators that `pool` answers for. */
    ghost predicate Answers(operator: Address)
      reads inner.store
    {
      KiKey(inner.domain, operator) in inner.store.data
    }

    /** Push a pool with its stakes, or refuse it when the set is full. No operator or stake owner has to be new. The
        bytes stay those of a set exactly if the push is refused or the stake list settles. */
    method Push(pool: Pool, stakes: seq<Stake>) returns (r: Outcome)
      requires Valid()
      modifies inner.store
      ensures r == Ok <==> |old(Contents()).ops| < inner.capacity
      ensures r == Err ==> inner.store.data == old(inner.store.data)
      ensures Valid() <==> r == Err || Settles(maxStakes, stakes)
      ensures Valid() ==> Contents() == Pushed(inner.capacity, maxStakes, old(Contents()), pool, stakes)
      ensures forall op: Address :: Answers(op) <==> old(Answers(op)) || (r == Ok && op == pool.operator)
      ensures r == Ok ==>
                Beyond(inner.store.data, inner.domain + [3] + pool.operator)
                == Beyond(Appended(old(inner.store.data), inner.domain, |old(Contents()).ops|, pool.operator),
                          inner.domain + [3] + pool.operator)
      ensures Beyond(inner.store.data, inner.domain) == old(Beyond(inner.store.data, inner.domain))
    {
      ghost var f := Contents();
      OuterLength(inner.store.data, inner.domain, inner.capacity, f.ops);
      hide OuterHolds, NestedHold, Beyond, Pushed, Appended, LengthReadable, LengthOf;
      r := AppendOperator(pool.operator, f);
      if r == Err {
        ContentsAre(f);
        return;
      }
      FillPushed(pool, stakes, f);
      if Settles(maxStakes, stakes) {
        ContentsAre(Pushed(inner.capacity, maxStakes, f, pool, stakes));
      }
    }

    /** The push to the outer map. What is nested stays, so an operator that has a pool gets that pool back. */
    method AppendOperator(op: Address, ghost f: Filling) returns (r: Outcome)
      requires Holds(f)
      modifies inner.store
      ensures r == Ok <==> |f.ops| < inner.capacity
      ensures r == Err ==> inner.store.data == old(inner.store.data)
      ensures r == Ok ==> OuterHolds(inner.store.data, inner.domain, inner.capacity, f.ops + [PoolAddress(op)])
      ensures r == Ok ==> inner.store.data == Appended(old(inner.store.data), inner.domain, |f.ops|, op)
      ensures r == Ok ==> forall a: Address :: Answers(a) <==> old(Answers(a)) || a == op
      ensures NestedHold(inner.store.data, inner.domain, maxStakes, f.entries)
      ensures Beyond(inner.store.data, inner.domain) == old(Beyond(inner.store.data, inner.domain))
    {
      ghost var m, d := inner.store.data, inner.domain;
      SetParts(m, d, inner.capacity, maxStakes, f);
      OuterLength(m, d, inner.capacity, f.ops);
      hide OuterHolds, NestedHold, SetHolds, Beyond, Outside, LengthReadable, LengthOf, WithEntry, WithLength, KiKey;
      r := inner.Push(PoolAddress(op));
      AppendLands(m, inner.store.data, d, inner.capacity, maxStakes, f, PoolAddress(op));
    }

    /** Fill the pool of an operator that was just appended; the set is then the one pushed to. */
    method FillPushed(pool: Pool, stakes: seq<Stake>, ghost f: Filling)
      requires inner.codec == PoolAddressCodec() && |f.ops| < inner.capacity
      requires OuterHolds(inner.store.data, inner.domain, inner.capacity, f.ops + [PoolAddress(pool.operator)])
      requires NestedHold(inner.store.data, inner.domain, maxStakes, f.entries)
      requires forall op: Address :: op in f.entries <==> PoolAddress(op) in f.ops
      modifies inner.store
      ensures Settles(maxStakes, stakes) ==> Holds(Pushed(inner.capacity, maxStakes, f, pool, stakes))
      ensures !Settles(maxStakes, stakes) ==> !Valid()
      ensures Beyond(inner.store.data, inner.domain + [3] + pool.operator)
           == old(Beyond(inner.store.data, inner.domain + [3] + pool.operator))
      ensures forall op: Address :: Answers(op) <==> old(Answers(op))
      ensures Beyond(inner.store.data, inner.domain) == old(Beyond(inner.store.data, inner.domain))
    {
      ghost var m := inner.store.data;
      hide OuterHolds, NestedHold, Beyond, StakesHold, FieldsHold, SetHolds, Pushed;
      FillPool(pool, stakes, f);
      PushLands(m, inner.store.data, inner.domain, inner.capacity, maxStakes, f, pool, stakes);
      if !Settles(maxStakes, stakes) {
        forall g ensures !Holds(g) {
          StakesInSet(inner.store.data, inner.domain, inner.capacity, maxStakes, g, pool.operator);
        }
      }
    }

    /** The part of a push after the operator is appended: set the fields and the stakes of its pool. */
    method FillPool(pool: Pool, stakes: seq<Stake>, ghost f: Filling)
      requires inner.codec == PoolAddressCodec()
      requires OuterHolds(inner.store.data, inner.domain, inner.capacity, f.ops + [PoolAddress(pool.operator)])
      requires NestedHold(inner.store.data, inner.domain, maxStakes, f.entries)
      modifies inner.store
      ensures var p := NestedPrefix(inner.domain, pool.operator);
              && Beyond(inner.store.data, p) == old(Beyond(inner.store.data, p))
              && FieldsHold(inner.store.data, p, pool)
              && (Settles(maxStakes, stakes) ==>
                    StakesHold(inner.store.data, p, maxStakes,
                               if |stakes| <= maxStakes then stakes else StakesOf(f.entries, pool.operator)))
              && (!Settles(maxStakes, stakes) ==> forall s :: !StakesHold(inner.store.data, p, maxStakes, s))
    {
      ghost var m, p := inner.store.data, NestedPrefix(inner.domain, pool.operator);
      ghost var before := StakesOf(f.entries, pool.operator);
      NestedStakes(m, inner.domain, maxStakes, f.entries, pool.operator);
      WriteFields(m, p, maxStakes, pool, before);
      var found := PoolOf(pool.operator, f.ops + [PoolAddress(pool.operator)]);
      var pushed := found.value;
      hide OuterHolds, NestedHold, Beyond, StakesHold, FieldsHold;
      pushed.SetOperator(pool.operator);
      pushed.SetPower(pool.power);
      pushed.SetCommissionRate(pool.commissionRate);
      pushed.SetOperatorStake(pool.operatorStake);
      assert inner.store.data == WithFields(m, p, pool);
      pushed.ResetStakes(stakes, before);
    }

    /** Empty the set: delete the pool of every operator, then zero the length. The index entries of the operators
        stay, so `pool` goes on answering for them. */
    method Clear()
      requires Valid()
      modifies inner.store
      ensures Valid() && Contents() == EMPTY
      ensures Lookup(inner.store.data, inner.domain + [0]) == Some(Le32(0))
      ensures forall k | k != inner.domain + [0]
              && (forall a | a in old(Contents()).ops :: !Under(inner.domain + [3] + a.address, k)) ::
                Lookup(inner.store.data, k) == Lookup(old(inner.store.data), k)
      ensures forall op: Address :: Answers(op) <==> old(Answers(op))
      ensures Beyond(inner.store.data, inner.domain) == old(Beyond(inner.store.data, inner.domain))
    {
      ghost var f, d, before := Contents(), inner.domain, inner.store.data;
      hide OuterHolds, NestedHold, Beyond, Outside, Remaining, WithLength;
      RemainingBounds(inner.store.data, d, inner.capacity, maxStakes, f);
      var poolLength := Length();
      ClearPools(poolLength, f);
      ghost var m := inner.store.data;
      forall op: Address ensures KiKey(d, op) in m <==> KiKey(d, op) in before {
        assert Answers(op) <==> KiKey(d, op) in m;
      }
      inner.SetLength(0);
      ClearLands(m, inner.store.data, d, inner.capacity, maxStakes, f.ops);
      ZeroedOnly(before, m, d, f.ops);
      ContentsAre(EMPTY);
    }

    /** The loop of `clear`: the nested pools go, the outer map stays as it was. */
    method ClearPools(poolLength: u32, ghost f: Filling)
      requires inner.codec == PoolAddressCodec() && poolLength == |f.ops|
      requires OuterHolds(inner.store.data, inner.domain, inner.capacity, f.ops)
      requires NestedHold(inner.store.data, inner.domain, maxStakes, Remaining(f, 0))
      modifies inner.store
      ensures OuterHolds(inner.store.data, inner.domain, inner.capacity, f.ops)
      ensures NestedHold(inner.store.data, inner.domain, maxStakes, Remaining(f, |f.ops|))
      ensures SameBut(old(inner.store.data), inner.store.data, inner.domain, f.ops)
      ensures forall op: Address :: Answers(op) <==> old(Answers(op))
      ensures Beyond(inner.store.data, inner.domain) == old(Beyond(inner.store.data, inner.domain))
    {
      ghost var d, n, m := inner.domain, inner.capacity, inner.store.data;
      assert SameBut(m, m, d, f.ops);
      hide *;
      var i: u32 := 0;
      while i < poolLength
        invariant i <= poolLength == |f.ops|
        invariant OuterHolds(inner.store.data, d, n, f.ops)
        invariant NestedHold(inner.store.data, d, maxStakes, Remaining(f, i))
        invariant forall op: Address :: Answers(op) <==> old(Answers(op))
        invariant Beyond(inner.store.data, d) == Beyond(m, d)
        invariant SameBut(m, inner.store.data, d, f.ops)
      {
        var pool := PoolAtOf(i, f.ops);
        ghost var m1 := inner.store.data;
        ClearOnePool(pool.value, f, i);
        assert PoolAddress(f.ops[i].address) in f.ops;
        SameButOne(m, m1, inner.store.data, d, f.ops, f.ops[i].address);
        i := i + 1;
      }
    }

    /** One round of `clear`: empty the stakes of the pool at index `i` and delete the pool. */
    method ClearOnePool(pool: PoolDict, ghost f: Filling, ghost i: nat)
      requires i < |f.ops| && IsPool(pool, f.ops[i].address)
      requires OuterHolds(inner.store.data, inner.domain, inner.capacity, f.ops)
      requires NestedHold(inner.store.data, inner.domain, maxStakes, Remaining(f, i))
      modifies inner.store
      ensures OuterHolds(inner.store.data, inner.domain, inner.capacity, f.ops)
      ensures NestedHold(inner.store.data, inner.domain, maxStakes, Remaining(f, i + 1))
      ensures var p := NestedPrefix(inner.domain, f.ops[i].address);
              Beyond(old(inner.store.data), p) == Beyond(inner.store.data, p)
      ensures forall op: Address :: Answers(op) <==> old(Answers(op))
      ensures Beyond(inner.store.data, inner.domain) == old(Beyond(inner.store.data, inner.domain))
    {
      ghost var m, d, op := inner.store.data, inner.domain, f.ops[i].address;
      NestedStakes(m, d, maxStakes, Remaining(f, i), op);
      hide OuterHolds, NestedHold, Beyond, StakesHold, FieldsHold;
      pool.ClearStakes(StakesOf(Remaining(f, i), op));
      pool.Delete();
      OneNestedChanges(m, inner.store.data, d, maxStakes, Remaining(f, i), op, None);
      NestedKeepsOuter(m, inner.store.data, d, inner.capacity, f.ops, op);
      NestedStaysUnder(m, inner.store.data, d, op);
      RemainingNext(f, i);
    }
  }

  /** The writes of a push to the outer map, or none if the set is full. */
  lemma AppendLands(m: Cells, m': Cells, d: Bytes, n: u32, max: u32, f: Filling, op: PoolAddress)
    requires m' == if |f.ops| < n
                   then WithLength(WithEntry(PoolAddressCodec(), m, d, |f.ops|, op), d, |f.ops| + 1)
                   else m
    requires OuterHolds(m, d, n, f.ops) && NestedHold(m, d, max, f.entries) && Outside(m, d) == Outside(m', d)
    ensures |f.ops| < n ==>
              OuterHolds(m', d, n, f.ops + [op])
              && forall key :: KiKey(d, key) in m' <==> KiKey(d, key) in m || key == op.address
    ensures NestedHold(m', d, max, f.entries) && Beyond(m, d) == Beyond(m', d)
  {
    hide *;
    if |f.ops| < n { OuterAppend(m, d, n, f.ops, op); }
    OuterKeepsNested(m, m', d, max, f.entries);
    OuterStaysUnder(m, m', d);
  }

  /** The cells once an operator is appended to the outer map at an index. */
  function Appended(m: Cells, d: Bytes, index: u32, operator: Address): Cells
    requires index + 1 < TWO_32
  {
    WithLength(WithEntry(PoolAddressCodec(), m, d, index, PoolAddress(operator)), d, index + 1)
  }

  /** Only cells nested for `ops` differ. */
  ghost predicate SameBut(m: Cells, m': Cells, d: Bytes, ops: seq<PoolAddress>) {
    forall k | (forall a | a in ops :: !Under(NestedPrefix(d, a.address), k)) :: Lookup(m, k) == Lookup(m', k)
  }

  lemma ZeroedOnly(m: Cells, m': Cells, d: Bytes, ops: seq<PoolAddress>)
    requires SameBut(m, m', d, ops)
    ensures Lookup(WithLength(m', d, 0), d + [0]) == Some(Le32(0))
    ensures forall k | k != d + [0] && (forall a | a in ops :: !Under(d + [3] + a.address, k)) ::
              Lookup(WithLength(m', d, 0), k) == Lookup(m, k)
  {
    hide Under;
    forall k | k != d + [0] && (forall a | a in ops :: !Under(d + [3] + a.address, k))
      ensures Lookup(WithLength(m', d, 0), k) == Lookup(m, k)
    {
      assert forall a | a in ops :: !Under(NestedPrefix(d, a.address), k);
      assert Lookup(WithLength(m', d, 0), k) == Lookup(m', k);
    }
  }

  lemma SameButOne(m: Cells, m': Cells, m'': Cells, d: Bytes, ops: seq<PoolAddress>, op: Address)
    requires SameBut(m, m', d, ops) && PoolAddress(op) in ops
    requires Beyond(m', NestedPrefix(d, op)) == Beyond(m'', NestedPrefix(d, op))
    ensures SameBut(m, m'', d, ops)
  {
    hide Beyond, Under, NestedPrefix;
    forall k | (forall a | a in ops :: !Under(NestedPrefix(d, a.address), k)) ensures Lookup(m, k) == Lookup(m'', k) {
      assert !Under(NestedPrefix(d, PoolAddress(op).address), k);
      BeyondCell(m', m'', NestedPrefix(d, op), k);
    }
  }

  /** With all nested pools gone, zeroing the length leaves the empty set. */
  lemma ClearLands(m: Cells, m': Cells, d: Bytes, n: u32, max: u32, ops: seq<PoolAddress>)
    requires OuterHolds(m, d, n, ops) && NestedHold(m, d, max, map[])
    requires m' == WithLength(m, d, 0) && Outside(m, d) == Outside(m', d)
    ensures SetHolds(m', d, n, max, EMPTY)
    ensures forall key :: KiKey(d, key) in m' <==> KiKey(d, key) in m
    ensures Beyond(m, d) == Beyond(m', d)
  {
    hide OuterHolds, NestedHold, Beyond, Outside, WithLength;
    OuterForget(m, d, n, ops);
    OuterKeepsNested(m, m', d, max, map[]);
    OuterStaysUnder(m, m', d);
  }

  /** The writes of a push after the operator is appended: the fields and the stakes of its pool. */
  lemma PushLands(m: Cells, m': Cells, d: Bytes, n: u32, max: u32, f: Filling, pool: Pool, stakes: seq<Stake>)
    requires |f.ops| < n && OuterHolds(m, d, n, f.ops + [PoolAddress(pool.operator)])
    requires NestedHold(m, d, max, f.entries)
    requires forall op: Address :: op in f.entries <==> PoolAddress(op) in f.ops
    requires Beyond(m, NestedPrefix(d, pool.operator)) == Beyond(m', NestedPrefix(d, pool.operator))
    requires FieldsHold(m', NestedPrefix(d, pool.operator), pool)
    ensures Beyond(m, d) == Beyond(m', d)
    ensures forall key :: KiKey(d, key) in m <==> KiKey(d, key) in m'
    ensures var op := pool.operator;
            StakesHold(m', NestedPrefix(d, op), max, if |stakes| <= max then stakes else StakesOf(f.entries, op)) ==>
              SetHolds(m', d, n, max, Pushed(n, max, f, pool, stakes))
  {
    var op := pool.operator;
    var kept := if |stakes| <= max then stakes else StakesOf(f.entries, op);
    NestedStaysUnder(m, m', d, op);
    NestedKeepsOuter(m, m', d, n, f.ops + [PoolAddress(op)], op);
    if StakesHold(m', NestedPrefix(d, op), max, kept) {
      OneNestedChanges(m, m', d, max, f.entries, op, Some(Entry(pool, kept)));
    }
  }

  /** In a validator set the stakes nested for every address are those of some list. */
  lemma StakesInSet(m: Cells, d: Bytes, n: u32, max: u32, f: Filling, op: Address)
    ensures SetHolds(m, d, n, max, f) ==> StakesHold(m, NestedPrefix(d, op), max, StakesOf(f.entries, op))
  {
    hide OuterHolds, NestedHold, StakesHold;
    if SetHolds(m, d, n, max, f) { NestedStakes(m, d, max, f.entries, op); }
  }

  lemma MemberHasIndex(m: Cells, d: Bytes, n: u32, ops: seq<PoolAddress>, op: Address)
    requires OuterHolds(m, d, n, ops)
    ensures PoolAddress(op) in ops ==> KiKey(d, op) in m
  {
  }
}
