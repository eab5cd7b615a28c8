/** Deposits: the balance an owner has locked for an operator, and whether rewards are staked. */
module Deposits {
  import opened Bytes
  import opened KeyValueStore
  import opened PoolCells
  import opened NetworkAccount

  class DepositDict {
    const operator: Address
    const owner: Address
    const store: Store

    constructor (operator: Address, owner: Address, store: Store)
      ensures this.operator == operator && this.owner == owner && this.store == store
    {
      this.operator, this.owner, this.store := operator, owner, store;
    }

    /** The cell of a field. */
    function At(field: u8): (k: Bytes)
      ensures k == [4] + operator + owner + [field]
    {
      FieldKey(DepositPrefix(operator, owner), field)
    }

    method Exists() returns (r: bool)
      ensures r <==> At(0) in store.data
    {
      r := store.Contains(At(BALANCE));
    }

    method Balance() returns (r: Option<u64>)
      ensures r.Some? <==> At(0) in store.data && |store.data[At(0)]| == 8
      ensures forall n: u64 | Lookup(store.data, At(0)) == Some(Le64(n)) :: r == Some(n)
    {
      var bytes := store.Get(At(BALANCE));
      r := if bytes.Some? && |bytes.value| == 8 then Some(FromLe64(bytes.value)) else None;
    }

    method SetBalance(balance: u64)
      modifies store
      ensures store.data == old(store.data)[At(0) := Le64(balance)]
      ensures OthersSame(Structure.DepositDict(operator, owner), old(store.data), store.data)
    {
      ghost var before := store.data;
      store.Set(At(BALANCE), Le64(balance));
      StaysInDeposit(before, store.data, At(BALANCE));
    }

    /** Whatever is stored, other than the byte 1, counts as false. */
    method AutoStakeRewards() returns (r: Option<bool>)
      ensures r.Some? <==> At(1) in store.data
      ensures r.Some? ==> (r.value <==> store.data[At(1)] == [1])
    {
      var bytes := store.Get(At(AUTO_STAKE_REWARDS));
      r := match bytes case None => None case Some(b) => Some(b == [1]);
    }

    method SetAutoStakeRewards(autoStakeRewards: bool)
      modifies store
      ensures store.data == old(store.data)[At(1) := if autoStakeRewards then [1] else [0]]
      ensures OthersSame(Structure.DepositDict(operator, owner), old(store.data), store.data)
    {
      ghost var before := store.data;
      store.Set(At(AUTO_STAKE_REWARDS), if autoStakeRewards then [1] else [0]);
      StaysInDeposit(before, store.data, At(AUTO_STAKE_REWARDS));
    }

    method Delete()
      modifies store
      ensures store.data == old(store.data) - {At(0), At(1)}
      ensures OthersSame(Structure.DepositDict(operator, owner), old(store.data), store.data)
    {
      ghost var before := store.data;
      store.Delete(At(BALANCE));
      ghost var middle := store.data;
      store.Delete(At(AUTO_STAKE_REWARDS));
      StaysInDeposit(before, middle, At(BALANCE));
      StaysInDeposit(middle, store.data, At(AUTO_STAKE_REWARDS));
    }

    /** A change to one cell of the deposit leaves the cells of all other structures as they were. */
    lemma StaysInDeposit(m: Cells, m': Cells, k: Bytes)
      requires Under(DepositPrefix(operator, owner), k) && m - {k} == m' - {k}
      ensures OthersSame(Structure.DepositDict(operator, owner), m, m')
    {
      var p := DepositPrefix(operator, owner);
      forall other | !Under(p, other) ensures Lookup(m, other) == Lookup(m', other) {
        assert other in m - {k} <==> other in m;
        assert other in m' - {k} <==> other in m';
      }
      SameBeyond(m, m', p);
      hide OthersSame, Beyond;
      OthersUnchanged(Structure.DepositDict(operator, owner), m, m');
    }
  }

  /** Both fields read back as they were set, in either order, and nothing is left once the deposit is deleted. */
  method SetAndRead(d: DepositDict, balance: u64, autoStakeRewards: bool)
    returns (b: Option<u64>, a: Option<bool>, there: bool)
    modifies d.store
    ensures b == Some(balance) && a == Some(autoStakeRewards) && !there
    ensures d.store.data == old(d.store.data) - {d.At(0), d.At(1)}
  {
    assert d.At(0)[65] == 0 && d.At(1)[65] == 1;
    d.SetBalance(balance);
    d.SetAutoStakeRewards(autoStakeRewards);
    b := d.Balance();
    a := d.AutoStakeRewards();
    d.Delete();
    there := d.Exists();
  }
}
