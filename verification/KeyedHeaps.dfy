/** The heaps of the network account in their own terms: pool keys by operator, stakes by owner and by power. */
module KeyedHeaps {
  import opened Bytes
  import opened IndexCells
  import opened HeapOrder
  import opened KeepLargest
  import opened IndexHeaps
  import opened HeapRuns
  import opened Stakes

  // ---------- pool keys ----------

  /** The next validators as `nvp` hands them out. */
  ghost predicate IsPoolHeap(h: IndexHeap<PoolKey>)
    reads h.inner.store
  {
    h.Valid() && h.inner.codec == PoolKeyCodec() && h.less == PoolKeyLess
  }

  predicate HasOperator(s: seq<PoolKey>, operator: Address) {
    exists i: nat :: i < |s| && s[i].operator == operator
  }

  lemma OperatorIsKey(s: seq<PoolKey>, operator: Address, power: u64)
    ensures HasOperator(s, operator) <==> HasKey(PoolKeyCodec(), s, operator)
    ensures PoolKeyCodec().key(PoolKey(operator, power)) == operator
  {
    forall i: nat | i < |s| ensures PoolKeyCodec().key(s[i]) == s[i].operator {}
  }

  /** `get_by(operator)` finds the entry of the operator, if there is one. */
  method FindPool(h: IndexHeap<PoolKey>, operator: Address) returns (r: Option<PoolKey>)
    requires IsPoolHeap(h)
    ensures r.Some? <==> HasOperator(h.Items(), operator)
    ensures r.Some? ==> r.value in h.Items() && r.value.operator == operator
  {
    OperatorIsKey(h.Items(), operator, 0);
    r := h.GetBy(operator);
  }

  /** `change_key`: the operator has the new power, and all other operators keep theirs; for an operator without an
      entry nothing is written. */
  method ChangePower(h: IndexHeap<PoolKey>, operator: Address, power: u64)
    requires IsPoolHeap(h)
    modifies h.inner.store
    ensures IsPoolHeap(h)
            && Outside(h.inner.store.data, h.inner.domain) == old(Outside(h.inner.store.data, h.inner.domain))
    ensures !HasOperator(old(h.Items()), operator) ==> h.inner.store.data == old(h.inner.store.data)
    ensures HasOperator(old(h.Items()), operator) ==>
              forall w :: w in h.Items() <==>
                w == PoolKey(operator, power) || (w in old(h.Items()) && w.operator != operator)
  {
    ghost var s := h.Items();
    OperatorIsKey(s, operator, power);
    PoolHeapIsSound(h);
    hide *;
    h.ChangeKey(PoolKey(operator, power));
    if HasOperator(s, operator) { PowerChanged(h.inner.capacity, s, operator, power); }
    StillPoolHeap(h);
  }

  /** `remove_item`: the entry of the operator goes, and all others stay. */
  method RemovePool(h: IndexHeap<PoolKey>, operator: Address)
    requires IsPoolHeap(h)
    modifies h.inner.store
    ensures IsPoolHeap(h)
            && Outside(h.inner.store.data, h.inner.domain) == old(Outside(h.inner.store.data, h.inner.domain))
    ensures !HasOperator(old(h.Items()), operator) ==> h.inner.store.data == old(h.inner.store.data)
    ensures HasOperator(old(h.Items()), operator) ==>
              forall w :: w in h.Items() <==> w in old(h.Items()) && w.operator != operator
  {
    ghost var s := h.Items();
    OperatorIsKey(s, operator, 0);
    PoolHeapIsSound(h);
    hide *;
    h.RemoveItem(operator);
    if HasOperator(s, operator) { PoolRemoved(h.inner.capacity, s, operator); }
    StillPoolHeap(h);
  }

  lemma PoolHeapIsSound(h: IndexHeap<PoolKey>)
    requires IsPoolHeap(h)
    ensures h.Valid() && Sound(PoolKeyCodec(), PoolKeyLess, h.inner.capacity, h.Items())
    ensures h.inner.codec == PoolKeyCodec() && h.less == PoolKeyLess
  {
    hide Stored, IsHeap, DistinctKeys, Ordered;
  }

  lemma StillPoolHeap(h: IndexHeap<PoolKey>)
    requires h.Valid() && h.inner.codec == PoolKeyCodec() && h.less == PoolKeyLess
    ensures IsPoolHeap(h)
  {
  }

  lemma PowerChanged(cap: nat, s: seq<PoolKey>, operator: Address, power: u64)
    requires Sound(PoolKeyCodec(), PoolKeyLess, cap, s) && HasKey(PoolKeyCodec(), s, operator)
    ensures var s' := Changed(PoolKeyLess, s, Position(PoolKeyCodec(), s, operator), PoolKey(operator, power));
            forall w :: w in s' <==> w == PoolKey(operator, power) || (w in s && w.operator != operator)
  {
    var c, v := PoolKeyCodec(), PoolKey(operator, power);
    var s' := Changed(PoolKeyLess, s, Position(c, s, operator), v);
    PoolKeysOrdered();
    OperatorIsKey(s, operator, power);
    hide Sound, Ordered, Lawful, Changed, Position, HasKey;
    forall w ensures w in s' <==> w == v || (w in s && w.operator != operator) {
      ChangedByKey(c, PoolKeyLess, cap, s, v, w);
      KeyedBy(Stake(operator, 0), w, PoolAddress(operator));
    }
  }

  lemma PoolRemoved(cap: nat, s: seq<PoolKey>, operator: Address)
    requires Sound(PoolKeyCodec(), PoolKeyLess, cap, s) && HasKey(PoolKeyCodec(), s, operator)
    ensures var s' := Removed(PoolKeyLess, s, Position(PoolKeyCodec(), s, operator));
            forall w :: w in s' <==> w in s && w.operator != operator
  {
    var c := PoolKeyCodec();
    var s' := Removed(PoolKeyLess, s, Position(c, s, operator));
    PoolKeysOrdered();
    hide Sound, Ordered, Lawful, Removed, Position, HasKey;
    forall w ensures w in s' <==> w in s && w.operator != operator {
      RemovedByKey(c, PoolKeyLess, cap, s, operator, w);
      KeyedBy(Stake(operator, 0), w, PoolAddress(operator));
    }
  }

  // ---------- stakes ----------

  /** The stakes of a pool as `delegated_stakes` hands them out. */
  ghost predicate IsStakeHeap(h: IndexHeap<Stake>)
    reads h.inner.store
  {
    h.Valid() && h.inner.codec == StakeCodec() && h.less == StakeLess
  }

  predicate HasOwner(s: seq<Stake>, owner: Address) {
    exists i: nat :: i < |s| && s[i].owner == owner
  }

  lemma OwnerIsKey(s: seq<Stake>, owner: Address, power: u64)
    ensures HasOwner(s, owner) <==> HasKey(StakeCodec(), s, owner)
    ensures StakeCodec().key(Stake(owner, power)) == owner
  {
    forall i: nat | i < |s| ensures StakeCodec().key(s[i]) == s[i].owner {}
  }

  /** `get_by(owner)` finds the stake of the owner, if there is one. */
  method FindStake(h: IndexHeap<Stake>, owner: Address) returns (r: Option<Stake>)
    requires IsStakeHeap(h)
    ensures r.Some? <==> HasOwner(h.Items(), owner)
    ensures r.Some? ==> r.value in h.Items() && r.value.owner == owner
  {
    OwnerIsKey(h.Items(), owner, 0);
    r := h.GetBy(owner);
  }

  /** `change_key`: the owner has the new power, and all other owners keep theirs; for an owner without a stake nothing
      is written. */
  method ChangeStake(h: IndexHeap<Stake>, owner: Address, power: u64)
    requires IsStakeHeap(h)
    modifies h.inner.store
    ensures IsStakeHeap(h)
            && Outside(h.inner.store.data, h.inner.domain) == old(Outside(h.inner.store.data, h.inner.domain))
    ensures !HasOwner(old(h.Items()), owner) ==> h.inner.store.data == old(h.inner.store.data)
    ensures HasOwner(old(h.Items()), owner) ==>
              forall w :: w in h.Items() <==> w == Stake(owner, power) || (w in old(h.Items()) && w.owner != owner)
  {
    ghost var s := h.Items();
    OwnerIsKey(s, owner, power);
    StakeHeapIsSound(h);
    hide *;
    h.ChangeKey(Stake(owner, power));
    if HasOwner(s, owner) { StakeChanged(h.inner.capacity, s, owner, power); }
    StillStakeHeap(h);
  }

  /** `remove_item`: the stake of the owner goes, and all others stay. */
  method RemoveStake(h: IndexHeap<Stake>, owner: Address)
    requires IsStakeHeap(h)
    modifies h.inner.store
    ensures IsStakeHeap(h)
            && Outside(h.inner.store.data, h.inner.domain) == old(Outside(h.inner.store.data, h.inner.domain))
    ensures !HasOwner(old(h.Items()), owner) ==> h.inner.store.data == old(h.inner.store.data)
    ensures HasOwner(old(h.Items()), owner) ==>
              forall w :: w in h.Items() <==> w in old(h.Items()) && w.owner != owner
  {
    ghost var s := h.Items();
    OwnerIsKey(s, owner, 0);
    StakeHeapIsSound(h);
    hide *;
    h.RemoveItem(owner);
    if HasOwner(s, owner) { StakeRemoved(h.inner.capacity, s, owner); }
    StillStakeHeap(h);
  }

  /** What an offer of a stake demands of its owner: to have no stake there, unless the offer is refused for its power,
      or evicts that very stake. */
  predicate MayOffer(s: seq<Stake>, cap: nat, v: Stake) {
    forall i: nat | i < |s| && s[i].owner == v.owner :: |s| == cap && (v.power < s[0].power || i == 0)
  }

  /** `insert_extract`: a full heap refuses the stake exactly if its power is below the least one there, and else gives
      up the stake at the root, which has the least power; a stake of equal power is taken. */
  method OfferStake(h: IndexHeap<Stake>, v: Stake) returns (r: Offer<Stake>)
    requires IsStakeHeap(h) && 0 < h.inner.capacity && MayOffer(h.Items(), h.inner.capacity, v)
    modifies h.inner.store
    ensures IsStakeHeap(h)
            && Outside(h.inner.store.data, h.inner.domain) == old(Outside(h.inner.store.data, h.inner.domain))
    ensures forall w | w in old(h.Items()) :: old(h.Items())[0].power <= w.power
    ensures r == Refused <==> |old(h.Items())| == h.inner.capacity && v.power < old(h.Items())[0].power
    ensures r == Refused ==> h.inner.store.data == old(h.inner.store.data)
    ensures r == Accepted(None) <==> |old(h.Items())| < h.inner.capacity
    ensures r == Accepted(None) ==> multiset(h.Items()) == multiset(old(h.Items())) + multiset{v}
    ensures r.Accepted? && r.evicted.Some? ==>
              && r.evicted.value == old(h.Items())[0]
              && multiset(h.Items()) == multiset(old(h.Items())) - multiset{r.evicted.value} + multiset{v}
  {
    ghost var s, cap := h.Items(), h.inner.capacity;
    StakeHeapIsSound(h);
    OfferIsAllowed(s, cap, v);
    hide *;
    r := h.InsertExtract(v);
    StakeOffered(s, cap, v);
    StillStakeHeap(h);
  }

  lemma StakeHeapIsSound(h: IndexHeap<Stake>)
    requires IsStakeHeap(h)
    ensures h.Valid() && Sound(StakeCodec(), StakeLess, h.inner.capacity, h.Items())
    ensures h.inner.codec == StakeCodec() && h.less == StakeLess
  {
    hide Stored, IsHeap, DistinctKeys, Ordered;
  }

  lemma StillStakeHeap(h: IndexHeap<Stake>)
    requires h.Valid() && h.inner.codec == StakeCodec() && h.less == StakeLess
    ensures IsStakeHeap(h)
  {
  }

  lemma OfferIsAllowed(s: seq<Stake>, cap: nat, v: Stake)
    requires MayOffer(s, cap, v)
    ensures Offerable(StakeCodec(), StakeLess, cap, s, v)
  {
  }

  lemma StakeOffered(s: seq<Stake>, cap: nat, v: Stake)
    requires Sound(StakeCodec(), StakeLess, cap, s) && 0 < cap
    ensures forall w | w in s :: s[0].power <= w.power
    ensures |s| <= cap
    ensures |s| == cap ==> (StakeLess(v, s[0]) <==> v.power < s[0].power)
    ensures |s| < cap ==> multiset(Offered(StakeLess, cap, s, v)) == multiset(s) + multiset{v}
    ensures |s| == cap && !StakeLess(v, s[0]) ==>
              multiset(Offered(StakeLess, cap, s, v)) == multiset(s) - multiset{s[0]} + multiset{v}
  {
    StakesOrdered();
    forall w | w in s ensures s[0].power <= w.power {
      var i: nat :| i < |s| && s[i] == w;
      RootIsLeast(StakeLess, s, i);
      StakesTie(s[i], s[0]);
    }
    if |s| < cap {
      InsertedIsHeap(StakeLess, s, v);
    } else {
      StakesTie(v, s[0]);
      ExtractTakesLeast(StakeLess, s);
      InsertedIsHeap(StakeLess, Extracted(StakeLess, s), v);
    }
  }

  lemma StakeChanged(cap: nat, s: seq<Stake>, owner: Address, power: u64)
    requires Sound(StakeCodec(), StakeLess, cap, s) && HasKey(StakeCodec(), s, owner)
    ensures var s' := Changed(StakeLess, s, Position(StakeCodec(), s, owner), Stake(owner, power));
            forall w :: w in s' <==> w == Stake(owner, power) || (w in s && w.owner != owner)
  {
    var c, v := StakeCodec(), Stake(owner, power);
    var s' := Changed(StakeLess, s, Position(c, s, owner), v);
    StakesOrdered();
    OwnerIsKey(s, owner, power);
    hide Sound, Ordered, Lawful, Changed, Position, HasKey;
    forall w ensures w in s' <==> w == v || (w in s && w.owner != owner) {
      ChangedByKey(c, StakeLess, cap, s, v, w);
      KeyedBy(w, PoolKey(owner, 0), PoolAddress(owner));
    }
  }

  lemma StakeRemoved(cap: nat, s: seq<Stake>, owner: Address)
    requires Sound(StakeCodec(), StakeLess, cap, s) && HasKey(StakeCodec(), s, owner)
    ensures var s' := Removed(StakeLess, s, Position(StakeCodec(), s, owner));
            forall w :: w in s' <==> w in s && w.owner != owner
  {
    var c := StakeCodec();
    var s' := Removed(StakeLess, s, Position(c, s, owner));
    StakesOrdered();
    hide Sound, Ordered, Lawful, Removed, Position, HasKey;
    forall w ensures w in s' <==> w in s && w.owner != owner {
      RemovedByKey(c, StakeLess, cap, s, owner, w);
      KeyedBy(w, PoolKey(owner, 0), PoolAddress(owner));
    }
  }
}
