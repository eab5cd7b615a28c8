/** The heaps the network account uses: pool keys of the next validator set and delegated stakes. */
module NextValidators {
  import opened Bytes
  import opened IndexCells
  import opened HeapOrder
  import opened KeepLargest
  import opened IndexHeaps
  import opened HeapRuns
  import opened Stakes

  /** Offering pools of distinct operators one by one to an empty set of `n` next validators keeps exactly the pools
      that fewer than `n` offered ones exceed, by power and then by operator. */
  lemma NextValidatorsAreTop(n: nat, vs: seq<PoolKey>, v: PoolKey)
    requires 0 < n && DistinctKeys(PoolKeyCodec(), vs)
    ensures AllowedRun(PoolKeyCodec(), PoolKeyLess, n, [], Offers(vs))
    ensures v in Run(PoolKeyCodec(), PoolKeyLess, n, [], Offers(vs))
            <==> v in vs && CountGreater(PoolKeyLess, vs, v) < n
  {
    PoolKeysOrdered();
    OffersKeepGreatest(PoolKeyCodec(), PoolKeyLess, n, vs);
    if v in vs {
      var i: nat :| i < |vs| && vs[i] == v;
      DistinctOccurOnce(PoolKeyCodec(), vs, i);
    }
    KeepsExactlyTop(PoolKeyLess, n, vs, v);
  }

  function HasPower(power: u64): Stake -> bool {
    (x: Stake) => power <= x.power
  }

  /** How many stakes have at least a power. */
  function CountPower(s: seq<Stake>, power: u64): nat {
    Count(HasPower(power), s)
  }

  lemma {:induction false} CountSame<V>(p: V -> bool, q: V -> bool, s: seq<V>)
    requires forall x :: p(x) == q(x)
    ensures Count(p, s) == Count(q, s)
  {
    if s != [] { CountSame(p, q, s[1..]); }
  }

  /** Offering stakes of distinct owners to an empty heap of `n` stakes keeps the `n` greatest powers: at or above
      every power there are as many kept as offered, up to `n`. Which of several owners of equal power are kept is not
      determined. */
  lemma StakesKeepGreatestPowers(n: nat, vs: seq<Stake>, power: u64)
    requires 0 < n && DistinctKeys(StakeCodec(), vs)
    ensures AllowedRun(StakeCodec(), StakeLess, n, [], Offers(vs))
    ensures var kept := Run(StakeCodec(), StakeLess, n, [], Offers(vs));
            && |kept| == (if |vs| < n then |vs| else n)
            && CountPower(kept, power) == if CountPower(vs, power) < n then CountPower(vs, power) else n
  {
    StakesOrdered();
    OffersKeepGreatest(StakeCodec(), StakeLess, n, vs);
    OfferedPowers(n, vs, power);
  }

  lemma OfferedPowers(n: nat, vs: seq<Stake>, power: u64)
    requires TotalPreorder(StakeLess) && 0 < n
    ensures var kept := OfferAll(StakeLess, n, vs);
            && |kept| == (if |vs| < n then |vs| else n)
            && CountPower(kept, power) == if CountPower(vs, power) < n then CountPower(vs, power) else n
  {
    hide OfferAll, TotalPreorder;
    var owner: Address := seq(32, _ => 0);
    var t := Stake(owner, power);
    KeepsGreatest(StakeLess, n, vs, t);
    CountSame(HasPower(power), NotLess(StakeLess, t), vs);
    CountSame(HasPower(power), NotLess(StakeLess, t), OfferAll(StakeLess, n, vs));
  }

  /** The same on the store: the heap of next validators ends up holding exactly the top pools. */
  method OfferPools(h: IndexHeap<PoolKey>, vs: seq<PoolKey>)
    requires h.Valid() && h.Items() == [] && h.inner.codec == PoolKeyCodec() && h.less == PoolKeyLess
    requires 0 < h.inner.capacity && DistinctKeys(PoolKeyCodec(), vs)
    modifies h.inner.store
    ensures h.Valid()
    ensures forall v :: v in h.Items() <==> v in vs && CountGreater(PoolKeyLess, vs, v) < h.inner.capacity
    ensures Outside(h.inner.store.data, h.inner.domain) == old(Outside(h.inner.store.data, h.inner.domain))
  {
    PoolKeysOrdered();
    OffersKeepGreatest(PoolKeyCodec(), PoolKeyLess, h.inner.capacity, vs);
    Execute(h, Offers(vs));
    forall v ensures v in h.Items() <==> v in vs && CountGreater(PoolKeyLess, vs, v) < h.inner.capacity {
      NextValidatorsAreTop(h.inner.capacity, vs, v);
    }
  }
}
