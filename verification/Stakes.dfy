/** The values kept in network account heaps and maps: stakes, pool keys and pool addresses, with their keys,
    their orders and their Borsh encodings (fields in order, integers little-endian, vectors length-prefixed). */
module Stakes {
  import opened Bytes
  import opened IndexCells
  import opened IndexHeaps

  // ---------- stakes ----------

  datatype Stake = Stake(owner: Address, power: u64)

  function EncodeStake(s: Stake): Bytes {
    s.owner + Le64(s.power)
  }

  function DecodeStake(b: Bytes): Option<Stake> {
    if |b| == 40 then Some(Stake(b[..32], FromLe64(b[32..]))) else None
  }

  /** Stakes compare by power only, so stakes of different owners can tie. */
  predicate StakeLess(a: Stake, b: Stake) {
    a.power < b.power
  }

  function StakeCodec(): Codec<Stake> {
    Codec((s: Stake) => s.owner, EncodeStake, DecodeStake)
  }

  lemma StakesOrdered()
    ensures Lawful(StakeCodec()) && Ordered(StakeCodec(), StakeLess)
  {
  }

  /** Stakes tie exactly if they have the same power, whoever owns them. */
  lemma StakesTie(a: Stake, b: Stake)
    ensures !StakeLess(a, b) && !StakeLess(b, a) <==> a.power == b.power
    ensures StakeLess(a, b) <==> a.power < b.power
  {
  }

  function EncodeOptionalStake(s: Option<Stake>): Bytes {
    match s case None => [0] case Some(v) => [1] + EncodeStake(v)
  }

  function DecodeOptionalStake(b: Bytes): Option<Option<Stake>> {
    if b == [0] then Some(None)
    else if b != [] && b[0] == 1 && DecodeStake(b[1..]).Some? then Some(DecodeStake(b[1..]))
    else None
  }

  lemma OptionalStakeRoundTrip(s: Option<Stake>)
    ensures DecodeOptionalStake(EncodeOptionalStake(s)) == Some(s)
  {
  }

  // ---------- pool addresses ----------

  datatype PoolAddress = PoolAddress(address: Address)

  function DecodePoolAddress(b: Bytes): Option<PoolAddress> {
    if |b| == 32 then Some(PoolAddress(b)) else None
  }

  function PoolAddressCodec(): Codec<PoolAddress> {
    Codec((a: PoolAddress) => a.address, (a: PoolAddress) => a.address, DecodePoolAddress)
  }

  // ---------- pool keys ----------

  datatype PoolKey = PoolKey(operator: Address, power: u64)

  function EncodePoolKey(k: PoolKey): Bytes {
    Le32(32) + k.operator + Le64(k.power)
  }

  function DecodePoolKey(b: Bytes): Option<PoolKey> {
    if |b| == 44 && FromLe32(b[..4]) == 32 then Some(PoolKey(b[4..36], FromLe64(b[36..]))) else None
  }

  /** Byte strings compare lexicographically. */
  predicate LexLess(a: Bytes, b: Bytes) {
    b != [] && (a == [] || a[0] < b[0] || (a[0] == b[0] && LexLess(a[1..], b[1..])))
  }

  /** Pool keys compare by power and then by operator. */
  predicate PoolKeyLess(a: PoolKey, b: PoolKey) {
    a.power < b.power || (a.power == b.power && LexLess(a.operator, b.operator))
  }

  function PoolKeyCodec(): Codec<PoolKey> {
    Codec((k: PoolKey) => k.operator, EncodePoolKey, DecodePoolKey)
  }

  /** What the values are keyed by. */
  lemma KeyedBy(stake: Stake, pool: PoolKey, address: PoolAddress)
    ensures StakeCodec().key(stake) == stake.owner
    ensures PoolKeyCodec().key(pool) == pool.operator
    ensures PoolAddressCodec().key(address) == address.address
  {
  }

  /** The bytes they are written as. */
  lemma WrittenAs(stake: Stake, pool: PoolKey, address: PoolAddress)
    ensures StakeCodec().encode(stake) == stake.owner + Le64(stake.power)
    ensures PoolKeyCodec().encode(pool) == [32, 0, 0, 0] + pool.operator + Le64(pool.power)
    ensures PoolAddressCodec().encode(address) == address.address
    ensures EncodeOptionalStake(None) == [0]
            && EncodeOptionalStake(Some(stake)) == [1] + stake.owner + Le64(stake.power)
  {
    FourBytes(32, 0, 0, 0);
    Le32Onto([32, 0, 0, 0]);
    assert [1] + (stake.owner + Le64(stake.power)) == [1] + stake.owner + Le64(stake.power);
  }

  /** Which bytes decode, and that they are the encoding of what they decode to. */
  lemma Decodes(b: Bytes)
    ensures StakeCodec().decode(b).Some? <==> |b| == 40
    ensures StakeCodec().decode(b).Some? ==> StakeCodec().encode(StakeCodec().decode(b).value) == b
    ensures PoolKeyCodec().decode(b).Some? <==> |b| == 44 && b[..4] == [32, 0, 0, 0]
    ensures PoolKeyCodec().decode(b).Some? ==> PoolKeyCodec().encode(PoolKeyCodec().decode(b).value) == b
    ensures PoolAddressCodec().decode(b).Some? <==> |b| == 32
    ensures PoolAddressCodec().decode(b).Some? ==> PoolAddressCodec().encode(PoolAddressCodec().decode(b).value) == b
    ensures DecodeOptionalStake(b).Some? <==> b == [0] || (|b| == 41 && b[0] == 1)
    ensures DecodeOptionalStake(b).Some? ==> EncodeOptionalStake(DecodeOptionalStake(b).value) == b
  {
    StakeDecodes(b);
    PoolKeyDecodes(b);
    if |b| == 41 {
      StakeDecodes(b[1..]);
      assert b == [b[0]] + b[1..];
    }
  }

  lemma StakeDecodes(b: Bytes)
    ensures |b| == 40 ==> EncodeStake(DecodeStake(b).value) == b
  {
    if |b| == 40 {
      Le64Onto(b[32..]);
      assert b == b[..32] + b[32..];
    }
  }

  lemma PoolKeyDecodes(b: Bytes)
    ensures |b| == 44 ==> (FromLe32(b[..4]) == 32 <==> b[..4] == [32, 0, 0, 0])
    ensures |b| == 44 && b[..4] == [32, 0, 0, 0] ==> EncodePoolKey(DecodePoolKey(b).value) == b
  {
    if |b| == 44 {
      FourBytes(32, 0, 0, 0);
      Le32Onto(b[..4]);
      Le32Onto([32, 0, 0, 0]);
      Le64Onto(b[36..]);
      assert b == b[..4] + b[4..36] + b[36..];
    }
  }

  lemma {:induction false} LexTotal(a: Bytes, b: Bytes)
    ensures LexLess(a, b) ==> !LexLess(b, a)
    ensures !LexLess(a, b) && !LexLess(b, a) ==> a == b
  {
    if a != [] && b != [] {
      LexTotal(a[1..], b[1..]);
      if a[0] == b[0] && a[1..] == b[1..] {
        assert a == [a[0]] + a[1..] && b == [b[0]] + b[1..];
      }
    }
  }

  lemma {:induction false} LexTransitive(a: Bytes, b: Bytes, c: Bytes)
    requires !LexLess(b, a) && !LexLess(c, b)
    ensures !LexLess(c, a)
  {
    if a != [] && b != [] && c != [] {
      if a[0] == b[0] == c[0] { LexTransitive(a[1..], b[1..], c[1..]); }
    }
  }

  lemma {:induction false} DifferenceIsLess(a: Bytes, b: Bytes, i: nat)
    requires i < |a| == |b| && a[..i] == b[..i] && a[i] < b[i]
    ensures LexLess(a, b)
  {
    if i > 0 {
      assert a[0] == a[..i][0] && b[0] == b[..i][0];
      assert a[1..][..i - 1] == a[..i][1..] && b[1..][..i - 1] == b[..i][1..];
      DifferenceIsLess(a[1..], b[1..], i - 1);
    }
  }

  lemma {:induction false} LessDiffers(a: Bytes, b: Bytes) returns (i: nat)
    requires |a| == |b| && LexLess(a, b)
    ensures i < |a| && a[..i] == b[..i] && a[i] < b[i]
  {
    if a[0] < b[0] {
      i := 0;
    } else {
      var j := LessDiffers(a[1..], b[1..]);
      i := j + 1;
      assert a[..i] == [a[0]] + a[1..][..j] && b[..i] == [b[0]] + b[1..][..j];
    }
  }

  /** Of two byte strings of one length the smaller is the one with the smaller byte where they first differ. */
  lemma LexByFirstDifference(a: Bytes, b: Bytes)
    requires |a| == |b|
    ensures LexLess(a, b) <==> exists i: nat :: i < |a| && a[..i] == b[..i] && a[i] < b[i]
  {
    if LexLess(a, b) { var i := LessDiffers(a, b); }
    forall i: nat | i < |a| && a[..i] == b[..i] && a[i] < b[i] ensures LexLess(a, b) {
      DifferenceIsLess(a, b, i);
    }
  }

  /** More power always wins; among equal powers the operator that is greater where the two first differ. */
  lemma PoolKeyOrder(a: PoolKey, b: PoolKey)
    ensures a.power < b.power ==> PoolKeyLess(a, b)
    ensures PoolKeyLess(a, b) && a.power == b.power <==>
              a.power == b.power && exists i: nat ::
                  i < 32 && a.operator[..i] == b.operator[..i] && a.operator[i] < b.operator[i]
    ensures PoolKeyLess(a, b) ==> a.power <= b.power
  {
    LexByFirstDifference(a.operator, b.operator);
  }

  /** Pool keys are totally ordered: only equal ones tie. */
  lemma PoolKeysOrdered()
    ensures Lawful(PoolKeyCodec()) && Ordered(PoolKeyCodec(), PoolKeyLess)
    ensures forall a, b :: !PoolKeyLess(a, b) && !PoolKeyLess(b, a) ==> a == b
  {
    forall k: PoolKey ensures DecodePoolKey(EncodePoolKey(k)) == Some(k) {
      var b := EncodePoolKey(k);
      assert b[..4] == Le32(32) && b[4..36] == k.operator && b[36..] == Le64(k.power);
    }
    forall a: PoolKey, b: PoolKey
      ensures PoolKeyLess(a, b) ==> !PoolKeyLess(b, a)
      ensures !PoolKeyLess(a, b) && !PoolKeyLess(b, a) ==> a == b
    {
      LexTotal(a.operator, b.operator);
    }
    forall a: PoolKey, b: PoolKey, c: PoolKey | !PoolKeyLess(b, a) && !PoolKeyLess(c, b) ensures !PoolKeyLess(c, a) {
      if a.power == b.power == c.power { LexTransitive(a.operator, b.operator, c.operator); }
    }
  }
}
