/** The network account: which byte key each logical cell of its structures has, and why none of them meet. */
module NetworkAccount {
  import opened Bytes
  import opened KeyValueStore
  import opened IndexCells
  import opened IndexMaps
  import opened IndexHeaps
  import opened PoolCells
  import opened Stakes
  import Pools
  import PoolRuns
  import HeapRuns

  const PREV_VALIDATOR_POOLS: u8 := 0
  const VALIDATOR_POOLS: u8 := 1
  const NEXT_VALIDATOR_POOLS: u8 := 2
  const POOLS: u8 := 3
  const DEPOSITS: u8 := 4
  const CURRENT_EPOCH: u8 := 5
  const BALANCE: u8 := 0
  const AUTO_STAKE_REWARDS: u8 := 1

  datatype SetName = Previous | Current
  type PoolField = f: u8 | f <= OPERATOR_STAKE
  type DepositField = f: u8 | f <= AUTO_STAKE_REWARDS

  /** A cell of an indexed map or heap of values keyed by address. */
  datatype MapCell = Length | KeyIndex(key: Address) | IndexValue(index: u32)

  /** A cell of a pool. */
  datatype PoolCell = Field(field: PoolField) | Stakes(cell: MapCell)

  /** A cell of the network account. */
  datatype Cell =
    | SetMap(name: SetName, cell: MapCell)
    | SetPool(name: SetName, operator: Address, pool: PoolCell)
    | NextPools(cell: MapCell)
    | PoolData(operator: Address, pool: PoolCell)
    | Deposit(operator: Address, owner: Address, data: DepositField)
    | CurrentEpoch

  function SetDomain(name: SetName): Bytes {
    match name case Previous => [PREV_VALIDATOR_POOLS] case Current => [VALIDATOR_POOLS]
  }

  function PoolPrefix(operator: Address): Bytes {
    [POOLS] + operator
  }

  function DepositPrefix(operator: Address, owner: Address): Bytes {
    [DEPOSITS] + operator + owner
  }

  function MapKey(d: Bytes, c: MapCell): Bytes {
    match c
    case Length => LenKey(d)
    case KeyIndex(key) => KiKey(d, key)
    case IndexValue(i) => IvKey(d, i)
  }

  function PoolCellKey(p: Bytes, c: PoolCell): Bytes {
    match c
    case Field(f) => FieldKey(p, f)
    case Stakes(cell) => MapKey(FieldKey(p, DELEGATED_STAKES), cell)
  }

  /** The physical key of a cell. */
  function CellKey(c: Cell): Bytes {
    match c
    case SetMap(name, cell) => MapKey(SetDomain(name), cell)
    case SetPool(name, operator, pool) => PoolCellKey(NestedPrefix(SetDomain(name), operator), pool)
    case NextPools(cell) => MapKey([NEXT_VALIDATOR_POOLS], cell)
    case PoolData(operator, pool) => PoolCellKey(PoolPrefix(operator), pool)
    case Deposit(operator, owner, data) => FieldKey(DepositPrefix(operator, owner), data)
    case CurrentEpoch => [CURRENT_EPOCH]
  }

  /** The layout in bytes. */
  lemma Layout(operator: Address, owner: Address, key: Address, i: u32, field: PoolField, data: DepositField)
    ensures SetDomain(Previous) == [0] && SetDomain(Current) == [1]
    ensures forall name, cell :: CellKey(SetMap(name, cell)) == MapKey(SetDomain(name), cell)
    ensures forall name, pool :: CellKey(SetPool(name, operator, pool))
                              == PoolCellKey(SetDomain(name) + [3] + operator, pool)
    ensures forall cell :: CellKey(NextPools(cell)) == MapKey([2], cell)
    ensures forall pool :: CellKey(PoolData(operator, pool)) == PoolCellKey([3] + operator, pool)
    ensures CellKey(Deposit(operator, owner, data)) == [4] + operator + owner + [data]
    ensures CellKey(CurrentEpoch) == [5]
    ensures forall d :: MapKey(d, Length) == d + [0]
    ensures forall d :: MapKey(d, KeyIndex(key)) == d + [1] + key
    ensures forall d :: MapKey(d, IndexValue(i)) == d + [2] + Le32(i)
    ensures forall p :: PoolCellKey(p, Field(field)) == p + [field]
    ensures forall p, cell :: PoolCellKey(p, Stakes(cell)) == MapKey(p + [4], cell)
  {
  }

  // ---------- reading a key back ----------

  /** The map cell whose key is the domain followed by `rest`. */
  function ParseMap(rest: Bytes): Option<MapCell> {
    if rest == [] then None
    else if rest[0] == PREFIX_LEN && |rest| == 1 then Some(Length)
    else if rest[0] == PREFIX_KEY_INDEX && |rest| == 33 then Some(KeyIndex(rest[1..]))
    else if rest[0] == PREFIX_INDEX_VALUE && |rest| == 5 then Some(IndexValue(FromLe32(rest[1..])))
    else None
  }

  function ParsePool(rest: Bytes): Option<PoolCell> {
    if rest == [] then None
    else if rest[0] <= OPERATOR_STAKE then (if |rest| == 1 then Some(Field(rest[0])) else None)
    else if rest[0] == DELEGATED_STAKES then
      match ParseMap(rest[1..]) case None => None case Some(c) => Some(Stakes(c))
    else None
  }

  function ParseSet(name: SetName, rest: Bytes): Option<Cell> {
    if |rest| >= 33 && rest[0] == PREFIX_NESTED_MAP then
      match ParsePool(rest[33..]) case None => None case Some(c) => Some(SetPool(name, rest[1..33], c))
    else
      match ParseMap(rest) case None => None case Some(c) => Some(SetMap(name, c))
  }

  /** The cell a physical key belongs to. */
  function Parse(k: Bytes): Option<Cell> {
    if k == [] then None
    else
      var rest := k[1..];
      if k[0] == PREV_VALIDATOR_POOLS then ParseSet(Previous, rest)
      else if k[0] == VALIDATOR_POOLS then ParseSet(Current, rest)
      else if k[0] == NEXT_VALIDATOR_POOLS then
        match ParseMap(rest) case None => None case Some(c) => Some(NextPools(c))
      else if k[0] == POOLS && |rest| >= 32 then
        match ParsePool(rest[32..]) case None => None case Some(c) => Some(PoolData(rest[..32], c))
      else if k[0] == DEPOSITS && |rest| == 65 && rest[64] <= AUTO_STAKE_REWARDS then
        Some(Deposit(rest[..32], rest[32..64], rest[64]))
      else if k == [CURRENT_EPOCH] then Some(CurrentEpoch)
      else None
  }

  lemma ParseMapKey(d: Bytes, c: MapCell)
    ensures |d| <= |MapKey(d, c)| && MapKey(d, c)[..|d|] == d && ParseMap(MapKey(d, c)[|d|..]) == Some(c)
    ensures Owned(d, MapKey(d, c))
  {
  }

  lemma ParsePoolKey(p: Bytes, c: PoolCell)
    ensures |p| <= |PoolCellKey(p, c)| && PoolCellKey(p, c)[..|p|] == p
            && ParsePool(PoolCellKey(p, c)[|p|..]) == Some(c)
  {
  }

  /** A cell can be read back from its key, so no two cells share a key. */
  lemma ParseCellKey(c: Cell)
    ensures Parse(CellKey(c)) == Some(c)
  {
    hide *;
    match c
    case SetMap(name, cell) => ParseSetMap(name, cell);
    case SetPool(name, operator, pool) => ParseSetPool(name, operator, pool);
    case NextPools(cell) => ParseNextPools(cell);
    case PoolData(operator, pool) => ParsePoolData(operator, pool);
    case Deposit(operator, owner, data) => ParseDeposit(operator, owner, data);
    case CurrentEpoch => ParseEpoch();
  }

  lemma ParseSetMap(name: SetName, cell: MapCell)
    ensures Parse(CellKey(SetMap(name, cell))) == Some(SetMap(name, cell))
  {
    var d := SetDomain(name);
    var k := CellKey(SetMap(name, cell));
    ParseMapKey(d, cell);
    hide ParseMap, MapKey;
    assert k[0] == k[..1][0] && k[1..] == MapKey(d, cell)[|d|..];
    assert ParseMap(k[1..]) == Some(cell);
    StartsMap(k[1..]);
  }

  lemma StartsMap(rest: Bytes)
    requires ParseMap(rest).Some?
    ensures rest != [] && rest[0] <= PREFIX_INDEX_VALUE
  {
  }

  lemma ParseSetPool(name: SetName, operator: Address, pool: PoolCell)
    ensures Parse(CellKey(SetPool(name, operator, pool))) == Some(SetPool(name, operator, pool))
  {
    var p, k := NestedPrefix(SetDomain(name), operator), CellKey(SetPool(name, operator, pool));
    ParsePoolKey(p, pool);
    hide ParsePool, PoolCellKey;
    assert p[0] == SetDomain(name)[0];
    assert k[0] == k[..34][0] && k[1] == k[..34][1] && k[2..34] == k[..34][2..];
    assert k[1..][33..] == k[34..] && k[1..][1..33] == k[2..34];
  }

  lemma ParseNextPools(cell: MapCell)
    ensures Parse(CellKey(NextPools(cell))) == Some(NextPools(cell))
  {
    var k := CellKey(NextPools(cell));
    ParseMapKey([NEXT_VALIDATOR_POOLS], cell);
    hide ParseMap, MapKey;
    assert k[0] == k[..1][0];
  }

  lemma ParsePoolData(operator: Address, pool: PoolCell)
    ensures Parse(CellKey(PoolData(operator, pool))) == Some(PoolData(operator, pool))
  {
    var k := CellKey(PoolData(operator, pool));
    ParsePoolKey(PoolPrefix(operator), pool);
    hide ParsePool, PoolCellKey;
    assert k[0] == k[..33][0] && k[1..33] == k[..33][1..];
    assert k[1..][32..] == k[33..] && k[1..][..32] == k[1..33];
  }

  lemma ParseDeposit(operator: Address, owner: Address, data: DepositField)
    ensures Parse(CellKey(Deposit(operator, owner, data))) == Some(Deposit(operator, owner, data))
  {
    var k := CellKey(Deposit(operator, owner, data));
    hide ParseMap, ParsePool, ParseSet;
    assert k[1..][..32] == operator && k[1..][32..64] == owner;
  }

  lemma ParseEpoch()
    ensures Parse(CellKey(CurrentEpoch)) == Some(CurrentEpoch)
  {
  }

  lemma CellKeysInjective(a: Cell, b: Cell)
    requires CellKey(a) == CellKey(b)
    ensures a == b
  {
    ParseCellKey(a);
    ParseCellKey(b);
  }

  // ---------- who writes which keys ----------

  /** The structures whose operations have a footprint of their own. */
  datatype Structure =
    | WholeSet(name: SetName)
    | SetIndex(name: SetName)
    | Member(name: SetName, operator: Address)
    | MemberStakes(name: SetName, operator: Address)
    | NextHeap
    | PoolDict(operator: Address)
    | PoolStakes(operator: Address)
    | DepositDict(operator: Address, owner: Address)
    | Epoch

  /** The keys that operations of a structure may write: the footprints that the contracts of the heaps, maps, pools
      and validator sets state. */
  predicate Writes(s: Structure, k: Bytes) {
    match s
    case WholeSet(name) => Under(SetDomain(name), k)
    case SetIndex(name) => Owned(SetDomain(name), k)
    case Member(name, operator) => Under(NestedPrefix(SetDomain(name), operator), k)
    case MemberStakes(name, operator) => Owned(FieldKey(NestedPrefix(SetDomain(name), operator), DELEGATED_STAKES), k)
    case NextHeap => Owned([NEXT_VALIDATOR_POOLS], k)
    case PoolDict(operator) => Under(PoolPrefix(operator), k)
    case PoolStakes(operator) => Owned(FieldKey(PoolPrefix(operator), DELEGATED_STAKES), k)
    case DepositDict(operator, owner) => Under(DepositPrefix(operator, owner), k)
    case Epoch => k == [CURRENT_EPOCH]
  }

  /** The cells that are a structure's own. */
  predicate Belongs(c: Cell, s: Structure) {
    match s
    case WholeSet(name) => (c.SetMap? || c.SetPool?) && c.name == name
    case SetIndex(name) => c.SetMap? && c.name == name
    case Member(name, operator) => c.SetPool? && c.name == name && c.operator == operator
    case MemberStakes(name, operator) => c.SetPool? && c.name == name && c.operator == operator && c.pool.Stakes?
    case NextHeap => c.NextPools?
    case PoolDict(operator) => c.PoolData? && c.operator == operator
    case PoolStakes(operator) => c.PoolData? && c.operator == operator && c.pool.Stakes?
    case DepositDict(operator, owner) => c.Deposit? && c.operator == operator && c.owner == owner
    case Epoch => c.CurrentEpoch?
  }

  /** The prefixes spelled out byte by byte. */
  lemma Spelled(k: Bytes, tag: u8, operator: Address, owner: Address)
    ensures Under([tag], k) <==> 0 < |k| && k[0] == tag
    ensures Owned([tag], k) <==> 1 < |k| && k[0] == tag && k[1] <= PREFIX_INDEX_VALUE
    ensures Under(NestedPrefix([tag], operator), k) <==>
              34 <= |k| && k[0] == tag && k[1] == PREFIX_NESTED_MAP && k[2..34] == operator
    ensures Under(PoolPrefix(operator), k) <==> 33 <= |k| && k[0] == POOLS && k[1..33] == operator
    ensures Under(DepositPrefix(operator, owner), k) <==>
              65 <= |k| && k[0] == DEPOSITS && k[1..33] == operator && k[33..65] == owner
  {
  }

  lemma PoolCellWrites(p: Bytes, c: PoolCell)
    ensures Under(p, PoolCellKey(p, c))
    ensures Owned(FieldKey(p, DELEGATED_STAKES), PoolCellKey(p, c)) <==> c.Stakes?
  {
  }

  /** How the key of each kind of cell begins. */
  lemma CellStart(c: Cell)
    ensures var k := CellKey(c);
            match c
            case SetMap(name, cell) => 1 < |k| && k[0] == SetDomain(name)[0] && k[1] <= PREFIX_INDEX_VALUE
            case SetPool(name, operator, pool) =>
              34 <= |k| && k[0] == SetDomain(name)[0] && k[1] == PREFIX_NESTED_MAP && k[2..34] == operator
            case NextPools(cell) => 1 < |k| && k[0] == NEXT_VALIDATOR_POOLS && k[1] <= PREFIX_INDEX_VALUE
            case PoolData(operator, pool) => 33 <= |k| && k[0] == POOLS && k[1..33] == operator
            case Deposit(operator, owner, data) =>
              65 <= |k| && k[0] == DEPOSITS && k[1..33] == operator && k[33..65] == owner
            case CurrentEpoch => k == [CURRENT_EPOCH]
  {
    var k, zero: Address := CellKey(c), seq(32, _ => 0);
    match c
    case SetMap(name, cell) =>
      ParseMapKey(SetDomain(name), cell);
      Spelled(k, SetDomain(name)[0], zero, zero);
    case SetPool(name, operator, pool) =>
      PoolCellWrites(NestedPrefix(SetDomain(name), operator), pool);
      Spelled(k, SetDomain(name)[0], operator, zero);
    case NextPools(cell) =>
      ParseMapKey([NEXT_VALIDATOR_POOLS], cell);
      Spelled(k, NEXT_VALIDATOR_POOLS, zero, zero);
    case PoolData(operator, pool) =>
      PoolCellWrites(PoolPrefix(operator), pool);
      Spelled(k, POOLS, operator, zero);
    case Deposit(operator, owner, data) =>
      assert k[1..33] == operator && k[33..65] == owner;
    case CurrentEpoch =>
  }

  /** Among the keys of all cells, a structure writes exactly those of its own. */
  lemma WritesOnlyOwn(s: Structure, c: Cell)
    ensures Writes(s, CellKey(c)) <==> Belongs(c, s)
  {
    hide *;
    match s
    case WholeSet(name) => WritesSet(name, c);
    case SetIndex(name) => WritesSet(name, c);
    case Member(name, operator) => WritesMember(name, operator, c);
    case MemberStakes(name, operator) => WritesMemberStakes(name, operator, c);
    case NextHeap => WritesNext(c);
    case PoolDict(operator) => WritesPool(operator, c);
    case PoolStakes(operator) => WritesPoolStakes(operator, c);
    case DepositDict(operator, owner) => WritesDeposit(operator, owner, c);
    case Epoch => WritesEpoch(c);
  }

  lemma WritesSet(name: SetName, c: Cell)
    ensures Writes(WholeSet(name), CellKey(c)) <==> Belongs(c, WholeSet(name))
    ensures Writes(SetIndex(name), CellKey(c)) <==> Belongs(c, SetIndex(name))
  {
    var zero: Address := seq(32, _ => 0);
    CellStart(c);
    Spelled(CellKey(c), SetDomain(name)[0], zero, zero);
    hide CellKey, Under, Owned;
  }

  lemma WritesMember(name: SetName, operator: Address, c: Cell)
    ensures Writes(Member(name, operator), CellKey(c)) <==> Belongs(c, Member(name, operator))
  {
    var zero: Address := seq(32, _ => 0);
    CellStart(c);
    Spelled(CellKey(c), SetDomain(name)[0], operator, zero);
    hide CellKey, Under, Owned;
  }

  lemma WritesMemberStakes(name: SetName, operator: Address, c: Cell)
    ensures Writes(MemberStakes(name, operator), CellKey(c)) <==> Belongs(c, MemberStakes(name, operator))
  {
    WritesMember(name, operator, c);
    StakesOfPool(NestedPrefix(SetDomain(name), operator), CellKey(c));
    if c.SetPool? { PoolCellWrites(NestedPrefix(SetDomain(c.name), c.operator), c.pool); }
    hide Under, Owned, NestedPrefix, FieldKey, PoolCellKey, MapKey, SetDomain;
  }

  lemma WritesNext(c: Cell)
    ensures Writes(NextHeap, CellKey(c)) <==> Belongs(c, NextHeap)
  {
    var zero: Address := seq(32, _ => 0);
    CellStart(c);
    Spelled(CellKey(c), NEXT_VALIDATOR_POOLS, zero, zero);
    hide CellKey, Under, Owned;
  }

  lemma WritesPool(operator: Address, c: Cell)
    ensures Writes(PoolDict(operator), CellKey(c)) <==> Belongs(c, PoolDict(operator))
  {
    var zero: Address := seq(32, _ => 0);
    CellStart(c);
    Spelled(CellKey(c), POOLS, operator, zero);
    hide CellKey, Under, Owned;
  }

  lemma WritesPoolStakes(operator: Address, c: Cell)
    ensures Writes(PoolStakes(operator), CellKey(c)) <==> Belongs(c, PoolStakes(operator))
  {
    WritesPool(operator, c);
    StakesOfPool(PoolPrefix(operator), CellKey(c));
    if c.PoolData? { PoolCellWrites(PoolPrefix(c.operator), c.pool); }
    hide Under, Owned, PoolPrefix, FieldKey, PoolCellKey, MapKey, SetDomain;
  }

  lemma WritesDeposit(operator: Address, owner: Address, c: Cell)
    ensures Writes(DepositDict(operator, owner), CellKey(c)) <==> Belongs(c, DepositDict(operator, owner))
  {
    CellStart(c);
    Spelled(CellKey(c), DEPOSITS, operator, owner);
    hide CellKey, Under, Owned;
  }

  lemma WritesEpoch(c: Cell)
    ensures Writes(Epoch, CellKey(c)) <==> Belongs(c, Epoch)
  {
    CellStart(c);
    hide CellKey;
  }

  lemma StakesOfPool(p: Bytes, k: Bytes)
    ensures Owned(FieldKey(p, DELEGATED_STAKES), k) ==> Under(p, k)
  {
    if Owned(FieldKey(p, DELEGATED_STAKES), k) { StakeCells(p, k); }
  }

  /** What the contracts of a structure's operations say of the rest of the store. */
  ghost predicate Confined(s: Structure, m: Cells, m': Cells) {
    match s
    case WholeSet(name) => Beyond(m, SetDomain(name)) == Beyond(m', SetDomain(name))
    case SetIndex(name) => Outside(m, SetDomain(name)) == Outside(m', SetDomain(name))
    case Member(name, operator) =>
      Beyond(m, NestedPrefix(SetDomain(name), operator)) == Beyond(m', NestedPrefix(SetDomain(name), operator))
    case MemberStakes(name, operator) =>
      var d := FieldKey(NestedPrefix(SetDomain(name), operator), DELEGATED_STAKES);
      Outside(m, d) == Outside(m', d)
    case NextHeap => Outside(m, [NEXT_VALIDATOR_POOLS]) == Outside(m', [NEXT_VALIDATOR_POOLS])
    case PoolDict(operator) => Beyond(m, PoolPrefix(operator)) == Beyond(m', PoolPrefix(operator))
    case PoolStakes(operator) =>
      var d := FieldKey(PoolPrefix(operator), DELEGATED_STAKES);
      Outside(m, d) == Outside(m', d)
    case DepositDict(operator, owner) =>
      Beyond(m, DepositPrefix(operator, owner)) == Beyond(m', DepositPrefix(operator, owner))
    case Epoch => m - {[CURRENT_EPOCH]} == m' - {[CURRENT_EPOCH]}
  }

  /** Every cell that is not the structure's own is as it was. */
  ghost predicate OthersSame(s: Structure, m: Cells, m': Cells) {
    forall c: Cell | !Belongs(c, s) :: Lookup(m, CellKey(c)) == Lookup(m', CellKey(c))
  }

  /** Operations that keep to their structure leave the cells of all others as they are. */
  lemma OthersUnchanged(s: Structure, m: Cells, m': Cells)
    requires Confined(s, m, m')
    ensures OthersSame(s, m, m')
  {
    hide Writes, Belongs, Confined, CellKey;
    forall c: Cell | !Belongs(c, s) ensures Lookup(m, CellKey(c)) == Lookup(m', CellKey(c)) {
      WritesOnlyOwn(s, c);
      KeyUnchanged(s, m, m', CellKey(c));
    }
  }

  lemma KeyUnchanged(s: Structure, m: Cells, m': Cells, k: Bytes)
    requires Confined(s, m, m') && !Writes(s, k)
    ensures Lookup(m, k) == Lookup(m', k)
  {
    hide Beyond, Outside, Under, Owned, NestedPrefix, PoolPrefix, DepositPrefix, FieldKey;
    match s
    case WholeSet(name) => BeyondCell(m, m', SetDomain(name), k);
    case SetIndex(name) => OutsideCell(m, m', SetDomain(name), k);
    case Member(name, operator) => BeyondCell(m, m', NestedPrefix(SetDomain(name), operator), k);
    case MemberStakes(name, operator) =>
      OutsideCell(m, m', FieldKey(NestedPrefix(SetDomain(name), operator), DELEGATED_STAKES), k);
    case NextHeap => OutsideCell(m, m', [NEXT_VALIDATOR_POOLS], k);
    case PoolDict(operator) => BeyondCell(m, m', PoolPrefix(operator), k);
    case PoolStakes(operator) => OutsideCell(m, m', FieldKey(PoolPrefix(operator), DELEGATED_STAKES), k);
    case DepositDict(operator, owner) => BeyondCell(m, m', DepositPrefix(operator, owner), k);
    case Epoch =>
      assert k in m - {[CURRENT_EPOCH]} <==> k in m;
      assert k in m' - {[CURRENT_EPOCH]} <==> k in m';
  }

  // ---------- the three validator sets in one store ----------

  method Pvp(store: Store, n: u32, m: u32) returns (v: Pools.ValidatorPool)
    ensures v.inner.codec == PoolAddressCodec() && v.inner.store == store
            && v.inner.domain == SetDomain(Previous) == [0]
    ensures v.inner.capacity == n && v.maxStakes == m
  {
    v := new Pools.ValidatorPool(store, [PREV_VALIDATOR_POOLS], n, m);
  }

  method Vp(store: Store, n: u32, m: u32) returns (v: Pools.ValidatorPool)
    ensures v.inner.codec == PoolAddressCodec() && v.inner.store == store && v.inner.domain == SetDomain(Current) == [1]
    ensures v.inner.capacity == n && v.maxStakes == m
  {
    v := new Pools.ValidatorPool(store, [VALIDATOR_POOLS], n, m);
  }

  method Nvp(store: Store, n: u32) returns (h: IndexHeap<PoolKey>)
    ensures h.inner.codec == PoolKeyCodec() && h.less == PoolKeyLess && h.inner.store == store
    ensures h.inner.domain == [NEXT_VALIDATOR_POOLS] == [2] && h.inner.capacity == n
  {
    h := new IndexHeap(PoolKeyCodec(), PoolKeyLess, [NEXT_VALIDATOR_POOLS], store, n);
  }

  /** A validator set is decided by the cells under its prefix. */
  lemma SetDependsOnPrefix(m: Cells, m': Cells, d: Bytes, n: u32, max: u32, f: Filling)
    requires SetHolds(m, d, n, max, f) && forall k | Under(d, k) :: Lookup(m, k) == Lookup(m', k)
    ensures SetHolds(m', d, n, max, f)
  {
    forall op: Address ensures Nested(m', NestedPrefix(d, op), max, Lookup(f.entries, op)) {
      var p := NestedPrefix(d, op);
      forall k | Under(p, k) ensures Lookup(m, k) == Lookup(m', k) { NestedIsUnder(d, op, k); }
      NestedDependsOnPrefix(m, m', p, max, Lookup(f.entries, op));
    }
    OuterDecides(m, m', d, n, f.ops);
  }

  function Other(name: SetName): SetName {
    match name case Previous => Current case Current => Previous
  }

  /** Any run of pushes and clears on one validator set leaves the other set and the heap of the next one as they were,
      and every cell of every other structure too. */
  method RunOnSet(name: SetName, v: Pools.ValidatorPool, other: Pools.ValidatorPool, next: IndexHeap<PoolKey>,
                  ops: seq<PoolRuns.Op>)
    requires v.Valid() && other.Valid() && next.Valid()
    requires v.inner.store == other.inner.store == next.inner.store
    requires v.inner.domain == SetDomain(name) && other.inner.domain == SetDomain(Other(name))
    requires next.inner.domain == [NEXT_VALIDATOR_POOLS]
    requires PoolRuns.Settling(v.inner.capacity, v.maxStakes, v.Contents(), ops)
    modifies v.inner.store
    ensures v.Valid() && other.Valid() && next.Valid()
    ensures v.Contents() == PoolRuns.Run(v.inner.capacity, v.maxStakes, old(v.Contents()), ops)
    ensures other.Contents() == old(other.Contents()) && next.Items() == old(next.Items())
    ensures OthersSame(WholeSet(name), old(v.inner.store.data), v.inner.store.data)
  {
    ghost var m, g, s := v.inner.store.data, other.Contents(), next.Items();
    hide OthersSame, PoolRuns.Run, PoolRuns.Settling;
    PoolRuns.Execute(v, ops);
    ghost var m' := v.inner.store.data;
    OthersUnchanged(WholeSet(name), m, m');
    SetLeavesOthers(name, m, m');
    SetDependsOnPrefix(m, m', other.inner.domain, other.inner.capacity, other.maxStakes, g);
    other.ContentsAre(g);
    InsideDecides(next.inner.codec, m, m', next.inner.domain, s);
    next.ItemsAre(s);
  }

  /** Any allowed run on the heap of the next validator set leaves the other two sets as they were, and every cell of
      every other structure too. */
  method RunOnNext(prev: Pools.ValidatorPool, cur: Pools.ValidatorPool, next: IndexHeap<PoolKey>,
                   ops: seq<HeapRuns.Op<PoolKey>>)
    requires prev.Valid() && cur.Valid() && next.Valid()
    requires prev.inner.store == cur.inner.store == next.inner.store
    requires prev.inner.domain == SetDomain(Previous) && cur.inner.domain == SetDomain(Current)
    requires next.inner.domain == [NEXT_VALIDATOR_POOLS]
    requires HeapRuns.AllowedRun(next.inner.codec, next.less, next.inner.capacity, next.Items(), ops)
    modifies next.inner.store
    ensures cur.Valid() && prev.Valid() && next.Valid()
    ensures next.Items() == HeapRuns.Run(next.inner.codec, next.less, next.inner.capacity, old(next.Items()), ops)
    ensures prev.Contents() == old(prev.Contents()) && cur.Contents() == old(cur.Contents())
    ensures OthersSame(NextHeap, old(next.inner.store.data), next.inner.store.data)
  {
    ghost var m, f, g := cur.inner.store.data, prev.Contents(), cur.Contents();
    hide OthersSame, HeapRuns.Run, HeapRuns.AllowedRun;
    HeapRuns.Execute(next, ops);
    ghost var m' := cur.inner.store.data;
    OthersUnchanged(NextHeap, m, m');
    NextLeavesOthers(m, m');
    SetDependsOnPrefix(m, m', prev.inner.domain, prev.inner.capacity, prev.maxStakes, f);
    prev.ContentsAre(f);
    SetDependsOnPrefix(m, m', cur.inner.domain, cur.inner.capacity, cur.maxStakes, g);
    cur.ContentsAre(g);
  }

  /** Any allowed run on the stakes of a pool, of a set's member or of an operator, leaves the cells of all other
      structures as they were. */
  method RunOnStakes(s: Structure, h: IndexHeap<Stake>, ops: seq<HeapRuns.Op<Stake>>)
    requires h.Valid() && (s.MemberStakes? || s.PoolStakes?) && h.inner.domain == StakesDomain(s)
    requires HeapRuns.AllowedRun(h.inner.codec, h.less, h.inner.capacity, h.Items(), ops)
    modifies h.inner.store
    ensures h.Valid() && h.Items() == HeapRuns.Run(h.inner.codec, h.less, h.inner.capacity, old(h.Items()), ops)
    ensures OthersSame(s, old(h.inner.store.data), h.inner.store.data)
  {
    ghost var m := h.inner.store.data;
    hide OthersSame, HeapRuns.Run, HeapRuns.AllowedRun, Outside;
    HeapRuns.Execute(h, ops);
    OthersUnchanged(s, m, h.inner.store.data);
  }

  function StakesDomain(s: Structure): Bytes
    requires s.MemberStakes? || s.PoolStakes?
  {
    match s
    case MemberStakes(name, operator) => FieldKey(NestedPrefix(SetDomain(name), operator), DELEGATED_STAKES)
    case PoolStakes(operator) => FieldKey(PoolPrefix(operator), DELEGATED_STAKES)
  }

  /** `pools(operator)`: the pool of an operator, apart from any validator set. */
  method PoolsOf(store: Store, operator: Address, m: u32) returns (p: Pools.PoolDict)
    ensures fresh(p) && p.prefix == PoolPrefix(operator) == [3] + operator && p.store == store && p.maxStakes == m
  {
    p := new Pools.PoolDict([POOLS] + operator, store, m);
  }

  /** Deleting the pool of an operator leaves the cells of all other structures as they were. */
  method DeletePool(store: Store, operator: Address, m: u32)
    requires exists stakes :: StakesHold(store.data, PoolPrefix(operator), m, stakes)
    modifies store
    ensures Nested(store.data, PoolPrefix(operator), m, None)
    ensures OthersSame(PoolDict(operator), old(store.data), store.data)
  {
    ghost var before := store.data;
    hide OthersSame, Beyond, Nested, StakesHold;
    var p := PoolsOf(store, operator, m);
    p.Delete();
    OthersUnchanged(PoolDict(operator), before, store.data);
  }

  /** The epoch that was set last, or 0 if none was. */
  method CurrentEpochOf(store: Store) returns (epoch: u64)
    requires [CURRENT_EPOCH] in store.data ==> |store.data[[CURRENT_EPOCH]]| == 8
    ensures [5] !in store.data ==> epoch == 0
    ensures forall e: u64 | Lookup(store.data, [5]) == Some(Le64(e)) :: epoch == e
  {
    var bytes := store.Get([CURRENT_EPOCH]);
    epoch := match bytes case None => 0 case Some(b) => FromLe64(b);
  }

  /** Setting the epoch changes no other cell. */
  method SetCurrentEpoch(store: Store, epoch: u64)
    modifies store
    ensures store.data == old(store.data)[[5] := Le64(epoch)]
    ensures OthersSame(Epoch, old(store.data), store.data)
  {
    ghost var before := store.data;
    hide OthersSame;
    store.Set([CURRENT_EPOCH], Le64(epoch));
    OthersUnchanged(Epoch, before, store.data);
  }

  lemma SetLeavesOthers(name: SetName, m: Cells, m': Cells)
    requires Beyond(m, SetDomain(name)) == Beyond(m', SetDomain(name))
    ensures forall k | Under(SetDomain(Other(name)), k) || Owned([NEXT_VALIDATOR_POOLS], k) ::
            Lookup(m, k) == Lookup(m', k)
  {
    var zero: Address := seq(32, _ => 0);
    forall k | Under(SetDomain(Other(name)), k) || Owned([NEXT_VALIDATOR_POOLS], k)
      ensures Lookup(m, k) == Lookup(m', k)
    {
      Spelled(k, PREV_VALIDATOR_POOLS, zero, zero);
      Spelled(k, VALIDATOR_POOLS, zero, zero);
      Spelled(k, NEXT_VALIDATOR_POOLS, zero, zero);
      BeyondCell(m, m', SetDomain(name), k);
    }
  }

  lemma NextLeavesOthers(m: Cells, m': Cells)
    requires Outside(m, [NEXT_VALIDATOR_POOLS]) == Outside(m', [NEXT_VALIDATOR_POOLS])
    ensures forall k | Under(SetDomain(Previous), k) || Under(SetDomain(Current), k) :: Lookup(m, k) == Lookup(m', k)
  {
    var zero: Address := seq(32, _ => 0);
    forall k | Under(SetDomain(Previous), k) || Under(SetDomain(Current), k) ensures Lookup(m, k) == Lookup(m', k) {
      Spelled(k, PREV_VALIDATOR_POOLS, zero, zero);
      Spelled(k, VALIDATOR_POOLS, zero, zero);
      Spelled(k, NEXT_VALIDATOR_POOLS, zero, zero);
      OutsideCell(m, m', [NEXT_VALIDATOR_POOLS], k);
    }
  }
}
