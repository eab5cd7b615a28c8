/** The accounts trie: keys of account fields, reading all accounts, and the upgrade to version 2. */
module AccountsTries {
  import opened Bytes
  import opened Overlays
  import opened Tries

  datatype AccountField = Nonce | Balance | ContractCode | CbiVersion | StorageHash

  datatype Account = Account(nonce: u64, balance: u64, code: Bytes, cbiVersion: Option<u32>, storageHash: Bytes)

  const NO_ACCOUNT: Account := Account(0, 0, [], None, [])

  // ---------- keys ----------

  function FieldByte(f: AccountField): u8 {
    match f case Nonce => 0 case Balance => 1 case ContractCode => 2 case CbiVersion => 3 case StorageHash => 4
  }

  function FieldOfByte(b: u8): Result<AccountField> {
    if b == 0 then Ok(Nonce) else if b == 1 then Ok(Balance) else if b == 2 then Ok(ContractCode)
    else if b == 3 then Ok(CbiVersion) else if b == 4 then Ok(StorageHash) else Err(KeyError)
  }

  function AccountKey(version: Version, a: Address, f: AccountField): Bytes {
    match version case V1 => a + [PROTECTED] + [FieldByte(f)] case V2 => a + [FieldByte(f)]
  }

  /** The layout in bytes, in both versions. */
  lemma AccountLayout(a: Address)
    ensures AccountKey(V1, a, Nonce) == a + [1, 0] && AccountKey(V2, a, Nonce) == a + [0]
    ensures AccountKey(V1, a, Balance) == a + [1, 1] && AccountKey(V2, a, Balance) == a + [1]
    ensures AccountKey(V1, a, ContractCode) == a + [1, 2] && AccountKey(V2, a, ContractCode) == a + [2]
    ensures AccountKey(V1, a, CbiVersion) == a + [1, 3] && AccountKey(V2, a, CbiVersion) == a + [3]
    ensures AccountKey(V1, a, StorageHash) == a + [1, 4] && AccountKey(V2, a, StorageHash) == a + [4]
  {
  }

  function FieldIndex(version: Version): nat {
    match version case V1 => 33 case V2 => 32
  }

  function AccountFieldOf(version: Version, key: Bytes): Result<AccountField> {
    if |key| <= FieldIndex(version) then Err(KeyError) else FieldOfByte(key[FieldIndex(version)])
  }

  function AccountAddressOf(key: Bytes): Result<Address> {
    if |key| < 32 then Err(KeyError) else Ok(key[..32])
  }

  /** A key says which address and field it is for. */
  lemma AccountKeyParts(version: Version, a: Address, f: AccountField)
    ensures AccountAddressOf(AccountKey(version, a, f)) == Ok(a)
    ensures AccountFieldOf(version, AccountKey(version, a, f)) == Ok(f)
  {
    assert AccountKey(version, a, f)[..32] == a;
  }

  predicate IsAccountKey(version: Version, key: Bytes) {
    && |key| == FieldIndex(version) + 1
    && key[FieldIndex(version)] <= 4
    && (version == V1 ==> key[32] == PROTECTED)
  }

  /** Every account key is the key of its parts. */
  lemma KeyOfParts(version: Version, key: Bytes)
    requires IsAccountKey(version, key)
    ensures AccountFieldOf(version, key).Ok?
    ensures key == AccountKey(version, key[..32], AccountFieldOf(version, key).value)
  {
  }

  // ---------- point reads ----------

  function FieldAt(version: Version, c: Contents, a: Address, f: AccountField): Option<Bytes> {
    Lookup(c, AccountKey(version, a, f))
  }

  /** The lengths that the setters give the values, on which the getters insist. */
  predicate Typed(f: AccountField, value: Bytes) {
    match f
    case Nonce => |value| == 8
    case Balance => |value| == 8
    case ContractCode => true
    case CbiVersion => |value| == 4
    case StorageHash => |value| == 32
  }

  function U64Or0(v: Option<Bytes>): u64 {
    if v.Some? && |v.value| == 8 then FromLe64(v.value) else 0
  }

  function NonceAt(version: Version, c: Contents, a: Address): u64 {
    U64Or0(FieldAt(version, c, a, Nonce))
  }

  function BalanceAt(version: Version, c: Contents, a: Address): u64 {
    U64Or0(FieldAt(version, c, a, Balance))
  }

  function CodeAt(version: Version, c: Contents, a: Address): Option<Bytes> {
    FieldAt(version, c, a, ContractCode)
  }

  function CbiVersionAt(version: Version, c: Contents, a: Address): Option<u32> {
    var v := FieldAt(version, c, a, CbiVersion);
    if v.Some? && |v.value| == 4 then Some(FromLe32(v.value)) else None
  }

  function StorageHashAt(version: Version, c: Contents, a: Address): Option<Hash> {
    var v := FieldAt(version, c, a, StorageHash);
    if v.Some? && |v.value| == 32 then Some(v.value) else None
  }

  /** Where the fields of an account are, without the visibility byte that version 1 adds. */
  function At(version: Version, a: Address, field: u8): Bytes {
    if version == V1 then a + [1, field] else a + [field]
  }

  /** What the point reads answer, from the bytes under the keys: what was set, or 0 or nothing for a field that is not
      there. */
  lemma PointReads(version: Version, c: Contents, a: Address)
    ensures At(version, a, 0) !in c ==> NonceAt(version, c, a) == 0
    ensures forall n: u64 | Lookup(c, At(version, a, 0)) == Some(Le64(n)) :: NonceAt(version, c, a) == n
    ensures At(version, a, 1) !in c ==> BalanceAt(version, c, a) == 0
    ensures forall n: u64 | Lookup(c, At(version, a, 1)) == Some(Le64(n)) :: BalanceAt(version, c, a) == n
    ensures CodeAt(version, c, a) == Lookup(c, At(version, a, 2))
    ensures At(version, a, 3) !in c ==> CbiVersionAt(version, c, a) == None
    ensures forall n: u32 | Lookup(c, At(version, a, 3)) == Some(Le32(n)) :: CbiVersionAt(version, c, a) == Some(n)
    ensures At(version, a, 4) !in c ==> StorageHashAt(version, c, a) == None
    ensures forall h: Hash | Lookup(c, At(version, a, 4)) == Some(h) :: StorageHashAt(version, c, a) == Some(h)
  {
    AccountLayout(a);
    hide AccountKey;
  }

  /** Well-formed accounts have keys that fit. */
  lemma AccountsFit(version: Version, c: Contents)
    requires WellFormed(version, c)
    ensures Fits(version, [], c)
  {
  }

  /** Nothing but account fields, each of its length. */
  ghost predicate WellFormed(version: Version, c: Contents) {
    forall key | key in c :: IsAccountKey(version, key) && Typed(AccountFieldOf(version, key).value, c[key])
  }

  // ---------- all accounts ----------

  function BytesOr(v: Option<Bytes>): Bytes {
    match v case None => [] case Some(b) => b
  }

  /** The record that the point reads of an address make up; absent code and storage hash are empty. */
  function RecordAt(version: Version, c: Contents, a: Address): Account {
    Account(NonceAt(version, c, a), BalanceAt(version, c, a), BytesOr(CodeAt(version, c, a)),
            CbiVersionAt(version, c, a),
            BytesOr(FieldAt(version, c, a, StorageHash)))
  }

  /** What `all` reports of an account, from the bytes under the keys. */
  lemma RecordIs(version: Version, c: Contents, a: Address)
    ensures var r := RecordAt(version, c, a);
            && (At(version, a, 0) !in c ==> r.nonce == 0)
            && (forall n: u64 | Lookup(c, At(version, a, 0)) == Some(Le64(n)) :: r.nonce == n)
            && (At(version, a, 1) !in c ==> r.balance == 0)
            && (forall n: u64 | Lookup(c, At(version, a, 1)) == Some(Le64(n)) :: r.balance == n)
            && r.code == (if At(version, a, 2) in c then c[At(version, a, 2)] else [])
            && (At(version, a, 3) !in c ==> r.cbiVersion == None)
            && (forall n: u32 | Lookup(c, At(version, a, 3)) == Some(Le32(n)) :: r.cbiVersion == Some(n))
            && r.storageHash == (if At(version, a, 4) in c then c[At(version, a, 4)] else [])
    ensures HasField(version, c, a) <==> exists field: u8 :: field <= 4 && At(version, a, field) in c
  {
    PointReads(version, c, a);
    AccountLayout(a);
    hide AccountKey, NonceAt, BalanceAt, CbiVersionAt;
    if HasField(version, c, a) {
      var f :| AccountKey(version, a, f) in c;
      assert At(version, a, FieldByte(f)) in c;
    }
    forall field: u8 | field <= 4 && At(version, a, field) in c ensures HasField(version, c, a) {
      assert AccountKey(version, a, FieldOfByte(field).value) in c;
    }
  }

  ghost predicate HasField(version: Version, c: Contents, a: Address) {
    exists f :: AccountKey(version, a, f) in c
  }

  /** `m` has exactly the addresses with a field, each with the record of its point reads. */
  ghost predicate Collected(version: Version, c: Contents, m: map<Address, Account>) {
    forall a: Address :: Lookup(m, a) == if HasField(version, c, a) then Some(RecordAt(version, c, a)) else None
  }

  /** What the iteration needs of an entry not to fail. */
  predicate EntryReadable(version: Version, key: Bytes, value: Bytes) {
    && AccountAddressOf(key).Ok?
    && AccountFieldOf(version, key).Ok?
    && (match AccountFieldOf(version, key).value
        case Nonce => |value| == 8
        case Balance => |value| == 8
        case CbiVersion => |value| == 4
        case _ => true)
  }

  ghost predicate EntriesReadable(version: Version, c: Contents) {
    forall key | key in c :: EntryReadable(version, key, c[key])
  }

  /** Which entries are malformed: keys too short or with no known field, and numbers of the wrong length. */
  lemma ReadableEntries(version: Version, key: Bytes, value: Bytes)
    ensures var i := if version == V1 then 33 else 32;
            EntryReadable(version, key, value) <==>
              && i < |key| && key[i] <= 4
              && (key[i] <= 1 ==> |value| == 8)
              && (key[i] == 3 ==> |value| == 4)
  {
  }

  function WithField(account: Account, f: AccountField, value: Bytes): Account
    requires f == Nonce || f == Balance ==> |value| == 8
    requires f == CbiVersion ==> |value| == 4
  {
    match f
    case Nonce => account.(nonce := FromLe64(value))
    case Balance => account.(balance := FromLe64(value))
    case ContractCode => account.(code := value)
    case CbiVersion => account.(cbiVersion := Some(FromLe32(value)))
    case StorageHash => account.(storageHash := value)
  }

  lemma AccountKeyInjective(version: Version, a: Address, f: AccountField, b: Address, g: AccountField)
    requires AccountKey(version, a, f) == AccountKey(version, b, g)
    ensures a == b && f == g
  {
    AccountKeyParts(version, a, f);
    AccountKeyParts(version, b, g);
  }

  /** One entry more in the trie is one field more in the collected records. */
  lemma CollectOne(version: Version, c: Contents, m: map<Address, Account>, a: Address, f: AccountField, value: Bytes)
    requires Collected(version, c, m) && EntryReadable(version, AccountKey(version, a, f), value)
    requires AccountKey(version, a, f) !in c
    ensures var account := if a in m then m[a] else NO_ACCOUNT;
            AccountFieldOf(version, AccountKey(version, a, f)) == Ok(f)
            && Collected(version, c[AccountKey(version, a, f) := value], m[a := WithField(account, f, value)])
  {
    AccountKeyParts(version, a, f);
    var key := AccountKey(version, a, f);
    var c' := c[key := value];
    var account := if a in m then m[a] else NO_ACCOUNT;
    var m' := m[a := WithField(account, f, value)];
    forall b: Address
      ensures Lookup(m', b) == if HasField(version, c', b) then Some(RecordAt(version, c', b)) else None
    {
      forall g
        ensures FieldAt(version, c', b, g) == if b == a && g == f then Some(value) else FieldAt(version, c, b, g)
      {
        if AccountKey(version, b, g) == key { AccountKeyInjective(version, b, g, a, f); }
      }
      if b != a {
        assert Lookup(m, b) == Lookup(m', b);
        assert HasField(version, c', b) <==> HasField(version, c, b) by {
          forall g ensures AccountKey(version, b, g) in c' <==> AccountKey(version, b, g) in c {
            assert FieldAt(version, c', b, g) == FieldAt(version, c, b, g);
          }
        }
      } else {
        assert HasField(version, c', a);
        if !HasField(version, c, a) {
          forall g ensures FieldAt(version, c, a, g) == None { assert AccountKey(version, a, g) !in c; }
        }
        assert Lookup(m, a) == if HasField(version, c, a) then Some(RecordAt(version, c, a)) else None;
        assert account == RecordAt(version, c, a);
      }
    }
  }

  // ---------- entries with any readable key ----------

  /** The key names this address and field; only its beginning counts, not its length or, in version 1, its visibility.
      */
  predicate Names(version: Version, key: Bytes, a: Address, f: AccountField) {
    AccountAddressOf(key) == Ok(a) && AccountFieldOf(version, key) == Ok(f)
  }

  predicate HasValue(account: Account, f: AccountField, value: Bytes) {
    match f
    case Nonce => |value| == 8 && account.nonce == FromLe64(value)
    case Balance => |value| == 8 && account.balance == FromLe64(value)
    case ContractCode => account.code == value
    case CbiVersion => |value| == 4 && account.cbiVersion == Some(FromLe32(value))
    case StorageHash => account.storageHash == value
  }

  predicate HasDefault(account: Account, f: AccountField) {
    match f
    case Nonce => account.nonce == 0
    case Balance => account.balance == 0
    case ContractCode => account.code == []
    case CbiVersion => account.cbiVersion == None
    case StorageHash => account.storageHash == []
  }

  /** A field has the value of an entry that names it, if there is one. */
  ghost predicate FieldGathered(version: Version, c: Contents, a: Address, f: AccountField, account: Account) {
    || (exists key :: key in c && Names(version, key, a, f) && HasValue(account, f, c[key]))
    || (HasDefault(account, f) && forall key | key in c :: !Names(version, key, a, f))
  }

  /** Exactly the addresses that an entry names, each with the fields that entries name. */
  ghost predicate Gathered(version: Version, c: Contents, m: map<Address, Account>) {
    && (forall a: Address :: a in m <==> exists key, f :: key in c && Names(version, key, a, f))
    && (forall a, f | a in m :: FieldGathered(version, c, a, f, m[a]))
  }

  lemma GatherOne(version: Version, c: Contents, m: map<Address, Account>, key: Bytes, value: Bytes,
                  a: Address, f: AccountField)
    requires Gathered(version, c, m) && EntryReadable(version, key, value) && Names(version, key, a, f) && key !in c
    ensures Gathered(version, c[key := value], m[a := WithField(if a in m then m[a] else NO_ACCOUNT, f, value)])
  {
    var c' := c[key := value];
    var account := if a in m then m[a] else NO_ACCOUNT;
    var m' := m[a := WithField(account, f, value)];
    hide AccountAddressOf, AccountFieldOf, EntryReadable;
    forall b: Address ensures b in m' <==> exists k, g :: k in c' && Names(version, k, b, g) {
      if b in m {
        var k, g :| k in c && Names(version, k, b, g);
        assert k in c' && Names(version, k, b, g);
      }
    }
    forall b, g | b in m' ensures FieldGathered(version, c', b, g, m'[b]) {
      if b == a && g == f {
        assert key in c' && Names(version, key, b, g) && HasValue(m'[b], g, c'[key]);
      } else {
        NotNamed(version, key, a, f, b, g);
        if b in m {
          assert FieldGathered(version, c, b, g, m[b]);
          if exists k :: k in c && Names(version, k, b, g) && HasValue(m[b], g, c[k]) {
            var k :| k in c && Names(version, k, b, g) && HasValue(m[b], g, c[k]);
            assert k in c' && Names(version, k, b, g) && HasValue(m'[b], g, c'[k]);
          }
        } else {
          assert HasDefault(m'[b], g);
        }
      }
    }
  }

  lemma NotNamed(version: Version, key: Bytes, a: Address, f: AccountField, b: Address, g: AccountField)
    requires Names(version, key, a, f) && (b != a || g != f)
    ensures !Names(version, key, b, g)
  {
  }

  predicate HashSized(value: Bytes) {
    |value| == 0 || |value| == 32
  }

  /** No storage hash on which `Account::storage_hash` panics. */
  ghost predicate HashesSized(version: Version, c: Contents) {
    forall key | key in c && AccountFieldOf(version, key) == Ok(StorageHash) :: HashSized(c[key])
  }

  /** What is wrong with an entry: its key before its value. */
  function EntryError(version: Version, key: Bytes, value: Bytes): Option<Error> {
    if |key| <= FieldIndex(version) || key[FieldIndex(version)] > 4 then Some(KeyError)
    else if !EntryReadable(version, key, value) then Some(DecodeError)
    else None
  }

  /** The address and the field of an entry. */
  method ReadEntry(version: Version, key: Bytes, value: Bytes) returns (r: Result<(Address, AccountField)>)
    ensures r.Ok? <==> EntryReadable(version, key, value)
    ensures r.Err? ==> EntryError(version, key, value) == Some(r.error)
    ensures r.Ok? ==> Ok(r.value.0) == AccountAddressOf(key) && Ok(r.value.1) == AccountFieldOf(version, key)
  {
    var address := AccountAddressOf(key);
    if address.Err? {
      return Err(address.error);
    }
    var field := AccountFieldOf(version, key);
    if field.Err? {
      return Err(field.error);
    }
    if ((field.value == Nonce || field.value == Balance) && |value| != 8)
       || (field.value == CbiVersion && |value| != 4) {
      return Err(DecodeError);
    }
    r := Ok((address.value, field.value));
  }

  /** Iterate over the entries in any order, gathering one record for each address. */
  method All(version: Version, c: Contents) returns (r: Result<map<Address, Account>>)
    ensures r.Ok? <==> EntriesReadable(version, c)
    ensures r.Err? ==> exists key :: key in c && EntryError(version, key, c[key]) == Some(r.error)
    ensures r.Ok? ==> Gathered(version, c, r.value)
    ensures r.Ok? && (forall key | key in c :: IsAccountKey(version, key)) ==> Collected(version, c, r.value)
    ensures r.Ok? && HashesSized(version, c) ==> forall a | a in r.value :: HashSized(r.value[a].storageHash)
  {
    var retMap: map<Address, Account> := map[];
    var rest := c.Keys;
    ghost var seen: Contents := map[];
    assert Gathered(version, seen, retMap) && Collected(version, seen, retMap);
    hide *;
    while rest != {}
      invariant rest <= c.Keys && seen == (map key | key in c && key !in rest :: c[key])
      invariant EntriesReadable(version, seen)
      invariant Gathered(version, seen, retMap)
      invariant (forall key | key in c :: IsAccountKey(version, key)) ==> Collected(version, seen, retMap)
    {
      var key :| key in rest;
      var value := c[key];
      var entry := ReadEntry(version, key, value);
      if entry.Err? {
        return Err(entry.error);
      }
      var (address, field) := entry.value;
      IterateOne(version, c, seen, retMap, key, address, field);
      var account := if address in retMap then retMap[address] else NO_ACCOUNT;
      retMap := retMap[address := WithField(account, field, value)];
      rest := rest - {key};
      seen := seen[key := value];
    }
    assert seen == c;
    if HashesSized(version, c) { GatheredHashes(version, c, retMap); }
    r := Ok(retMap);
  }

  lemma IterateOne(version: Version, c: Contents, seen: Contents, m: map<Address, Account>, key: Bytes,
                   a: Address, f: AccountField)
    requires key in c && key !in seen && EntryReadable(version, key, c[key]) && Gathered(version, seen, m)
    requires Ok(a) == AccountAddressOf(key) && Ok(f) == AccountFieldOf(version, key)
    requires (forall k | k in c :: IsAccountKey(version, k)) ==> Collected(version, seen, m)
    ensures f == Nonce || f == Balance ==> |c[key]| == 8
    ensures f == CbiVersion ==> |c[key]| == 4
    ensures var m' := m[a := WithField(if a in m then m[a] else NO_ACCOUNT, f, c[key])];
            && Gathered(version, seen[key := c[key]], m')
            && ((forall k | k in c :: IsAccountKey(version, k)) ==> Collected(version, seen[key := c[key]], m'))
  {
    hide Gathered, Collected, WithField;
    GatherOne(version, seen, m, key, c[key], a, f);
    if forall k | k in c :: IsAccountKey(version, k) {
      KeyOfParts(version, key);
      CollectOne(version, seen, m, a, f, c[key]);
    }
  }

  lemma GatheredHashes(version: Version, c: Contents, m: map<Address, Account>)
    requires Gathered(version, c, m) && HashesSized(version, c)
    ensures forall a | a in m :: HashSized(m[a].storageHash)
  {
    hide AccountAddressOf, AccountFieldOf;
    forall a | a in m ensures HashSized(m[a].storageHash) {
      assert FieldGathered(version, c, a, StorageHash, m[a]);
    }
  }

  /** `all` never fails on what the setters write, and there its domain and records are those of the point reads. */
  lemma WellFormedIsReadable(version: Version, c: Contents)
    requires WellFormed(version, c)
    ensures EntriesReadable(version, c)
  {
  }

  // ---------- upgrade ----------

  /** What the upgrade writes for a field of a collected account: nothing for zeros, empty code and storage hashes. */
  function Kept(account: Account, f: AccountField): Option<Bytes> {
    match f
    case Nonce => if account.nonce != 0 then Some(Le64(account.nonce)) else None
    case Balance => if account.balance != 0 then Some(Le64(account.balance)) else None
    case ContractCode => if account.code != [] then Some(account.code) else None
    case CbiVersion => (match account.cbiVersion case None => None case Some(v) => Some(Le32(v)))
    case StorageHash => None
  }

  function KeptAt(data: map<Address, Account>, a: Address, f: AccountField): Option<Bytes> {
    if a in data then Kept(data[a], f) else None
  }

  ghost predicate Reencoded(data: map<Address, Account>, info: Contents) {
    && (forall a: Address, f :: FieldAt(V2, info, a, f) == KeptAt(data, a, f))
    && (forall key | key in info :: IsAccountKey(V2, key))
  }

  function HashOf(account: Account): Option<Hash> {
    if |account.storageHash| == 32 then Some(account.storageHash) else None
  }

  ghost predicate HashesListed(data: map<Address, Account>, hashes: map<Address, Hash>) {
    forall a: Address :: Lookup(hashes, a) == if a in data then HashOf(data[a]) else None
  }

  function WithKept(info: Contents, a: Address, account: Account, f: AccountField): Contents {
    match Kept(account, f) case None => info case Some(v) => info[AccountKey(V2, a, f) := v]
  }

  /** The entries of one account, added in turn. */
  function WithAccount(info: Contents, a: Address, account: Account): Contents {
    var numbers := WithKept(WithKept(info, a, account, Nonce), a, account, Balance);
    WithKept(WithKept(numbers, a, account, ContractCode), a, account, CbiVersion)
  }

  lemma AddKept(info: Contents, a: Address, account: Account, g: AccountField)
    ensures forall b: Address, f :: FieldAt(V2, WithKept(info, a, account, g), b, f)
              == if b == a && f == g && Kept(account, g).Some? then Kept(account, g) else FieldAt(V2, info, b, f)
    ensures (forall key | key in info :: IsAccountKey(V2, key)) ==>
              forall key | key in WithKept(info, a, account, g) :: IsAccountKey(V2, key)
  {
    forall b: Address, f
      ensures FieldAt(V2, WithKept(info, a, account, g), b, f)
           == if b == a && f == g && Kept(account, g).Some? then Kept(account, g) else FieldAt(V2, info, b, f)
    {
      if AccountKey(V2, b, f) == AccountKey(V2, a, g) { AccountKeyInjective(V2, b, f, a, g); }
    }
  }

  lemma ReencodeOne(data: map<Address, Account>, info: Contents, a: Address, account: Account)
    requires Reencoded(data, info) && a !in data
    ensures Reencoded(data[a := account], WithAccount(info, a, account))
  {
    var i1 := WithKept(info, a, account, Nonce);
    var i2 := WithKept(i1, a, account, Balance);
    var i3 := WithKept(i2, a, account, ContractCode);
    var i4 := WithKept(i3, a, account, CbiVersion);
    AddKept(info, a, account, Nonce);
    AddKept(i1, a, account, Balance);
    AddKept(i2, a, account, ContractCode);
    AddKept(i3, a, account, CbiVersion);
    hide FieldAt, WithKept, Kept;
    forall b: Address, f ensures FieldAt(V2, i4, b, f) == KeptAt(data[a := account], b, f) {
      assert FieldAt(V2, info, b, f) == KeptAt(data, b, f);
      KeptHashes(account);
    }
  }

  lemma KeptHashes(account: Account)
    ensures Kept(account, StorageHash) == None
  {
  }

  /** Write the accounts again under version 2 keys, in any order, and list their storage hashes. */
  method Reencode(data: map<Address, Account>) returns (info: Contents, hashes: map<Address, Hash>)
    requires forall a | a in data :: HashSized(data[a].storageHash)
    ensures Reencoded(data, info) && HashesListed(data, hashes)
  {
    info, hashes := map[], map[];
    var rest := data.Keys;
    ghost var done: map<Address, Account> := map[];
    while rest != {}
      invariant rest <= data.Keys && done == (map a | a in data && a !in rest :: data[a])
      invariant Reencoded(done, info) && HashesListed(done, hashes)
    {
      var a :| a in rest;
      var account := data[a];
      ReencodeOne(done, info, a, account);
      ghost var before := info;
      if account.nonce != 0 {
        info := info[AccountKey(V2, a, Nonce) := Le64(account.nonce)];
      }
      if account.balance != 0 {
        info := info[AccountKey(V2, a, Balance) := Le64(account.balance)];
      }
      if account.code != [] {
        info := info[AccountKey(V2, a, ContractCode) := account.code];
      }
      if account.cbiVersion.Some? {
        info := info[AccountKey(V2, a, CbiVersion) := Le32(account.cbiVersion.value)];
      }
      assert info == WithAccount(before, a, account);
      if account.storageHash != [] {
        hashes := hashes[a := account.storageHash];
      }
      rest := rest - {a};
      done := done[a := account];
    }
    assert done == data;
  }

  /** Every account reads the same in both versions, except that empty code counts as none, explicit zeros are not
      stored, and storage hashes are left out. */
  ghost predicate SameAccounts(c: Contents, c': Contents) {
    forall a: Address ::
      && NonceAt(V2, c', a) == NonceAt(V1, c, a)
      && BalanceAt(V2, c', a) == BalanceAt(V1, c, a)
      && CbiVersionAt(V2, c', a) == CbiVersionAt(V1, c, a)
      && CodeAt(V2, c', a) == (if CodeAt(V1, c, a) == Some([]) then None else CodeAt(V1, c, a))
      && (FieldAt(V2, c', a, Nonce).Some? <==> NonceAt(V1, c, a) != 0)
      && (FieldAt(V2, c', a, Balance).Some? <==> BalanceAt(V1, c, a) != 0)
      && FieldAt(V2, c', a, StorageHash) == None
  }

  lemma ReencodedMeansSame(c: Contents, data: map<Address, Account>, c': Contents)
    requires WellFormed(V1, c) && Collected(V1, c, data) && Reencoded(data, c')
    ensures SameAccounts(c, c') && WellFormed(V2, c')
  {
    ReencodedFields(c, data, c');
    ReencodedIsWellFormed(data, c');
  }

  lemma ReencodedField(c: Contents, data: map<Address, Account>, c': Contents, a: Address, f: AccountField)
    requires Collected(V1, c, data) && Reencoded(data, c')
    ensures FieldAt(V2, c', a, f) == Kept(RecordAt(V1, c, a), f)
  {
  }

  lemma ReencodedFields(c: Contents, data: map<Address, Account>, c': Contents)
    requires WellFormed(V1, c) && Collected(V1, c, data) && Reencoded(data, c')
    ensures SameAccounts(c, c')
  {
    hide Collected, Reencoded;
    forall a: Address
      ensures FieldAt(V2, c', a, Nonce) == Kept(RecordAt(V1, c, a), Nonce)
      ensures FieldAt(V2, c', a, Balance) == Kept(RecordAt(V1, c, a), Balance)
      ensures FieldAt(V2, c', a, CbiVersion) == Kept(RecordAt(V1, c, a), CbiVersion)
      ensures FieldAt(V2, c', a, ContractCode) == Kept(RecordAt(V1, c, a), ContractCode)
      ensures FieldAt(V2, c', a, StorageHash) == None
      ensures FieldAt(V1, c, a, CbiVersion).Some? ==> |FieldAt(V1, c, a, CbiVersion).value| == 4
    {
      ReencodedField(c, data, c', a, Nonce);
      ReencodedField(c, data, c', a, Balance);
      ReencodedField(c, data, c', a, CbiVersion);
      ReencodedField(c, data, c', a, ContractCode);
      ReencodedField(c, data, c', a, StorageHash);
      AccountKeyParts(V1, a, CbiVersion);
    }
  }

  lemma ReencodedIsWellFormed(data: map<Address, Account>, c': Contents)
    requires Reencoded(data, c')
    ensures WellFormed(V2, c')
  {
    forall key | key in c' ensures IsAccountKey(V2, key) && Typed(AccountFieldOf(V2, key).value, c'[key]) {
      KeyOfParts(V2, key);
      var f := AccountFieldOf(V2, key).value;
      assert FieldAt(V2, c', key[..32], f) == KeptAt(data, key[..32], f);
    }
  }

  /** `contains_nonce` survives the upgrade exactly when no zero was stored explicitly; see `ExplicitZeroIsLost` for
      one. */
  lemma ContainsNonceKept(c: Contents, c': Contents, a: Address)
    requires SameAccounts(c, c') && WellFormed(V1, c)
    ensures (FieldAt(V2, c', a, Nonce).Some? <==> FieldAt(V1, c, a, Nonce).Some?)
            <==> FieldAt(V1, c, a, Nonce) != Some(Le64(0))
  {
    var v := FieldAt(V1, c, a, Nonce);
    AccountKeyParts(V1, a, Nonce);
    assert IsAccountKey(V1, AccountKey(V1, a, Nonce));
    if v.Some? { Le64Onto(v.value); }
  }

  /** An account with nothing but an explicit zero nonce is well formed, and no longer contains one afterwards. */
  lemma ExplicitZeroIsLost(a: Address, c': Contents)
    requires SameAccounts(map[AccountKey(V1, a, Nonce) := Le64(0)], c')
    ensures WellFormed(V1, map[AccountKey(V1, a, Nonce) := Le64(0)])
    ensures FieldAt(V1, map[AccountKey(V1, a, Nonce) := Le64(0)], a, Nonce).Some? && FieldAt(V2, c', a, Nonce) == None
  {
  }

  /** The same for `contains_balance`. */
  lemma ContainsBalanceKept(c: Contents, c': Contents, a: Address)
    requires SameAccounts(c, c') && WellFormed(V1, c)
    ensures (FieldAt(V2, c', a, Balance).Some? <==> FieldAt(V1, c, a, Balance).Some?)
            <==> FieldAt(V1, c, a, Balance) != Some(Le64(0))
  {
    var v := FieldAt(V1, c, a, Balance);
    AccountKeyParts(V1, a, Balance);
    assert IsAccountKey(V1, AccountKey(V1, a, Balance));
    if v.Some? { Le64Onto(v.value); }
  }

  /** What the upgrade makes of a stored field: explicit zeros, empty code and storage hashes go. */
  function AfterUpgrade(f: AccountField, v: Option<Bytes>): Option<Bytes> {
    match f
    case Nonce => if v == Some(Le64(0)) then None else v
    case Balance => if v == Some(Le64(0)) then None else v
    case ContractCode => if v == Some([]) then None else v
    case CbiVersion => v
    case StorageHash => None
  }

  /** The fields themselves, byte for byte, after the upgrade. */
  lemma FieldsUpgraded(c: Contents, c': Contents, a: Address, f: AccountField)
    requires SameAccounts(c, c') && WellFormed(V1, c) && WellFormed(V2, c')
    ensures FieldAt(V2, c', a, f) == AfterUpgrade(f, FieldAt(V1, c, a, f))
  {
    FieldIsTyped(V1, c, a, f);
    FieldIsTyped(V2, c', a, f);
    hide WellFormed, FieldAt;
    assert NonceAt(V2, c', a) == NonceAt(V1, c, a) && CbiVersionAt(V2, c', a) == CbiVersionAt(V1, c, a);
    match f
    case Nonce => SameNumber(FieldAt(V1, c, a, f), FieldAt(V2, c', a, f));
    case Balance => SameNumber(FieldAt(V1, c, a, f), FieldAt(V2, c', a, f));
    case CbiVersion =>
      if FieldAt(V1, c, a, f).Some? { Le32Onto(FieldAt(V1, c, a, f).value); }
      if FieldAt(V2, c', a, f).Some? { Le32Onto(FieldAt(V2, c', a, f).value); }
    case _ =>
  }

  lemma FieldIsTyped(version: Version, c: Contents, a: Address, f: AccountField)
    requires WellFormed(version, c)
    ensures FieldAt(version, c, a, f).Some? ==> Typed(f, FieldAt(version, c, a, f).value)
  {
    AccountKeyParts(version, a, f);
  }

  lemma SameNumber(v: Option<Bytes>, v': Option<Bytes>)
    requires (v.Some? ==> |v.value| == 8) && (v'.Some? ==> |v'.value| == 8)
    requires U64Or0(v') == U64Or0(v) && (v'.Some? <==> U64Or0(v) != 0)
    ensures v' == if v == Some(Le64(0)) then None else v
  {
    if v.Some? { Le64Onto(v.value); }
    if v'.Some? { Le64Onto(v'.value); }
  }

  /** `t` is the version 2 trie of the accounts in `c`, which `source` held, and `hashes` lists their storage hashes. */
  ghost predicate AccountsUpgraded(f: TrieFormat, db: Contents, source: Trie, c: Contents, t: Trie,
                                   hashes: map<Address, Hash>) {
    && t.version == V2 && t.prefix == []
    && (exists c' :: Holds(f, db, t, c') && SameAccounts(c, c') && WellFormed(V2, c')
                     && (source.version == V1 && Lean(f, source, c) ==> Renewed(f, t, c'))
                     && RefilledAs(f, db, source, c, c', t))
    && (source.version == V1 ==> Retired(f, source, c, t.overlay))
    && (forall a: Address :: Lookup(hashes, a) == StorageHashAt(V1, c, a))
  }

  /** Read all accounts, empty the trie, and write them again as version 2. */
  method Upgrade(f: TrieFormat, db: Contents, t: Trie) returns (r: Result<(Trie, map<Address, Hash>)>)
    requires forall c | ContentsOf(f, db, t) == Some(c) :: HashesSized(V1, c)
    ensures ContentsOf(f, db, t) == None ==> r == Err(TrieError)
    ensures forall c | ContentsOf(f, db, t) == Some(c) && r.Ok? :: EntriesReadable(V1, c)
    ensures Sound(f, db, t) && t.prefix == [] && WellFormed(V1, ContentsOf(f, db, t).value) ==>
              r.Ok? && AccountsUpgraded(f, db, t, ContentsOf(f, db, t).value, r.value.0, r.value.1)
  {
    var loaded := ContentsOf(f, db, t);
    if loaded == None {
      return Err(TrieError);
    }
    var c := loaded.value;
    var data := All(V1, c);
    if WellFormed(V1, c) { WellFormedIsReadable(V1, c); }
    if data.Err? {
      return Err(data.error);
    }
    hide AccountsUpgraded, Collected, Holds;
    r := Rebuild(f, db, t, c, data.value);
  }

  /** The part of the upgrade after the accounts are read. */
  method Rebuild(f: TrieFormat, db: Contents, t: Trie, c: Contents, data: map<Address, Account>)
    returns (r: Result<(Trie, map<Address, Hash>)>)
    requires forall a | a in data :: HashSized(data[a].storageHash)
    ensures LawfulFormat(f) && t.prefix == [] && Holds(f, db, t, c) && WellFormed(V1, c) && Collected(V1, c, data) ==>
              r.Ok? && AccountsUpgraded(f, db, t, c, r.value.0, r.value.1)
  {
    hide *;
    var emptied := RemoveAll(f, db, t, c.Keys);
    var renewed := Deinit(f, db, emptied);
    EmptiedUpgrades(f, db, t, c);
    if renewed.Err? {
      return Err(renewed.error);
    }
    var info, hashes := Reencode(data);
    var filled := SetAll(f, db, renewed.value, info);
    if LawfulFormat(f) && t.prefix == [] && Holds(f, db, t, c) && WellFormed(V1, c) && Collected(V1, c, data) {
      RebuildLands(f, db, t, renewed.value, c, data, info, hashes);
    }
    if filled.Err? {
      return Err(filled.error);
    }
    r := Ok((filled.value, hashes));
  }

  lemma RebuildLands(f: TrieFormat, db: Contents, source: Trie, t: Trie, c: Contents, data: map<Address, Account>,
                     info: Contents, hashes: map<Address, Hash>)
    requires LawfulFormat(f) && Holds(f, db, t, map[]) && t.version == V2 && t.prefix == []
    requires source.version == V1 && Lean(f, source, c) ==> Renewed(f, t, map[])
    requires source.version == V1 ==> Retired(f, source, c, t.overlay)
    requires Deinit(f, db, RemoveAll(f, db, source, c.Keys)) == Ok(t)
    requires WellFormed(V1, c) && Collected(V1, c, data) && Reencoded(data, info) && HashesListed(data, hashes)
    ensures SetAll(f, db, t, info).Ok? && AccountsUpgraded(f, db, source, c, SetAll(f, db, t, info).value, hashes)
  {
    ReencodedIsStorable(f, data, info);
    ReencodedMeansSame(c, data, info);
    HashesMeanSame(c, data, hashes);
    hide Holds, LawfulFormat, WellFormed, Collected, Reencoded, SameAccounts;
    hide HashesListed, SetAll, StorageHashAt, Renewed, Lean;
    hide WithData, Storable, Deinit, RemoveAll, Retired;
    FillsEmpty(f, db, t, info);
  }

  lemma ReencodedIsStorable(f: TrieFormat, data: map<Address, Account>, info: Contents)
    requires Reencoded(data, info)
    ensures Storable(f, info)
  {
    forall key | key in info ensures info[key] != [] {
      KeyOfParts(V2, key);
      var g := AccountFieldOf(V2, key).value;
      assert FieldAt(V2, info, key[..32], g) == KeptAt(data, key[..32], g);
    }
  }

  lemma HashesMeanSame(c: Contents, data: map<Address, Account>, hashes: map<Address, Hash>)
    requires WellFormed(V1, c) && Collected(V1, c, data) && HashesListed(data, hashes)
    ensures forall a: Address :: Lookup(hashes, a) == StorageHashAt(V1, c, a)
  {
    forall a: Address ensures Lookup(hashes, a) == StorageHashAt(V1, c, a) {
      assert Lookup(data, a) == if HasField(V1, c, a) then Some(RecordAt(V1, c, a)) else None;
      assert Lookup(hashes, a) == if a in data then HashOf(data[a]) else None;
      assert AccountKey(V1, a, StorageHash) in c ==> HasField(V1, c, a);
    }
  }
}
