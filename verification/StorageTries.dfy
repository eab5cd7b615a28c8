/** The storage trie of an account: its keys, and the upgrade to version 2. */
module StorageTries {
  import opened Bytes
  import opened Overlays
  import opened Tries
  import opened AccountsTries

  function StorageKey(version: Version, key: Bytes): (k: Bytes)
    ensures DropVisibility(version, k) == if version == V2 && key == [] then Err(KeyError) else Ok(key)
  {
    match version case V1 => [PUBLIC] + key case V2 => key
  }

  /** `drop_visibility_type`, which refuses the empty key in both versions. */
  function DropVisibility(version: Version, key: Bytes): Result<Bytes> {
    if |key| < 1 then Err(KeyError) else match version case V1 => Ok(key[1..]) case V2 => Ok(key)
  }

  /** The layout in bytes, and what each version makes of a key without its visibility. */
  lemma StorageLayout(key: Bytes, visibility: u8)
    ensures StorageKey(V1, key) == [0] + key && StorageKey(V2, key) == key
    ensures DropVisibility(V1, [visibility] + key) == Ok(key)
            && DropVisibility(V2, [visibility] + key) == Ok([visibility] + key)
    ensures DropVisibility(V1, []) == DropVisibility(V2, []) == Err(KeyError)
  {
    assert ([visibility] + key)[1..] == key;
  }

  /** What a storage trie with contents `c` answers for a key. */
  function StorageAt(version: Version, c: Contents, key: Bytes): Option<Bytes> {
    Lookup(c, StorageKey(version, key))
  }

  /** The keys that version 1 reads and writes use: they begin with the Public byte. */
  ghost predicate WellKeyed(version: Version, c: Contents) {
    version == V1 ==> forall key | key in c :: key != [] && key[0] == PUBLIC
  }

  lemma StorageFits(version: Version, a: Address, c: Contents)
    requires WellKeyed(version, c)
    ensures Fits(version, a, c)
  {
  }

  lemma StorageKeyInjective(version: Version, k: Bytes, l: Bytes)
    ensures StorageKey(version, k) == StorageKey(version, l) <==> k == l
  {
  }

  /** Removing by storage key keeps to those keys, and removes one key of the plain map. */
  lemma RemoveOne(version: Version, c: Contents, key: Bytes)
    ensures WellKeyed(version, c) ==> WellKeyed(version, c - {StorageKey(version, key)})
    ensures forall k ::
            StorageAt(version, c - {StorageKey(version, key)}, k) == if k == key then None else StorageAt(version, c, k)
  {
    forall k
      ensures StorageAt(version, c - {StorageKey(version, key)}, k)
           == if k == key then None else StorageAt(version, c, k)
    {
      StorageKeyInjective(version, k, key);
    }
  }

  /** Adding an entry by storage key, likewise. */
  lemma AddOne(version: Version, c: Contents, key: Bytes, value: Bytes)
    ensures WellKeyed(version, c) ==> WellKeyed(version, c[StorageKey(version, key) := value])
    ensures forall k :: StorageAt(version, c[StorageKey(version, key) := value], k)
                     == if k == key then Some(value) else StorageAt(version, c, k)
  {
    forall k
      ensures StorageAt(version, c[StorageKey(version, key) := value], k)
           == if k == key then Some(value) else StorageAt(version, c, k)
    {
      StorageKeyInjective(version, k, key);
    }
  }

  /** `keyed` is `data` under storage keys. */
  ghost predicate Keyed(version: Version, data: Contents, keyed: Contents) {
    WellKeyed(version, keyed) && forall key :: StorageAt(version, keyed, key) == Lookup(data, key)
  }

  /** Setting by storage key keeps to those keys, and acts like the update of the plain map. */
  lemma SetReads(f: TrieFormat, version: Version, c: Contents, data: Contents, keyed: Contents)
    requires Keyed(version, data, keyed)
    ensures WellKeyed(version, c) ==> WellKeyed(version, WithData(f, c, keyed))
    ensures forall k :: StorageAt(version, WithData(f, c, keyed), k)
                     == if k in data then Written(f, data[k]) else StorageAt(version, c, k)
  {
    forall k
      ensures StorageAt(version, WithData(f, c, keyed), k)
           == if k in data then Written(f, data[k]) else StorageAt(version, c, k)
    {
      WithDataAt(f, c, keyed, StorageKey(version, k));
      assert StorageAt(version, keyed, k) == Lookup(data, k);
    }
  }

  /** The data of a single `set`. */
  lemma KeyedOne(version: Version, key: Bytes, value: Bytes)
    ensures Keyed(version, map[key := value], map[StorageKey(version, key) := value])
  {
    AddOne(version, map[], key, value);
    assert map[StorageKey(version, key) := value] == map[][StorageKey(version, key) := value];
  }

  /** `batch_set`: the same data under storage keys, none of which meet. */
  method StorageData(version: Version, data: Contents) returns (r: Contents)
    ensures Keyed(version, data, r)
  {
    r := map[];
    var rest := data.Keys;
    ghost var done: Contents := map[];
    while rest != {}
      invariant rest <= data.Keys && done == (map k | k in data && k !in rest :: data[k])
      invariant Keyed(version, done, r)
    {
      var key :| key in rest;
      KeyedNext(version, done, r, key, data[key]);
      r := r[StorageKey(version, key) := data[key]];
      rest := rest - {key};
      done := done[key := data[key]];
    }
    assert done == data;
  }

  lemma KeyedNext(version: Version, data: Contents, keyed: Contents, key: Bytes, value: Bytes)
    requires Keyed(version, data, keyed)
    ensures Keyed(version, data[key := value], keyed[StorageKey(version, key) := value])
  {
    AddOne(version, keyed, key, value);
    var keyed' := keyed[StorageKey(version, key) := value];
    forall k ensures StorageAt(version, keyed', k) == Lookup(data[key := value], k) {
      assert StorageAt(version, keyed, k) == Lookup(data, k);
    }
  }

  /** Both contents answer every storage key alike. */
  ghost predicate SameStorage(c: Contents, c': Contents) {
    forall key :: StorageAt(V2, c', key) == StorageAt(V1, c, key)
  }

  /** Dropping the visibility byte of one more entry. Because that byte is always the same, no two entries merge. */
  lemma DropOne(c: Contents, c': Contents, key: Bytes, value: Bytes)
    requires SameStorage(c, c') && key != [] && key[0] == PUBLIC
    ensures SameStorage(c[key := value], c'[StorageKey(V2, key[1..]) := value])
  {
    var d, d' := c[key := value], c'[StorageKey(V2, key[1..]) := value];
    forall k ensures StorageAt(V2, d', k) == StorageAt(V1, d, k) {
      assert StorageAt(V2, c', k) == StorageAt(V1, c, k);
      assert StorageKey(V1, k)[1..] == k;
      assert key == [key[0]] + key[1..];
    }
  }

  /** Each key without its first byte, whatever that is, with the value of an entry that it came from. */
  ghost predicate Dropped(c: Contents, c': Contents) {
    && (forall key | key in c && key != [] :: key[1..] in c')
    && (forall k | k in c' :: exists key :: key in c && key != [] && key[1..] == k && c[key] == c'[k])
  }

  /** The entries under version 2 keys, gathered in any order. */
  method Rekey(c: Contents) returns (r: Result<Contents>)
    ensures r.Ok? ==> Dropped(c, r.value)
    ensures r.Err? <==> [] in c
    ensures r.Err? ==> r == Err(KeyError)
    ensures WellKeyed(V1, c) ==> r.Ok? && SameStorage(c, r.value)
  {
    var dataMap: Contents := map[];
    var rest := c.Keys;
    ghost var done: Contents := map[];
    while rest != {}
      invariant rest <= c.Keys && done == (map k | k in c && k !in rest :: c[k]) && [] !in done
      invariant Dropped(done, dataMap)
      invariant WellKeyed(V1, c) ==> SameStorage(done, dataMap)
    {
      var key :| key in rest;
      var dropped := DropVisibility(V1, key);
      if dropped.Err? {
        return Err(dropped.error);
      }
      if WellKeyed(V1, c) { DropOne(done, dataMap, key, c[key]); }
      DropNext(done, dataMap, key, c[key]);
      dataMap := dataMap[StorageKey(V2, dropped.value) := c[key]];
      rest := rest - {key};
      done := done[key := c[key]];
    }
    assert done == c;
    r := Ok(dataMap);
  }

  lemma DropNext(c: Contents, c': Contents, key: Bytes, value: Bytes)
    requires Dropped(c, c') && key != [] && key !in c
    ensures Dropped(c[key := value], c'[StorageKey(V2, key[1..]) := value])
  {
    var d, d' := c[key := value], c'[StorageKey(V2, key[1..]) := value];
    forall k | k in d' ensures exists from :: from in d && from != [] && from[1..] == k && d[from] == d'[k] {
      if k != key[1..] {
        var from :| from in c && from != [] && from[1..] == k && c[from] == c'[k];
        assert d[from] == d'[k];
      } else {
        assert d[key] == d'[k];
      }
    }
  }

  /** `t` is the version 2 trie of the storage in `c`, which `source` held. */
  ghost predicate StorageUpgraded(f: TrieFormat, db: Contents, source: Trie, c: Contents, t: Trie) {
    && t.version == V2 && t.prefix == source.prefix
    && (exists c' :: Holds(f, db, t, c') && SameStorage(c, c')
                     && (source.version == V1 && Lean(f, source, c) ==> Renewed(f, t, c'))
                     && (if source.root == f.root(map[]) then Deinit(f, db, source) == Ok(t)
                         else RefilledAs(f, db, source, c, c', t)))
    && (source.version == V1 ==> Retired(f, source, c, t.overlay))
  }

  /** Empty the trie and write its entries again under version 2 keys. */
  method Upgrade(f: TrieFormat, db: Contents, t: Trie) returns (r: Result<Trie>)
    ensures t.root != f.root(map[]) && ContentsOf(f, db, t) == None ==> r == Err(TrieError)
    ensures forall c | t.root != f.root(map[]) && ContentsOf(f, db, t) == Some(c) && [] in c :: r == Err(KeyError)
    ensures Sound(f, db, t) && WellKeyed(V1, ContentsOf(f, db, t).value) ==>
              r.Ok? && StorageUpgraded(f, db, t, ContentsOf(f, db, t).value, r.value)
  {
    if t.root == f.root(map[]) {
      r := Deinit(f, db, t);
      if Sound(f, db, t) { EmptyUpgrades(f, db, t); }
      return;
    }
    var loaded := ContentsOf(f, db, t);
    if loaded == None {
      return Err(TrieError);
    }
    var c := loaded.value;
    var data := Rekey(c);
    if data.Err? {
      return Err(data.error);
    }
    if Sound(f, db, t) && WellKeyed(V1, c) { RekeyedIsStorable(f, c, data.value); }
    hide StorageUpgraded, Holds;
    r := Rebuild(f, db, t, c, data.value);
  }

  lemma EmptyUpgrades(f: TrieFormat, db: Contents, t: Trie)
    requires Sound(f, db, t) && t.root == f.root(map[])
    ensures Deinit(f, db, t).Ok? && StorageUpgraded(f, db, t, ContentsOf(f, db, t).value, Deinit(f, db, t).value)
  {
    assert ContentsOf(f, db, t).value == map[];
    assert SameStorage(map[], map[]);
    DeinitHolds(f, db, t);
    DeinitTouches(f, db, t);
    if t.version == V1 && Lean(f, t, map[]) { DeinitRenews(f, db, t); }
    hide Deinit, Holds, Sound, Lean, Renewed, ContentsOf;
  }

  /** Values are carried over, so a trie that keeps no empty values is given none. */
  lemma RekeyedIsStorable(f: TrieFormat, c: Contents, data: Contents)
    requires Storable(f, c) && SameStorage(c, data)
    ensures Storable(f, data)
  {
    forall key | key in data ensures f.keepsEmpty || data[key] != [] {
      assert StorageAt(V2, data, key) == StorageAt(V1, c, key);
    }
  }

  /** The part of the upgrade after the entries are gathered. */
  method Rebuild(f: TrieFormat, db: Contents, t: Trie, c: Contents, data: Contents) returns (r: Result<Trie>)
    requires t.root != f.root(map[])
    ensures LawfulFormat(f) && Holds(f, db, t, c) && SameStorage(c, data) && Storable(f, data) ==>
              r.Ok? && StorageUpgraded(f, db, t, c, r.value)
  {
    hide Holds, LawfulFormat, SameStorage, Deinit, RemoveAll, SetAll, Storable, Lean, Renewed;
    var emptied := RemoveAll(f, db, t, c.Keys);
    var renewed := Deinit(f, db, emptied);
    EmptiedUpgrades(f, db, t, c);
    if renewed.Err? {
      return Err(renewed.error);
    }
    r := SetAll(f, db, renewed.value, data);
    if LawfulFormat(f) && Holds(f, db, t, c) && Storable(f, data) { FillsEmpty(f, db, renewed.value, data); }
  }
}
