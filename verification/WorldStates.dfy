/** The world state: accounts trie and cached storage tries over a store, closing and upgrading. */
module WorldStates {
  import opened Bytes
  import opened Overlays
  import opened Tries
  import opened AccountsTries
  import opened StorageTries
  import opened Worlds
  import opened Closing

  /** All changes since opening, by physical key, and the new root of the accounts trie. */
  datatype Changes = Changes(overlay: Overlay, root: Hash)

  class WorldState {
    const format: TrieFormat
    const version: Version
    const db: Contents
    var accounts: Trie
    var cache: map<Address, Trie>

    constructor New(format: TrieFormat, version: Version, db: Contents)
      ensures Snapshot() == NewWorld(format, version, db)
              == World(format, version, db, NewTrie(format, version, []), map[])
      ensures LawfulFormat(format) ==> Regular(Snapshot()) && forall a: Address :: StorageIn(Snapshot(), a) == map[]
    {
      this.format, this.version, this.db := format, version, db;
      accounts, cache := NewTrie(format, version, []), map[];
      new;
      if LawfulFormat(format) { NewIsRegular(format, version, db); }
    }

    constructor Open(format: TrieFormat, version: Version, db: Contents, root: Hash)
      ensures Snapshot() == OpenWorld(format, version, db, root)
                         == World(format, version, db, Trie(version, [], NO_CHANGES, root), map[])
      ensures Loadable(Snapshot()) ==> Regular(Snapshot())
    {
      this.format, this.version, this.db := format, version, db;
      accounts, cache := OpenTrie(version, [], root), map[];
      new;
      if Loadable(Snapshot()) { OpenIsRegular(format, version, db, root); }
    }

    constructor Of(format: TrieFormat, version: Version, db: Contents, accounts: Trie, cache: map<Address, Trie>)
      ensures Snapshot() == World(format, version, db, accounts, cache)
    {
      this.format, this.version, this.db := format, version, db;
      this.accounts, this.cache := accounts, cache;
    }

    function Snapshot(): World
      reads this
    {
      World(format, version, db, accounts, cache)
    }

    /** The accounts trie loads. */
    predicate AccountsLoad()
      reads this
    {
      ContentsOf(format, db, accounts).Some?
    }

    /** Reading a stored hash panics unless it has 32 bytes. */
    predicate HashReadable(a: Address)
      reads this
    {
      match Get(format, db, accounts, AccountKey(version, a, StorageHash))
      case Ok(Some(h)) => |h| == 32
      case _ => true
    }

    /** The storage trie of an address, cached from now on. It changes no meaning. */
    method StorageTrieMut(a: Address) returns (r: Result<Trie>)
      requires HashReadable(a)
      modifies this
      ensures match Visited(old(Snapshot()), a) case Ok(_) => r.Ok? case Err(e) => r == Err(e)
      ensures old(a !in cache && !AccountsLoad()) ==> r == Err(TrieError)
      ensures Snapshot() == if r.Ok? then Visited(old(Snapshot()), a).value else old(Snapshot())
      ensures r.Ok? ==> a in cache && r.value == cache[a]
      ensures old(Loadable(Snapshot())) ==>
                && r.Ok? && Keeps(old(Snapshot()), Snapshot())
                && SameButHashes(version, AccountsIn(old(Snapshot())), AccountsIn(Snapshot()))
                && forall b: Address :: StorageIn(Snapshot(), b) == StorageIn(old(Snapshot()), b)
    {
      if Loadable(Snapshot()) { VisitKeeps(Snapshot(), a); }
      if a in cache {
        return Ok(cache[a]);
      }
      var stored := Get(format, db, accounts, AccountKey(version, a, StorageHash));
      if stored.Err? {
        return Err(stored.error);
      }
      var storageTrie;
      if stored.value.Some? {
        storageTrie := OpenTrie(version, a, stored.value.value);
      } else {
        storageTrie := NewTrie(format, version, a);
        var entered := SetStorageHash(a, storageTrie.root);
        assert entered.Ok?;
      }
      cache := cache[a := storageTrie];
      r := Ok(storageTrie);
    }

    /** `storage_trie_mut(a)?.set(key, value)`. What an empty value does is up to the trie. */
    method SetStorage(a: Address, key: Bytes, value: Bytes) returns (r: Result<()>)
      requires HashReadable(a)
      modifies this
      ensures Gives(old(Snapshot()), a, Setting(map[StorageKey(version, key) := value]), r, Snapshot())
      ensures old(Loadable(Snapshot())) ==>
                r.Ok? && Keeps(old(Snapshot()), Snapshot())
                    && StorageSet(old(Snapshot()), Snapshot(), a, map[key := value])
    {
      hide *;
      KeyedOne(version, key, value);
      r := SetKeyed(a, map[key := value], map[StorageKey(version, key) := value]);
    }

    /** `storage_trie_mut(a)?.batch_set(data)`. */
    method SetStorageBatch(a: Address, data: Contents) returns (r: Result<()>)
      requires HashReadable(a)
      modifies this
      ensures exists keyed :: Keyed(version, data, keyed) && Gives(old(Snapshot()), a, Setting(keyed), r, Snapshot())
      ensures old(Loadable(Snapshot())) ==>
                r.Ok? && Keeps(old(Snapshot()), Snapshot()) && StorageSet(old(Snapshot()), Snapshot(), a, data)
    {
      hide *;
      var keyed := StorageData(version, data);
      r := SetKeyed(a, data, keyed);
    }

    /** Both of these once the data is under storage keys. */
    method SetKeyed(a: Address, ghost data: Contents, keyed: Contents) returns (r: Result<()>)
      requires HashReadable(a) && Keyed(version, data, keyed)
      modifies this
      ensures Gives(old(Snapshot()), a, Setting(keyed), r, Snapshot())
      ensures old(Loadable(Snapshot())) ==>
                r.Ok? && Keeps(old(Snapshot()), Snapshot()) && StorageSet(old(Snapshot()), Snapshot(), a, data)
    {
      hide StorageIn, AccountsIn, SameButHashes, SetAll, Keyed, InMode, Loadable, StorageSet, Visited;
      ghost var w := Snapshot();
      var t := StorageTrieMut(a);
      if t.Err? {
        return Err(t.error);
      }
      ghost var w1 := Snapshot();
      if Loadable(w) {
        SetStorageKeeps(w1, a, data, keyed);
        var w2 := Cached(w1, a, SetAll(format, db, w1.cache[a], keyed).value);
        KeepsOn(w, w1, w2);
        VisitedSet(w, w1, w2, a, data);
      }
      var t' := SetAll(format, db, t.value, keyed);
      if t'.Err? {
        return Err(t'.error);
      }
      cache := cache[a := t'.value];
      r := Ok(());
    }

    /** `storage_trie_mut(a)?.remove(key)`. */
    method RemoveStorage(a: Address, key: Bytes) returns (r: Result<()>)
      requires HashReadable(a)
      modifies this
      ensures Gives(old(Snapshot()), a, Removing(key), r, Snapshot())
      ensures old(Loadable(Snapshot())) ==>
                && r.Ok? && Keeps(old(Snapshot()), Snapshot())
                && SameButHashes(version, AccountsIn(old(Snapshot())), AccountsIn(Snapshot()))
                && forall b: Address, k :: StorageAt(version, StorageIn(Snapshot(), b), k)
                     == if b == a && k == key then None else StorageAt(version, StorageIn(old(Snapshot()), b), k)
    {
      hide StorageIn, AccountsIn, SameButHashes, Remove, RemoveAll, InMode, Loadable;
      ghost var loadable := Loadable(Snapshot());
      var t := StorageTrieMut(a);
      if t.Err? {
        return Err(t.error);
      }
      if loadable { RemoveStorageKeeps(Snapshot(), a, key); }
      var t' := Remove(format, db, t.value, StorageKey(version, key));
      if t'.Err? {
        return Err(t'.error);
      }
      cache := cache[a := t'.value];
      r := Ok(());
    }

    /** `storage_trie_mut(a)?.remove_trie()`. */
    method RemoveTrie(a: Address) returns (r: Result<()>)
      requires HashReadable(a)
      modifies this
      ensures Gives(old(Snapshot()), a, Emptying, r, Snapshot())
      ensures old(Loadable(Snapshot())) ==>
                && r.Ok? && Keeps(old(Snapshot()), Snapshot())
                && SameButHashes(version, AccountsIn(old(Snapshot())), AccountsIn(Snapshot()))
                && forall b: Address ::
                   StorageIn(Snapshot(), b) == if b == a then map[] else StorageIn(old(Snapshot()), b)
    {
      hide StorageIn, AccountsIn, SameButHashes, Remove, RemoveAll, InMode, Loadable;
      ghost var loadable := Loadable(Snapshot());
      var t := StorageTrieMut(a);
      if t.Err? {
        return Err(t.error);
      }
      if loadable { EmptyStorageKeeps(Snapshot(), a); }
      var loaded := ContentsOf(format, db, t.value);
      if loaded == None {
        return Err(TrieError);
      }
      cache := cache[a := RemoveAll(format, db, t.value, loaded.value.Keys)];
      r := Ok(());
    }

    /** `account_trie().all()`: exactly the addresses with a field, each with the record of its point reads. */
    method AllAccounts() returns (r: Result<map<Address, Account>>)
      ensures !AccountsLoad() ==> r == Err(TrieError)
      ensures AccountsLoad() ==>
                (r.Ok? <==> EntriesReadable(version, AccountsIn(Snapshot())))
      ensures r.Ok? ==> Gathered(version, AccountsIn(Snapshot()), r.value)
      ensures Loadable(Snapshot()) ==> r.Ok? && Collected(version, AccountsIn(Snapshot()), r.value)
    {
      var c := ContentsOf(format, db, accounts);
      if c == None {
        return Err(TrieError);
      }
      assert AccountsIn(Snapshot()) == c.value;
      if WellFormed(version, c.value) { WellFormedIsReadable(version, c.value); }
      r := All(version, c.value);
    }

    /** `account_trie_mut().set_nonce`, `set_balance`, `set_code` and `set_cbi_version`, by field. */
    method SetAccountField(a: Address, g: AccountField, value: Bytes) returns (r: Result<()>)
      requires Typed(g, value) && g != StorageHash
      modifies this
      ensures old(!AccountsLoad()) ==> r == Err(TrieError) && Snapshot() == old(Snapshot())
      ensures old(AccountsLoad()) ==> r.Ok? && WithAccountField(old(Snapshot()), a, g, value) == Ok(Snapshot())
      ensures old(Loadable(Snapshot())) ==>
                && r.Ok? && Keeps(old(Snapshot()), Snapshot())
                && FieldSet(version, AccountsIn(old(Snapshot())), AccountsIn(Snapshot()), a, g, Written(format, value))
                && forall b: Address :: StorageIn(Snapshot(), b) == StorageIn(old(Snapshot()), b)
    {
      ghost var w := Snapshot();
      assert w.version == version && w.format == format;
      hide *;
      r := SetField(a, g, value);
      if Loadable(w) { SetFieldKeeps(w, a, g, value); }
    }

    /** A field of an account is set, or nothing is if the trie does not load. */
    method SetField(a: Address, g: AccountField, value: Bytes) returns (r: Result<()>)
      modifies this`accounts
      ensures old(!AccountsLoad()) ==> r == Err(TrieError) && Snapshot() == old(Snapshot())
      ensures old(AccountsLoad()) ==> r.Ok?
      ensures match WithAccountField(old(Snapshot()), a, g, value)
              case Ok(w) => r.Ok? && Snapshot() == w
              case Err(_) => r.Err? && Snapshot() == old(Snapshot())
    {
      SetFieldFails(Snapshot(), a, g, value);
      hide SetAll, AccountKey, ContentsOf;
      var t := SetAll(format, db, accounts, map[AccountKey(version, a, g) := value]);
      if t.Err? {
        return Err(t.error);
      }
      accounts := t.value;
      r := Ok(());
    }

    method SetStorageHash(a: Address, h: Hash) returns (r: Result<()>)
      modifies this`accounts
      ensures old(!AccountsLoad()) ==> r == Err(TrieError) && Snapshot() == old(Snapshot())
      ensures match WithAccountField(old(Snapshot()), a, StorageHash, h)
              case Ok(w) => r.Ok? && Snapshot() == w
              case Err(_) => r.Err? && Snapshot() == old(Snapshot())
    {
      r := SetField(a, StorageHash, h);
    }

    /** The loop of `close`: enter the roots of the cached tries, in any order, and merge their changes. */
    method CloseStorages() returns (r: Result<Overlay>)
      modifies this`accounts
      ensures cache != map[] && old(!AccountsLoad()) ==> r == Err(TrieError) && Snapshot() == old(Snapshot())
      ensures cache == map[] ==> r == Ok(NO_CHANGES) && Snapshot() == old(Snapshot())
      ensures r.Ok? ==> MergedInSomeOrder(r.value, cache, cache.Keys)
      ensures old(Loadable(Snapshot())) ==> r.Ok? && ClosedSoFar(old(Snapshot()), Snapshot(), cache.Keys, r.value)
    {
      ghost var w := Snapshot();
      ghost var loadable := Loadable(w);
      if loadable { CloseNone(w); }
      ghost var loads := AccountsLoad();
      MergedNone(cache);
      assert cache.Keys - cache.Keys == {};
      hide ClosedSoFar, Loadable, WithAccountField, Merge, ContentsOf, MergedInSomeOrder;
      var merged := NO_CHANGES;
      var rest := cache.Keys;
      while rest != {}
        invariant rest <= cache.Keys
        invariant rest == cache.Keys ==> accounts == old(accounts) && merged == NO_CHANGES
        invariant rest == cache.Keys || loads
        invariant MergedInSomeOrder(merged, cache, cache.Keys - rest)
        invariant loadable ==> ClosedSoFar(w, Snapshot(), cache.Keys - rest, merged)
      {
        var a :| a in rest;
        if loadable { CloseOne(w, Snapshot(), cache.Keys - rest, merged, a); }
        assert cache.Keys - (rest - {a}) == cache.Keys - rest + {a};
        MergedOneMore(merged, cache, cache.Keys - rest, a);
        var entered := SetStorageHash(a, cache[a].root);
        if entered.Err? {
          return Err(entered.error);
        }
        merged := Merge(merged, cache[a].overlay);
        rest := rest - {a};
      }
      assert cache.Keys - rest == cache.Keys;
      r := Ok(merged);
    }

    /** Enter the roots of the cached tries, and hand over the changes of all tries. The cached tries keep their
        changes, since it is copies of them that are closed; the accounts trie gives its up. `closed` is the state once
        the roots are entered. */
    method Close() returns (r: Result<Changes>, ghost closed: World)
      modifies this
      ensures cache == old(cache) && (r.Ok? ==> accounts == closed.accounts.(overlay := NO_CHANGES))
      ensures cache != map[] && old(!AccountsLoad()) ==> r == Err(TrieError) && Snapshot() == old(Snapshot())
      ensures cache == map[] ==>
              r == Ok(Changes(old(accounts.overlay), old(accounts.root))) && closed == old(Snapshot())
      ensures r.Ok? ==> r.value.root == accounts.root
      ensures r.Ok? ==> AccountsLast(r.value.overlay, cache, closed.accounts.overlay)
      ensures old(Loadable(Snapshot())) ==> r.Ok? && Closed(old(Snapshot()), closed, r.value)
      ensures old(Loadable(Snapshot())) && NodesApart(closed) ==>
                Reopens(old(Snapshot()), r.value, true) && Reopens(old(Snapshot()), r.value, false)
      ensures old(Regular(Snapshot())) && (version == V1 ==> Separate(format)) ==>
                Reopens(old(Snapshot()), r.value, true) && Reopens(old(Snapshot()), r.value, false)
                    && Disjoint(r.value.overlay)
      ensures old(Rebuilt(Snapshot())) ==> Reopens(old(Snapshot()), r.value, false)
    {
      ghost var w := Snapshot();
      hide ClosedSoFar, Loadable, InMode, Closed, Reopens, NodesApart, Merge, Disjoint;
      var storages := CloseStorages();
      closed := Snapshot();
      if storages.Err? {
        return Err(storages.error), closed;
      }
      var all := Merge(storages.value, accounts.overlay);
      MergeNothing(accounts.overlay);
      accounts := accounts.(overlay := NO_CHANGES);
      r := Ok(Changes(all, accounts.root));
      if Loadable(w) {
        CloseLast(w, closed, storages.value);
        ClosedReopens(w, closed, r.value);
      }
    }

    /** Upgrade to version 2: the accounts trie first, then the storage trie of every address with a storage hash, the
        cached one if there is one. Reading a stored hash panics unless it is empty or has 32 bytes. */
    method Upgrade() returns (r: Result<WorldState>)
      requires version == V1
      requires forall c | ContentsOf(format, db, accounts) == Some(c) :: HashesSized(V1, c)
      ensures r.Ok? ==> fresh(r.value)
      ensures !AccountsLoad() ==> r == Err(TrieError)
      ensures AccountsLoad() && r.Ok? ==>
                EntriesReadable(V1, AccountsIn(Snapshot()))
      ensures Loadable(Snapshot()) && Entered(Snapshot()) ==>
                && r.Ok? && UpgradeMeansSame(Snapshot(), r.value.Snapshot())
                && (forall a: Address :: a in r.value.cache <==> HashIn(Snapshot(), a).Some?)
                && (Regular(Snapshot()) ==> Rebuilt(r.value.Snapshot()))
                && NodesRetired(Snapshot(), r.value.Snapshot()) && TriesUpgraded(Snapshot(), r.value.Snapshot())
                && r.value.format == format && r.value.db == db
    {
      ghost var w := Snapshot();
      ghost var good := Loadable(w) && Entered(w);
      var accountsV2 := AccountsTries.Upgrade(format, db, accounts);
      if accountsV2.Err? {
        return Err(accountsV2.error);
      }
      var (t, hashes) := accountsV2.value;
      var storages := UpgradeStorages(hashes);
      if good { AllStoragesUpgrade(w, t, hashes); }
      if storages.Err? {
        return Err(storages.error);
      }
      var upgraded := new WorldState.Of(format, V2, db, t, storages.value);
      if good {
        UpgradeKeepsMeaning(w, upgraded.Snapshot(), hashes);
        UpgradeRetires(w, upgraded.Snapshot(), hashes);
        assert TriesUpgraded(w, upgraded.Snapshot());
      }
      r := Ok(upgraded);
    }

    /** The loop of the upgrade over the storage hashes, in any order. */
    method UpgradeStorages(hashes: map<Address, Hash>) returns (r: Result<map<Address, Trie>>)
      ensures (forall a | a in hashes :: CanUpgrade(Snapshot(), a, hashes[a])) ==>
                && r.Ok? && r.value.Keys == hashes.Keys
                && forall a | a in hashes :: HasUpgraded(Snapshot(), a, hashes[a], r.value[a])
    {
      var storageMap: map<Address, Trie> := map[];
      var rest := hashes.Keys;
      while rest != {}
        invariant rest <= hashes.Keys && storageMap.Keys == hashes.Keys - rest
        invariant (forall a | a in hashes :: CanUpgrade(Snapshot(), a, hashes[a])) ==>
                    forall a | a in storageMap :: HasUpgraded(Snapshot(), a, hashes[a], storageMap[a])
      {
        var a :| a in rest;
        var v1 := if a in cache then cache[a] else OpenTrie(V1, a, hashes[a]);
        var v2 := StorageTries.Upgrade(format, db, v1);
        if v2.Err? {
          return Err(v2.error);
        }
        storageMap := storageMap[a := v2.value];
        rest := rest - {a};
      }
      r := Ok(storageMap);
    }
  }

  /** The storage trie that the upgrade takes for an address: the cached one, or the one its hash names. */
  function UpgradeSource(w: World, a: Address, h: Hash): Trie {
    if a in w.cache then w.cache[a] else OpenTrie(V1, a, h)
  }

  ghost predicate CanUpgrade(w: World, a: Address, h: Hash) {
    SoundStorage(w.format, V1, w.db, a, UpgradeSource(w, a, h))
  }

  ghost predicate HasUpgraded(w: World, a: Address, h: Hash, t: Trie) {
    var source := UpgradeSource(w, a, h);
    ContentsOf(w.format, w.db, source).Some?
        && StorageUpgraded(w.format, w.db, source, ContentsOf(w.format, w.db, source).value, t)
  }

  /** `w'` is a readable version 2 state with the accounts of `w`, and every storage key of every address reads the
      same. */
  ghost predicate UpgradeMeansSame(w: World, w': World) {
    && w'.version == V2 && Loadable(w')
    && SameAccounts(AccountsIn(w), AccountsIn(w'))
    && forall a: Address, key :: StorageAt(V2, StorageIn(w', a), key) == StorageAt(V1, StorageIn(w, a), key)
  }

  /** The accounts trie and the storage tries of all entered addresses are those that the upgrades of the tries make. */
  ghost predicate TriesUpgraded(w: World, w': World) {
    exists hashes ::
      && AccountsUpgraded(w.format, w.db, w.accounts, AccountsIn(w), w'.accounts, hashes)
      && w'.cache.Keys == hashes.Keys && forall a | a in hashes :: HasUpgraded(w, a, hashes[a], w'.cache[a])
  }

  lemma AllStoragesUpgrade(w: World, t: Trie, hashes: map<Address, Hash>)
    requires w.version == V1 && Loadable(w) && AccountsUpgraded(w.format, w.db, w.accounts, AccountsIn(w), t, hashes)
    ensures forall a | a in hashes :: CanUpgrade(w, a, hashes[a])
  {
    hide SoundAccounts, SoundStorage, AccountsIn, SameAccounts, WellFormed, Holds, Lean, Renewed;
    forall a | a in hashes ensures CanUpgrade(w, a, hashes[a]) {
      assert Lookup(hashes, a) == HashIn(w, a);
      assert TrieFor(w, a) == Some(UpgradeSource(w, a, hashes[a]));
    }
  }

  /** Because every cached trie has its hash entered, going over the entered hashes upgrades all storage there is. */
  lemma UpgradeKeepsMeaning(w: World, w': World, hashes: map<Address, Hash>)
    requires w.version == V1 && Loadable(w) && Entered(w)
    requires w'.format == w.format && w'.version == V2 && w'.db == w.db
    requires AccountsUpgraded(w.format, w.db, w.accounts, AccountsIn(w), w'.accounts, hashes)
    requires w'.cache.Keys == hashes.Keys && forall a | a in hashes :: HasUpgraded(w, a, hashes[a], w'.cache[a])
    ensures UpgradeMeansSame(w, w')
    ensures forall a: Address :: a in w'.cache <==> HashIn(w, a).Some?
    ensures Regular(w) ==> Rebuilt(w')
  {
    UpgradedAccountsSound(w, w', hashes);
    assert forall a: Address :: Lookup(hashes, a) == HashIn(w, a);
    hide SoundAccounts, SoundStorage, AccountsIn, StorageIn, TrieFor, AccountsUpgraded;
    hide HasUpgraded, InMode, HashIn, Renewed, Lean, Within;
    forall a: Address
      ensures TrieFor(w', a).Some? ==> SoundStorage(w.format, V2, w.db, a, TrieFor(w', a).value)
      ensures forall key :: StorageAt(V2, StorageIn(w', a), key) == StorageAt(V1, StorageIn(w, a), key)
      ensures a in w'.cache <==> HashIn(w, a).Some?
      ensures Regular(w) && a in w'.cache ==> Renewed(w.format, w'.cache[a], StorageIn(w', a))
    {
      UpgradedStorage(w, w', hashes, a);
    }
    assert Loadable(w');
    hide Loadable, SameAccounts;
    if Regular(w) { UpgradedIsRebuilt(w, w'); }
  }

  /** Every node that `w` needed is deleted or overwritten in `w'`, by the trie that was upgraded. */
  ghost predicate NodesRetired(w: World, w': World) {
    forall p, k | Live(w, p, k) :: ChangedBy(PartsIn(w'), p, BuildKey(w.version, p, k))
  }

  lemma UpgradeRetires(w: World, w': World, hashes: map<Address, Hash>)
    requires w.version == V1 && Loadable(w) && Entered(w)
    requires w'.format == w.format && w'.version == V2 && w'.db == w.db
    requires AccountsUpgraded(w.format, w.db, w.accounts, AccountsIn(w), w'.accounts, hashes)
    requires w'.cache.Keys == hashes.Keys && forall a | a in hashes :: HasUpgraded(w, a, hashes[a], w'.cache[a])
    ensures NodesRetired(w, w')
  {
    hide *;
    forall p, k | Live(w, p, k) ensures ChangedBy(PartsIn(w'), p, BuildKey(w.version, p, k)) {
      RetiredNode(w, w', hashes, p, k);
    }
    RetiredAll(w, w');
  }

  lemma RetiredAll(w: World, w': World)
    requires forall p, k | Live(w, p, k) :: ChangedBy(PartsIn(w'), p, BuildKey(w.version, p, k))
    ensures NodesRetired(w, w')
  {
    hide Live, ChangedBy, PartsIn, BuildKey;
  }

  lemma RetiredNode(w: World, w': World, hashes: map<Address, Hash>, p: Bytes, k: Bytes)
    requires w.version == V1 && Loadable(w) && Entered(w) && Live(w, p, k)
    requires AccountsUpgraded(w.format, w.db, w.accounts, AccountsIn(w), w'.accounts, hashes)
    requires w'.cache.Keys == hashes.Keys && forall a | a in hashes :: HasUpgraded(w, a, hashes[a], w'.cache[a])
    ensures ChangedBy(PartsIn(w'), p, BuildKey(w.version, p, k))
  {
    hide SoundStorage, LawfulFormat, ContentsOf, LoadedOr, Holds, SameAccounts;
    hide SameStorage, WellFormed, Lean, Renewed, BuildKey, RefilledAs, Deinit;
    if p == [] {
      assert Retired(w.format, w.accounts, AccountsIn(w), w'.accounts.overlay);
    } else {
      var a: Address := p;
      assert Lookup(hashes, a) == HashIn(w, a);
      var source := UpgradeSource(w, a, hashes[a]);
      assert TrieFor(w, a) == Some(source);
      hide HashIn, AccountsUpgraded;
      SourceIs(w, a, source);
      assert Retired(w.format, source, StorageIn(w, a), w'.cache[a].overlay);
    }
  }

  lemma UpgradedIsRebuilt(w: World, w': World)
    requires Regular(w) && Loadable(w') && w'.version == V2
    requires Lean(w.format, w.accounts, AccountsIn(w)) ==> Renewed(w.format, w'.accounts, AccountsIn(w'))
    requires w'.format == w.format
    requires forall a: Address :: HashIn(w', a) == None
    requires forall a: Address | a in w'.cache :: Renewed(w.format, w'.cache[a], StorageIn(w', a))
    ensures Rebuilt(w')
  {
    hide Loadable, Lean, Renewed, AccountsIn, StorageIn, HashIn, Within;
    assert Tidy(AsOpened, w.format, w.accounts, AccountsIn(w));
  }

  lemma UpgradedAccountsSound(w: World, w': World, hashes: map<Address, Hash>)
    requires w.version == V1 && Loadable(w)
    requires w'.format == w.format && w'.version == V2 && w'.db == w.db
    requires AccountsUpgraded(w.format, w.db, w.accounts, AccountsIn(w), w'.accounts, hashes)
    ensures SoundAccounts(w') && SameAccounts(AccountsIn(w), AccountsIn(w'))
    ensures forall a: Address :: HashIn(w', a) == None
    ensures Lean(w.format, w.accounts, AccountsIn(w)) ==> Renewed(w.format, w'.accounts, AccountsIn(w'))
  {
    assert LawfulFormat(w.format) && w.accounts.version == V1;
    hide Loadable, LawfulFormat, Sound, WellFormed, Lean, Renewed, SameAccounts, AccountsUpgraded, LoadedOr;
    AccountsRebuilt(w.format, w.db, w.accounts, AccountsIn(w), w'.accounts, hashes);
    NoHashes(w', AccountsIn(w));
  }

  lemma NoHashes(w: World, c: Contents)
    requires w.version == V2 && SameAccounts(c, AccountsIn(w))
    ensures forall a: Address :: HashIn(w, a) == None
  {
    hide AccountsIn, NonceAt, BalanceAt, CodeAt, CbiVersionAt;
  }

  lemma AccountsRebuilt(f: TrieFormat, db: Contents, source: Trie, c: Contents, t: Trie, hashes: map<Address, Hash>)
    requires LawfulFormat(f) && AccountsUpgraded(f, db, source, c, t, hashes)
    ensures t.version == V2 && t.prefix == []
    ensures Sound(f, db, t) && WellFormed(V2, LoadedOr(f, db, t)) && SameAccounts(c, LoadedOr(f, db, t))
    ensures source.version == V1 && Lean(f, source, c) ==> Renewed(f, t, LoadedOr(f, db, t))
  {
    hide LawfulFormat, Holds, Lean, Renewed, WellFormed, SameAccounts, Sound;
    hide RefilledAs;
    var c' :| Holds(f, db, t, c') && SameAccounts(c, c') && WellFormed(V2, c')
              && (source.version == V1 && Lean(f, source, c) ==> Renewed(f, t, c'));
    HoldsLoads(f, db, t, c');
  }

  lemma UpgradedStorage(w: World, w': World, hashes: map<Address, Hash>, a: Address)
    requires w.version == V1 && Loadable(w) && Entered(w)
    requires w'.format == w.format && w'.version == V2 && w'.db == w.db
    requires Lookup(hashes, a) == HashIn(w, a) && HashIn(w', a) == None
    requires a in w'.cache <==> a in hashes
    requires a in hashes ==> HasUpgraded(w, a, hashes[a], w'.cache[a])
    ensures TrieFor(w', a).Some? ==> SoundStorage(w.format, V2, w.db, a, TrieFor(w', a).value)
    ensures forall key :: StorageAt(V2, StorageIn(w', a), key) == StorageAt(V1, StorageIn(w, a), key)
    ensures Regular(w) && a in w'.cache ==> Renewed(w.format, w'.cache[a], StorageIn(w', a))
  {
    hide SoundStorage, SoundAccounts, StorageUpgraded, ContentsOf, LoadedOr, HashIn, Renewed, InMode;
    if a in hashes {
      var source := UpgradeSource(w, a, hashes[a]);
      assert TrieFor(w, a) == Some(source) && TrieFor(w', a) == Some(w'.cache[a]);
      SourceIs(w, a, source);
      UpgradedOne(w.format, w.db, source, StorageIn(w, a), w'.cache[a], a);
    }
  }

  lemma SourceIs(w: World, a: Address, source: Trie)
    requires w.version == V1 && Loadable(w) && TrieFor(w, a) == Some(source)
    ensures LawfulFormat(w.format) && ContentsOf(w.format, w.db, source) == Some(StorageIn(w, a))
    ensures source.version == V1 && source.prefix == a
    ensures Regular(w) ==> Lean(w.format, source, StorageIn(w, a))
  {
    assert SoundStorage(w.format, V1, w.db, a, source) by { hide SoundStorage, SoundAccounts; }
    hide SoundAccounts, LawfulFormat, Within;
    if Regular(w) && a in w.cache { assert Tidy(AsOpened, w.format, w.cache[a], StorageIn(w, a)); }
  }

  lemma UpgradedOne(f: TrieFormat, db: Contents, source: Trie, c: Contents, t: Trie, a: Address)
    requires LawfulFormat(f) && StorageUpgraded(f, db, source, c, t) && source.prefix == a
    ensures SoundStorage(f, V2, db, a, t)
    ensures forall key :: StorageAt(V2, LoadedOr(f, db, t), key) == StorageAt(V1, c, key)
    ensures source.version == V1 && Lean(f, source, c) ==> Renewed(f, t, LoadedOr(f, db, t))
  {
    hide LawfulFormat, Holds, Lean, Renewed;
    hide RefilledAs, Deinit;
    var c' :| Holds(f, db, t, c') && SameStorage(c, c')
        && (source.version == V1 && Lean(f, source, c) ==> Renewed(f, t, c'));
    HoldsLoads(f, db, t, c');
  }

  // ---------- closing ----------

  /** `w'` is regular and has the same account fields, storage hashes aside, and the same storage as `w`. */
  ghost predicate MeansSame(w: World, w': World) {
    && Regular(w')
    && SameButHashes(w.version, AccountsIn(w), AccountsIn(w'))
    && forall a: Address :: StorageIn(w', a) == StorageIn(w, a)
  }

  function WrittenTo(db: Contents, o: Overlay, insertsFirst: bool): Contents {
    if insertsFirst then InsertsFirst(db, o) else DeletesFirst(db, o)
  }

  /** Written to the store in this order and opened at the new root, the changes of a close give back what `w` meant. */
  ghost predicate Reopens(w: World, changes: Changes, insertsFirst: bool) {
    MeansSame(w, OpenWorld(w.format, w.version, WrittenTo(w.db, changes.overlay, insertsFirst), changes.root))
  }

  /** `closed` is `w` with the roots of the cached tries entered, and `changes` are all its changes. */
  ghost predicate Closed(w: World, closed: World, changes: Changes) {
    && Keeps(w, closed) && Settled(closed)
    && SameButHashes(w.version, AccountsIn(w), AccountsIn(closed))
    && (forall a: Address :: StorageIn(closed, a) == StorageIn(w, a))
    && Merged(changes.overlay, PartsIn(closed)) && changes.root == closed.accounts.root
  }

  /** Once the changes of an upgraded state are written, in whichever order, no node of the state before the upgrade is
      left in the store, unless the upgraded state wrote a node of its own over it. */
  lemma NoOldNodeIsLeft(before: World, w: World, closed: World, changes: Changes, insertsFirst: bool)
    requires NodesRetired(before, w) && Closed(w, closed, changes)
    ensures forall p, k | Live(before, p, k) :: var pk := BuildKey(before.version, p, k);
              pk in WrittenTo(w.db, changes.overlay, insertsFirst) ==> pk in changes.overlay.inserts
  {
    hide Live, Settled, SameButHashes, AccountsIn, StorageIn, BuildKey, Loadable, InMode;
    forall p, k | Live(before, p, k)
      ensures ChangedBy(PartsIn(closed), p, BuildKey(before.version, p, k))
    {
      StaysChanged(w, closed, p, BuildKey(before.version, p, k));
    }
    hide PartsIn;
  }

  /** Changes are not taken back. */
  lemma StaysChanged(w: World, w': World, p: Bytes, pk: Bytes)
    requires KeepsChanges(w, w') && ChangedBy(PartsIn(w), p, pk) && [] !in w'.cache
    ensures ChangedBy(PartsIn(w'), p, pk)
  {
  }

  /** A store that has every node which the closed state needs gives back what was there. */
  lemma StoreReopens(w: World, closed: World, changes: Changes, insertsFirst: bool)
    requires Closed(w, closed, changes) && HoldsLive(closed, WrittenTo(w.db, changes.overlay, insertsFirst))
    ensures Reopens(w, changes, insertsFirst)
  {
    hide Settled, HoldsLive, Regular, InMode, Loadable, AccountsIn, StorageIn, WrittenTo, Merged;
    OpenedMeansSame(closed, WrittenTo(w.db, changes.overlay, insertsFirst));
  }

  /** What closing keeps, for a readable state of either version: everything, if no trie touches a node that another
      needs, as is the case in states that were made or opened; and for an upgraded state, if deletes are written
      first. */
  lemma ClosedReopens(w: World, closed: World, changes: Changes)
    requires Closed(w, closed, changes)
    ensures NodesApart(closed) ==> Reopens(w, changes, true) && Reopens(w, changes, false)
    ensures Regular(w) && (w.version == V1 ==> Separate(w.format)) ==>
              Reopens(w, changes, true) && Reopens(w, changes, false) && Disjoint(changes.overlay)
    ensures Rebuilt(w) ==> Reopens(w, changes, false)
  {
    ClosedHas(w, closed, changes);
    hide Closed, Settled, HoldsLive, Regular, Rebuilt, Reopens, Separate;
    hide NodesApart, Disjoint, PartsIn, Merged, Loadable, Apart;
    if Regular(w) && (w.version == V1 ==> Separate(w.format)) {
      RegularIsApart(closed);
      MergedIsDisjoint(changes.overlay, PartsIn(closed));
    }
    if NodesApart(closed) {
      ApartIsKept(closed, changes.overlay);
      StoreReopens(w, closed, changes, true);
      StoreReopens(w, closed, changes, false);
    }
    if Rebuilt(w) {
      RebuiltIsKept(closed, changes.overlay);
      StoreReopens(w, closed, changes, false);
    }
  }

  lemma ClosedHas(w: World, closed: World, changes: Changes)
    requires Closed(w, closed, changes)
    ensures closed.db == w.db && closed.version == w.version && closed.format == w.format
    ensures Loadable(closed) && Merged(changes.overlay, PartsIn(closed))
    ensures (Regular(w) ==> Regular(closed)) && (Rebuilt(w) ==> Rebuilt(closed))
  {
    hide Loadable, InMode, Merged, PartsIn, AccountsIn, StorageIn, SameButHashes;
  }

  /** An upgraded state whose changes are written inserts first keeps what it needs exactly when no needed node has the
      key of a deleted one; and then means the same. It suffices that no key is both inserted and deleted, which can be
      seen before the changes are written. */
  lemma UpgradedInsertsFirst(w: World, closed: World, changes: Changes)
    requires Rebuilt(w) && Closed(w, closed, changes)
    ensures HoldsLive(closed, InsertsFirst(w.db, changes.overlay))
       <==> forall p, k | Live(closed, p, k) :: BuildKey(V2, p, k) !in changes.overlay.deletes
    ensures HoldsLive(closed, InsertsFirst(w.db, changes.overlay)) ==> Reopens(w, changes, true)
    ensures Disjoint(changes.overlay) ==> Reopens(w, changes, true)
  {
    ClosedHas(w, closed, changes);
    assert w.version == V2;
    if Disjoint(changes.overlay) { OrderDoesNotMatter(w.db, changes.overlay); }
    hide Closed, HoldsLive, Rebuilt, Reopens, PartsIn, Merged, Loadable, Live, BuildKey;
    RebuiltIsKept(closed, changes.overlay);
    if HoldsLive(closed, InsertsFirst(w.db, changes.overlay)) { StoreReopens(w, closed, changes, true); }
  }

  /** The state of a close that has visited the tries of `done`: their roots are entered and their changes merged. */
  ghost predicate ClosedSoFar(w: World, w1: World, done: set<Address>, m: Overlay) {
    && done <= w.cache.Keys
    && w1 == w.(accounts := w1.accounts) && SoundAccounts(w1)
    && Follows(w.format, w.accounts, AccountsIn(w), w1.accounts, AccountsIn(w1))
    && RootsEntered(w, done, AccountsIn(w), AccountsIn(w1))
    && Merged(m, PartsOf(w, done))
  }

  /** `c'` is `c` with the roots of the cached tries of `done` entered. */
  ghost predicate RootsEntered(w: World, done: set<Address>, c: Contents, c': Contents)
    requires done <= w.cache.Keys
  {
    forall b: Address, h ::
      FieldAt(w.version, c', b, h)
      == if h == StorageHash && b in done then Some(w.cache[b].root) else FieldAt(w.version, c, b, h)
  }

  lemma EnterOneRoot(w: World, done: set<Address>, c: Contents, c1: Contents, c2: Contents, a: Address)
    requires done <= w.cache.Keys && a in w.cache && RootsEntered(w, done, c, c1)
    requires FieldSet(w.version, c1, c2, a, StorageHash, Some(w.cache[a].root))
    ensures RootsEntered(w, done + {a}, c, c2)
  {
  }

  function PartsOf(w: World, done: set<Address>): map<Bytes, Overlay>
    requires done <= w.cache.Keys
  {
    map p: Bytes | p in done :: w.cache[p].overlay
  }

  lemma CloseNone(w: World)
    requires Loadable(w)
    ensures ClosedSoFar(w, w, {}, NO_CHANGES)
  {
    assert PartsOf(w, {}) == map[];
    hide SoundAccounts, Tidy, AccountsIn;
  }

  lemma PartsOfNext(w: World, done: set<Address>, a: Address)
    requires done <= w.cache.Keys && a in w.cache
    ensures PartsOf(w, done + {a}) == PartsOf(w, done)[a := w.cache[a].overlay]
  {
  }

  lemma CloseOne(w: World, w1: World, done: set<Address>, m: Overlay, a: Address)
    requires Loadable(w) && ClosedSoFar(w, w1, done, m) && a in w.cache && a !in done
    ensures var r := WithAccountField(w1, a, StorageHash, w.cache[a].root);
            r.Ok? && ClosedSoFar(w, r.value, done + {a}, Merge(m, w.cache[a].overlay))
  {
    hide SoundAccounts, Loadable, Merged, RootsEntered, AccountsIn, WithAccountField, FieldSet, Follows, Merge;
    SetFieldLoads(w1, a, StorageHash, w.cache[a].root);
    var w2 := WithAccountField(w1, a, StorageHash, w.cache[a].root).value;
    assert Written(w1.format, w.cache[a].root) == Some(w.cache[a].root);
    EnterOneRoot(w, done, AccountsIn(w), AccountsIn(w1), AccountsIn(w2), a);
    MergeOne(m, PartsOf(w, done), a, w.cache[a].overlay);
    PartsOfNext(w, done, a);
    FollowsOn(w.format, w.accounts, AccountsIn(w), w1.accounts, AccountsIn(w1), w2.accounts, AccountsIn(w2));
  }

  lemma FollowsOn(f: TrieFormat, t: Trie, c: Contents, t1: Trie, c1: Contents, t2: Trie, c2: Contents)
    requires Follows(f, t, c, t1, c1) && Follows(f, t1, c1, t2, c2)
    ensures Follows(f, t, c, t2, c2)
  {
    hide Tidy;
  }

  /** The changes of the cached tries and those of the accounts trie are all there are. */
  lemma AllParts(w: World, w1: World)
    requires w1 == w.(accounts := w1.accounts)
    ensures PartsOf(w, w.cache.Keys)[[] := w1.accounts.overlay] == PartsIn(w1)
    ensures [] !in PartsOf(w, w.cache.Keys)
  {
  }

  /** The last part of a close: add the changes of the accounts trie. */
  lemma CloseLast(w: World, w1: World, m: Overlay)
    requires Loadable(w) && ClosedSoFar(w, w1, w.cache.Keys, m)
    ensures Closed(w, w1, Changes(Merge(m, w1.accounts.overlay), w1.accounts.root))
  {
    AllParts(w, w1);
    MergeOne(m, PartsOf(w, w.cache.Keys), [], w1.accounts.overlay);
    hide Merged, Merge, PartsOf, PartsIn, SoundAccounts, AccountsIn, StorageIn, Follows, Loadable, Keeps;
    forall b: Address ensures HashIn(w1, b) == if b in w.cache then Some(w.cache[b].root) else HashIn(w, b) {
      RootIs(w, w1, b);
    }
    hide RootsEntered, HashIn;
    ClosedTries(w, w1);
    ClosedKeeps(w, w1);
    EnteredKeepsFields(w, AccountsIn(w), AccountsIn(w1));
  }

  lemma RootIs(w: World, w1: World, b: Address)
    requires w1.version == w.version && RootsEntered(w, w.cache.Keys, AccountsIn(w), AccountsIn(w1))
    ensures HashIn(w1, b) == if b in w.cache then Some(w.cache[b].root) else HashIn(w, b)
  {
    hide AccountsIn;
    assert FieldAt(w.version, AccountsIn(w1), b, StorageHash)
        == if b in w.cache then Some(w.cache[b].root) else FieldAt(w.version, AccountsIn(w), b, StorageHash);
  }

  lemma EnteredKeepsFields(w: World, c: Contents, c': Contents)
    requires RootsEntered(w, w.cache.Keys, c, c')
    ensures SameButHashes(w.version, c, c')
  {
  }

  lemma ClosedTries(w: World, w1: World)
    requires Loadable(w) && SoundAccounts(w1) && w1 == w.(accounts := w1.accounts)
    requires forall b: Address :: HashIn(w1, b) == if b in w.cache then Some(w.cache[b].root) else HashIn(w, b)
    ensures Loadable(w1) && forall b: Address :: StorageIn(w1, b) == StorageIn(w, b)
  {
    hide SoundAccounts, HashIn, LoadedOr, SoundStorage;
    forall b: Address
      ensures TrieFor(w1, b) == TrieFor(w, b) && StorageIn(w1, b) == StorageIn(w, b)
    {
    }
  }

  lemma ClosedKeeps(w: World, w1: World)
    requires Loadable(w1) && w1 == w.(accounts := w1.accounts)
    requires forall b: Address :: HashIn(w1, b) == if b in w.cache then Some(w.cache[b].root) else HashIn(w, b)
    requires forall b: Address :: StorageIn(w1, b) == StorageIn(w, b)
    requires Follows(w.format, w.accounts, AccountsIn(w), w1.accounts, AccountsIn(w1))
    ensures Keeps(w, w1)
  {
    hide Loadable, HashIn, StorageIn, AccountsIn, Tidy;
    forall mode | InMode(mode, w) ensures InMode(mode, w1) {
      assert Tidy(mode, w.format, w.accounts, AccountsIn(w));
    }
  }

  // ---------- reopening ----------

  /** The states that can be closed, written in this order and opened again: those made or opened, of version 2 or of
      version 1 with separate node keys, in either order; and upgraded ones, deletes first. */
  ghost predicate CanReopen(w: World, insertsFirst: bool) {
    (Regular(w) && (w.version == V1 ==> Separate(w.format))) || (Rebuilt(w) && !insertsFirst)
  }

  /** Close a state, write its changes and open the store again: what is read is what was there before the close, for
      the states above, for upgraded states none of whose keys is both inserted and deleted, and for whatever state
      whose tries touch none of the nodes of each other. */
  method Reopen(ws: WorldState, insertsFirst: bool) returns (r: WorldState, changes: Changes, ghost closed: World)
    requires Loadable(ws.Snapshot())
    modifies ws
    ensures fresh(r) && r.version == ws.version && r.format == ws.format
    ensures Closed(old(ws.Snapshot()), closed, changes)
    ensures CanReopen(old(ws.Snapshot()), insertsFirst) || NodesApart(closed)
            || (old(Rebuilt(ws.Snapshot())) && Disjoint(changes.overlay)) ==>
              MeansSame(old(ws.Snapshot()), r.Snapshot())
  {
    ghost var w := ws.Snapshot();
    hide Loadable, InMode, MeansSame, Separate, Closed, NodesApart, Disjoint, Rebuilt, Regular;
    var result;
    result, closed := ws.Close();
    changes := result.value;
    if Rebuilt(w) { UpgradedInsertsFirst(w, closed, changes); }
    assert CanReopen(w, insertsFirst) || NodesApart(closed) || (Rebuilt(w) && Disjoint(changes.overlay)) ==>
        Reopens(w, changes, insertsFirst);
    var store := WrittenTo(ws.db, changes.overlay, insertsFirst);
    r := new WorldState.Open(ws.format, ws.version, store, changes.root);
  }
}
