/** An upgrade whose changes may not be written inserts first. */
module UpgradeWitness {
  import opened Bytes
  import opened Overlays
  import opened Tries
  import opened AccountsTries
  import opened StorageTries
  import opened Worlds
  import opened Closing
  import opened WorldStates
  import opened TrieWitness
  import Sessions

  /** The account whose version 1 keys begin as the version 2 keys of the storage of `owner` do. */
  function Neighbour(owner: Address): Address {
    [1] + owner[..31]
  }

  /** In version 2 the leaf of storage key `2` of `owner` has this key. */
  function LeafIn(hash: Bytes -> Hash, owner: Address, value: Bytes): Bytes {
    BuildKey(V2, owner, LeafKey(hash, [2], value))
  }

  /** Two updates of an empty version 1 state, an upgrade and a close: the code of one account is what another account
      keeps under storage key `2`, so one key is both inserted and deleted. Written deletes first the changes can be
      opened again. Written inserts first they cannot: the storage trie of `owner` does not load. This does not depend
      on the hash. */
  method InsertsFirstLoses(f: TrieFormat, ghost hash: Bytes -> Hash, db: Contents, owner: Address, code: Bytes)
    returns (changes: Changes, ghost before: World, ghost w: World, ghost closed: World)
    requires f == Flat(hash, f.keepsEmpty) && owner[31] == 1 && code != []
    ensures Regular(before) && before.version == V1 && UpgradeMeansSame(before, w) && NodesRetired(before, w)
    ensures FieldAt(V1, AccountsIn(before), Neighbour(owner), ContractCode) == Some(code)
    ensures Rebuilt(w) && w.format == f && w.db == db && StorageAt(V2, StorageIn(w, owner), [2]) == Some(code)
    ensures Closed(w, closed, changes)
    ensures LeafIn(hash, owner, code) in changes.overlay.deletes
    ensures Lookup(changes.overlay.inserts, LeafIn(hash, owner, code)) == Some(code)
    ensures Reopens(w, changes, false) && !Reopens(w, changes, true)
    ensures owner in w.cache
    ensures ContentsOf(f, InsertsFirst(db, changes.overlay), OpenTrie(V2, owner, w.cache[owner].root)) == None
  {
    FlatIsLawful(hash, f.keepsEmpty);
    hide *;
    var ws := Prepare(f, db, owner, code);
    before := ws.Snapshot();
    SnapshotHas(ws);
    OldLeaf(before, hash, owner, code);
    var upgraded := UpgradeIt(ws, owner, code);
    w := upgraded.Snapshot();
    SnapshotHas(upgraded);
    EntryIs(w, owner, code);
    RebuiltIsReadable(w);
    var r;
    r, closed := upgraded.Close();
    changes := r.value;
    LeafIsNew(hash, owner, code);
    LeafIsDeleted(before, w, closed, changes, LeafIn(hash, owner, code));
    LeafIsInserted(w, closed, changes, hash, owner, code);
    NotReopened(w, changes, hash, owner, code);
    DoesNotLoad(w, closed, changes, hash, owner, code);
  }

  lemma SnapshotHas(ws: WorldState)
    ensures ws.Snapshot().format == ws.format && ws.Snapshot().version == ws.version && ws.Snapshot().db == ws.db
  {
  }

  method Prepare(f: TrieFormat, db: Contents, owner: Address, code: Bytes) returns (ws: WorldState)
    requires LawfulFormat(f) && code != []
    ensures fresh(ws) && ws.format == f && ws.version == V1 && ws.db == db && Regular(ws.Snapshot())
    ensures FieldAt(V1, AccountsIn(ws.Snapshot()), Neighbour(owner), ContractCode) == Some(code)
    ensures StorageAt(V1, StorageIn(ws.Snapshot(), owner), [2]) == Some(code)
  {
    ws := new WorldState.New(f, V1, db);
    ghost var w0 := ws.Snapshot();
    hide Loadable, InMode, StorageIn, AccountsIn, SameButHashes, FieldAt, StorageAt, KeepsChanges;
    var done := ws.SetAccountField(Neighbour(owner), ContractCode, code);
    ghost var w1 := ws.Snapshot();
    assert Written(f, code) == Some(code);
    assert FieldAt(V1, AccountsIn(w1), Neighbour(owner), ContractCode) == Some(code);
    Sessions.LoadableIsReadable(ws);
    done := ws.SetStorage(owner, [2], code);
    ghost var w2 := ws.Snapshot();
    StorageSetAt(w1, w2, owner, map[[2] := code], owner, [2]);
    Sessions.SetIs(w1, w2, owner, map[[2] := code]);
    SameCode(w1, w2, owner);
  }

  lemma SameCode(w: World, w': World, owner: Address)
    requires SameButHashes(w.version, AccountsIn(w), AccountsIn(w'))
    ensures FieldAt(w.version, AccountsIn(w'), Neighbour(owner), ContractCode)
         == FieldAt(w.version, AccountsIn(w), Neighbour(owner), ContractCode)
  {
    hide AccountsIn, FieldAt;
  }

  method UpgradeIt(ws: WorldState, owner: Address, code: Bytes) returns (r: WorldState)
    requires ws.version == V1 && Regular(ws.Snapshot())
    requires StorageAt(V1, StorageIn(ws.Snapshot(), owner), [2]) == Some(code)
    ensures fresh(r) && r.format == ws.format && r.version == V2 && r.db == ws.db && Rebuilt(r.Snapshot())
    ensures NodesRetired(ws.Snapshot(), r.Snapshot()) && UpgradeMeansSame(ws.Snapshot(), r.Snapshot())
    ensures StorageAt(V2, StorageIn(r.Snapshot(), owner), [2]) == Some(code)
  {
    Sessions.LoadableHasHashes(ws.Snapshot());
    hide Loadable, InMode, StorageIn, AccountsIn, StorageAt;
    hide NodesRetired, ContentsOf, HashesSized, HashIn, SameAccounts;
    var upgraded := ws.Upgrade();
    r := upgraded.value;
  }

  lemma RebuiltIsReadable(w: World)
    requires Rebuilt(w)
    ensures Loadable(w) && w.version == V2
  {
    hide Loadable;
  }

  // ---------- the leaf before and after ----------

  /** An entry of a trie that is read has its leaf. */
  lemma LiveLeaf(w: World, p: Bytes, hash: Bytes -> Hash, key: Bytes)
    requires w.format == Flat(hash, w.format.keepsEmpty) && TrieAt(w, p).Some?
    requires key in ContentsAt(w, p) && key != []
    ensures var k := LeafKey(hash, key, ContentsAt(w, p)[key]);
            Live(w, p, k) && NodeAt(w, p, k) == ContentsAt(w, p)[key]
  {
    LeafIsThere(hash, ContentsAt(w, p), key);
    hide NodesOf, ContentsAt, TrieAt, LeafKey;
  }

  lemma AccountContents(w: World)
    ensures TrieAt(w, []).Some? && ContentsAt(w, []) == AccountsIn(w)
  {
    hide LoadedOr;
  }

  lemma StorageIsThere(w: World, a: Address)
    requires StorageIn(w, a) != map[]
    ensures TrieAt(w, a) == TrieFor(w, a) && TrieFor(w, a).Some? && ContentsAt(w, a) == StorageIn(w, a)
  {
    hide LoadedOr, HashIn;
  }

  /** The two keys are one. */
  lemma SameLeaf(hash: Bytes -> Hash, owner: Address, code: Bytes)
    requires owner[31] == 1
    ensures BuildKey(V1, [], LeafKey(hash, AccountKey(V1, Neighbour(owner), ContractCode), code))
            == LeafIn(hash, owner, code)
  {
    OldMeetsNew(owner, 2, hash(code));
    assert AccountKey(V1, Neighbour(owner), ContractCode) == [1] + owner[..31] + [1, 2];
    hide BuildKey;
  }

  /** Before the upgrade the account's code is a leaf with that key. */
  lemma OldLeaf(w: World, hash: Bytes -> Hash, owner: Address, code: Bytes)
    requires w.format == Flat(hash, w.format.keepsEmpty) && owner[31] == 1
    requires FieldAt(V1, AccountsIn(w), Neighbour(owner), ContractCode) == Some(code)
    ensures exists k :: Live(w, [], k) && BuildKey(V1, [], k) == LeafIn(hash, owner, code)
  {
    var key := AccountKey(V1, Neighbour(owner), ContractCode);
    assert key in AccountsIn(w) && AccountsIn(w)[key] == code && key != [];
    hide *;
    AccountContents(w);
    LiveLeaf(w, [], hash, key);
    SameLeaf(hash, owner, code);
  }

  lemma EntryIs(w: World, owner: Address, code: Bytes)
    requires StorageAt(V2, StorageIn(w, owner), [2]) == Some(code)
    ensures [2] in StorageIn(w, owner) && StorageIn(w, owner)[[2]] == code
  {
    assert StorageKey(V2, [2]) == [2];
    hide StorageIn;
  }

  /** After the upgrade what is kept under storage key `2` is one. */
  lemma NewLeaf(w: World, hash: Bytes -> Hash, owner: Address, code: Bytes)
    requires w.format == Flat(hash, w.format.keepsEmpty)
    requires [2] in StorageIn(w, owner) && StorageIn(w, owner)[[2]] == code
    ensures var k := LeafKey(hash, [2], code); Live(w, owner, k) && NodeAt(w, owner, k) == code
  {
    hide *;
    StorageIsThere(w, owner);
    LiveLeaf(w, owner, hash, [2]);
  }

  lemma LeafIsNew(hash: Bytes -> Hash, owner: Address, code: Bytes)
    ensures !InSpace(V2, [], LeafIn(hash, owner, code))
  {
    var pk := LeafIn(hash, owner, code);
    assert pk[0] == 1 && pk[..1][0] == pk[0];
  }

  /** The upgrade deletes the old leaf, and no trie of the new version takes the delete back. */
  lemma LeafIsDeleted(before: World, w: World, closed: World, changes: Changes, pk: Bytes)
    requires NodesRetired(before, w) && Rebuilt(w) && Closed(w, closed, changes) && before.version == V1
    requires !InSpace(V2, [], pk) && exists k :: Live(before, [], k) && BuildKey(V1, [], k) == pk
    ensures pk in changes.overlay.deletes
  {
    hide *;
    var k :| Live(before, [], k) && BuildKey(V1, [], k) == pk;
    RetiredAt(before, w, [], k);
    ClosedHas(w, closed, changes);
    ClosedKeepsChanges(w, closed, changes);
    StaysChanged(w, closed, [], pk);
    if InsertedBy(PartsIn(closed), [], pk) { InsertsAreNew(closed, [], pk); }
    DeletedOnly(closed, changes, pk);
  }

  lemma LeafIsInserted(w: World, closed: World, changes: Changes, hash: Bytes -> Hash, owner: Address, code: Bytes)
    requires Rebuilt(w) && Closed(w, closed, changes) && w.format == Flat(hash, w.format.keepsEmpty)
    requires [2] in StorageIn(w, owner) && StorageIn(w, owner)[[2]] == code
    ensures Lookup(changes.overlay.inserts, LeafIn(hash, owner, code)) == Some(code)
  {
    hide *;
    ClosedHas(w, closed, changes);
    RebuiltIsReadable(w);
    SameStorageClosed(w, closed, changes, owner);
    NewLeaf(closed, hash, owner, code);
    LeafInIs(hash, owner, code);
    InsertedAlone(closed, changes.overlay, owner, LeafKey(hash, [2], code));
    IsFound(changes.overlay.inserts, LeafIn(hash, owner, code));
  }

  lemma IsFound(m: Contents, pk: Bytes)
    requires pk in m
    ensures Lookup(m, pk) == Some(m[pk])
  {
  }

  lemma RetiredAt(before: World, w: World, p: Bytes, k: Bytes)
    requires NodesRetired(before, w) && Live(before, p, k)
    ensures ChangedBy(PartsIn(w), p, BuildKey(before.version, p, k))
  {
    hide Live, ChangedBy, PartsIn, BuildKey;
  }

  lemma ClosedKeepsChanges(w: World, closed: World, changes: Changes)
    requires Closed(w, closed, changes)
    ensures KeepsChanges(w, closed) && [] !in closed.cache
  {
    hide Loadable, InMode, Settled, SameButHashes, Merged, AccountsIn, StorageIn;
  }

  lemma DeletedOnly(closed: World, changes: Changes, pk: Bytes)
    requires ChangedBy(PartsIn(closed), [], pk) && !InsertedBy(PartsIn(closed), [], pk)
    requires Merged(changes.overlay, PartsIn(closed))
    ensures pk in changes.overlay.deletes
  {
    hide PartsIn;
  }

  // ---------- what is lost ----------

  /** A state that reads the entry from its store has the leaf there. */
  lemma ReadFromStore(w: World, hash: Bytes -> Hash, owner: Address, code: Bytes)
    requires Loadable(w) && w.version == V2 && w.cache == map[] && w.format == Flat(hash, w.format.keepsEmpty)
    requires [2] in StorageIn(w, owner) && StorageIn(w, owner)[[2]] == code
    ensures LeafIn(hash, owner, code) in w.db
  {
    hide *;
    NewLeaf(w, hash, owner, code);
    OwnView(w, owner, LeafKey(hash, [2], code));
    StorageIsThere(w, owner);
    LeafInIs(hash, owner, code);
    NoChangesYet(w, owner, LeafIn(hash, owner, code), code);
  }

  lemma LeafInIs(hash: Bytes -> Hash, owner: Address, code: Bytes)
    ensures LeafIn(hash, owner, code) == BuildKey(V2, owner, LeafKey(hash, [2], code))
  {
  }

  lemma NoChangesYet(w: World, a: Address, pk: Bytes, node: Bytes)
    requires w.cache == map[] && TrieFor(w, a).Some?
    requires Lookup(View(w.db, TrieFor(w, a).value.overlay), pk) == Some(node)
    ensures pk in w.db
  {
    hide HashIn;
  }

  /** Without the leaf the state cannot be opened as it was. */
  lemma NotReopened(w: World, changes: Changes, hash: Bytes -> Hash, owner: Address, code: Bytes)
    requires w.version == V2 && w.format == Flat(hash, w.format.keepsEmpty)
    requires [2] in StorageIn(w, owner) && StorageIn(w, owner)[[2]] == code
    requires LeafIn(hash, owner, code) in changes.overlay.deletes
    ensures !Reopens(w, changes, true)
  {
    if Reopens(w, changes, true) {
      MeaningIs(w, changes);
      hide *;
      ReadFromStore(OpenWorld(w.format, V2, InsertsFirst(w.db, changes.overlay), changes.root), hash, owner, code);
      assert false;
    }
  }

  lemma MeaningIs(w: World, changes: Changes)
    requires w.version == V2 && Reopens(w, changes, true)
    ensures var w' := OpenWorld(w.format, V2, InsertsFirst(w.db, changes.overlay), changes.root);
            Loadable(w') && forall a: Address :: StorageIn(w', a) == StorageIn(w, a)
  {
    hide Loadable, InMode, StorageIn, AccountsIn, SameButHashes, InsertsFirst;
  }

  /** Loading the storage by its root finds the leaf missing. */
  lemma DoesNotLoad(w: World, closed: World, changes: Changes, hash: Bytes -> Hash, owner: Address, code: Bytes)
    requires Rebuilt(w) && Closed(w, closed, changes) && w.format == Flat(hash, w.format.keepsEmpty)
    requires [2] in StorageIn(w, owner) && StorageIn(w, owner)[[2]] == code
    requires LeafIn(hash, owner, code) in changes.overlay.deletes
    ensures owner in w.cache
    ensures var t := OpenTrie(V2, owner, w.cache[owner].root);
            ContentsOf(w.format, InsertsFirst(w.db, changes.overlay), t) == None
  {
    var c, store := StorageIn(w, owner), InsertsFirst(w.db, changes.overlay);
    hide *;
    assert c != map[];
    ClosedHas(w, closed, changes);
    RebuiltIsReadable(w);
    SameStorageClosed(w, closed, changes, owner);
    RootIsWritten(closed, changes.overlay, hash, owner, c);
    NewLeaf(w, hash, owner, code);
    CachedRoot(w, hash, owner, c);
    LeafInIs(hash, owner, code);
    LiveIsNode(w, hash, owner, LeafKey(hash, [2], code));
    FromStore(hash, w.format, owner, store, c, LeafKey(hash, [2], code), changes.overlay, w.db);
  }

  lemma SameStorageClosed(w: World, closed: World, changes: Changes, a: Address)
    requires Closed(w, closed, changes)
    ensures StorageIn(closed, a) == StorageIn(w, a)
  {
    hide Loadable, InMode, Settled, SameButHashes, Merged, AccountsIn, StorageIn, PartsIn, KeepsChanges;
  }

  lemma LiveIsNode(w: World, hash: Bytes -> Hash, a: Address, k: Bytes)
    requires Live(w, a, k) && w.format == Flat(hash, w.format.keepsEmpty) && StorageIn(w, a) != map[]
    ensures k in NodesOf(hash, StorageIn(w, a))
  {
    StorageIsThere(w, a);
    hide NodesOf, StorageIn, TrieAt, ContentsAt;
  }

  /** The changes insert the root node. */
  lemma RootIsWritten(w: World, m: Overlay, hash: Bytes -> Hash, owner: Address, c: Contents)
    requires Rebuilt(w) && Merged(m, PartsIn(w)) && w.version == V2 && w.format == Flat(hash, w.format.keepsEmpty)
    requires StorageIn(w, owner) == c != map[]
    ensures Lookup(m.inserts, BuildKey(V2, owner, OTHER_ROOT)) == Some(Encode(c))
  {
    StorageIsThere(w, owner);
    RootIsNode(w, hash, owner, c);
    hide Rebuilt, Merged, PartsIn, BuildKey, Live, NodeAt, Flat, StorageIn;
    InsertedAlone(w, m, owner, OTHER_ROOT);
  }

  lemma RootIsNode(w: World, hash: Bytes -> Hash, p: Bytes, c: Contents)
    requires w.format == Flat(hash, w.format.keepsEmpty) && TrieAt(w, p).Some? && ContentsAt(w, p) == c != map[]
    ensures Live(w, p, OTHER_ROOT) && NodeAt(w, p, OTHER_ROOT) == Encode(c)
  {
    hide Leaves, TrieAt, ContentsAt;
  }

  lemma CachedRoot(w: World, hash: Bytes -> Hash, a: Address, c: Contents)
    requires Rebuilt(w) && w.format == Flat(hash, w.format.keepsEmpty) && StorageIn(w, a) == c != map[]
    ensures a in w.cache && w.cache[a].root == OTHER_ROOT
  {
    StorageIsThere(w, a);
    assert a in w.cache by { hide Loadable, Tidy, AccountsIn, StorageIn; }
    assert TrieFor(w, a) == Some(w.cache[a]);
    hide Rebuilt, TrieAt, ContentsAt, StorageIn, TrieFor;
    RebuiltIsReadable(w);
    SoundAt(w, a);
  }

  lemma FromStore(hash: Bytes -> Hash, f: TrieFormat, a: Address, store: Contents, c: Contents, k: Bytes, m: Overlay,
                  db: Contents)
    requires store == InsertsFirst(db, m) && f == Flat(hash, f.keepsEmpty) && k in NodesOf(hash, c)
    requires Lookup(m.inserts, BuildKey(V2, a, OTHER_ROOT)) == Some(Encode(c)) && BuildKey(V2, a, k) in m.deletes
    ensures ContentsOf(f, store, OpenTrie(V2, a, OTHER_ROOT)) == None
  {
    var t := OpenTrie(V2, a, OTHER_ROOT);
    assert View(store, NO_CHANGES) == store;
    LogicalAt(V2, a, store, k);
    LogicalAt(V2, a, store, OTHER_ROOT);
    hide Logical, BuildKey, NodesOf, Encode;
    LoadFails(hash, Reads(store, t), c, k);
  }

  lemma LoadFails(hash: Bytes -> Hash, part: Contents, c: Contents, k: Bytes)
    requires OTHER_ROOT in part ==> part[OTHER_ROOT] == Encode(c)
    requires k in NodesOf(hash, c) && k !in part
    ensures LoadFrom(hash, part, OTHER_ROOT) == None
  {
    DecodeEncode(c);
    assert EMPTY_ROOT[0] != OTHER_ROOT[0];
    hide NodesOf, Encode, Decode;
  }
}
