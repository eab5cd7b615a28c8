/** Closing a world state of either version: merging the changes of its tries, and what the store means once the merge
    is written to it. */
module Closing {
  import opened Bytes
  import opened Overlays
  import opened Tries
  import opened AccountsTries
  import opened Worlds

  // ---------- merging ----------

  function Merge(m: Overlay, o: Overlay): Overlay {
    Overlay(m.inserts + o.inserts, m.deletes + o.deletes)
  }

  /** What is merged later wins where two change sets insert a key. */
  lemma MergeAt(m: Overlay, o: Overlay, pk: Bytes)
    ensures Lookup(Merge(m, o).inserts, pk) == if pk in o.inserts then Some(o.inserts[pk]) else Lookup(m.inserts, pk)
    ensures pk in Merge(m, o).deletes <==> pk in m.deletes || pk in o.deletes
  {
  }

  /** The changes of cached storage tries, merged in some order. */
  function MergeCached(order: seq<Address>, cache: map<Address, Trie>): Overlay
    requires forall a | a in order :: a in cache
  {
    if order == [] then NO_CHANGES
    else Merge(MergeCached(order[..|order| - 1], cache), cache[order[|order| - 1]].overlay)
  }

  /** Each cached trie is visited once. */
  ghost predicate Visits(order: seq<Address>, keys: set<Address>) {
    (forall a: Address :: a in order <==> a in keys) && forall i: nat, j: nat | i < j < |order| :: order[i] != order[j]
  }

  /** `m` is the changes of the tries of `keys`, merged in some order that visits each once. */
  ghost predicate MergedInSomeOrder(m: Overlay, cache: map<Address, Trie>, keys: set<Address>)
    requires keys <= cache.Keys
  {
    exists order :: Visits(order, keys) && m == MergeCached(order, cache)
  }

  /** ... and those of the accounts trie added last. */
  ghost predicate AccountsLast(all: Overlay, cache: map<Address, Trie>, accounts: Overlay) {
    exists m :: MergedInSomeOrder(m, cache, cache.Keys) && all == Merge(m, accounts)
  }

  lemma MergedNone(cache: map<Address, Trie>)
    ensures MergedInSomeOrder(NO_CHANGES, cache, {})
  {
    assert Visits([], {}) && MergeCached([], cache) == NO_CHANGES;
  }

  lemma MergedOneMore(m: Overlay, cache: map<Address, Trie>, keys: set<Address>, a: Address)
    requires keys <= cache.Keys && MergedInSomeOrder(m, cache, keys) && a in cache && a !in keys
    ensures MergedInSomeOrder(Merge(m, cache[a].overlay), cache, keys + {a})
  {
    var order :| Visits(order, keys) && m == MergeCached(order, cache);
    var more := order + [a];
    assert more[..|more| - 1] == order;
    assert Visits(more, keys + {a});
    assert MergeCached(more, cache) == Merge(m, cache[a].overlay);
  }

  lemma MergeNothing(o: Overlay)
    ensures Merge(NO_CHANGES, o) == o
  {
  }

  predicate InsertedBy(parts: map<Bytes, Overlay>, p: Bytes, pk: Bytes) {
    p in parts && pk in parts[p].inserts
  }

  predicate DeletedBy(parts: map<Bytes, Overlay>, p: Bytes, pk: Bytes) {
    p in parts && pk in parts[p].deletes
  }

  predicate ChangedBy(parts: map<Bytes, Overlay>, p: Bytes, pk: Bytes) {
    InsertedBy(parts, p, pk) || DeletedBy(parts, p, pk)
  }

  /** `m` is all of `parts` put together: each change of a part, and nothing else. Where two parts insert different
      values either may be there. */
  ghost predicate Merged(m: Overlay, parts: map<Bytes, Overlay>) {
    && (forall p, pk | InsertedBy(parts, p, pk) :: pk in m.inserts)
    && (forall p, pk | DeletedBy(parts, p, pk) :: pk in m.deletes)
    && (forall pk | pk in m.inserts :: exists p :: InsertedBy(parts, p, pk) && parts[p].inserts[pk] == m.inserts[pk])
    && (forall pk | pk in m.deletes :: exists p :: DeletedBy(parts, p, pk))
  }

  /** No key is changed by two parts. */
  ghost predicate Apart(parts: map<Bytes, Overlay>) {
    forall p, q, pk | ChangedBy(parts, p, pk) && ChangedBy(parts, q, pk) :: p == q
  }

  /** The merge of the first parts of an order, in that order. */
  function MergeAll(order: seq<Bytes>, parts: map<Bytes, Overlay>): Overlay
    requires forall p | p in order :: p in parts
  {
    if order == [] then NO_CHANGES
    else Merge(MergeAll(order[..|order| - 1], parts), parts[order[|order| - 1]])
  }

  /** The store after the changes of the parts are written one part after the other. */
  function InTurn(db: Contents, order: seq<Bytes>, parts: map<Bytes, Overlay>): Contents
    requires forall p | p in order :: p in parts
  {
    if order == [] then db
    else View(InTurn(db, order[..|order| - 1], parts), parts[order[|order| - 1]])
  }

  function Restrict(order: seq<Bytes>, parts: map<Bytes, Overlay>): map<Bytes, Overlay>
    requires forall p | p in order :: p in parts
  {
    map p | p in order :: parts[p]
  }

  /** Adding the changes of one more trie. */
  lemma MergeOne(m: Overlay, parts: map<Bytes, Overlay>, q: Bytes, o: Overlay)
    requires Merged(m, parts) && q !in parts
    ensures Merged(Merge(m, o), parts[q := o])
  {
    var m', parts' := Merge(m, o), parts[q := o];
    forall pk | pk in m'.inserts
      ensures exists p :: InsertedBy(parts', p, pk) && parts'[p].inserts[pk] == m'.inserts[pk]
    {
      if pk in o.inserts {
        assert InsertedBy(parts', q, pk);
      } else {
        var p :| InsertedBy(parts, p, pk) && parts[p].inserts[pk] == m.inserts[pk];
        assert InsertedBy(parts', p, pk);
      }
    }
    forall pk | pk in m'.deletes ensures exists p :: DeletedBy(parts', p, pk) {
      if pk in o.deletes {
        assert DeletedBy(parts', q, pk);
      } else {
        var p :| DeletedBy(parts, p, pk);
        assert DeletedBy(parts', p, pk);
      }
    }
    forall p, pk | InsertedBy(parts', p, pk) ensures pk in m'.inserts {
      assert p != q ==> InsertedBy(parts, p, pk);
    }
    forall p, pk | DeletedBy(parts', p, pk) ensures pk in m'.deletes {
      assert p != q ==> DeletedBy(parts, p, pk);
    }
  }

  /** If the parts are apart, merged changes stay disjoint, so they can be written in either order. */
  lemma MergedIsDisjoint(m: Overlay, parts: map<Bytes, Overlay>)
    requires Merged(m, parts) && Apart(parts) && forall p | p in parts :: Disjoint(parts[p])
    ensures Disjoint(m)
  {
    forall pk | pk in m.inserts ensures pk !in m.deletes {
      var p :| InsertedBy(parts, p, pk) && parts[p].inserts[pk] == m.inserts[pk];
      assert ChangedBy(parts, p, pk) && Disjoint(parts[p]);
      forall q ensures !DeletedBy(parts, q, pk) {
        assert ChangedBy(parts, q, pk) ==> q == p;
      }
    }
  }

  /** If the parts are apart, the merge does not depend on the order in which the tries are visited. */
  lemma MergedIsUnique(m: Overlay, m': Overlay, parts: map<Bytes, Overlay>)
    requires Merged(m, parts) && Merged(m', parts) && Apart(parts)
    ensures m == m'
  {
    forall pk ensures Lookup(m.inserts, pk) == Lookup(m'.inserts, pk) {
      if pk in m.inserts {
        var p :| InsertedBy(parts, p, pk) && parts[p].inserts[pk] == m.inserts[pk];
        var q :| InsertedBy(parts, q, pk) && parts[q].inserts[pk] == m'.inserts[pk];
        assert ChangedBy(parts, p, pk) && ChangedBy(parts, q, pk);
      }
    }
    LookupsEqual(m.inserts, m'.inserts);
    forall pk ensures pk in m.deletes <==> pk in m'.deletes {}
  }

  /** If the parts are apart, writing the merge is writing the changes of the tries one after the other, in whatever
      order they are visited; and it is the merge of exactly the tries visited. */
  lemma {:induction false} MergeWritesInTurn(db: Contents, order: seq<Bytes>, parts: map<Bytes, Overlay>)
    requires forall p | p in order :: p in parts
    requires forall i: nat, j: nat | i < j < |order| :: order[i] != order[j]
    requires Apart(parts)
    ensures View(db, MergeAll(order, parts)) == InTurn(db, order, parts)
    ensures Merged(MergeAll(order, parts), Restrict(order, parts))
  {
    if order == [] {
      assert View(db, NO_CHANGES) == db;
    } else {
      var last := |order| - 1;
      var before, q := order[..last], order[last];
      hide Restrict, Merged, Apart, ChangedBy, View, Merge;
      RestrictNext(order, parts);
      MergeWritesInTurn(db, before, parts);
      var m := MergeAll(before, parts);
      RestrictIsApart(before, parts, q);
      MergeOne(m, Restrict(before, parts), q, parts[q]);
      OneMoreInTurn(db, m, Restrict(before, parts), parts[q]);
    }
  }

  lemma RestrictNext(order: seq<Bytes>, parts: map<Bytes, Overlay>)
    requires order != [] && forall p | p in order :: p in parts
    requires forall i: nat, j: nat | i < j < |order| :: order[i] != order[j]
    ensures var before, q := order[..|order| - 1], order[|order| - 1];
            && q !in before && (forall p | p in before :: p in parts)
            && (forall i: nat, j: nat | i < j < |before| :: before[i] != before[j])
            && q !in Restrict(before, parts)
            && Restrict(order, parts) == Restrict(before, parts)[q := parts[q]]
  {
    var before := order[..|order| - 1];
    assert order == before + [order[|order| - 1]];
  }

  lemma RestrictIsApart(order: seq<Bytes>, parts: map<Bytes, Overlay>, q: Bytes)
    requires Apart(parts) && q in parts && q !in order && forall p | p in order :: p in parts
    ensures forall p, pk | ChangedBy(Restrict(order, parts), p, pk) ::
            pk !in parts[q].inserts && pk !in parts[q].deletes
  {
    forall p, pk | ChangedBy(Restrict(order, parts), p, pk) ensures pk !in parts[q].inserts && pk !in parts[q].deletes {
      assert ChangedBy(parts, p, pk);
      assert ChangedBy(parts, q, pk) ==> p == q;
    }
  }

  lemma OneMoreInTurn(db: Contents, m: Overlay, parts: map<Bytes, Overlay>, o: Overlay)
    requires Merged(m, parts)
    requires forall p, pk | ChangedBy(parts, p, pk) :: pk !in o.inserts && pk !in o.deletes
    ensures View(db, Merge(m, o)) == View(View(db, m), o)
  {
    forall pk | pk in m.inserts ensures pk !in o.deletes {
      var p :| InsertedBy(parts, p, pk) && parts[p].inserts[pk] == m.inserts[pk];
      assert ChangedBy(parts, p, pk);
    }
    hide Merged, ChangedBy;
    LookupsEqual(View(db, Merge(m, o)), View(View(db, m), o));
  }

  // ---------- the nodes that a state needs ----------

  /** The trie of a prefix: the accounts trie, or the storage trie of an address. */
  function TrieAt(w: World, p: Bytes): Option<Trie> {
    if p == [] then Some(w.accounts) else if |p| == 32 then TrieFor(w, p) else None
  }

  function ContentsAt(w: World, p: Bytes): Contents {
    match TrieAt(w, p) case None => map[] case Some(t) => LoadedOr(w.format, w.db, t)
  }

  /** `k` is the key of a node that the trie of `p` needs. */
  predicate Live(w: World, p: Bytes, k: Bytes) {
    TrieAt(w, p).Some? && k in w.format.nodes(ContentsAt(w, p))
  }

  function NodeAt(w: World, p: Bytes, k: Bytes): Bytes
    requires Live(w, p, k)
  {
    w.format.nodes(ContentsAt(w, p))[k]
  }

  /** The store has every node that a trie of the state needs. */
  ghost predicate HoldsLive(w: World, store: Contents) {
    forall p, k | Live(w, p, k) :: Lookup(store, BuildKey(w.version, p, k)) == Some(NodeAt(w, p, k))
  }

  /** The changes of the cached tries and of the accounts trie. */
  function PartsIn(w: World): map<Bytes, Overlay> {
    map p | p in w.cache.Keys + {[]} :: if p in w.cache then w.cache[p].overlay else w.accounts.overlay
  }

  /** No trie's changes touch the key of a node that another trie needs. */
  ghost predicate NodesApart(w: World) {
    forall p, q, k | Live(w, p, k) && ChangedBy(PartsIn(w), q, BuildKey(w.version, p, k)) :: p == q
  }

  /** A readable state with the root of every cached trie entered: what a close makes before it hands over the changes.
      */
  ghost predicate Settled(w: World) {
    Loadable(w) && forall a | a in w.cache :: HashIn(w, a) == Some(w.cache[a].root)
  }

  /** What a trie knows of a node that it needs. */
  lemma OwnView(w: World, p: Bytes, k: Bytes)
    requires Loadable(w) && Live(w, p, k)
    ensures var t := TrieAt(w, p).value;
            && t.version == w.version && t.prefix == p && Disjoint(t.overlay)
            && Lookup(View(w.db, t.overlay), BuildKey(w.version, p, k)) == Some(NodeAt(w, p, k))
            && NodeKey(w.format, w.version, p, k)
  {
    var t := TrieAt(w, p).value;
    var c := ContentsAt(w, p);
    SoundAt(w, p);
    assert Lookup(Reads(w.db, t), k) == Some(w.format.nodes(c)[k]);
    hide Loadable, TrieAt, ContentsAt, Fits, Logical;
    LogicalAt(t.version, t.prefix, View(w.db, t.overlay), k);
  }

  lemma SoundAt(w: World, p: Bytes)
    requires Loadable(w) && TrieAt(w, p).Some?
    ensures var t := TrieAt(w, p).value;
            && t.version == w.version && t.prefix == p && IsPrefix(p)
            && LawfulFormat(w.format) && Holds(w.format, w.db, t, ContentsAt(w, p))
               && Fits(w.version, p, ContentsAt(w, p))
  {
    hide LawfulFormat, Holds, Fits;
    if p == [] {
      AccountsFit(w.version, AccountsIn(w));
    } else {
      SoundStorageAt(w, p);
    }
  }

  lemma SoundStorageAt(w: World, a: Address)
    requires Loadable(w) && TrieFor(w, a).Some?
    ensures var t := TrieFor(w, a).value;
            && t.version == w.version && t.prefix == a
            && LawfulFormat(w.format) && Holds(w.format, w.db, t, StorageIn(w, a))
               && Fits(w.version, a, StorageIn(w, a))
  {
    hide SoundAccounts, LawfulFormat, Holds, TrieFor;
    assert SoundStorage(w.format, w.version, w.db, a, TrieFor(w, a).value);
  }

  /** A trie that no part belongs to has no changes. */
  lemma PartAt(w: World, p: Bytes)
    requires TrieAt(w, p).Some?
    ensures var o := TrieAt(w, p).value.overlay;
            && (p in PartsIn(w) ==> PartsIn(w)[p] == o) && (p !in PartsIn(w) ==> o == NO_CHANGES)
  {
  }

  // ---------- opening the written store ----------

  /** The nodes of some contents are in the store, under the keys of a trie. */
  ghost predicate NodesIn(f: TrieFormat, version: Version, prefix: Bytes, c: Contents, store: Contents) {
    forall k | k in f.nodes(c) :: Lookup(store, BuildKey(version, prefix, k)) == Some(f.nodes(c)[k])
  }

  lemma LiveNodes(w: World, store: Contents, p: Bytes)
    requires HoldsLive(w, store) && TrieAt(w, p).Some?
    ensures NodesIn(w.format, w.version, p, ContentsAt(w, p), store)
  {
    hide TrieAt, ContentsAt, BuildKey;
    forall k | k in w.format.nodes(ContentsAt(w, p))
      ensures Lookup(store, BuildKey(w.version, p, k)) == Some(w.format.nodes(ContentsAt(w, p))[k])
    {
      assert Live(w, p, k);
    }
  }

  lemma StorageContents(w: World, a: Address)
    requires TrieFor(w, a).Some?
    ensures TrieAt(w, a) == TrieFor(w, a) && ContentsAt(w, a) == LoadedOr(w.format, w.db, TrieFor(w, a).value)
  {
    hide TrieFor, LoadedOr;
  }

  /** A trie opened by its root on a store with its nodes holds the same. */
  lemma OpenedHolds(f: TrieFormat, store: Contents, version: Version, prefix: Bytes, c: Contents)
    requires LawfulFormat(f) && Storable(f, c) && NodesIn(f, version, prefix, c, store)
    ensures Sound(f, store, OpenTrie(version, prefix, f.root(c)))
    ensures ContentsOf(f, store, OpenTrie(version, prefix, f.root(c))) == Some(c)
  {
    var t := OpenTrie(version, prefix, f.root(c));
    assert View(store, NO_CHANGES) == store;
    forall k | k in f.nodes(c) ensures Lookup(Reads(store, t), k) == Some(f.nodes(c)[k]) {
      LogicalAt(version, prefix, store, k);
    }
    hide LawfulFormat, Logical, Sound, ContentsOf, View;
    HoldsLoads(f, store, t, c);
  }

  /** A store that has every needed node means, opened at the root of the accounts, what the state meant. */
  lemma OpenedMeansSame(w: World, store: Contents)
    requires Settled(w) && HoldsLive(w, store)
    ensures var w' := OpenWorld(w.format, w.version, store, w.accounts.root);
            && Regular(w') && AccountsIn(w') == AccountsIn(w)
            && forall a: Address :: StorageIn(w', a) == StorageIn(w, a)
  {
    var w' := OpenWorld(w.format, w.version, store, w.accounts.root);
    OpenedAccounts(w, store);
    hide HoldsLive, SoundAccounts, AccountsIn, SoundStorage, StorageIn, TrieFor;
    forall a: Address
      ensures TrieFor(w', a).Some? ==> SoundStorage(w.format, w.version, store, a, TrieFor(w', a).value)
      ensures StorageIn(w', a) == StorageIn(w, a)
    {
      OpenedStorage(w, w', a);
    }
    assert Loadable(w');
    hide Settled, Loadable;
    OpenIsRegular(w.format, w.version, store, w.accounts.root);
  }

  lemma OpenedAccounts(w: World, store: Contents)
    requires Loadable(w) && HoldsLive(w, store)
    ensures var w' := OpenWorld(w.format, w.version, store, w.accounts.root);
            SoundAccounts(w') && AccountsIn(w') == AccountsIn(w)
  {
    var c := AccountsIn(w);
    assert Holds(w.format, w.db, w.accounts, c) && WellFormed(w.version, c) && LawfulFormat(w.format);
    LiveNodes(w, store, []);
    assert ContentsAt(w, []) == c;
    hide HoldsLive, Loadable, LawfulFormat, WellFormed, Storable, NodesIn, ContentsAt;
    OpenedHolds(w.format, store, w.version, [], c);
  }

  /** The trie read for an address is now the one opened by its last root. */
  lemma OpenedTrie(w: World, w': World, a: Address)
    requires forall b | b in w.cache :: HashIn(w, b) == Some(w.cache[b].root)
    requires w'.version == w.version && w'.cache == map[] && HashIn(w', a) == HashIn(w, a)
    ensures TrieFor(w', a) == match TrieFor(w, a) case None => None case Some(t) => Some(OpenTrie(w.version, a, t.root))
  {
    hide HashIn;
  }

  lemma OpenedStorage(w: World, w': World, a: Address)
    requires Settled(w) && HoldsLive(w, w'.db) && w'.cache == map[] && AccountsIn(w') == AccountsIn(w)
    requires w'.version == w.version && w'.format == w.format
    ensures TrieFor(w', a).Some? ==> SoundStorage(w.format, w.version, w'.db, a, TrieFor(w', a).value)
    ensures StorageIn(w', a) == StorageIn(w, a)
  {
    assert HashIn(w', a) == HashIn(w, a);
    hide AccountsIn, SoundStorage, SoundAccounts, HoldsLive, LoadedOr, HashIn, NodesIn, ContentsAt, TrieFor;
    OpenedTrie(w, w', a);
    if TrieFor(w, a).Some? {
      var t := TrieFor(w, a).value;
      StorageContents(w, a);
      LiveNodes(w, w'.db, a);
      OpenedOne(w.format, w.version, w.db, w'.db, a, t);
    }
  }

  lemma OpenedOne(f: TrieFormat, version: Version, db: Contents, store: Contents, a: Address, t: Trie)
    requires SoundStorage(f, version, db, a, t)
    requires NodesIn(f, version, a, LoadedOr(f, db, t), store)
    ensures SoundStorage(f, version, store, a, OpenTrie(version, a, t.root))
    ensures LoadedOr(f, store, OpenTrie(version, a, t.root)) == LoadedOr(f, db, t)
  {
    var c := LoadedOr(f, db, t);
    assert Storable(f, c) && LawfulFormat(f) && t.root == f.root(c);
    hide Sound, Holds, LawfulFormat, Storable, ContentsOf, NodesIn;
    OpenedHolds(f, store, version, a, c);
  }

  // ---------- writing the changes ----------

  /** Writing deletes first and then inserts keeps a needed node: nobody overwrites it, and who deletes it is overruled
      by an insert. */
  predicate KeptDeletesFirst(m: Overlay, pk: Bytes, node: Bytes) {
    (pk in m.inserts ==> m.inserts[pk] == node) && (pk in m.deletes ==> pk in m.inserts)
  }

  /** Writing inserts first keeps it if nobody overwrites it and nobody deletes it. */
  predicate KeptInsertsFirst(m: Overlay, pk: Bytes, node: Bytes) {
    (pk in m.inserts ==> m.inserts[pk] == node) && pk !in m.deletes
  }

  /** Whether a needed node is in the written store, for either order, can be read off the changes. */
  lemma WrittenNode(w: World, m: Overlay, p: Bytes, k: Bytes)
    requires Loadable(w) && Merged(m, PartsIn(w)) && Live(w, p, k)
    ensures var pk := BuildKey(w.version, p, k);
            && (Lookup(DeletesFirst(w.db, m), pk) == Some(NodeAt(w, p, k))
               <==> KeptDeletesFirst(m, pk, NodeAt(w, p, k)))
            && (Lookup(InsertsFirst(w.db, m), pk) == Some(NodeAt(w, p, k))
               <==> KeptInsertsFirst(m, pk, NodeAt(w, p, k)))
  {
    var pk := BuildKey(w.version, p, k);
    OwnView(w, p, k);
    PartAt(w, p);
    var o, parts, node := TrieAt(w, p).value.overlay, PartsIn(w), NodeAt(w, p, k);
    assert InsertedBy(parts, p, pk) ==> pk in m.inserts;
    assert DeletedBy(parts, p, pk) ==> pk in m.deletes;
    hide *;
    OneKey(w.db, o, m, pk, node, parts, p);
  }

  lemma OneKey(db: Contents, o: Overlay, m: Overlay, pk: Bytes, node: Bytes, parts: map<Bytes, Overlay>, p: Bytes)
    requires Disjoint(o) && Lookup(View(db, o), pk) == Some(node)
    requires (p in parts ==> parts[p] == o) && (p !in parts ==> o == NO_CHANGES)
    requires (InsertedBy(parts, p, pk) ==> pk in m.inserts) && (DeletedBy(parts, p, pk) ==> pk in m.deletes)
    ensures Lookup(DeletesFirst(db, m), pk) == Some(node) <==> KeptDeletesFirst(m, pk, node)
    ensures Lookup(InsertsFirst(db, m), pk) == Some(node) <==> KeptInsertsFirst(m, pk, node)
  {
  }

  /** The written store has all that is needed exactly when the changes spare the needed nodes, for either order. */
  lemma WrittenHolds(w: World, m: Overlay)
    requires Loadable(w) && Merged(m, PartsIn(w))
    ensures HoldsLive(w, DeletesFirst(w.db, m))
       <==> forall p, k | Live(w, p, k) :: KeptDeletesFirst(m, BuildKey(w.version, p, k), NodeAt(w, p, k))
    ensures HoldsLive(w, InsertsFirst(w.db, m))
       <==> forall p, k | Live(w, p, k) :: KeptInsertsFirst(m, BuildKey(w.version, p, k), NodeAt(w, p, k))
  {
    hide *;
    forall p, k | Live(w, p, k)
      ensures Lookup(DeletesFirst(w.db, m), BuildKey(w.version, p, k)) == Some(NodeAt(w, p, k))
         <==> KeptDeletesFirst(m, BuildKey(w.version, p, k), NodeAt(w, p, k))
      ensures Lookup(InsertsFirst(w.db, m), BuildKey(w.version, p, k)) == Some(NodeAt(w, p, k))
         <==> KeptInsertsFirst(m, BuildKey(w.version, p, k), NodeAt(w, p, k))
    {
      WrittenNode(w, m, p, k);
    }
    HoldsLiveIs(w, DeletesFirst(w.db, m));
    HoldsLiveIs(w, InsertsFirst(w.db, m));
  }

  lemma HoldsLiveIs(w: World, store: Contents)
    ensures HoldsLive(w, store)
       <==> forall p, k | Live(w, p, k) :: Lookup(store, BuildKey(w.version, p, k)) == Some(NodeAt(w, p, k))
  {
  }

  /** If no trie's changes touch a node that another needs, the needed nodes are kept in either order, whatever the
      version of the tries and of their changes. */
  lemma ApartIsKept(w: World, m: Overlay)
    requires Loadable(w) && Merged(m, PartsIn(w)) && NodesApart(w)
    ensures HoldsLive(w, DeletesFirst(w.db, m)) && HoldsLive(w, InsertsFirst(w.db, m))
  {
    hide Loadable, Live, NodeAt, HoldsLive, BuildKey, PartsIn, TrieAt, NodeKey;
    forall p, k | Live(w, p, k)
      ensures KeptDeletesFirst(m, BuildKey(w.version, p, k), NodeAt(w, p, k))
      ensures KeptInsertsFirst(m, BuildKey(w.version, p, k), NodeAt(w, p, k))
    {
      OwnChanges(w, m, p, k);
    }
    WrittenHolds(w, m);
  }

  lemma OwnChanges(w: World, m: Overlay, p: Bytes, k: Bytes)
    requires Loadable(w) && Merged(m, PartsIn(w)) && NodesApart(w) && Live(w, p, k)
    ensures KeptInsertsFirst(m, BuildKey(w.version, p, k), NodeAt(w, p, k))
  {
    var pk, parts := BuildKey(w.version, p, k), PartsIn(w);
    OwnView(w, p, k);
    PartAt(w, p);
    hide Loadable, Live, NodeAt, TrieAt, PartsIn, BuildKey, NodeKey;
    if pk in m.inserts {
      var q :| InsertedBy(parts, q, pk) && parts[q].inserts[pk] == m.inserts[pk];
      assert ChangedBy(parts, q, pk);
    }
    forall q ensures !DeletedBy(parts, q, pk) {
      assert ChangedBy(parts, q, pk) ==> p == q;
    }
  }

  // ---------- made and opened states ----------

  /** In a state that was made or opened, of version 2 or of version 1 with separate node keys, the parts are apart and
      touch no node of another trie. */
  lemma RegularIsApart(w: World)
    requires Regular(w) && (w.version == V1 ==> Separate(w.format))
    ensures Apart(PartsIn(w)) && NodesApart(w)
    ensures forall p | p in PartsIn(w) :: Disjoint(PartsIn(w)[p])
  {
    hide Loadable, Live, NodeKey, PartsIn, Separate, InMode;
    forall p, pk | ChangedBy(PartsIn(w), p, pk) ensures IsPrefix(p) && Belongs(w.format, w.version, p, pk) {
      ChangesBelong(w, p, pk);
    }
    hide Belongs, ChangedBy;
    forall p, q, pk | ChangedBy(PartsIn(w), p, pk) && ChangedBy(PartsIn(w), q, pk) ensures p == q {
      BelongsToOne(w.format, w.version, p, q, pk);
    }
    forall p, q, k | Live(w, p, k) && ChangedBy(PartsIn(w), q, BuildKey(w.version, p, k)) ensures p == q {
      LiveBelongs(w, p, k);
      BelongsToOne(w.format, w.version, p, q, BuildKey(w.version, p, k));
    }
    forall p | p in PartsIn(w) ensures Disjoint(PartsIn(w)[p]) { PartIsDisjoint(w, p); }
  }

  /** The changes of a close, written in either order, are the changes of the tries written one trie after the other,
      for any order of the tries. */
  lemma CloseWritesInTurn(w: World, m: Overlay, order: seq<Bytes>)
    requires Regular(w) && (w.version == V1 ==> Separate(w.format)) && Merged(m, PartsIn(w))
    requires forall p :: p in order <==> p in PartsIn(w)
    requires forall i: nat, j: nat | i < j < |order| :: order[i] != order[j]
    ensures DeletesFirst(w.db, m) == InsertsFirst(w.db, m) == InTurn(w.db, order, PartsIn(w))
  {
    var parts := PartsIn(w);
    hide *;
    RegularIsApart(w);
    MergedIsDisjoint(m, parts);
    OrderDoesNotMatter(w.db, m);
    RestrictAll(order, parts);
    MergeWritesInTurn(w.db, order, parts);
    MergedIsUnique(m, MergeAll(order, parts), parts);
    ViewIs(w.db, m);
  }

  lemma ViewIs(db: Contents, m: Overlay)
    ensures View(db, m) == DeletesFirst(db, m)
  {
  }

  lemma RestrictAll(order: seq<Bytes>, parts: map<Bytes, Overlay>)
    requires forall p :: p in order <==> p in parts
    ensures Restrict(order, parts) == parts
  {
  }

  lemma ChangesBelong(w: World, p: Bytes, pk: Bytes)
    requires InMode(AsOpened, w) && Loadable(w) && ChangedBy(PartsIn(w), p, pk)
    ensures IsPrefix(p) && Belongs(w.format, w.version, p, pk)
  {
    hide Belongs, Lean, AccountsIn, StorageIn, SoundStorage;
    if p in w.cache {
      CachedStorage(w, p);
      assert Tidy(AsOpened, w.format, w.cache[p], StorageIn(w, p));
    } else {
      assert p == [] && Tidy(AsOpened, w.format, w.accounts, AccountsIn(w));
    }
  }

  lemma LiveBelongs(w: World, p: Bytes, k: Bytes)
    requires Loadable(w) && Live(w, p, k)
    ensures IsPrefix(p) && Belongs(w.format, w.version, p, BuildKey(w.version, p, k))
  {
    OwnView(w, p, k);
    hide Loadable, NodeKey;
  }

  lemma PartIsDisjoint(w: World, p: Bytes)
    requires Loadable(w) && p in PartsIn(w)
    ensures Disjoint(PartsIn(w)[p])
  {
    if p in w.cache { CachedStorage(w, p); }
    hide SoundStorage, LawfulFormat;
  }

  // ---------- upgraded states ----------

  /** In an upgraded state every needed node is inserted, and no insert is to a key of another trie. So writing deletes
      first always keeps what is needed; writing inserts first does exactly when no needed node has the key of a
      deleted one, which may be a version 1 node of any trie. */
  lemma RebuiltIsKept(w: World, m: Overlay)
    requires Rebuilt(w) && Merged(m, PartsIn(w))
    ensures HoldsLive(w, DeletesFirst(w.db, m))
    ensures HoldsLive(w, InsertsFirst(w.db, m))
            <==> forall p, k | Live(w, p, k) :: BuildKey(w.version, p, k) !in m.deletes
  {
    hide Loadable, InMode, Live, NodeAt, HoldsLive, BuildKey, PartsIn;
    forall p, k | Live(w, p, k)
      ensures BuildKey(w.version, p, k) in m.inserts && m.inserts[BuildKey(w.version, p, k)] == NodeAt(w, p, k)
    {
      InsertedAlone(w, m, p, k);
    }
    WrittenHolds(w, m);
  }

  lemma InsertedAlone(w: World, m: Overlay, p: Bytes, k: Bytes)
    requires Rebuilt(w) && Merged(m, PartsIn(w)) && Live(w, p, k)
    ensures var pk := BuildKey(w.version, p, k); pk in m.inserts && m.inserts[pk] == NodeAt(w, p, k)
  {
    var pk, parts := BuildKey(w.version, p, k), PartsIn(w);
    LiveIsInserted(w, p, k);
    hide Loadable, InMode, Live, NodeAt, BuildKey, PartsIn;
    assert pk in m.inserts;
    var q :| InsertedBy(parts, q, pk) && parts[q].inserts[pk] == m.inserts[pk];
    InsertsAreNew(w, q, pk);
    SpacesApart(p, q, pk);
  }

  lemma LiveIsInserted(w: World, p: Bytes, k: Bytes)
    requires Rebuilt(w) && Live(w, p, k)
    ensures var pk := BuildKey(w.version, p, k);
            && w.version == V2 && IsPrefix(p) && InSpace(V2, p, pk)
            && InsertedBy(PartsIn(w), p, pk) && PartsIn(w)[p].inserts[pk] == NodeAt(w, p, k)
  {
    CachedAt(w, p);
    SoundAt(w, p);
    hide Rebuilt, Loadable, TrieAt, ContentsAt, PartsIn, Holds, LawfulFormat, Fits, BuildKey;
    var t := TrieAt(w, p).value;
    assert Lookup(t.overlay.inserts, BuildKey(V2, t.prefix, k)) == Some(w.format.nodes(ContentsAt(w, p))[k]);
    NewKey(p, k);
  }

  lemma NewKey(p: Bytes, k: Bytes)
    ensures InSpace(V2, p, BuildKey(V2, p, k))
  {
  }

  /** In an upgraded state every trie that is read is the accounts trie or cached. */
  lemma CachedAt(w: World, p: Bytes)
    requires Rebuilt(w) && TrieAt(w, p).Some?
    ensures w.version == V2 && p in PartsIn(w) && PartsIn(w)[p] == TrieAt(w, p).value.overlay
    ensures Renewed(w.format, TrieAt(w, p).value, ContentsAt(w, p))
  {
    hide SoundAccounts, SoundStorage, LoadedOr, HashIn, Renewed;
    if p == [] {
      assert Tidy(AsUpgraded, w.format, w.accounts, AccountsIn(w));
    } else {
      assert p in w.cache && Tidy(AsUpgraded, w.format, w.cache[p], StorageIn(w, p));
    }
  }

  lemma InsertsAreNew(w: World, q: Bytes, pk: Bytes)
    requires Rebuilt(w) && InsertedBy(PartsIn(w), q, pk)
    ensures IsPrefix(q) && InSpace(V2, q, pk)
  {
    hide SoundAccounts, SoundStorage, LoadedOr, HashIn, AccountsIn, StorageIn;
    if q in w.cache {
      CachedStorage(w, q);
      assert Tidy(AsUpgraded, w.format, w.cache[q], StorageIn(w, q));
    } else {
      SoundAt(w, []);
      assert q == [] && Tidy(AsUpgraded, w.format, w.accounts, AccountsIn(w));
    }
  }

  /** Such a key exists: an upgrade can delete the version 1 node of field `g` of account `1 a[..31]` and insert, for
      the storage key `g` of account `a`, the version 2 node with the same value. Written inserts first, the node is
      lost. */
  lemma InsertsFirstLosesNode(db: Contents, a: Address, g: u8, h: Address, node: Bytes)
    requires a[31] == 1
    ensures var old', new' := BuildKey(V1, [], ([1] + a[..31] + [1, g]) + h), BuildKey(V2, a, [g] + h);
            var m := Merge(Overlay(map[], {old'}), Overlay(map[new' := node], {}));
            && Lookup(DeletesFirst(db, m), new') == Some(node)
            && Lookup(InsertsFirst(db, m), new') == None
  {
    OldMeetsNew(a, g, h);
  }
}
