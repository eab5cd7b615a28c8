/** The trie as the rest of the world state uses it: a finite map whose nodes live in an overlay.

    The node encoding and the hashing belong to libraries; a `TrieFormat` stands for them. What is assumed of it is
    `LawfulFormat`: contents can be loaded back, by their root, from any store that has their nodes. */
module Tries {
  import opened Bytes
  import opened Overlays

  type Hash = Address

  datatype Error = TrieError | KeyError | DecodeError
  datatype Result<+T> = Ok(value: T) | Err(error: Error)

  const PUBLIC: u8 := 0
  const PROTECTED: u8 := 1

  /** `nodes` gives the nodes that hold some contents, by logical key, `root` their root hash, and `load` what a
      store holds under a root. Setting a key to the empty value either keeps it or removes it. */
  datatype TrieFormat = TrieFormat(
    nodes: Contents -> Contents,
    root: Contents -> Hash,
    load: (Contents, Hash) -> Option<Contents>,
    keepsEmpty: bool)

  predicate Includes(store: Contents, part: Contents) {
    forall k | k in part :: Lookup(store, k) == Some(part[k])
  }

  /** Contents that a trie of the format can have. */
  predicate Storable(f: TrieFormat, c: Contents) {
    f.keepsEmpty || forall k | k in c :: c[k] != []
  }

  ghost predicate LawfulFormat(f: TrieFormat) {
    && (forall store, c :: Storable(f, c) && Includes(store, f.nodes(c)) ==> f.load(store, f.root(c)) == Some(c))
    && (forall c :: f.root(c) == f.root(map[]) ==> c == map[])
  }

  /** A trie of one version and prefix: its overlay and its current root. */
  datatype Trie = Trie(version: Version, prefix: Bytes, overlay: Overlay, root: Hash)

  // ---------- keys of nodes ----------

  /** The keys of contents in version 1: account keys have the Protected byte after the address, storage keys the
      Public byte in front. */
  predicate KeyFits(prefix: Bytes, key: Bytes) {
    if prefix == [] then |key| == 34 && key[32] == PROTECTED else key != [] && key[0] == PUBLIC
  }

  ghost predicate Fits(version: Version, prefix: Bytes, c: Contents) {
    version == V1 ==> forall key | key in c :: KeyFits(prefix, key)
  }

  /** A key that some node of a trie with this version and prefix can have. */
  ghost predicate NodeKey(f: TrieFormat, version: Version, prefix: Bytes, k: Bytes) {
    exists c :: Fits(version, prefix, c) && k in f.nodes(c)
  }

  /** A physical key that such a node can have. */
  ghost predicate Belongs(f: TrieFormat, version: Version, prefix: Bytes, pk: Bytes) {
    InSpace(version, prefix, pk) && NodeKey(f, version, prefix, pk[|Space(version, prefix)|..])
  }

  /** No node of a version 1 accounts trie has the physical key of a storage trie's node. Node keys end in the hash of
      the node, so this fails only where two different nodes have one hash; see `NodeKeysMeet`. */
  ghost predicate Separate(f: TrieFormat) {
    forall k, l, a: Address | NodeKey(f, V1, [], k) && NodeKey(f, V1, a, l) :: k != a + l
  }

  /** The nodes of different tries have different physical keys. */
  lemma BelongsToOne(f: TrieFormat, version: Version, p: Bytes, q: Bytes, pk: Bytes)
    requires IsPrefix(p) && IsPrefix(q) && Belongs(f, version, p, pk) && Belongs(f, version, q, pk)
    requires version == V1 ==> Separate(f)
    ensures p == q
  {
    if version == V2 { SpacesApart(p, q, pk); }
  }

  // ---------- bulk writes to an overlay ----------

  function Physical(version: Version, prefix: Bytes, keys: set<Bytes>): set<Bytes> {
    set key | key in keys :: BuildKey(version, prefix, key)
  }

  function PutAll(version: Version, prefix: Bytes, o: Overlay, nodes: Contents): Overlay {
    var pks := Physical(version, prefix, nodes.Keys);
    var s := Space(version, prefix);
    Overlay(o.inserts + (map pk | pk in pks && pk[|s|..] in nodes :: nodes[pk[|s|..]]), o.deletes - pks)
  }

  function DeleteAll(version: Version, prefix: Bytes, o: Overlay, keys: set<Bytes>): Overlay {
    var pks := Physical(version, prefix, keys);
    Overlay(o.inserts - pks, o.deletes + pks)
  }

  /** Every change is to a key of a node of this trie. */
  ghost predicate Within(f: TrieFormat, version: Version, prefix: Bytes, o: Overlay) {
    forall pk | pk in o.inserts || pk in o.deletes :: Belongs(f, version, prefix, pk)
  }

  lemma PhysicalKey(version: Version, prefix: Bytes, keys: set<Bytes>, key: Bytes)
    ensures BuildKey(version, prefix, key) in Physical(version, prefix, keys) <==> key in keys
  {
  }

  lemma PhysicalRest(version: Version, prefix: Bytes, keys: set<Bytes>, pk: Bytes)
    requires pk in Physical(version, prefix, keys)
    ensures InSpace(version, prefix, pk) && pk[|Space(version, prefix)|..] in keys
  {
  }

  /** What a bulk put does to each key. */
  lemma PutAllAt(version: Version, prefix: Bytes, o: Overlay, nodes: Contents, pk: Bytes)
    ensures var o' := PutAll(version, prefix, o, nodes);
            if pk in Physical(version, prefix, nodes.Keys)
            then InSpace(version, prefix, pk) && pk[|Space(version, prefix)|..] in nodes && pk !in o'.deletes
                 && Lookup(o'.inserts, pk) == Some(nodes[pk[|Space(version, prefix)|..]])
            else Lookup(o'.inserts, pk) == Lookup(o.inserts, pk) && (pk in o'.deletes <==> pk in o.deletes)
  {
    if pk in Physical(version, prefix, nodes.Keys) { PhysicalRest(version, prefix, nodes.Keys, pk); }
  }

  lemma PutAllReads(version: Version, prefix: Bytes, db: Contents, o: Overlay, nodes: Contents)
    ensures Logical(version, prefix, View(db, PutAll(version, prefix, o, nodes)))
         == Logical(version, prefix, View(db, o)) + nodes
    ensures Disjoint(o) ==> Disjoint(PutAll(version, prefix, o, nodes))
  {
    var o' := PutAll(version, prefix, o, nodes);
    var before, after := Logical(version, prefix, View(db, o)), Logical(version, prefix, View(db, o'));
    hide Logical, PutAll, Physical;
    forall k ensures Lookup(after, k) == Lookup(before + nodes, k) {
      var pk := BuildKey(version, prefix, k);
      LogicalAt(version, prefix, View(db, o), k);
      LogicalAt(version, prefix, View(db, o'), k);
      PhysicalKey(version, prefix, nodes.Keys, k);
      PutAllAt(version, prefix, o, nodes, pk);
    }
    LookupsEqual(after, before + nodes);
    if Disjoint(o) {
      forall pk | pk in o'.inserts ensures pk !in o'.deletes { PutAllAt(version, prefix, o, nodes, pk); }
    }
  }

  lemma DeleteAllReads(version: Version, prefix: Bytes, db: Contents, o: Overlay, keys: set<Bytes>)
    ensures Logical(version, prefix, View(db, DeleteAll(version, prefix, o, keys)))
         == Logical(version, prefix, View(db, o)) - keys
    ensures Disjoint(o) ==> Disjoint(DeleteAll(version, prefix, o, keys))
  {
    var o' := DeleteAll(version, prefix, o, keys);
    var before, after := Logical(version, prefix, View(db, o)), Logical(version, prefix, View(db, o'));
    hide Logical, Physical;
    forall k ensures Lookup(after, k) == Lookup(before - keys, k) {
      LogicalAt(version, prefix, View(db, o), k);
      LogicalAt(version, prefix, View(db, o'), k);
      PhysicalKey(version, prefix, keys, k);
    }
    LookupsEqual(after, before - keys);
  }

  /** The overlay that a run of puts and deletes leaves; each step is what `KeyInstrumentedDB` does. */
  function Recorded(version: Version, prefix: Bytes, o: Overlay, ops: seq<Op>): Overlay {
    if ops == [] then o else Record(version, prefix, Recorded(version, prefix, o, ops[..|ops| - 1]), ops[|ops| - 1])
  }

  function Record(version: Version, prefix: Bytes, o: Overlay, op: Op): Overlay {
    match op
    case Put(k, v) => WithPut(o, BuildKey(version, prefix, k), v)
    case Delete(k) => WithDelete(o, BuildKey(version, prefix, k))
  }

  lemma RecordedOneMore(version: Version, prefix: Bytes, o: Overlay, ops: seq<Op>, op: Op)
    ensures Recorded(version, prefix, o, ops + [op]) == Record(version, prefix, Recorded(version, prefix, o, ops), op)
  {
    assert (ops + [op])[..|ops|] == ops;
    hide Record;
  }

  /** A bulk put is a run of puts. */
  lemma {:induction false} PutAllIsRun(version: Version, prefix: Bytes, o: Overlay, nodes: Contents)
    returns (ops: seq<Op>)
    ensures Recorded(version, prefix, o, ops) == PutAll(version, prefix, o, nodes)
    decreases |nodes|
  {
    if nodes == map[] {
      ops := [];
      assert PutAll(version, prefix, o, nodes) == o;
    } else {
      var k :| k in nodes;
      var rest := nodes - {k};
      assert rest[k := nodes[k]] == nodes;
      hide *;
      var before := PutAllIsRun(version, prefix, o, rest);
      ops := before + [Put(k, nodes[k])];
      RecordedOneMore(version, prefix, o, before, Put(k, nodes[k]));
      PutOneMore(version, prefix, o, rest, k, nodes[k]);
    }
  }

  lemma PutOneMore(version: Version, prefix: Bytes, o: Overlay, nodes: Contents, k: Bytes, v: Bytes)
    requires k !in nodes
    ensures PutAll(version, prefix, o, nodes[k := v])
            == Record(version, prefix, PutAll(version, prefix, o, nodes), Put(k, v))
  {
    var o1, o2 := PutAll(version, prefix, o, nodes[k := v]),
        WithPut(PutAll(version, prefix, o, nodes), BuildKey(version, prefix, k), v);
    forall pk ensures Lookup(o1.inserts, pk) == Lookup(o2.inserts, pk) && (pk in o1.deletes <==> pk in o2.deletes) {
      PutAllAt(version, prefix, o, nodes, pk);
      PutAllAt(version, prefix, o, nodes[k := v], pk);
    }
    LookupsEqual(o1.inserts, o2.inserts);
  }

  lemma DeleteOneMore(version: Version, prefix: Bytes, o: Overlay, keys: set<Bytes>, k: Bytes)
    ensures DeleteAll(version, prefix, o, keys + {k})
         == Record(version, prefix, DeleteAll(version, prefix, o, keys), Delete(k))
  {
    assert Physical(version, prefix, keys + {k}) == Physical(version, prefix, keys) + {BuildKey(version, prefix, k)};
  }

  /** A bulk delete is a run of deletes. */
  lemma {:induction false} DeleteAllIsRun(version: Version, prefix: Bytes, o: Overlay, keys: set<Bytes>)
    returns (ops: seq<Op>)
    ensures Recorded(version, prefix, o, ops) == DeleteAll(version, prefix, o, keys)
    decreases |keys|
  {
    if keys == {} {
      ops := [];
    } else {
      var k :| k in keys;
      var rest := keys - {k};
      assert rest + {k} == keys;
      hide *;
      var before := DeleteAllIsRun(version, prefix, o, rest);
      ops := before + [Delete(k)];
      RecordedOneMore(version, prefix, o, before, Delete(k));
      DeleteOneMore(version, prefix, o, rest, k);
    }
  }

  // ---------- the trie as a map ----------

  /** What the trie reads of the store through its overlay. */
  function Reads(db: Contents, t: Trie): Contents {
    Logical(t.version, t.prefix, View(db, t.overlay))
  }

  /** The trie holds `c`: its nodes are there and its root is theirs. */
  ghost predicate Holds(f: TrieFormat, db: Contents, t: Trie, c: Contents) {
    Storable(f, c) && Includes(Reads(db, t), f.nodes(c)) && t.root == f.root(c) && Disjoint(t.overlay)
  }

  /** What the trie loads. */
  function ContentsOf(f: TrieFormat, db: Contents, t: Trie): Option<Contents> {
    f.load(Reads(db, t), t.root)
  }

  /** The trie loads, and its overlay holds all of what it loads. */
  ghost predicate Sound(f: TrieFormat, db: Contents, t: Trie) {
    LawfulFormat(f) && ContentsOf(f, db, t).Some? && Holds(f, db, t, ContentsOf(f, db, t).value)
  }

  lemma HoldsLoads(f: TrieFormat, db: Contents, t: Trie, c: Contents)
    requires LawfulFormat(f) && Holds(f, db, t, c)
    ensures ContentsOf(f, db, t) == Some(c) && Sound(f, db, t)
  {
  }

  function NewTrie(f: TrieFormat, version: Version, prefix: Bytes): Trie {
    Trie(version, prefix, PutAll(version, prefix, NO_CHANGES, f.nodes(map[])), f.root(map[]))
  }

  function OpenTrie(version: Version, prefix: Bytes, root: Hash): Trie {
    Trie(version, prefix, NO_CHANGES, root)
  }

  /** The nodes that new contents have and the old ones do not. */
  function FreshNodes(f: TrieFormat, c: Contents, c': Contents): Contents {
    map k | k in f.nodes(c') && Lookup(f.nodes(c), k) != Some(f.nodes(c')[k]) :: f.nodes(c')[k]
  }

  /** The nodes that only the old contents have. The node of an empty trie is never removed by a change of contents. */
  function StaleKeys(f: TrieFormat, c: Contents, c': Contents): set<Bytes> {
    f.nodes(c).Keys - f.nodes(c').Keys - f.nodes(map[]).Keys
  }

  /** Remove the stale nodes and write the fresh ones. */
  function Commit(f: TrieFormat, t: Trie, c: Contents, c': Contents): Trie {
    var dropped := DeleteAll(t.version, t.prefix, t.overlay, StaleKeys(f, c, c'));
    t.(overlay := PutAll(t.version, t.prefix, dropped, FreshNodes(f, c, c')), root := f.root(c'))
  }

  /** What a key reads once it is set to a value. */
  function Written(f: TrieFormat, value: Bytes): Option<Bytes> {
    if value == [] && !f.keepsEmpty then None else Some(value)
  }

  function WithData(f: TrieFormat, c: Contents, data: Contents): Contents {
    (c - data.Keys) + (map k | k in data && Written(f, data[k]).Some? :: data[k])
  }

  /** The empty value removes the key unless the library keeps it; any other value is what is read. */
  lemma WrittenIs(f: TrieFormat, value: Bytes)
    ensures Written(f, value) == None <==> value == [] && !f.keepsEmpty
    ensures Written(f, value).Some? ==> Written(f, value).value == value
  {
  }

  lemma WithDataAt(f: TrieFormat, c: Contents, data: Contents, k: Bytes)
    ensures Lookup(WithData(f, c, data), k) == if k in data then Written(f, data[k]) else Lookup(c, k)
  {
  }

  lemma WithDataStorable(f: TrieFormat, c: Contents, data: Contents)
    requires Storable(f, c)
    ensures Storable(f, WithData(f, c, data))
    ensures Storable(f, data) ==> WithData(f, map[], data) == data
  {
  }

  function Get(f: TrieFormat, db: Contents, t: Trie, key: Bytes): Result<Option<Bytes>> {
    match ContentsOf(f, db, t) case None => Err(TrieError) case Some(c) => Ok(Lookup(c, key))
  }

  /** `set` and `batch_set`. */
  function SetAll(f: TrieFormat, db: Contents, t: Trie, data: Contents): Result<Trie> {
    match ContentsOf(f, db, t) case None => Err(TrieError) case Some(c) => Ok(Commit(f, t, c, WithData(f, c, data)))
  }

  /** `batch_remove`, which drops the errors of a trie that does not load. */
  function RemoveAll(f: TrieFormat, db: Contents, t: Trie, keys: set<Bytes>): Trie {
    match ContentsOf(f, db, t) case None => t case Some(c) => Commit(f, t, c, c - keys)
  }

  /** `remove`, which leaves the trie alone if the key is not there. */
  function Remove(f: TrieFormat, db: Contents, t: Trie, key: Bytes): Result<Trie> {
    match ContentsOf(f, db, t)
    case None => Err(TrieError)
    case Some(c) => if key in c then Ok(Commit(f, t, c, c - {key})) else Ok(t)
  }

  /** `deinit_and_upgrade`: an empty version 1 trie gives up its node and starts again as version 2, on the same
      overlay. */
  function Deinit(f: TrieFormat, db: Contents, t: Trie): Result<Trie> {
    if t.root != f.root(map[]) then Err(TrieError)
    else
      var empty := f.nodes(map[]);
      var o := if ContentsOf(f, db, t).Some? then DeleteAll(V1, t.prefix, t.overlay, empty.Keys) else t.overlay;
      Ok(Trie(V2, t.prefix, PutAll(V2, t.prefix, o, empty), f.root(map[])))
  }

  /** A trie that does not load fails and stays as it is; so does one that is not empty when it should give up its
      node. */
  lemma NotLoaded(f: TrieFormat, db: Contents, t: Trie, key: Bytes, data: Contents, keys: set<Bytes>)
    ensures ContentsOf(f, db, t) == None ==>
              && Get(f, db, t, key) == Err(TrieError) && SetAll(f, db, t, data) == Err(TrieError)
              && Remove(f, db, t, key) == Err(TrieError) && RemoveAll(f, db, t, keys) == t
    ensures t.root != f.root(map[]) ==> Deinit(f, db, t) == Err(TrieError)
  {
  }

  /** What a trie that loads answers; removing a key that is not there changes nothing at all. */
  lemma Loaded(f: TrieFormat, db: Contents, t: Trie, key: Bytes, c: Contents)
    requires ContentsOf(f, db, t) == Some(c)
    ensures Get(f, db, t, key) == Ok(Lookup(c, key))
    ensures key !in c ==> Remove(f, db, t, key) == Ok(t)
  {
  }

  // ---------- what overlays may contain ----------

  /** What is inserted are nodes of the contents, or the node of an empty trie. */
  ghost predicate Lean(f: TrieFormat, t: Trie, c: Contents) {
    forall pk | pk in t.overlay.inserts :: pk in Physical(t.version, t.prefix, f.nodes(c).Keys + f.nodes(map[]).Keys)
  }

  /** What is inserted has keys of version 2, and every node of the contents is inserted. Deletes may be of version 1.
      */
  ghost predicate Renewed(f: TrieFormat, t: Trie, c: Contents) {
    && t.version == V2
    && (forall pk | pk in t.overlay.inserts :: InSpace(V2, t.prefix, pk))
    && (forall k | k in f.nodes(c) :: Lookup(t.overlay.inserts, BuildKey(V2, t.prefix, k)) == Some(f.nodes(c)[k]))
  }

  /** How the tries of a state started out: made or opened in their version, or made by an upgrade. */
  datatype Mode = AsOpened | AsUpgraded

  ghost predicate Tidy(mode: Mode, f: TrieFormat, t: Trie, c: Contents) {
    match mode
    case AsOpened => Within(f, t.version, t.prefix, t.overlay) && Lean(f, t, c)
    case AsUpgraded => Renewed(f, t, c)
  }

  /** The keys with a change that waits to be written. */
  function Touched(o: Overlay): set<Bytes> {
    o.inserts.Keys + o.deletes
  }

  /** `t'` is a later state of `t`: its overlay is as tidy, and no change is taken back, though a delete may have
      become an insert or an insert a delete. */
  ghost predicate Follows(f: TrieFormat, t: Trie, c: Contents, t': Trie, c': Contents) {
    && t'.version == t.version && t'.prefix == t.prefix
    && (forall mode :: Tidy(mode, f, t, c) ==> Tidy(mode, f, t', c'))
    && Touched(t.overlay) <= Touched(t'.overlay)
  }

  /** Each node that `source` needed for `c` is deleted or overwritten. */
  ghost predicate Retired(f: TrieFormat, source: Trie, c: Contents, o: Overlay) {
    forall k | k in f.nodes(c) :: BuildKey(source.version, source.prefix, k) in Touched(o)
  }

  lemma OpenIsTidy(f: TrieFormat, version: Version, prefix: Bytes, root: Hash, c: Contents)
    ensures Tidy(AsOpened, f, OpenTrie(version, prefix, root), c)
  {
  }

  lemma NewHolds(f: TrieFormat, db: Contents, version: Version, prefix: Bytes)
    ensures Holds(f, db, NewTrie(f, version, prefix), map[])
    ensures NewTrie(f, version, prefix).version == version && NewTrie(f, version, prefix).prefix == prefix
  {
    PutAllReads(version, prefix, db, NO_CHANGES, f.nodes(map[]));
  }

  /** A new trie inserts the nodes of the empty contents and nothing else. */
  lemma NewInserts(f: TrieFormat, version: Version, prefix: Bytes, k: Bytes, pk: Bytes)
    ensures var t := NewTrie(f, version, prefix);
            && t.overlay.deletes == {} && t.root == f.root(map[])
            && Lookup(t.overlay.inserts, BuildKey(version, prefix, k)) == Lookup(f.nodes(map[]), k)
            && (pk in t.overlay.inserts ==> InSpace(version, prefix, pk))
  {
    var nodes := f.nodes(map[]);
    PutAllAt(version, prefix, NO_CHANGES, nodes, pk);
    PutAllAt(version, prefix, NO_CHANGES, nodes, BuildKey(version, prefix, k));
    PhysicalKey(version, prefix, nodes.Keys, k);
    hide Physical;
  }

  /** A new trie is tidy in a state of either kind. */
  lemma NewIsTidy(f: TrieFormat, version: Version, prefix: Bytes)
    ensures Tidy(AsOpened, f, NewTrie(f, version, prefix), map[])
    ensures version == V2 ==> Tidy(AsUpgraded, f, NewTrie(f, version, prefix), map[])
  {
    var nodes := f.nodes(map[]);
    var o := PutAll(version, prefix, NO_CHANGES, nodes);
    assert Fits(version, prefix, map[]);
    hide PutAll, Physical;
    forall pk | pk in o.inserts || pk in o.deletes
      ensures Belongs(f, version, prefix, pk) && pk in Physical(version, prefix, nodes.Keys + nodes.Keys)
    {
      PutAllAt(version, prefix, NO_CHANGES, nodes, pk);
      assert nodes.Keys + nodes.Keys == nodes.Keys;
    }
    forall k | k in nodes ensures Lookup(o.inserts, BuildKey(version, prefix, k)) == Some(nodes[k]) {
      PhysicalKey(version, prefix, nodes.Keys, k);
      PutAllAt(version, prefix, NO_CHANGES, nodes, BuildKey(version, prefix, k));
    }
  }

  lemma CommitHolds(f: TrieFormat, db: Contents, t: Trie, c: Contents, c': Contents)
    requires Holds(f, db, t, c) && Storable(f, c')
    ensures Holds(f, db, Commit(f, t, c, c'), c')
  {
    var stale := StaleKeys(f, c, c');
    var dropped := DeleteAll(t.version, t.prefix, t.overlay, stale);
    DeleteAllReads(t.version, t.prefix, db, t.overlay, stale);
    PutAllReads(t.version, t.prefix, db, dropped, FreshNodes(f, c, c'));
    hide Logical, DeleteAll, PutAll, Disjoint, Storable;
    assert Reads(db, Commit(f, t, c, c')) == (Reads(db, t) - stale) + FreshNodes(f, c, c');
  }

  /** What a commit does to each key of the overlay. */
  lemma CommitAt(f: TrieFormat, t: Trie, c: Contents, c': Contents, pk: Bytes)
    ensures var o := Commit(f, t, c, c').overlay;
            if pk in Physical(t.version, t.prefix, FreshNodes(f, c, c').Keys)
            then InSpace(t.version, t.prefix, pk) && pk[|Space(t.version, t.prefix)|..] in FreshNodes(f, c, c')
                 && pk !in o.deletes
                 && Lookup(o.inserts, pk) == Some(FreshNodes(f, c, c')[pk[|Space(t.version, t.prefix)|..]])
            else if pk in Physical(t.version, t.prefix, StaleKeys(f, c, c'))
            then InSpace(t.version, t.prefix, pk) && pk[|Space(t.version, t.prefix)|..] in StaleKeys(f, c, c')
                 && pk !in o.inserts && pk in o.deletes
            else Lookup(o.inserts, pk) == Lookup(t.overlay.inserts, pk)
                 && (pk in o.deletes <==> pk in t.overlay.deletes)
  {
    var stale := StaleKeys(f, c, c');
    PutAllAt(t.version, t.prefix, DeleteAll(t.version, t.prefix, t.overlay, stale), FreshNodes(f, c, c'), pk);
    if pk in Physical(t.version, t.prefix, stale) { PhysicalRest(t.version, t.prefix, stale, pk); }
    hide Physical, PutAll, FreshNodes, StaleKeys;
  }

  /** A commit takes no change back, and touches every stale node. */
  lemma CommitTouches(f: TrieFormat, t: Trie, c: Contents, c': Contents)
    ensures Touched(t.overlay) <= Touched(Commit(f, t, c, c').overlay)
    ensures forall k | k in StaleKeys(f, c, c') ::
            BuildKey(t.version, t.prefix, k) in Touched(Commit(f, t, c, c').overlay)
  {
    var o := Commit(f, t, c, c').overlay;
    hide Commit, Physical, InSpace, StaleKeys, FreshNodes;
    forall pk | pk in Touched(t.overlay) ensures pk in Touched(o) { CommitAt(f, t, c, c', pk); }
    forall k | k in StaleKeys(f, c, c') ensures BuildKey(t.version, t.prefix, k) in Touched(o) {
      CommitAt(f, t, c, c', BuildKey(t.version, t.prefix, k));
      PhysicalKey(t.version, t.prefix, StaleKeys(f, c, c'), k);
    }
  }

  /** What a commit does to each node, by its logical key: new or changed nodes are inserted, nodes that are no longer
      there deleted, but for those of the empty trie, and nodes that stay are not written again. */
  lemma CommitWrites(f: TrieFormat, t: Trie, c: Contents, c': Contents, k: Bytes)
    ensures var o, pk := Commit(f, t, c, c').overlay, BuildKey(t.version, t.prefix, k);
            var was, will := Lookup(f.nodes(c), k), Lookup(f.nodes(c'), k);
            && (will.Some? && was != will ==> Lookup(o.inserts, pk) == will && pk !in o.deletes)
            && (was.Some? && will == None && k !in f.nodes(map[]) ==> pk !in o.inserts && pk in o.deletes)
            && (was == will || (will == None && k in f.nodes(map[])) ==>
                  Lookup(o.inserts, pk) == Lookup(t.overlay.inserts, pk)
                      && (pk in o.deletes <==> pk in t.overlay.deletes))
  {
    var pk := BuildKey(t.version, t.prefix, k);
    CommitAt(f, t, c, c', pk);
    PhysicalKey(t.version, t.prefix, FreshNodes(f, c, c').Keys, k);
    PhysicalKey(t.version, t.prefix, StaleKeys(f, c, c'), k);
    hide Commit, Physical;
  }

  lemma CommitFollows(f: TrieFormat, t: Trie, c: Contents, c': Contents)
    requires Fits(t.version, t.prefix, c) && Fits(t.version, t.prefix, c')
    ensures Follows(f, t, c, Commit(f, t, c, c'), c')
  {
    var t' := Commit(f, t, c, c');
    CommitTouches(f, t, c, c');
    forall mode | Tidy(mode, f, t, c) ensures Tidy(mode, f, t', c') {
      match mode
      case AsOpened =>
        CommitWithin(f, t, c, c');
        CommitLean(f, t, c, c');
      case AsUpgraded => CommitRenewed(f, t, c, c');
    }
  }

  lemma CommitWithin(f: TrieFormat, t: Trie, c: Contents, c': Contents)
    requires Fits(t.version, t.prefix, c) && Fits(t.version, t.prefix, c')
    requires Within(f, t.version, t.prefix, t.overlay)
    ensures Within(f, t.version, t.prefix, Commit(f, t, c, c').overlay)
  {
    var o := Commit(f, t, c, c').overlay;
    hide Commit, Physical, InSpace;
    forall pk | pk in o.inserts || pk in o.deletes ensures Belongs(f, t.version, t.prefix, pk) {
      CommitAt(f, t, c, c', pk);
    }
  }

  lemma CommitLean(f: TrieFormat, t: Trie, c: Contents, c': Contents)
    requires Lean(f, t, c)
    ensures Lean(f, Commit(f, t, c, c'), c')
  {
    var t' := Commit(f, t, c, c');
    var old', kept := f.nodes(c).Keys + f.nodes(map[]).Keys, f.nodes(c').Keys + f.nodes(map[]).Keys;
    forall pk | pk in t'.overlay.inserts ensures pk in Physical(t.version, t.prefix, kept) {
      CommitAt(f, t, c, c', pk);
      hide Commit;
      if pk !in Physical(t.version, t.prefix, FreshNodes(f, c, c').Keys) {
        assert pk in Physical(t.version, t.prefix, old');
        var k :| k in old' && pk == BuildKey(t.version, t.prefix, k);
        PhysicalKey(t.version, t.prefix, StaleKeys(f, c, c'), k);
      }
    }
  }

  lemma CommitRenewed(f: TrieFormat, t: Trie, c: Contents, c': Contents)
    requires Renewed(f, t, c)
    ensures Renewed(f, Commit(f, t, c, c'), c')
  {
    var t' := Commit(f, t, c, c');
    assert t'.version == V2 && t'.prefix == t.prefix;
    hide Commit, Physical;
    forall pk | pk in t'.overlay.inserts ensures InSpace(V2, t.prefix, pk) { CommitAt(f, t, c, c', pk); }
    forall k | k in f.nodes(c') ensures Lookup(t'.overlay.inserts, BuildKey(V2, t.prefix, k)) == Some(f.nodes(c')[k]) {
      CommitAt(f, t, c, c', BuildKey(V2, t.prefix, k));
      PhysicalKey(V2, t.prefix, FreshNodes(f, c, c').Keys, k);
      PhysicalKey(V2, t.prefix, StaleKeys(f, c, c'), k);
    }
  }

  lemma SetAllHolds(f: TrieFormat, db: Contents, t: Trie, c: Contents, data: Contents)
    requires LawfulFormat(f) && Holds(f, db, t, c)
    ensures SetAll(f, db, t, data) == Ok(Commit(f, t, c, WithData(f, c, data)))
    ensures Holds(f, db, SetAll(f, db, t, data).value, WithData(f, c, data))
  {
    HoldsLoads(f, db, t, c);
    WithDataStorable(f, c, data);
    hide LawfulFormat, Holds, Storable, Commit, WithData;
    assert Storable(f, WithData(f, c, data));
    CommitHolds(f, db, t, c, WithData(f, c, data));
  }

  lemma RemoveHolds(f: TrieFormat, db: Contents, t: Trie, c: Contents, key: Bytes)
    requires LawfulFormat(f) && Holds(f, db, t, c) && Fits(t.version, t.prefix, c)
    ensures Remove(f, db, t, key).Ok?
    ensures Holds(f, db, Remove(f, db, t, key).value, c - {key})
    ensures Follows(f, t, c, Remove(f, db, t, key).value, c - {key})
  {
    hide LawfulFormat, Holds, Storable, Commit, Fits, Tidy;
    HoldsLoads(f, db, t, c);
    FewerStorable(f, db, t, c, {key});
    if key in c {
      CommitHolds(f, db, t, c, c - {key});
      CommitFollows(f, t, c, c - {key});
    } else {
      assert c - {key} == c;
    }
  }

  lemma FewerStorable(f: TrieFormat, db: Contents, t: Trie, c: Contents, keys: set<Bytes>)
    requires Holds(f, db, t, c)
    ensures Storable(f, c - keys)
    ensures Fits(t.version, t.prefix, c) ==> Fits(t.version, t.prefix, c - keys)
  {
    hide Reads, Disjoint;
  }

  lemma RemoveAllHolds(f: TrieFormat, db: Contents, t: Trie, c: Contents, keys: set<Bytes>)
    requires LawfulFormat(f) && Holds(f, db, t, c)
    ensures RemoveAll(f, db, t, keys) == Commit(f, t, c, c - keys)
    ensures Holds(f, db, RemoveAll(f, db, t, keys), c - keys)
  {
    HoldsLoads(f, db, t, c);
    FewerStorable(f, db, t, c, keys);
    hide LawfulFormat, Holds, Storable, Commit;
    CommitHolds(f, db, t, c, c - keys);
  }

  lemma DeinitHolds(f: TrieFormat, db: Contents, t: Trie)
    requires LawfulFormat(f) && Holds(f, db, t, map[])
    ensures Deinit(f, db, t).Ok? && Holds(f, db, Deinit(f, db, t).value, map[])
    ensures Deinit(f, db, t).value.version == V2 && Deinit(f, db, t).value.prefix == t.prefix
  {
    var empty := f.nodes(map[]);
    HoldsLoads(f, db, t, map[]);
    DeleteAllReads(V1, t.prefix, db, t.overlay, empty.Keys);
    PutAllReads(V2, t.prefix, db, DeleteAll(V1, t.prefix, t.overlay, empty.Keys), empty);
    hide LawfulFormat, Logical, DeleteAll, PutAll, ContentsOf;
  }

  /** What the step does to each key of the overlay: the empty node is deleted under its version 1 key and inserted
      under its version 2 key, and nothing else changes. */
  lemma DeinitAt(f: TrieFormat, db: Contents, t: Trie, pk: Bytes)
    requires LawfulFormat(f) && Holds(f, db, t, map[])
    ensures var o, empty := Deinit(f, db, t).value.overlay, f.nodes(map[]);
            if pk in Physical(V2, t.prefix, empty.Keys)
            then pk !in o.deletes && InSpace(V2, t.prefix, pk) && pk[|Space(V2, t.prefix)|..] in empty
                 && Lookup(o.inserts, pk) == Some(empty[pk[|Space(V2, t.prefix)|..]])
            else if pk in Physical(V1, t.prefix, empty.Keys)
            then pk !in o.inserts && pk in o.deletes
            else Lookup(o.inserts, pk) == Lookup(t.overlay.inserts, pk)
                 && (pk in o.deletes <==> pk in t.overlay.deletes)
  {
    var empty := f.nodes(map[]);
    HoldsLoads(f, db, t, map[]);
    var o := DeleteAll(V1, t.prefix, t.overlay, empty.Keys);
    assert Deinit(f, db, t).value.overlay == PutAll(V2, t.prefix, o, empty);
    PutAllAt(V2, t.prefix, o, empty, pk);
    hide LawfulFormat, Holds, PutAll, Deinit, Physical;
  }

  /** Of a tidy version 1 overlay only deletes are left, and the node of the empty version 2 trie. */
  lemma DeinitRenews(f: TrieFormat, db: Contents, t: Trie)
    requires LawfulFormat(f) && Holds(f, db, t, map[]) && t.version == V1 && Lean(f, t, map[])
    ensures Renewed(f, Deinit(f, db, t).value, map[])
  {
    var empty := f.nodes(map[]);
    HoldsLoads(f, db, t, map[]);
    var o := DeleteAll(V1, t.prefix, t.overlay, empty.Keys);
    var t' := Deinit(f, db, t).value;
    assert t' == Trie(V2, t.prefix, PutAll(V2, t.prefix, o, empty), f.root(map[]));
    assert o.inserts == map[] by {
      assert empty.Keys + empty.Keys == empty.Keys;
      forall pk ensures pk !in o.inserts {
        assert pk in t.overlay.inserts ==> pk in Physical(V1, t.prefix, empty.Keys);
      }
    }
    hide LawfulFormat, Holds, Lean, PutAll, Deinit;
    forall pk | pk in t'.overlay.inserts ensures InSpace(V2, t.prefix, pk) { PutAllAt(V2, t.prefix, o, empty, pk); }
    forall k | k in empty ensures Lookup(t'.overlay.inserts, BuildKey(V2, t.prefix, k)) == Some(empty[k]) {
      PhysicalKey(V2, t.prefix, empty.Keys, k);
      PutAllAt(V2, t.prefix, o, empty, BuildKey(V2, t.prefix, k));
    }
  }

  /** The node of the empty version 1 trie is touched too, and no change is taken back. */
  lemma DeinitTouches(f: TrieFormat, db: Contents, t: Trie)
    requires LawfulFormat(f) && Holds(f, db, t, map[])
    ensures Touched(t.overlay) <= Touched(Deinit(f, db, t).value.overlay)
    ensures forall k | k in f.nodes(map[]) :: BuildKey(V1, t.prefix, k) in Touched(Deinit(f, db, t).value.overlay)
  {
    var empty := f.nodes(map[]);
    HoldsLoads(f, db, t, map[]);
    var o := DeleteAll(V1, t.prefix, t.overlay, empty.Keys);
    var o' := PutAll(V2, t.prefix, o, empty);
    assert Deinit(f, db, t).value.overlay == o';
    assert Touched(t.overlay) <= Touched(o);
    hide LawfulFormat, Holds, PutAll, Deinit, BuildKey;
    forall pk | pk in Touched(o) ensures pk in Touched(o') { PutAllAt(V2, t.prefix, o, empty, pk); }
    forall k | k in empty ensures BuildKey(V1, t.prefix, k) in Touched(o) { PhysicalKey(V1, t.prefix, empty.Keys, k); }
  }

  // ---------- starting again in version 2 ----------

  /** Emptying a trie leaves one that the upgrade accepts. */
  lemma EmptiedUpgrades(f: TrieFormat, db: Contents, t: Trie, c: Contents)
    ensures LawfulFormat(f) && Holds(f, db, t, c) ==>
              var r := Deinit(f, db, RemoveAll(f, db, t, c.Keys));
              && r.Ok? && Holds(f, db, r.value, map[]) && r.value.version == V2 && r.value.prefix == t.prefix
              && (t.version == V1 && Lean(f, t, c) ==> Renewed(f, r.value, map[]))
              && (t.version == V1 ==> Retired(f, t, c, r.value.overlay))
  {
    if LawfulFormat(f) && Holds(f, db, t, c) {
      RemoveAllHolds(f, db, t, c, c.Keys);
      assert c - c.Keys == map[];
      var emptied := RemoveAll(f, db, t, c.Keys);
      assert emptied.version == t.version && emptied.prefix == t.prefix;
      hide Commit, Holds, LawfulFormat, Lean, Renewed, Deinit, RemoveAll, Retired;
      DeinitHolds(f, db, emptied);
      if t.version == V1 { EmptyingRetires(f, db, t, c, emptied); }
      if t.version == V1 && Lean(f, t, c) {
        CommitLean(f, t, c, map[]);
        DeinitRenews(f, db, emptied);
      }
    }
  }

  lemma EmptyingRetires(f: TrieFormat, db: Contents, t: Trie, c: Contents, emptied: Trie)
    requires LawfulFormat(f) && t.version == V1 && emptied == Commit(f, t, c, map[]) && Holds(f, db, emptied, map[])
    ensures Retired(f, t, c, Deinit(f, db, emptied).value.overlay)
  {
    CommitTouches(f, t, c, map[]);
    assert emptied.prefix == t.prefix;
    hide LawfulFormat, Commit, Holds, Deinit, BuildKey;
    DeinitTouches(f, db, emptied);
  }

  /** Emptied, started again as version 2, and filled with `data`: what the upgrades do to a trie. */
  predicate RefilledAs(f: TrieFormat, db: Contents, source: Trie, c: Contents, data: Contents, t: Trie) {
    match Deinit(f, db, RemoveAll(f, db, source, c.Keys))
    case Ok(renewed) => SetAll(f, db, renewed, data) == Ok(t)
    case Err(_) => false
  }

  /** Filling an empty trie. */
  lemma FillsEmpty(f: TrieFormat, db: Contents, t: Trie, data: Contents)
    requires LawfulFormat(f) && Holds(f, db, t, map[]) && Storable(f, data)
    ensures SetAll(f, db, t, data).Ok?
    ensures var t' := SetAll(f, db, t, data).value;
            && Holds(f, db, t', data) && t'.version == t.version && t'.prefix == t.prefix
            && (Renewed(f, t, map[]) ==> Renewed(f, t', data)) && Touched(t.overlay) <= Touched(t'.overlay)
  {
    assert Storable(f, map[]);
    WithDataStorable(f, map[], data);
    SetAllHolds(f, db, t, map[], data);
    CommitTouches(f, t, map[], data);
    hide WithData, LawfulFormat, Holds, Storable, SetAll, Renewed;
    if Renewed(f, t, map[]) { CommitRenewed(f, t, map[], data); }
  }
}
