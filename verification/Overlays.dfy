/** The write overlay over a read-only store: which physical keys it uses and how its changes reach the store. */
module Overlays {
  import opened Bytes

  type Contents = map<Bytes, Bytes>

  datatype Version = V1 | V2

  /** Inserts and deletes by physical key, waiting to be written to the store. */
  datatype Overlay = Overlay(inserts: Contents, deletes: set<Bytes>)

  const NO_CHANGES: Overlay := Overlay(map[], {})

  // ---------- physical keys ----------

  /** What every physical key of a trie starts with; the accounts trie has the empty prefix. */
  function Space(version: Version, prefix: Bytes): Bytes {
    match version
    case V1 => prefix
    case V2 => if prefix == [] then [0] else [1] + prefix
  }

  predicate InSpace(version: Version, prefix: Bytes, pk: Bytes) {
    var s := Space(version, prefix);
    |s| <= |pk| && pk[..|s|] == s
  }

  function BuildKey(version: Version, prefix: Bytes, key: Bytes): (pk: Bytes)
    ensures InSpace(version, prefix, pk) && pk[|Space(version, prefix)|..] == key
  {
    Space(version, prefix) + key
  }

  /** The layout in bytes. */
  lemma Layout(a: Address, key: Bytes)
    ensures BuildKey(V1, [], key) == key && BuildKey(V1, a, key) == a + key
    ensures BuildKey(V2, [], key) == [0] + key && BuildKey(V2, a, key) == [1] + a + key
  {
  }

  /** Key by key, what is read through an overlay and what the two ways of writing leave. */
  lemma WrittenAt(db: Contents, o: Overlay, pk: Bytes)
    ensures Lookup(View(db, o), pk)
         == if pk in o.inserts then Some(o.inserts[pk]) else if pk in o.deletes then None else Lookup(db, pk)
    ensures Lookup(DeletesFirst(db, o), pk) == Lookup(View(db, o), pk)
    ensures Lookup(InsertsFirst(db, o), pk)
         == if pk in o.deletes then None else if pk in o.inserts then Some(o.inserts[pk]) else Lookup(db, pk)
  {
  }

  /** A prefix of a trie: none for accounts, an address for storage. */
  predicate IsPrefix(prefix: Bytes) {
    prefix == [] || |prefix| == 32
  }

  /** In version 2 no physical key belongs to two tries. */
  lemma SpacesApart(p: Bytes, q: Bytes, pk: Bytes)
    requires IsPrefix(p) && IsPrefix(q) && InSpace(V2, p, pk) && InSpace(V2, q, pk)
    ensures p == q
  {
    var s, t := Space(V2, p), Space(V2, q);
    assert pk[0] == pk[..|s|][0] && pk[0] == pk[..|t|][0];
    if p != [] { assert p == s[1..] && q == t[1..]; }
  }

  /** The key of a trie's node is the path to it, `n`, followed by its 32-byte hash. The nodes of two tries, of
      whichever versions, meet in the store exactly if they have the same hash and the same path below the start of
      their keys. */
  lemma NodeKeysMeet(v: Version, p: Bytes, n: Bytes, h: Address, v': Version, q: Bytes, n': Bytes, h': Address)
    ensures BuildKey(v, p, n + h) == BuildKey(v', q, n' + h') <==> Space(v, p) + n == Space(v', q) + n' && h == h'
  {
    var s, t := Space(v, p) + n, Space(v', q) + n';
    assert BuildKey(v, p, n + h) == s + h && BuildKey(v', q, n' + h') == t + h';
    if s + h == t + h' {
      assert |s| == |t|;
      assert (s + h)[..|s|] == s && (t + h')[..|s|] == t && (s + h)[|s|..] == h && (t + h')[|s|..] == h';
    }
  }

  /** In version 1 that takes a node of the accounts trie at or below the address of the storage trie. */
  lemma V1NodesMeet(n: Bytes, h: Address, a: Address, n': Bytes, h': Address)
    ensures BuildKey(V1, [], n + h) == BuildKey(V1, a, n' + h') <==> n == a + n' && h == h'
  {
    NodeKeysMeet(V1, [], n, h, V1, a, n', h');
    assert [] + n == n;
  }

  /** Between versions it takes no more than two accounts: the version 1 node of field `g` of the account
      `1 a[..31]` has the key of the version 2 node for the storage key `g` of `a`, if the last byte of `a` is 1 and the
      two nodes hold the same. */
  lemma OldMeetsNew(a: Address, g: u8, h: Address)
    requires a[31] == 1
    ensures BuildKey(V1, [], ([1] + a[..31] + [1, g]) + h) == BuildKey(V2, a, [g] + h)
  {
    assert a == a[..31] + [a[31]];
    NodeKeysMeet(V1, [], [1] + a[..31] + [1, g], h, V2, a, [g], h);
  }

  // ---------- views ----------

  /** The store as it will be once the changes are written. */
  function View(db: Contents, o: Overlay): Contents {
    (db - o.deletes) + o.inserts
  }

  /** What a trie reads of a store: its own part, by logical key. */
  function Logical(version: Version, prefix: Bytes, db: Contents): Contents {
    var s := Space(version, prefix);
    map key | key in (set pk | pk in db && InSpace(version, prefix, pk) :: pk[|s|..])
        && BuildKey(version, prefix, key) in db
      :: db[BuildKey(version, prefix, key)]
  }

  lemma LogicalAt(version: Version, prefix: Bytes, db: Contents, key: Bytes)
    ensures Lookup(Logical(version, prefix, db), key) == Lookup(db, BuildKey(version, prefix, key))
  {
  }

  lemma LookupsEqual(a: Contents, b: Contents)
    requires forall key :: Lookup(a, key) == Lookup(b, key)
    ensures a == b
  {
    forall k ensures k in a <==> k in b { assert Lookup(a, k) == Lookup(b, k); }
    forall k | k in a ensures a[k] == b[k] { assert Lookup(a, k) == Lookup(b, k); }
  }

  // ---------- changes ----------

  ghost predicate Disjoint(o: Overlay) {
    o.inserts.Keys !! o.deletes
  }

  function WithPut(o: Overlay, pk: Bytes, value: Bytes): Overlay {
    Overlay(o.inserts[pk := value], o.deletes - {pk})
  }

  function WithDelete(o: Overlay, pk: Bytes): Overlay {
    Overlay(o.inserts - {pk}, o.deletes + {pk})
  }

  function InsertsFirst(db: Contents, o: Overlay): Contents {
    (db + o.inserts) - o.deletes
  }

  function DeletesFirst(db: Contents, o: Overlay): Contents {
    (db - o.deletes) + o.inserts
  }

  /** Disjoint changes can be written in either order. */
  lemma OrderDoesNotMatter(db: Contents, o: Overlay)
    requires Disjoint(o)
    ensures InsertsFirst(db, o) == DeletesFirst(db, o)
  {
  }

  /** ... and only those: with a key both inserted and deleted the two orders differ. */
  lemma OverlapMatters(db: Contents, o: Overlay)
    ensures InsertsFirst(db, o) == DeletesFirst(db, o) <==> Disjoint(o)
  {
    if !Disjoint(o) {
      var k :| k in o.inserts && k in o.deletes;
      assert k !in InsertsFirst(db, o) && k in DeletesFirst(db, o);
    }
  }

  /** A put acts on what a trie reads like an update of a plain map. */
  lemma PutRefinesMap(version: Version, prefix: Bytes, db: Contents, o: Overlay, key: Bytes, value: Bytes)
    ensures Logical(version, prefix, View(db, WithPut(o, BuildKey(version, prefix, key), value)))
         == Logical(version, prefix, View(db, o))[key := value]
  {
    hide Logical;
    var pk := BuildKey(version, prefix, key);
    var before, after := Logical(version, prefix, View(db, o)),
        Logical(version, prefix, View(db, WithPut(o, pk, value)));
    forall k ensures Lookup(after, k) == Lookup(before[key := value], k) {
      SameLogicalKey(version, prefix, k, key);
      LogicalAt(version, prefix, View(db, o), k);
      LogicalAt(version, prefix, View(db, WithPut(o, pk, value)), k);
    }
    LookupsEqual(after, before[key := value]);
  }

  /** A delete acts on what a trie reads like a removal from a plain map. */
  lemma DeleteRefinesMap(version: Version, prefix: Bytes, db: Contents, o: Overlay, key: Bytes)
    ensures Logical(version, prefix, View(db, WithDelete(o, BuildKey(version, prefix, key))))
         == Logical(version, prefix, View(db, o)) - {key}
  {
    hide Logical;
    var pk := BuildKey(version, prefix, key);
    var before, after := Logical(version, prefix, View(db, o)), Logical(version, prefix, View(db, WithDelete(o, pk)));
    forall k ensures Lookup(after, k) == Lookup(before - {key}, k) {
      SameLogicalKey(version, prefix, k, key);
      LogicalAt(version, prefix, View(db, o), k);
      LogicalAt(version, prefix, View(db, WithDelete(o, pk)), k);
    }
    LookupsEqual(after, before - {key});
  }

  lemma SameLogicalKey(version: Version, prefix: Bytes, k: Bytes, l: Bytes)
    ensures BuildKey(version, prefix, k) == BuildKey(version, prefix, l) <==> k == l
  {
  }

  // ---------- the database ----------

  class KeyInstrumentedDB {
    const version: Version
    const storage: Contents
    const prefix: Bytes
    var inserts: Contents
    var deletes: set<Bytes>

    constructor (version: Version, storage: Contents, prefix: Bytes)
      ensures this.version == version && this.storage == storage && this.prefix == prefix
      ensures Valid() && State() == NO_CHANGES
    {
      this.version, this.storage, this.prefix := version, storage, prefix;
      inserts, deletes := map[], {};
    }

    function State(): Overlay
      reads this
    {
      Overlay(inserts, deletes)
    }

    ghost predicate Valid()
      reads this
    {
      Disjoint(State())
    }

    /** The plain map that the database stands for, by logical key. */
    function Contains(): Contents
      reads this
    {
      Logical(version, prefix, View(storage, State()))
    }

    method Get(key: Bytes) returns (r: Option<Bytes>)
      ensures r == Lookup(Contains(), key)
    {
      LogicalAt(version, prefix, View(storage, State()), key);
      var searchKey := BuildKey(version, prefix, key);
      if searchKey in inserts {
        return Some(inserts[searchKey]);
      }
      if searchKey in deletes {
        return None;
      }
      if searchKey in storage {
        return Some(storage[searchKey]);
      }
      r := None;
    }

    /** Insert or update; the answer is the value that was waiting to be inserted before. */
    method Put(key: Bytes, value: Bytes) returns (previous: Option<Bytes>)
      modifies this
      ensures Contains() == old(Contains())[key := value]
      ensures State() == WithPut(old(State()), BuildKey(version, prefix, key), value)
      ensures previous == Lookup(old(inserts), BuildKey(version, prefix, key))
      ensures old(Valid()) ==> Valid()
    {
      PutRefinesMap(version, prefix, storage, State(), key, value);
      hide Logical, View, BuildKey;
      var insertKey := BuildKey(version, prefix, key);
      deletes := deletes - {insertKey};
      previous := if insertKey in inserts then Some(inserts[insertKey]) else None;
      inserts := inserts[insertKey := value];
    }

    method Delete(key: Bytes)
      modifies this
      ensures Contains() == old(Contains()) - {key}
      ensures State() == WithDelete(old(State()), BuildKey(version, prefix, key))
      ensures old(Valid()) ==> Valid()
    {
      DeleteRefinesMap(version, prefix, storage, State(), key);
      hide Logical, View, BuildKey;
      var deleteKey := BuildKey(version, prefix, key);
      inserts := inserts - {deleteKey};
      deletes := deletes + {deleteKey};
    }

    /** Hand over the changes and forget them. A store they are written to, in either order, reads as the database
        did. */
    method Close() returns (changes: Overlay)
      modifies this
      ensures changes == old(State()) && State() == NO_CHANGES
      ensures Logical(version, prefix, DeletesFirst(storage, changes)) == old(Contains())
      ensures old(Valid()) ==> InsertsFirst(storage, changes) == DeletesFirst(storage, changes)
      ensures Valid()
    {
      if Valid() { OrderDoesNotMatter(storage, State()); }
      changes := Overlay(inserts, deletes);
      inserts := map[];
      deletes := {};
    }
  }

  // ---------- runs ----------

  datatype Op = Put(key: Bytes, value: Bytes) | Delete(key: Bytes)

  function Step(m: Contents, op: Op): Contents {
    match op
    case Put(k, v) => m[k := v]
    case Delete(k) => m - {k}
  }

  /** The run on a plain map. */
  function Run(m: Contents, ops: seq<Op>): Contents {
    if ops == [] then m else Step(Run(m, ops[..|ops| - 1]), ops[|ops| - 1])
  }

  lemma RunOneMore(m: Contents, ops: seq<Op>, i: nat)
    requires i < |ops|
    ensures Run(m, ops[..i + 1]) == Step(Run(m, ops[..i]), ops[i])
  {
    assert ops[..i + 1][..i] == ops[..i];
  }

  /** Put and delete as told. */
  method Replay(db: KeyInstrumentedDB, ops: seq<Op>)
    requires db.Valid()
    modifies db
    ensures db.Valid() && db.Contains() == Run(old(db.Contains()), ops)
  {
    ghost var m := db.Contains();
    var i := 0;
    assert Run(m, ops[..0]) == m;
    hide *;
    while i < |ops|
      invariant i <= |ops|
      invariant db.Valid() && db.Contains() == Run(m, ops[..i])
    {
      Apply(db, ops[i]);
      RunOneMore(m, ops, i);
      i := i + 1;
    }
    assert ops[..i] == ops;
  }

  method Apply(db: KeyInstrumentedDB, op: Op)
    requires db.Valid()
    modifies db
    ensures db.Valid() && db.Contains() == Step(old(db.Contains()), op)
  {
    match op
    case Put(k, v) => var previous := db.Put(k, v);
    case Delete(k) => db.Delete(k);
  }

  /** Over every run the database answers as the plain map does, inserts and deletes stay disjoint, and the changes it
      hands over turn the store into one that reads as that map. */
  method Execute(db: KeyInstrumentedDB, ops: seq<Op>) returns (changes: Overlay)
    requires db.Valid()
    modifies db
    ensures Disjoint(changes)
    ensures Logical(db.version, db.prefix, DeletesFirst(db.storage, changes)) == Run(old(db.Contains()), ops)
    ensures Logical(db.version, db.prefix, InsertsFirst(db.storage, changes)) == Run(old(db.Contains()), ops)
  {
    hide Logical, View, InsertsFirst, DeletesFirst, Run;
    Replay(db, ops);
    changes := db.Close();
  }
}
