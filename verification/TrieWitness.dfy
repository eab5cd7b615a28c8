/** The laws assumed of the trie libraries can be met: a format with a root node that has all contents, and a leaf for
    every entry that is keyed, as the nodes of the libraries are, by the path to it and the hash of what it holds. */
module TrieWitness {
  import opened Bytes
  import opened Overlays
  import opened Tries

  function Frame(b: Bytes): Bytes {
    if b == [] then [0] else [1, b[0]] + Frame(b[1..])
  }

  /** The framed bytes at the front, and what follows them. */
  function Unframe(b: Bytes): (r: (Bytes, Bytes))
    ensures |r.1| <= |b| && (b != [] ==> |r.1| < |b|)
  {
    if |b| < 2 || b[0] != 1 then ([], if b == [] then [] else b[1..])
    else
      var (head, rest) := Unframe(b[2..]);
      ([b[1]] + head, rest)
  }

  lemma {:induction false} UnframeFrame(b: Bytes, rest: Bytes)
    ensures Unframe(Frame(b) + rest) == (b, rest)
  {
    var e := Frame(b) + rest;
    if b == [] {
      assert e[1..] == rest;
    } else {
      assert e[2..] == Frame(b[1..]) + rest;
      UnframeFrame(b[1..], rest);
      assert b == [b[0]] + b[1..];
    }
  }

  ghost function Encode(c: Contents): Bytes
    decreases |c|
  {
    if c == map[] then [] else
      var k :| k in c;
      Frame(k) + (Frame(c[k]) + Encode(c - {k}))
  }

  function Decode(b: Bytes): Contents
    decreases |b|
  {
    if b == [] then map[] else
      var (k, rest) := Unframe(b);
      var (v, more) := Unframe(rest);
      Decode(more)[k := v]
  }

  lemma {:induction false} DecodeEncode(c: Contents)
    ensures Decode(Encode(c)) == c
    decreases |c|
  {
    if c != map[] {
      var k :| k in c && Encode(c) == Frame(k) + (Frame(c[k]) + Encode(c - {k}));
      UnframeFrame(k, Frame(c[k]) + Encode(c - {k}));
      UnframeFrame(c[k], Encode(c - {k}));
      DecodeEncode(c - {k});
    }
  }

  function Repeat(b: u8): (h: Hash)
    ensures forall i | 0 <= i < 32 :: h[i] == b
  {
    seq(32, _ => b)
  }

  const EMPTY_ROOT: Hash := Repeat(0)
  const OTHER_ROOT: Hash := Repeat(1)

  function LeafKey(hash: Bytes -> Hash, k: Bytes, value: Bytes): (pk: Bytes)
    ensures |pk| == |k| + 32 && pk[..|k|] == k
  {
    k + hash(value)
  }

  function LeafKeys(hash: Bytes -> Hash, c: Contents): set<Bytes> {
    set k | k in c :: LeafKey(hash, k, c[k])
  }

  ghost function Leaves(hash: Bytes -> Hash, c: Contents): Contents {
    map pk | pk in LeafKeys(hash, c) && |pk| >= 32 && pk[..|pk| - 32] in c :: c[pk[..|pk| - 32]]
  }

  /** A root node and a leaf for every entry; no node for the empty contents. */
  ghost function NodesOf(hash: Bytes -> Hash, c: Contents): Contents {
    if c == map[] then map[] else Leaves(hash, c)[OTHER_ROOT := Encode(c)]
  }

  /** Loading goes by the root node and fails if another node is missing. */
  ghost function LoadFrom(hash: Bytes -> Hash, store: Contents, root: Hash): Option<Contents> {
    if root == EMPTY_ROOT then Some(map[])
    else if OTHER_ROOT !in store then None
    else IfComplete(hash, store, Decode(store[OTHER_ROOT]))
  }

  ghost function IfComplete(hash: Bytes -> Hash, store: Contents, c: Contents): Option<Contents> {
    if Includes(store, NodesOf(hash, c)) then Some(c) else None
  }

  ghost function Flat(hash: Bytes -> Hash, keepsEmpty: bool): TrieFormat {
    TrieFormat(
      (c: Contents) => NodesOf(hash, c),
      (c: Contents) => if c == map[] then EMPTY_ROOT else OTHER_ROOT,
      (store: Contents, root: Hash) => LoadFrom(hash, store, root),
      keepsEmpty)
  }

  lemma FlatIsLawful(hash: Bytes -> Hash, keepsEmpty: bool)
    ensures LawfulFormat(Flat(hash, keepsEmpty))
  {
    var f := Flat(hash, keepsEmpty);
    assert EMPTY_ROOT[0] != OTHER_ROOT[0];
    hide Leaves;
    forall store, c | Includes(store, f.nodes(c)) ensures f.load(store, f.root(c)) == Some(c) {
      if c != map[] {
        var root: Bytes := OTHER_ROOT;
        assert Lookup(store, root) == Some(Encode(c));
        DecodeEncode(c);
      }
    }
  }

  lemma LeafIsThere(hash: Bytes -> Hash, c: Contents, k: Bytes)
    requires k in c && k != []
    ensures Lookup(NodesOf(hash, c), LeafKey(hash, k, c[k])) == Some(c[k])
  {
    var pk := LeafKey(hash, k, c[k]);
    assert pk[..|pk| - 32] == k && pk != OTHER_ROOT;
  }

  lemma NodeIsLeaf(hash: Bytes -> Hash, c: Contents, pk: Bytes)
    requires pk in NodesOf(hash, c)
    ensures pk == OTHER_ROOT || (|pk| >= 32 && pk[..|pk| - 32] in c)
  {
  }

  /** The lengths of account keys, and the bytes that set them apart from storage keys, keep the node keys separate. */
  lemma FlatIsSeparate(hash: Bytes -> Hash, keepsEmpty: bool)
    ensures Separate(Flat(hash, keepsEmpty))
  {
    var f := Flat(hash, keepsEmpty);
    forall k, l, a: Address | NodeKey(f, V1, [], k) && NodeKey(f, V1, a, l) ensures k != a + l {
      var c :| Fits(V1, [], c) && k in f.nodes(c);
      var d :| Fits(V1, a, d) && l in f.nodes(d);
      NodeIsLeaf(hash, c, k);
      NodeIsLeaf(hash, d, l);
      hide NodesOf;
      NotTheSame(k, l, a, c, d);
    }
  }

  lemma NotTheSame(k: Bytes, l: Bytes, a: Address, c: Contents, d: Contents)
    requires Fits(V1, [], c) && (k == OTHER_ROOT || (|k| >= 32 && k[..|k| - 32] in c))
    requires Fits(V1, a, d) && (l == OTHER_ROOT || (|l| >= 32 && l[..|l| - 32] in d))
    ensures k != a + l
  {
    if l != [] { assert (a + l)[32] == l[0]; }
  }

  /** The assumptions can be met, with empty values kept or removed. */
  lemma LawfulFormatExists(keepsEmpty: bool)
    ensures exists f :: LawfulFormat(f) && Separate(f) && f.keepsEmpty == keepsEmpty
  {
    var hash := (b: Bytes) => EMPTY_ROOT;
    FlatIsLawful(hash, keepsEmpty);
    FlatIsSeparate(hash, keepsEmpty);
    assert Flat(hash, keepsEmpty).keepsEmpty == keepsEmpty;
  }
}
