/** The cells an indexed map keeps in the store, and what each write does to the sequence they encode.

    Under a domain `d` there are three kinds of cell: the length at `d 0`, the key-to-index table (KI) at
    `d 1 key`, and the index-to-value table (IV) at `d 2 index`, with the index in four little-endian bytes. */
module IndexCells {
  import opened Bytes
  import opened KeyValueStore

  /** How a value is keyed and serialized. */
  datatype Codec<!V> = Codec(key: V -> Bytes, encode: V -> Bytes, decode: Bytes -> Option<V>)

  ghost predicate Lawful<V(!new)>(c: Codec<V>) {
    forall v :: c.decode(c.encode(v)) == Some(v)
  }

  // ---------- layout ----------

  const PREFIX_LEN: u8 := 0
  const PREFIX_KEY_INDEX: u8 := 1
  const PREFIX_INDEX_VALUE: u8 := 2

  function LenKey(d: Bytes): (k: Bytes)
    ensures |k| == |d| + 1 && k[..|d|] == d && k[|d|] == PREFIX_LEN
  {
    d + [PREFIX_LEN]
  }

  function KiKey(d: Bytes, key: Bytes): (k: Bytes)
    ensures |k| == |d| + 1 + |key| && k[..|d|] == d && k[|d|] == PREFIX_KEY_INDEX && k[|d| + 1..] == key
  {
    d + [PREFIX_KEY_INDEX] + key
  }

  function IvKey(d: Bytes, i: u32): (k: Bytes)
    ensures |k| == |d| + 5 && k[..|d|] == d && k[|d|] == PREFIX_INDEX_VALUE && k[|d| + 1..] == Le32(i)
  {
    d + [PREFIX_INDEX_VALUE] + Le32(i)
  }

  /** Every physical key that a map at domain `d` may use. */
  predicate Owned(d: Bytes, k: Bytes) {
    |d| < |k| && k[..|d|] == d && k[|d|] <= PREFIX_INDEX_VALUE
  }

  /** The part of the store that a map at domain `d` never touches. */
  function Outside(m: Cells, d: Bytes): Cells {
    map k | k in m && !Owned(d, k) :: m[k]
  }

  /** The part of the store that a map at domain `d` may use. */
  function Inside(m: Cells, d: Bytes): Cells {
    map k | k in m && Owned(d, k) :: m[k]
  }

  // ---------- writes ----------

  function WithLength(m: Cells, d: Bytes, n: u32): Cells {
    m[LenKey(d) := Le32(n)]
  }

  function WithEntry<V>(c: Codec<V>, m: Cells, d: Bytes, i: u32, v: V): Cells {
    m[KiKey(d, c.key(v)) := Le32(i)][IvKey(d, i) := c.encode(v)]
  }

  function WithoutEntry(m: Cells, d: Bytes, i: u32, key: Bytes): Cells {
    m - {KiKey(d, key)} - {IvKey(d, i)}
  }

  /** The layout in bytes: which keys the cells have, and what is written to them. */
  lemma Layout<V>(c: Codec<V>, m: Cells, d: Bytes, i: u32, v: V, key: Bytes)
    ensures WithLength(m, d, i) == m[d + [0] := Le32(i)]
    ensures WithEntry(c, m, d, i, v) == m[d + [1] + c.key(v) := Le32(i)][d + [2] + Le32(i) := c.encode(v)]
    ensures WithoutEntry(m, d, i, key) == m - {d + [1] + key} - {d + [2] + Le32(i)}
    ensures LenKey(d) == d + [0] && KiKey(d, key) == d + [1] + key && IvKey(d, i) == d + [2] + Le32(i)
  {
  }

  /** What reading the cells gives: nothing or 0 for an absent one, else what was written. */
  lemma ReadBack<V>(c: Codec<V>, m: Cells, d: Bytes, i: u32, v: V, key: Bytes)
    requires c.decode(c.encode(v)) == Some(v)
    ensures d + [0] !in m ==> LengthReadable(m, d) && LengthOf(m, d) == 0
    ensures Lookup(m, d + [0]) == Some(Le32(i)) ==> LengthReadable(m, d) && LengthOf(m, d) == i
    ensures d + [1] + key !in m ==> IndexReadable(m, d, key) && IndexOf(m, d, key) == None
    ensures Lookup(m, d + [1] + key) == Some(Le32(i)) ==> IndexReadable(m, d, key) && IndexOf(m, d, key) == Some(i)
    ensures d + [2] + Le32(i) !in m ==> ValueAt(c, m, d, i) == None
    ensures Lookup(m, d + [2] + Le32(i)) == Some(c.encode(v)) ==> ValueAt(c, m, d, i) == Some(v)
  {
    Layout(c, m, d, i, v, key);
    hide LenKey, KiKey, IvKey;
  }

  // ---------- what the cells encode ----------

  predicate ValidIndex<V>(c: Codec<V>, s: seq<V>, bytes: Bytes, key: Bytes) {
    |bytes| == 4 && FromLe32(bytes) < |s| && c.key(s[FromLe32(bytes)]) == key
  }

  predicate ValueCell<V>(c: Codec<V>, m: Cells, d: Bytes, i: u32, v: V) {
    Lookup(m, IvKey(d, i)) == Some(c.encode(v))
  }

  predicate IndexCell<V>(c: Codec<V>, m: Cells, d: Bytes, s: seq<V>, key: Bytes) {
    KiKey(d, key) in m && ValidIndex(c, s, m[KiKey(d, key)], key)
  }

  predicate LengthReadable(m: Cells, d: Bytes) {
    LenKey(d) in m ==> |m[LenKey(d)]| == 4
  }

  /** The length an absent cell stands for is 0. */
  function LengthOf(m: Cells, d: Bytes): u32
    requires LengthReadable(m, d)
  {
    if LenKey(d) in m then FromLe32(m[LenKey(d)]) else 0
  }

  predicate LengthCell(m: Cells, d: Bytes, n: nat) {
    LengthReadable(m, d) && LengthOf(m, d) == n
  }

  /** The cells below the length encode `s`: IV holds its values in order and KI leads every key of `s` to a
      position of `s` with that key. Nothing is said of other cells, so stale entries are allowed. */
  ghost predicate Linked<V>(c: Codec<V>, m: Cells, d: Bytes, s: seq<V>) {
    && LengthCell(m, d, |s|)
    && (forall i: nat | i < |s| :: ValueCell(c, m, d, i, s[i]))
    && (forall i: nat | i < |s| :: IndexCell(c, m, d, s, c.key(s[i])))
  }

  /** The shapes a key under `d` can have: the length cell, a KI cell, or an IV cell with a four-byte index. */
  predicate WellShaped(d: Bytes, k: Bytes)
    requires Owned(d, k)
  {
    (k[|d|] == PREFIX_LEN ==> |k| == |d| + 1) && (k[|d|] == PREFIX_INDEX_VALUE ==> |k| == |d| + 5)
  }

  /** No stale and no malformed cell lies under `d`. */
  ghost predicate Tight<V>(c: Codec<V>, m: Cells, d: Bytes, s: seq<V>) {
    && (forall k | k in m && Owned(d, k) :: WellShaped(d, k))
    && (forall key | KiKey(d, key) in m :: IndexCell(c, m, d, s, key))
    && (forall i: u32 | IvKey(d, i) in m :: i < |s|)
  }

  /** The cells under `d` are exactly an encoding of `s`. */
  ghost predicate Stored<V>(c: Codec<V>, m: Cells, d: Bytes, s: seq<V>) {
    Linked(c, m, d, s) && Tight(c, m, d, s)
  }

  predicate DistinctKeys<V>(c: Codec<V>, s: seq<V>) {
    forall i: nat, j: nat | i < |s| && j < |s| && c.key(s[i]) == c.key(s[j]) :: i == j
  }

  predicate HasKey<V>(c: Codec<V>, s: seq<V>, key: Bytes) {
    exists i: nat :: i < |s| && c.key(s[i]) == key
  }

  /** A position of a key; the only one when keys are distinct. */
  ghost function Position<V>(c: Codec<V>, s: seq<V>, key: Bytes): (i: nat)
    requires HasKey(c, s, key)
    ensures i < |s| && c.key(s[i]) == key
  {
    var i: nat :| i < |s| && c.key(s[i]) == key; i
  }

  // ---------- reading ----------

  /** `IV[i]`; a reader panics on bytes that do not decode. */
  ghost predicate ValueReadable<V>(c: Codec<V>, m: Cells, d: Bytes, i: u32) {
    IvKey(d, i) in m ==> c.decode(m[IvKey(d, i)]).Some?
  }

  function ValueAt<V>(c: Codec<V>, m: Cells, d: Bytes, i: u32): Option<V> {
    if IvKey(d, i) in m then c.decode(m[IvKey(d, i)]) else None
  }

  /** `KI[key]`; a reader panics on bytes that are not an index. */
  predicate IndexReadable(m: Cells, d: Bytes, key: Bytes) {
    KiKey(d, key) in m ==> |m[KiKey(d, key)]| == 4
  }

  function IndexOf(m: Cells, d: Bytes, key: Bytes): Option<u32>
    requires IndexReadable(m, d, key)
  {
    if KiKey(d, key) in m then Some(FromLe32(m[KiKey(d, key)])) else None
  }

  /** The bytes determine the sequence they encode. */
  lemma LinkedUnique<V(!new)>(c: Codec<V>, m: Cells, d: Bytes, s: seq<V>, t: seq<V>)
    requires Lawful(c) && Linked(c, m, d, s) && Linked(c, m, d, t)
    ensures s == t
  {
    assert |s| == |t| by {
      if LenKey(d) in m { assert FromLe32(Le32(|s|)) == FromLe32(Le32(|t|)); }
    }
    forall i: nat | i < |s| ensures s[i] == t[i] {
      assert ValueCell(c, m, d, i, s[i]) && ValueCell(c, m, d, i, t[i]);
      assert c.decode(c.encode(s[i])) == c.decode(c.encode(t[i]));
    }
  }

  /** With distinct keys KI and IV are mutually inverse below the length, and KI answers for the keys of `s`
      and for no others. */
  lemma MutuallyInverse<V>(c: Codec<V>, m: Cells, d: Bytes, s: seq<V>)
    requires Stored(c, m, d, s) && DistinctKeys(c, s)
    ensures forall i: nat | i < |s| :: Lookup(m, KiKey(d, c.key(s[i]))) == Some(Le32(i))
    ensures forall key :: KiKey(d, key) in m <==> HasKey(c, s, key)
  {
    forall i: nat | i < |s| ensures Lookup(m, KiKey(d, c.key(s[i]))) == Some(Le32(i)) {
      assert IndexCell(c, m, d, s, c.key(s[i]));
      Le32Onto(m[KiKey(d, c.key(s[i]))]);
    }
    forall key ensures KiKey(d, key) in m <==> HasKey(c, s, key) {
      assert KiKey(d, key) in m ==> IndexCell(c, m, d, s, key);
    }
  }

  /** A well-shaped key is the length, KI or IV key that its prefix byte announces. */
  lemma ShapeOf(d: Bytes, k: Bytes)
    requires Owned(d, k) && WellShaped(d, k)
    ensures k[|d|] == PREFIX_LEN ==> k == LenKey(d)
    ensures k[|d|] == PREFIX_KEY_INDEX ==> k == KiKey(d, k[|d| + 1..])
    ensures k[|d|] == PREFIX_INDEX_VALUE ==> k == IvKey(d, FromLe32(k[|d| + 1..]))
  {
    assert k == k[..|d|] + [k[|d|]] + k[|d| + 1..];
    if k[|d|] == PREFIX_INDEX_VALUE { Le32Onto(k[|d| + 1..]); }
  }

  // ---------- what the writes do ----------

  /** Writing an entry changes one KI and one IV cell. */
  ghost predicate EntryWritten<V>(c: Codec<V>, m: Cells, m': Cells, d: Bytes, i: u32, v: V) {
    && Lookup(m', LenKey(d)) == Lookup(m, LenKey(d))
    && (forall j: u32 :: Lookup(m', IvKey(d, j)) == if j == i then Some(c.encode(v)) else Lookup(m, IvKey(d, j)))
    && (forall key :: Lookup(m', KiKey(d, key)) == if key == c.key(v) then Some(Le32(i)) else Lookup(m, KiKey(d, key)))
    && NewAreShaped(m, m', d)
  }

  /** Deleting an entry removes one KI and one IV cell. */
  ghost predicate EntryDeleted(m: Cells, m': Cells, d: Bytes, i: u32, key: Bytes) {
    && Lookup(m', LenKey(d)) == Lookup(m, LenKey(d))
    && (forall j: u32 :: Lookup(m', IvKey(d, j)) == if j == i then None else Lookup(m, IvKey(d, j)))
    && (forall k :: Lookup(m', KiKey(d, k)) == if k == key then None else Lookup(m, KiKey(d, k)))
    && NewAreShaped(m, m', d)
  }

  ghost predicate LengthWritten(m: Cells, m': Cells, d: Bytes, n: u32) {
    && Lookup(m', LenKey(d)) == Some(Le32(n))
    && (forall j: u32 :: Lookup(m', IvKey(d, j)) == Lookup(m, IvKey(d, j)))
    && (forall key :: Lookup(m', KiKey(d, key)) == Lookup(m, KiKey(d, key)))
    && NewAreShaped(m, m', d)
  }

  ghost predicate NewAreShaped(m: Cells, m': Cells, d: Bytes) {
    forall k | k in m' && Owned(d, k) && !WellShaped(d, k) :: k in m
  }

  lemma WritesEntry<V>(c: Codec<V>, m: Cells, d: Bytes, i: u32, v: V)
    ensures EntryWritten(c, m, WithEntry(c, m, d, i, v), d, i, v)
  {
    KeysDiffer(d, i, c.key(v));
    forall j: u32 ensures IvKey(d, j) == IvKey(d, i) <==> j == i { SameIndexKey(d, i, j); }
    forall key ensures KiKey(d, key) == KiKey(d, c.key(v)) <==> key == c.key(v) { SameKeyKey(d, key, c.key(v)); }
    forall j: u32 ensures IvKey(d, j) != KiKey(d, c.key(v)) { KeysDiffer(d, j, c.key(v)); }
    forall key ensures KiKey(d, key) != IvKey(d, i) { KeysDiffer(d, i, key); }
    hide IvKey, KiKey, LenKey;
  }

  lemma DeletesEntry(m: Cells, d: Bytes, i: u32, key: Bytes)
    ensures EntryDeleted(m, WithoutEntry(m, d, i, key), d, i, key)
  {
    KeysDiffer(d, i, key);
    forall j: u32 ensures IvKey(d, j) == IvKey(d, i) <==> j == i { SameIndexKey(d, i, j); }
    forall k ensures KiKey(d, k) == KiKey(d, key) <==> k == key { SameKeyKey(d, k, key); }
    forall j: u32 ensures IvKey(d, j) != KiKey(d, key) { KeysDiffer(d, j, key); }
    forall k ensures KiKey(d, k) != IvKey(d, i) { KeysDiffer(d, i, k); }
    hide IvKey, KiKey, LenKey;
  }

  lemma WritesLength(m: Cells, d: Bytes, n: u32)
    ensures LengthWritten(m, WithLength(m, d, n), d, n)
  {
    forall j: u32 ensures IvKey(d, j) != LenKey(d) { KeysDiffer(d, j, []); }
    forall key ensures KiKey(d, key) != LenKey(d) { KeysDiffer(d, 0, key); }
    hide IvKey, KiKey, LenKey;
  }

  /** The three kinds of keys differ by their prefix byte. */
  lemma KeysDiffer(d: Bytes, i: u32, key: Bytes)
    ensures LenKey(d) != KiKey(d, key) && LenKey(d) != IvKey(d, i) && KiKey(d, key) != IvKey(d, i)
  {
    assert LenKey(d)[|d|] == PREFIX_LEN && KiKey(d, key)[|d|] == PREFIX_KEY_INDEX
        && IvKey(d, i)[|d|] == PREFIX_INDEX_VALUE;
  }

  lemma SameIndexKey(d: Bytes, i: u32, j: u32)
    ensures IvKey(d, i) == IvKey(d, j) <==> i == j
  {
    assert FromLe32(IvKey(d, i)[|d| + 1..]) == i && FromLe32(IvKey(d, j)[|d| + 1..]) == j;
  }

  lemma SameKeyKey(d: Bytes, k: Bytes, l: Bytes)
    ensures KiKey(d, k) == KiKey(d, l) <==> k == l
  {
    assert KiKey(d, k)[|d| + 1..] == k && KiKey(d, l)[|d| + 1..] == l;
  }

  lemma LengthIs(m: Cells, d: Bytes, n: u32)
    requires Lookup(m, LenKey(d)) == Some(Le32(n))
    ensures LengthCell(m, d, n)
  {
  }

  /** Append: write the entry at the old length, then the new length. A key already present is re-pointed. */
  lemma AppendEntry<V>(c: Codec<V>, m: Cells, d: Bytes, s: seq<V>, v: V)
    requires Linked(c, m, d, s) && |s| + 1 < TWO_32
    ensures var m' := WithLength(WithEntry(c, m, d, |s|, v), d, |s| + 1);
            Linked(c, m', d, s + [v]) && (Tight(c, m, d, s) ==> Tight(c, m', d, s + [v]))
  {
    var m1 := WithEntry(c, m, d, |s|, v);
    var m2 := WithLength(m1, d, |s| + 1);
    WritesEntry(c, m, d, |s|, v);
    WritesLength(m1, d, |s| + 1);
    LengthIs(m2, d, |s| + 1);
    hide WithEntry, WithLength, LenKey, KiKey, IvKey, LengthCell, Owned, WellShaped;
    AppendLinks(c, m, m1, m2, d, s, v);
    if Tight(c, m, d, s) { AppendTight(c, m, m1, m2, d, s, v); }
  }

  lemma AppendLinks<V>(c: Codec<V>, m: Cells, m1: Cells, m2: Cells, d: Bytes, s: seq<V>, v: V)
    requires Linked(c, m, d, s) && |s| + 1 < TWO_32
    requires EntryWritten(c, m, m1, d, |s|, v) && LengthWritten(m1, m2, d, |s| + 1) && LengthCell(m2, d, |s| + 1)
    ensures Linked(c, m2, d, s + [v])
  {
    hide LenKey, KiKey, IvKey, LengthCell, NewAreShaped;
    var t := s + [v];
    forall i: nat | i < |t| ensures ValueCell(c, m2, d, i, t[i]) {
      assert i < |s| ==> ValueCell(c, m, d, i, s[i]);
    }
    forall i: nat | i < |t| ensures IndexCell(c, m2, d, t, c.key(t[i])) {
      if i < |s| { assert IndexCell(c, m, d, s, c.key(s[i])); }
      AppendIndexes(c, m, m1, m2, d, s, v, c.key(t[i]));
    }
  }

  /** A key that leads to a position of `s`, or is the appended one, leads to a position of the longer sequence. */
  lemma AppendIndexes<V>(c: Codec<V>, m: Cells, m1: Cells, m2: Cells, d: Bytes, s: seq<V>, v: V, key: Bytes)
    requires |s| + 1 < TWO_32 && EntryWritten(c, m, m1, d, |s|, v) && LengthWritten(m1, m2, d, |s| + 1)
    requires key == c.key(v) || IndexCell(c, m, d, s, key)
    ensures IndexCell(c, m2, d, s + [v], key)
  {
    hide LenKey, KiKey, IvKey, NewAreShaped;
    assert Lookup(m2, KiKey(d, key)) == if key == c.key(v) then Some(Le32(|s|)) else Lookup(m, KiKey(d, key));
  }

  lemma AppendTight<V>(c: Codec<V>, m: Cells, m1: Cells, m2: Cells, d: Bytes, s: seq<V>, v: V)
    requires |s| + 1 < TWO_32 && Tight(c, m, d, s)
    requires EntryWritten(c, m, m1, d, |s|, v) && LengthWritten(m1, m2, d, |s| + 1)
    ensures Tight(c, m2, d, s + [v])
  {
    hide LenKey, KiKey, IvKey, IndexCell, Owned, WellShaped;
    forall key | KiKey(d, key) in m2 ensures IndexCell(c, m2, d, s + [v], key) {
      assert Lookup(m2, KiKey(d, key)) == if key == c.key(v) then Some(Le32(|s|)) else Lookup(m, KiKey(d, key));
      AppendIndexes(c, m, m1, m2, d, s, v, key);
    }
    forall i: u32 | IvKey(d, i) in m2 ensures i < |s| + 1 {
      assert Lookup(m2, IvKey(d, i)) == if i == |s| then Some(c.encode(v)) else Lookup(m, IvKey(d, i));
    }
  }

  /** One step of refilling a cleared map, whose length cell is only written at the end. */
  lemma AppendNext<V>(c: Codec<V>, m: Cells, d: Bytes, values: seq<V>, i: nat)
    requires i < |values| < TWO_32 && Stored(c, WithLength(m, d, i), d, values[..i])
    ensures Stored(c, WithLength(WithEntry(c, m, d, i, values[i]), d, i + 1), d, values[..i + 1])
  {
    hide *;
    assert values[..i] + [values[i]] == values[..i + 1];
    LengthLast(c, m, d, i, values[i]);
    AppendStored(c, WithLength(m, d, i), d, values[..i], values[i]);
  }

  lemma AppendStored<V>(c: Codec<V>, m: Cells, d: Bytes, s: seq<V>, v: V)
    requires Stored(c, m, d, s) && |s| + 1 < TWO_32
    ensures Stored(c, WithLength(WithEntry(c, m, d, |s|, v), d, |s| + 1), d, s + [v])
  {
    hide Linked, Tight, WithLength, WithEntry;
    AppendEntry(c, m, d, s, v);
  }

  /** The length that is overwritten does not matter. */
  lemma LengthLast<V>(c: Codec<V>, m: Cells, d: Bytes, i: u32, v: V)
    requires i + 1 < TWO_32
    ensures WithLength(WithEntry(c, WithLength(m, d, i), d, i, v), d, i + 1)
            == WithLength(WithEntry(c, m, d, i, v), d, i + 1)
  {
    KeysDiffer(d, i, c.key(v));
    hide LenKey, KiKey, IvKey;
  }

  /** Overwrite entry `i` with a value of the same key. */
  lemma OverwriteEntry<V>(c: Codec<V>, m: Cells, d: Bytes, s: seq<V>, i: nat, v: V)
    requires Stored(c, m, d, s) && i < |s| && c.key(v) == c.key(s[i])
    ensures Stored(c, WithEntry(c, m, d, i, v), d, s[i := v])
  {
    LengthFits(c, m, d, s);
    var m' := WithEntry(c, m, d, i, v);
    WritesEntry(c, m, d, i, v);
    hide WithEntry, LenKey, KiKey, IvKey, Owned, WellShaped;
    assert LengthCell(m', d, |s|);
    hide LengthCell;
    forall key | key == c.key(v) || IndexCell(c, m, d, s, key) ensures IndexCell(c, m', d, s[i := v], key) {
      assert Lookup(m', KiKey(d, key)) == if key == c.key(v) then Some(Le32(i)) else Lookup(m, KiKey(d, key));
    }
    hide IndexCell;
    OverwriteRest(c, m, m', d, s, i, v);
  }

  lemma OverwriteRest<V>(c: Codec<V>, m: Cells, m': Cells, d: Bytes, s: seq<V>, i: nat, v: V)
    requires Stored(c, m, d, s) && i < |s| < TWO_32 && c.key(v) == c.key(s[i])
    requires EntryWritten(c, m, m', d, i, v) && LengthCell(m', d, |s|)
    requires forall key | key == c.key(v) || IndexCell(c, m, d, s, key) :: IndexCell(c, m', d, s[i := v], key)
    ensures Stored(c, m', d, s[i := v])
  {
    hide LenKey, KiKey, IvKey, LengthCell, IndexCell, Owned, WellShaped;
    var t := s[i := v];
    forall q: nat | q < |t| ensures ValueCell(c, m', d, q, t[q]) { assert ValueCell(c, m, d, q, s[q]); }
    forall q: nat | q < |t| ensures IndexCell(c, m', d, t, c.key(t[q])) { assert IndexCell(c, m, d, s, c.key(s[q])); }
    forall key | KiKey(d, key) in m' ensures IndexCell(c, m', d, t, key) {
      assert Lookup(m', KiKey(d, key)) == if key == c.key(v) then Some(Le32(i)) else Lookup(m, KiKey(d, key));
    }
    forall q: u32 | IvKey(d, q) in m' ensures q < |t| {
      assert Lookup(m', IvKey(d, q)) == if q == i then Some(c.encode(v)) else Lookup(m, IvKey(d, q));
    }
  }

  /** No cell under the domain is the encoding of nothing. */
  lemma NothingStored<V>(c: Codec<V>, m: Cells, d: Bytes)
    requires forall k | k in m :: !Owned(d, k)
    ensures Stored(c, m, d, [])
  {
    forall key ensures KiKey(d, key) !in m {}
    forall i: u32 ensures IvKey(d, i) !in m {}
  }

  lemma LengthFits<V>(c: Codec<V>, m: Cells, d: Bytes, s: seq<V>)
    requires Stored(c, m, d, s)
    ensures |s| < TWO_32
  {
    hide Tight;
  }

  /** Write each of two entries where the other was. */
  lemma SwapEntries<V>(c: Codec<V>, m: Cells, d: Bytes, s: seq<V>, i: nat, j: nat)
    requires Stored(c, m, d, s) && i < |s| && j < |s|
    ensures Stored(c, WithEntry(c, WithEntry(c, m, d, i, s[j]), d, j, s[i]), d, s[i := s[j]][j := s[i]])
  {
    LengthFits(c, m, d, s);
    var m1 := WithEntry(c, m, d, i, s[j]);
    var m2 := WithEntry(c, m1, d, j, s[i]);
    WritesEntry(c, m, d, i, s[j]);
    WritesEntry(c, m1, d, j, s[i]);
    hide WithEntry, LenKey, KiKey, IvKey, Owned, WellShaped;
    assert LengthCell(m2, d, |s|);
    hide LengthCell;
    SwapLinks(c, m, m1, m2, d, s, i, j);
    SwapTight(c, m, m1, m2, d, s, i, j);
  }

  lemma SwapLinks<V>(c: Codec<V>, m: Cells, m1: Cells, m2: Cells, d: Bytes, s: seq<V>, i: nat, j: nat)
    requires Linked(c, m, d, s) && i < |s| < TWO_32 && j < |s| && LengthCell(m2, d, |s|)
    requires EntryWritten(c, m, m1, d, i, s[j]) && EntryWritten(c, m1, m2, d, j, s[i])
    ensures Linked(c, m2, d, s[i := s[j]][j := s[i]])
  {
    hide LenKey, KiKey, IvKey, LengthCell, NewAreShaped;
    var t := s[i := s[j]][j := s[i]];
    forall q: nat | q < |t| ensures ValueCell(c, m2, d, q, t[q]) { assert ValueCell(c, m, d, q, s[q]); }
    forall q: nat | q < |t| ensures IndexCell(c, m2, d, t, c.key(t[q])) {
      var from := if q == i then j else if q == j then i else q;
      assert t[q] == s[from] && IndexCell(c, m, d, s, c.key(s[from]));
      SwapIndexes(c, m, m1, m2, d, s, i, j, c.key(t[q]));
    }
  }

  lemma SwapIndexes<V>(c: Codec<V>, m: Cells, m1: Cells, m2: Cells, d: Bytes, s: seq<V>, i: nat, j: nat, key: Bytes)
    requires i < |s| < TWO_32 && j < |s| && EntryWritten(c, m, m1, d, i, s[j]) && EntryWritten(c, m1, m2, d, j, s[i])
    requires IndexCell(c, m, d, s, key)
    ensures IndexCell(c, m2, d, s[i := s[j]][j := s[i]], key)
  {
    hide LenKey, KiKey, IvKey, NewAreShaped;
    assert Lookup(m2, KiKey(d, key)) == if key == c.key(s[i]) then Some(Le32(j))
                                        else if key == c.key(s[j]) then Some(Le32(i)) else Lookup(m, KiKey(d, key));
  }

  lemma SwapTight<V>(c: Codec<V>, m: Cells, m1: Cells, m2: Cells, d: Bytes, s: seq<V>, i: nat, j: nat)
    requires Stored(c, m, d, s) && i < |s| < TWO_32 && j < |s|
    requires EntryWritten(c, m, m1, d, i, s[j]) && EntryWritten(c, m1, m2, d, j, s[i])
    ensures Tight(c, m2, d, s[i := s[j]][j := s[i]])
  {
    hide LenKey, KiKey, IvKey, IndexCell, Owned, WellShaped, LengthCell, ValueCell;
    var t := s[i := s[j]][j := s[i]];
    assert IndexCell(c, m, d, s, c.key(s[i])) && IndexCell(c, m, d, s, c.key(s[j]));
    forall key | KiKey(d, key) in m2 ensures IndexCell(c, m2, d, t, key) {
      assert Lookup(m2, KiKey(d, key)) == if key == c.key(s[i]) then Some(Le32(j))
                                          else if key == c.key(s[j]) then Some(Le32(i)) else Lookup(m, KiKey(d, key));
      SwapIndexes(c, m, m1, m2, d, s, i, j, key);
    }
    forall q: u32 | IvKey(d, q) in m2 ensures q < |t| {
      assert q == i || q == j || Lookup(m2, IvKey(d, q)) == Lookup(m, IvKey(d, q));
    }
  }

  /** Delete the last entry and shorten the length; `extract` writes the two the other way round. */
  lemma DropLast<V>(c: Codec<V>, m: Cells, d: Bytes, s: seq<V>)
    requires Stored(c, m, d, s) && DistinctKeys(c, s) && s != []
    ensures var last := |s| - 1;
            Stored(c, WithLength(WithoutEntry(m, d, last, c.key(s[last])), d, last), d, s[..last])
  {
    LengthFits(c, m, d, s);
    var last := |s| - 1;
    var m1 := WithoutEntry(m, d, last, c.key(s[last]));
    var m2 := WithLength(m1, d, last);
    DeletesEntry(m, d, last, c.key(s[last]));
    WritesLength(m1, d, last);
    LengthIs(m2, d, last);
    hide WithoutEntry, WithLength, LenKey, KiKey, IvKey, Owned, WellShaped, LengthCell;
    DropLinks(c, m, m1, m2, d, s);
    DropTight(c, m, m1, m2, d, s);
  }

  /** Writing the length before or after deleting an entry comes to the same. */
  lemma LengthFirst(m: Cells, d: Bytes, n: u32, i: u32, key: Bytes)
    ensures WithoutEntry(WithLength(m, d, n), d, i, key) == WithLength(WithoutEntry(m, d, i, key), d, n)
    ensures LenKey(d) in WithoutEntry(WithLength(m, d, n), d, i, key)
  {
    KeysDiffer(d, i, key);
    hide LenKey, KiKey, IvKey;
  }

  lemma DropLinks<V>(c: Codec<V>, m: Cells, m1: Cells, m2: Cells, d: Bytes, s: seq<V>)
    requires Linked(c, m, d, s) && DistinctKeys(c, s) && 0 < |s| < TWO_32 && LengthCell(m2, d, |s| - 1)
    requires EntryDeleted(m, m1, d, |s| - 1, c.key(s[|s| - 1])) && LengthWritten(m1, m2, d, |s| - 1)
    ensures Linked(c, m2, d, s[..|s| - 1])
  {
    hide LenKey, KiKey, IvKey, LengthCell, NewAreShaped;
    var t := s[..|s| - 1];
    forall q: nat | q < |t| ensures ValueCell(c, m2, d, q, t[q]) { assert ValueCell(c, m, d, q, s[q]); }
    forall q: nat | q < |t| ensures IndexCell(c, m2, d, t, c.key(t[q])) {
      assert IndexCell(c, m, d, s, c.key(s[q]));
      DropIndexes(c, m, m1, m2, d, s, c.key(s[q]));
    }
  }

  lemma DropIndexes<V>(c: Codec<V>, m: Cells, m1: Cells, m2: Cells, d: Bytes, s: seq<V>, key: Bytes)
    requires 0 < |s| < TWO_32 && key != c.key(s[|s| - 1]) && IndexCell(c, m, d, s, key)
    requires EntryDeleted(m, m1, d, |s| - 1, c.key(s[|s| - 1])) && LengthWritten(m1, m2, d, |s| - 1)
    ensures IndexCell(c, m2, d, s[..|s| - 1], key)
  {
    hide LenKey, KiKey, IvKey, NewAreShaped;
    assert Lookup(m2, KiKey(d, key)) == Lookup(m, KiKey(d, key));
  }

  lemma DropTight<V>(c: Codec<V>, m: Cells, m1: Cells, m2: Cells, d: Bytes, s: seq<V>)
    requires Tight(c, m, d, s) && 0 < |s| < TWO_32
    requires EntryDeleted(m, m1, d, |s| - 1, c.key(s[|s| - 1])) && LengthWritten(m1, m2, d, |s| - 1)
    ensures Tight(c, m2, d, s[..|s| - 1])
  {
    hide LenKey, KiKey, IvKey, IndexCell, Owned, WellShaped;
    forall key | KiKey(d, key) in m2 ensures IndexCell(c, m2, d, s[..|s| - 1], key) {
      assert Lookup(m2, KiKey(d, key)) == if key == c.key(s[|s| - 1]) then None else Lookup(m, KiKey(d, key));
      DropIndexes(c, m, m1, m2, d, s, key);
    }
    forall q: u32 | IvKey(d, q) in m2 ensures q < |s| - 1 {
      assert Lookup(m2, IvKey(d, q)) == if q == |s| - 1 then None else Lookup(m, IvKey(d, q));
    }
  }

  lemma SwapKeepsDistinct<V>(c: Codec<V>, s: seq<V>, i: nat, j: nat)
    requires DistinctKeys(c, s) && i < |s| && j < |s|
    ensures DistinctKeys(c, s[i := s[j]][j := s[i]])
  {
  }

  lemma PrefixKeepsDistinct<V>(c: Codec<V>, s: seq<V>, n: nat)
    requires DistinctKeys(c, s) && n <= |s|
    ensures DistinctKeys(c, s[..n])
  {
  }

  lemma AppendKeepsDistinct<V>(c: Codec<V>, s: seq<V>, v: V)
    requires DistinctKeys(c, s) && !HasKey(c, s, c.key(v))
    ensures DistinctKeys(c, s + [v])
  {
  }

  lemma OverwriteKeepsDistinct<V>(c: Codec<V>, s: seq<V>, i: nat, v: V)
    requires DistinctKeys(c, s) && i < |s| && c.key(v) == c.key(s[i])
    ensures DistinctKeys(c, s[i := v])
  {
  }

  /** With distinct keys every entry occurs once. */
  lemma DistinctOccurOnce<V>(c: Codec<V>, s: seq<V>, i: nat)
    requires DistinctKeys(c, s) && i < |s|
    ensures multiset(s)[s[i]] == 1
  {
    var rest := s[..i] + s[i + 1..];
    assert s == s[..i] + ([s[i]] + s[i + 1..]);
    forall j: nat | j < |rest| ensures rest[j] != s[i] {
      var k := if j < i then j else j + 1;
      assert rest[j] == s[k];
    }
    assert s[i] !in rest;
    assert multiset(s) == multiset(rest) + multiset{s[i]};
  }

  /** The writes of `replace`: `v`, the value at `last`, moves to position `i` over the value keyed `key`. */
  function Replaced<V>(c: Codec<V>, m: Cells, d: Bytes, i: u32, key: Bytes, last: u32, v: V): Cells {
    WithEntry(c, m - {IvKey(d, last)} - {KiKey(d, key)}, d, i, v)
  }

  /** `replace` leaves the cells that swapping the two entries and then deleting the later one would. */
  lemma ReplaceIsSwapAndDrop<V>(c: Codec<V>, m: Cells, d: Bytes, i: u32, u: V, last: u32, v: V)
    requires i != last && c.key(u) != c.key(v)
    ensures Replaced(c, m, d, i, c.key(u), last, v)
         == WithoutEntry(WithEntry(c, WithEntry(c, m, d, i, v), d, last, u), d, last, c.key(u))
  {
    KeysDiffer(d, i, c.key(v));
    KeysDiffer(d, last, c.key(u));
    KeysDiffer(d, i, c.key(u));
    KeysDiffer(d, last, c.key(v));
    SameIndexKey(d, i, last);
    SameKeyKey(d, c.key(u), c.key(v));
    hide LenKey, KiKey, IvKey;
    FourCells(m, IvKey(d, i), KiKey(d, c.key(u)), IvKey(d, last), KiKey(d, c.key(v)), c, u, v, Le32(i), Le32(last));
  }

  lemma FourCells<V>(m: Cells, iv: Bytes, ki: Bytes, lastIv: Bytes, lastKi: Bytes, c: Codec<V>, u: V, v: V, i: Bytes,
                     last: Bytes)
    requires iv != ki && iv != lastIv && iv != lastKi && ki != lastIv && ki != lastKi && lastIv != lastKi
    ensures (m - {lastIv} - {ki})[lastKi := i][iv := c.encode(v)]
         == m[lastKi := i][iv := c.encode(v)][ki := last][lastIv := c.encode(u)] - {ki} - {lastIv}
  {
  }

  /** Moving the last entry over another keeps keys distinct, and is a swap followed by dropping the last entry. */
  lemma MoveLastKeepsDistinct<V>(c: Codec<V>, s: seq<V>, i: nat)
    requires DistinctKeys(c, s) && i + 1 < |s|
    ensures var last := |s| - 1;
            var t := s[i := s[last]][last := s[i]];
            && DistinctKeys(c, t) && t[..last] == s[i := s[last]][..last]
            && DistinctKeys(c, t[..last]) && c.key(s[i]) != c.key(s[last])
  {
  }

  /** `replace` followed by the shorter length: the last entry takes over position `i`. */
  lemma ReplaceByLast<V>(c: Codec<V>, m: Cells, d: Bytes, s: seq<V>, i: nat)
    requires Stored(c, m, d, s) && DistinctKeys(c, s) && i + 1 < |s| < TWO_32
    ensures var last := |s| - 1;
            Stored(c, WithLength(Replaced(c, m, d, i, c.key(s[i]), last, s[last]), d, last), d, s[i := s[last]][..last])
    ensures DistinctKeys(c, s[i := s[|s| - 1]][..|s| - 1])
  {
    hide *;
    var last := |s| - 1;
    MoveLastKeepsDistinct(c, s, i);
    ReplaceIsSwapAndDrop(c, m, d, i, s[i], last, s[last]);
    SwapEntries(c, m, d, s, i, last);
    DropLast(c, WithEntry(c, WithEntry(c, m, d, i, s[last]), d, last, s[i]), d, s[i := s[last]][last := s[i]]);
  }

  // ---------- refilling with too many values ----------

  /** Every index below `n` has an IV cell. */
  ghost predicate WrittenUpTo(m: Cells, d: Bytes, n: nat) {
    forall j: u32 | j < n :: IvKey(d, j) in m
  }

  lemma WrittenOne<V>(c: Codec<V>, m: Cells, d: Bytes, i: nat, v: V)
    requires WrittenUpTo(m, d, i)
    ensures WrittenUpTo(WithEntry(c, m, d, i % TWO_32, v), d, i + 1)
  {
    var at: u32 := i % TWO_32;
    WritesEntry(c, m, d, at, v);
    var m' := WithEntry(c, m, d, at, v);
    hide WithEntry, IvKey;
    forall j: u32 | j < i + 1 ensures IvKey(d, j) in m' {
      assert j == i ==> at == i;
      assert Lookup(m', IvKey(d, j)) == if j == at then Some(c.encode(v)) else Lookup(m, IvKey(d, j));
    }
  }

  /** 2^32 values leave an IV cell at every index, more than any length can account for. */
  lemma TooLong<V>(c: Codec<V>, m: Cells, d: Bytes, n: u32, written: nat)
    requires WrittenUpTo(m, d, written) && TWO_32 <= written
    ensures forall s :: !Stored(c, WithLength(m, d, n), d, s)
  {
    WritesLength(m, d, n);
    LengthIs(WithLength(m, d, n), d, n);
    var m' := WithLength(m, d, n);
    assert Lookup(m', IvKey(d, n)) == Lookup(m, IvKey(d, n));
    hide WithLength, IvKey, LenKey, KiKey;
  }

  // ---------- clearing ----------

  /** `m` is what is left of `before` once the first `n` entries of `s` are deleted. */
  ghost predicate ClearedTo<V>(c: Codec<V>, before: Cells, m: Cells, d: Bytes, s: seq<V>, n: nat)
    requires n <= |s| < TWO_32
  {
    && m.Keys <= before.Keys
    && (forall i: nat | n <= i < |s| :: ValueCell(c, m, d, i, s[i]))
    && (forall i: nat | i < n :: IvKey(d, i) !in m && KiKey(d, c.key(s[i])) !in m)
  }

  lemma ClearOne<V>(c: Codec<V>, before: Cells, m: Cells, d: Bytes, s: seq<V>, n: nat)
    requires n < |s| < TWO_32 && ClearedTo(c, before, m, d, s, n)
    ensures ClearedTo(c, before, WithoutEntry(m, d, n, c.key(s[n])), d, s, n + 1)
  {
  }

  /** Once every entry is deleted nothing but the length cell is left, even if keys repeat. */
  lemma ClearAll<V>(c: Codec<V>, before: Cells, m: Cells, d: Bytes, s: seq<V>)
    requires Stored(c, before, d, s) && ClearedTo(c, before, m, d, s, |s|)
    ensures Stored(c, WithLength(m, d, 0), d, [])
    ensures Inside(WithLength(m, d, 0), d) == map[LenKey(d) := Le32(0)]
  {
    var m' := WithLength(m, d, 0);
    forall key ensures KiKey(d, key) !in m' {
      assert KiKey(d, key) in before ==> IndexCell(c, before, d, s, key);
    }
    forall k | k in m' && Owned(d, k) ensures k == LenKey(d) {
      if k != LenKey(d) { ShapeOf(d, k); }
    }
  }

  // ---------- footprint ----------

  function IvKeys(d: Bytes, n: nat): set<Bytes>
    requires n < TWO_32
  {
    set i: nat | i < n :: IvKey(d, i)
  }

  function KiKeys<V>(c: Codec<V>, d: Bytes, s: seq<V>): set<Bytes> {
    set i: nat | i < |s| :: KiKey(d, c.key(s[i]))
  }

  lemma {:induction false} IvKeysSize(d: Bytes, n: nat)
    requires n < TWO_32
    ensures |IvKeys(d, n)| == n
  {
    if n > 0 {
      IvKeysSize(d, n - 1);
      hide IvKey;
      forall i: nat | i < n - 1 ensures IvKey(d, i) != IvKey(d, n - 1) { SameIndexKey(d, i, n - 1); }
      assert IvKeys(d, n) == IvKeys(d, n - 1) + {IvKey(d, n - 1)};
    }
  }

  lemma {:induction false} KiKeysSize<V>(c: Codec<V>, d: Bytes, s: seq<V>)
    requires DistinctKeys(c, s)
    ensures |KiKeys(c, d, s)| == |s|
  {
    if s != [] {
      var last := |s| - 1;
      PrefixKeepsDistinct(c, s, last);
      KiKeysNext(c, d, s);
      hide *;
      KiKeysSize(c, d, s[..last]);
    } else {
      assert KiKeys(c, d, s) == {};
    }
  }

  lemma KiKeysNext<V>(c: Codec<V>, d: Bytes, s: seq<V>)
    requires DistinctKeys(c, s) && s != []
    ensures var last := |s| - 1;
            && KiKeys(c, d, s) == KiKeys(c, d, s[..last]) + {KiKey(d, c.key(s[last]))}
            && KiKey(d, c.key(s[last])) !in KiKeys(c, d, s[..last])
  {
    hide KiKey;
    var last := |s| - 1;
    var t, key := s[..last], KiKey(d, c.key(s[last]));
    forall k | k in KiKeys(c, d, s) ensures k in KiKeys(c, d, t) + {key} {
      var i: nat :| i < |s| && k == KiKey(d, c.key(s[i]));
      assert i < last ==> t[i] == s[i];
    }
    forall k | k in KiKeys(c, d, t) ensures k in KiKeys(c, d, s) && k != key {
      var i: nat :| i < |t| && k == KiKey(d, c.key(t[i]));
      assert t[i] == s[i];
      SameKeyKey(d, c.key(s[i]), c.key(s[last]));
    }
  }

  /** The physical keys under `d` are the length cell and one KI and one IV entry per element. */
  lemma FootprintKeys<V>(c: Codec<V>, m: Cells, d: Bytes, s: seq<V>)
    requires Stored(c, m, d, s) && LenKey(d) in m
    ensures Inside(m, d).Keys == {LenKey(d)} + IvKeys(d, |s|) + KiKeys(c, d, s)
  {
    LengthFits(c, m, d, s);
    hide Linked, Tight, Owned, LenKey, IvKeys, KiKeys;
    forall k | k in m && Owned(d, k) ensures k in {LenKey(d)} + IvKeys(d, |s|) + KiKeys(c, d, s) {
      NoOtherCell(c, m, d, s, k);
    }
    forall k | k in IvKeys(d, |s|) + KiKeys(c, d, s) ensures k in Inside(m, d) { CellIsThere(c, m, d, s, k); }
    assert Owned(d, LenKey(d)) by { LenIsOwned(d); }
  }

  lemma LenIsOwned(d: Bytes)
    ensures Owned(d, LenKey(d))
  {
  }

  lemma NoOtherCell<V>(c: Codec<V>, m: Cells, d: Bytes, s: seq<V>, k: Bytes)
    requires Tight(c, m, d, s) && |s| < TWO_32 && k in m && Owned(d, k)
    ensures k in {LenKey(d)} + IvKeys(d, |s|) + KiKeys(c, d, s)
  {
    ShapeOf(d, k);
    hide LenKey, IvKey, KiKey;
    if k[|d|] == PREFIX_KEY_INDEX {
      assert IndexCell(c, m, d, s, k[|d| + 1..]);
    }
  }

  lemma CellIsThere<V>(c: Codec<V>, m: Cells, d: Bytes, s: seq<V>, k: Bytes)
    requires Linked(c, m, d, s) && |s| < TWO_32 && k in IvKeys(d, |s|) + KiKeys(c, d, s)
    ensures k in m && Owned(d, k)
  {
    if k in IvKeys(d, |s|) {
      var i: nat :| i < |s| && k == IvKey(d, i);
      assert ValueCell(c, m, d, i, s[i]);
    } else {
      var i: nat :| i < |s| && k == KiKey(d, c.key(s[i]));
      assert IndexCell(c, m, d, s, c.key(s[i]));
    }
  }

  /** A sequence with distinct keys takes 1 + 2n entries. */
  lemma ExactFootprint<V>(c: Codec<V>, m: Cells, d: Bytes, s: seq<V>)
    requires Stored(c, m, d, s) && DistinctKeys(c, s) && LenKey(d) in m
    ensures |Inside(m, d)| == 1 + 2 * |s|
  {
    assert |s| < TWO_32;
    hide Stored, DistinctKeys;
    FootprintKeys(c, m, d, s);
    IvKeysSize(d, |s|);
    KiKeysSize(c, d, s);
    assert IvKeys(d, |s|) !! KiKeys(c, d, s) && LenKey(d) !in IvKeys(d, |s|) + KiKeys(c, d, s);
    assert |Inside(m, d)| == |Inside(m, d).Keys|;
  }

  // ---------- frames ----------

  /** Every write stays inside its own domain. */
  lemma WritesStayInside<V>(c: Codec<V>, m: Cells, d: Bytes, i: u32, v: V, key: Bytes)
    ensures Outside(WithLength(m, d, i), d) == Outside(m, d)
    ensures Outside(WithEntry(c, m, d, i, v), d) == Outside(m, d)
    ensures Outside(WithoutEntry(m, d, i, key), d) == Outside(m, d)
  {
  }

  lemma OutsideCell(m: Cells, m': Cells, d: Bytes, k: Bytes)
    requires Outside(m, d) == Outside(m', d) && !Owned(d, k)
    ensures Lookup(m, k) == Lookup(m', k)
  {
    assert k in Outside(m, d) <==> k in m;
    assert k in Outside(m', d) <==> k in m';
  }

  /** What is stored under `d` depends on nothing but the cells inside `d`. */
  lemma InsideDecides<V>(c: Codec<V>, m: Cells, m': Cells, d: Bytes, s: seq<V>)
    requires forall k | Owned(d, k) :: Lookup(m, k) == Lookup(m', k)
    requires Stored(c, m, d, s)
    ensures Stored(c, m', d, s)
  {
    assert Lookup(m, LenKey(d)) == Lookup(m', LenKey(d));
    forall i: nat | i < |s| ensures ValueCell(c, m', d, i, s[i]) {
      assert ValueCell(c, m, d, i, s[i]);
    }
    forall key ensures Lookup(m, KiKey(d, key)) == Lookup(m', KiKey(d, key)) {}
    forall i: nat | i < |s| ensures IndexCell(c, m', d, s, c.key(s[i])) {
      assert IndexCell(c, m, d, s, c.key(s[i]));
    }
    forall key | KiKey(d, key) in m' ensures IndexCell(c, m', d, s, key) {
      assert IndexCell(c, m, d, s, key);
    }
    forall k | k in m' && Owned(d, k) ensures WellShaped(d, k) {
      assert Lookup(m, k) == Lookup(m', k);
    }
    forall i: u32 | IvKey(d, i) in m' ensures i < |s| {
      assert Lookup(m, IvKey(d, i)) == Lookup(m', IvKey(d, i));
    }
  }
}
