/** The index heap: a bounded binary min-heap over the cells of an indexed map. */
module IndexHeaps {
  import opened Bytes
  import opened KeyValueStore
  import opened IndexCells
  import opened IndexMaps
  import opened HeapOrder
  import opened KeepLargest

  /** The order that a heap of keyed values needs: a total preorder in which values of one key tie only if equal. */
  ghost predicate Ordered<V(!new)>(c: Codec<V>, less: (V, V) -> bool) {
    && TotalPreorder(less)
    && (forall a, b :: c.key(a) == c.key(b) && !less(a, b) && !less(b, a) ==> a == b)
  }

  /** The keys with which `v` may be offered: none of the heap, unless `v` is refused or evicts that entry. */
  predicate Offerable<V>(c: Codec<V>, less: (V, V) -> bool, cap: nat, s: seq<V>, v: V) {
    forall i: nat | i < |s| && c.key(s[i]) == c.key(v) :: |s| == cap && (less(v, s[0]) || i == 0)
  }

  /** Capacities come from 16-bit constants; up to this one no child index overflows 32 bits. */
  const MAX_CAPACITY: int := 0x7FFF_FFFF

  /** The answer of `insert_extract`. */
  datatype Offer<+V> = Refused | Accepted(evicted: Option<V>)

  class IndexHeap<V(!new)> {
    const inner: IndexMap<V>
    const less: (V, V) -> bool

    constructor (codec: Codec<V>, less: (V, V) -> bool, domain: Bytes, store: Store, capacity: u32)
      ensures fresh(inner) && inner.codec == codec && inner.store == store && inner.domain == domain
      ensures inner.capacity == capacity && this.less == less
    {
      inner := new IndexMap(codec, domain, store, capacity);
      this.less := less;
    }

    /** The cells hold `s`, whatever its order. */
    ghost predicate Entries(s: seq<V>)
      reads inner.store
    {
      && Lawful(inner.codec) && Ordered(inner.codec, less) && inner.capacity <= MAX_CAPACITY
      && inner.Holds(s) && DistinctKeys(inner.codec, s)
    }

    /** `Entries` says what the cells hold, and something about the heap that no operation changes. */
    ghost predicate Cellwise(s: seq<V>)
      reads inner.store
    {
      |s| <= inner.capacity && Stored(inner.codec, inner.store.data, inner.domain, s) && DistinctKeys(inner.codec, s)
    }

    ghost predicate Sane() {
      Lawful(inner.codec) && Ordered(inner.codec, less) && inner.capacity <= MAX_CAPACITY
    }

    lemma EntriesParts(s: seq<V>)
      ensures Entries(s) <==> Sane() && Cellwise(s)
      ensures Entries(s) ==> |s| <= inner.capacity <= MAX_CAPACITY
    {
      hide Stored, DistinctKeys, Lawful, Ordered;
    }

    lemma CellwiseParts(s: seq<V>)
      ensures Cellwise(s) <==>
                |s| <= inner.capacity && Stored(inner.codec, inner.store.data, inner.domain, s)
                    && DistinctKeys(inner.codec, s)
    {
    }

    ghost predicate Valid()
      reads inner.store
    {
      inner.Valid() && Entries(inner.Items()) && IsHeap(less, inner.Items())
    }

    /** The heap that the stored bytes decode to. */
    ghost function Items(): (s: seq<V>)
      requires Valid()
      reads inner.store
      ensures Entries(s) && IsHeap(less, s)
    {
      inner.Items()
    }

    lemma ItemsAre(s: seq<V>)
      requires Entries(s) && IsHeap(less, s)
      ensures Valid() && Items() == s
    {
      inner.ItemsAre(s);
    }

    /** A domain that was never written holds the empty heap. */
    lemma Untouched()
      requires Lawful(inner.codec) && Ordered(inner.codec, less) && inner.capacity <= MAX_CAPACITY
      requires forall k | k in inner.store.data :: !Owned(inner.domain, k)
      ensures Valid() && Items() == []
    {
      NothingStored(inner.codec, inner.store.data, inner.domain);
      hide Stored;
      ItemsAre([]);
    }

    lemma LengthWritten(s: seq<V>)
      requires Entries(s) && s != []
      ensures LenKey(inner.domain) in inner.store.data
    {
    }

    // ---------- reading ----------

    /** The value at an index below the length, `get(i).unwrap()`. */
    method At(i: u32, ghost s: seq<V>) returns (v: V)
      requires Entries(s) && i < |s|
      ensures v == s[i]
    {
      assert ValueCell(inner.codec, inner.store.data, inner.domain, i, s[i]);
      var r := inner.Get(i);
      v := r.value;
    }

    /** Where a key is, and that it is below the length. */
    method Locate(key: Bytes, ghost s: seq<V>) returns (r: Option<u32>)
      requires Entries(s)
      ensures r.Some? ==> r.value < |s| && inner.codec.key(s[r.value]) == key
      ensures r == None ==> !HasKey(inner.codec, s, key)
    {
      MutuallyInverse(inner.codec, inner.store.data, inner.domain, s);
      assert KiKey(inner.domain, key) in inner.store.data ==>
          IndexCell(inner.codec, inner.store.data, inner.domain, s, key);
      var length := inner.Length();
      var index := inner.IndexOfKey(key);
      r := match index case Some(i) => (if i < length then Some(i) else None) case None => None;
    }

    method GetBy(key: Bytes) returns (r: Option<V>)
      requires Valid()
      ensures r.Some? <==> HasKey(inner.codec, Items(), key)
      ensures r.Some? ==> r.value in Items() && inner.codec.key(r.value) == key
    {
      ghost var s := Items();
      MutuallyInverse(inner.codec, inner.store.data, inner.domain, s);
      if KiKey(inner.domain, key) in inner.store.data {
        assert IndexCell(inner.codec, inner.store.data, inner.domain, s, key);
        ghost var i := FromLe32(inner.store.data[KiKey(inner.domain, key)]);
        assert ValueCell(inner.codec, inner.store.data, inner.domain, i, s[i]);
      }
      r := inner.GetBy(key);
    }

    /** The values in index order. Neither heap order nor distinct keys are needed. */
    method UnorderedValues() returns (values: seq<V>)
      requires inner.Valid()
      ensures values == inner.Items()
    {
      ghost var s := inner.Items();
      values := [];
      var length := inner.Length();
      var i: u32 := 0;
      while i < length
        invariant i <= length == |s|
        invariant values == s[..i]
      {
        assert ValueCell(inner.codec, inner.store.data, inner.domain, i, s[i]);
        var v := inner.Get(i);
        values := values + [v.value];
        i := i + 1;
      }
    }

    // ---------- sifting ----------

    method SwapValues(i: u32, iV: V, j: u32, jV: V, ghost s: seq<V>)
      requires Entries(s) && i < |s| && j < |s| && iV == s[i] && jV == s[j]
      modifies inner.store
      ensures Entries(Swap(s, i, j))
      ensures Outside(inner.store.data, inner.domain) == old(Outside(inner.store.data, inner.domain))
    {
      hide Entries, Cellwise, Sane, Stored, DistinctKeys, Outside, WithEntry;
      EntriesParts(s);
      CellwiseParts(s);
      SwapEntries(inner.codec, inner.store.data, inner.domain, s, i, j);
      SwapKeepsDistinct(inner.codec, s, i, j);
      inner.Set(i, jV);
      inner.Set(j, iV);
      CellwiseParts(Swap(s, i, j));
      EntriesParts(Swap(s, i, j));
    }

    method UpHeapify(start: u32, ghost s: seq<V>) returns (ghost swaps: nat)
      requires Entries(s) && start < |s|
      modifies inner.store
      ensures Entries(Up(less, s, start))
      ensures swaps <= Log2(start + 1)
      ensures Outside(inner.store.data, inner.domain) == old(Outside(inner.store.data, inner.domain))
    {
      hide *;
      EntriesParts(s);
      ghost var d, m := inner.domain, inner.store.data;
      var index: u32 := start;
      ghost var t := s;
      swaps := 0;
      while true
        invariant Entries(t) && index < |t| == |s|
        invariant Up(less, t, index) == Up(less, s, start)
        invariant swaps + UpSwaps(less, t, index) == UpSwaps(less, s, start)
        invariant Outside(inner.store.data, d) == Outside(m, d)
        decreases index
      {
        UpSteps(less, t, index);
        if index == 0 {
          break;
        }
        var parent := (index - 1) / 2;
        var value := At(index, t);
        var parentV := At(parent, t);
        if less(value, parentV) {
          SwapValues(index, value, parent, parentV, t);
          t, swaps := Swap(t, index, parent), swaps + 1;
          index := parent;
        } else {
          break;
        }
      }
      UpSwapsBound(less, s, start);
    }

    /** The index, among `index` and its children below `length`, that the down-heapify loop goes to next. */
    method LeastOfFamily(index: u32, length: u32, ghost t: seq<V>) returns (head: u32)
      requires Entries(t) && index < |t| == length
      ensures head == Head(less, t, index)
    {
      assert |t| <= MAX_CAPACITY;
      HeadSteps(less, t, index);
      hide *;
      var left: u32 := 2 * index + 1;
      var right: u32 := 2 * index + 2;
      head := index;
      if left < length {
        var value := At(head, t);
        var leftV := At(left, t);
        if less(leftV, value) {
          head := left;
        }
      }
      if right < length {
        var value := At(head, t);
        var rightV := At(right, t);
        if less(rightV, value) {
          head := right;
        }
      }
    }

    method DownHeapify(start: u32, length: u32, ghost s: seq<V>) returns (ghost swaps: nat)
      requires Entries(s) && start < |s| == length
      modifies inner.store
      ensures Entries(Down(less, s, start))
      ensures swaps <= Log2(length) - Log2(start + 1)
      ensures Outside(inner.store.data, inner.domain) == old(Outside(inner.store.data, inner.domain))
    {
      hide *;
      EntriesParts(s);
      ghost var d, m := inner.domain, inner.store.data;
      var index: u32 := start;
      ghost var t := s;
      swaps := 0;
      while true
        invariant Entries(t) && index < |t| == |s|
        invariant Down(less, t, index) == Down(less, s, start)
        invariant swaps + DownSwaps(less, t, index) == DownSwaps(less, s, start)
        invariant Outside(inner.store.data, d) == Outside(m, d)
        decreases |s| - index
      {
        DownSteps(less, t, index);
        var head := LeastOfFamily(index, length, t);
        if head != index {
          var value := At(index, t);
          var headV := At(head, t);
          SwapValues(index, value, head, headV, t);
          t, swaps := Swap(t, index, head), swaps + 1;
          index := head;
        } else {
          break;
        }
      }
      DownSwapsBound(less, s, start);
    }

    // ---------- heap operations ----------

    /** `replace` and the shorter length: the last entry takes over position `i`. */
    method ReplaceWithLast(i: u32, length: u32, ghost s: seq<V>)
      requires Entries(s) && |s| == length && i + 1 < length
      modifies inner.store
      ensures Entries(s[i := s[length - 1]][..length - 1])
      ensures Outside(inner.store.data, inner.domain) == old(Outside(inner.store.data, inner.domain))
    {
      hide *;
      ghost var t := s[i := s[length - 1]][..length - 1];
      EntriesParts(s);
      CellwiseParts(s);
      var toV := At(i, s);
      var fromV := At(length - 1, s);
      ReplaceByLast(inner.codec, inner.store.data, inner.domain, s, i);
      Replace(i, toV, length - 1, fromV);
      inner.SetLength(length - 1);
      CellwiseParts(t);
      EntriesParts(t);
    }

    method Replace(toIndex: u32, toV: V, fromIndex: u32, fromV: V)
      modifies inner.store
      ensures inner.store.data
           == Replaced(inner.codec, old(inner.store.data), inner.domain, toIndex, inner.codec.key(toV), fromIndex,
               fromV)
      ensures Outside(inner.store.data, inner.domain) == old(Outside(inner.store.data, inner.domain))
    {
      inner.store.Delete(IvKey(inner.domain, fromIndex));
      inner.store.Delete(KiKey(inner.domain, inner.codec.key(toV)));
      inner.Set(toIndex, fromV);
    }

    /** Delete the last entry and shorten the length. */
    method DeleteLast(length: u32, key: Bytes, ghost s: seq<V>)
      requires Entries(s) && |s| == length && 0 < length && inner.codec.key(s[length - 1]) == key
      modifies inner.store
      ensures Entries(s[..length - 1])
      ensures Outside(inner.store.data, inner.domain) == old(Outside(inner.store.data, inner.domain))
    {
      hide *;
      EntriesParts(s);
      CellwiseParts(s);
      DropLast(inner.codec, inner.store.data, inner.domain, s);
      PrefixKeepsDistinct(inner.codec, s, length - 1);
      inner.Delete(length - 1, key);
      inner.SetLength(length - 1);
      CellwiseParts(s[..length - 1]);
      EntriesParts(s[..length - 1]);
    }

    /** Take the least value. */
    method Extract() returns (r: Option<V>)
      requires Valid()
      modifies inner.store
      ensures Valid()
      ensures r == if old(Items()) == [] then None else Some(old(Items())[0])
      ensures old(Items()) == [] ==> inner.store.data == old(inner.store.data)
      ensures old(Items()) != [] ==>
              Items() == Extracted(less, old(Items())) && LenKey(inner.domain) in inner.store.data
      ensures Outside(inner.store.data, inner.domain) == old(Outside(inner.store.data, inner.domain))
    {
      ghost var s := Items();
      var length := inner.Length();
      if length == 0 {
        return None;
      }
      ExtractTakesLeast(less, s);
      var ret := At(0, s);
      if length == 1 {
        DropOnly(inner.codec.key(ret), s);
        ItemsAre([]);
        return Some(ret);
      }
      hide Entries, IsHeap, TotalPreorder, Outside;
      ReplaceWithLast(0, length, s);
      ghost var swaps := DownHeapify(0, length - 1, s[0 := s[length - 1]][..length - 1]);
      LengthWritten(Extracted(less, s));
      ItemsAre(Extracted(less, s));
      r := Some(ret);
    }

    /** Shorten the length of a one-entry heap and delete the entry. */
    method DropOnly(key: Bytes, ghost s: seq<V>)
      requires Entries(s) && |s| == 1 && key == inner.codec.key(s[0])
      modifies inner.store
      ensures Entries([]) && LenKey(inner.domain) in inner.store.data
      ensures Outside(inner.store.data, inner.domain) == old(Outside(inner.store.data, inner.domain))
    {
      hide *;
      EntriesParts(s);
      CellwiseParts(s);
      DropLast(inner.codec, inner.store.data, inner.domain, s);
      PrefixKeepsDistinct(inner.codec, s, 0);
      assert s[..0] == [];
      LengthFirst(inner.store.data, inner.domain, 0, 0, key);
      inner.SetLength(0);
      inner.Delete(0, key);
      CellwiseParts([]);
      EntriesParts([]);
    }

    /** Add a value whose key is new; a full heap refuses it. */
    method Insert(value: V) returns (r: Outcome)
      requires Valid()
      requires |Items()| < inner.capacity ==> !HasKey(inner.codec, Items(), inner.codec.key(value))
      modifies inner.store
      ensures Valid()
      ensures r == Err <==> |old(Items())| == inner.capacity
      ensures r == Err ==> inner.store.data == old(inner.store.data)
      ensures r == Ok ==> Items() == Inserted(less, old(Items()), value)
      ensures Outside(inner.store.data, inner.domain) == old(Outside(inner.store.data, inner.domain))
    {
      ghost var s := Items();
      var length := inner.Length();
      if inner.capacity == length {
        return Err;
      }
      hide Stored, DistinctKeys, Outside, IsHeap, HasKey;
      InsertedIsHeap(less, s, value);
      var index := length;
      Append(index, value, s);
      ghost var swaps := UpHeapify(index, s + [value]);
      ItemsAre(Inserted(less, s, value));
      r := Ok;
    }

    /** The first part of `insert`: the value becomes the last entry. */
    method Append(index: u32, value: V, ghost s: seq<V>)
      requires Entries(s) && index == |s| < inner.capacity && !HasKey(inner.codec, s, inner.codec.key(value))
      modifies inner.store
      ensures Entries(s + [value])
      ensures Outside(inner.store.data, inner.domain) == old(Outside(inner.store.data, inner.domain))
    {
      hide Entries, Cellwise, Sane, Stored, DistinctKeys, HasKey, Outside, WithEntry, WithLength;
      EntriesParts(s);
      CellwiseParts(s);
      AppendStored(inner.codec, inner.store.data, inner.domain, s, value);
      AppendKeepsDistinct(inner.codec, s, value);
      inner.Set(index, value);
      inner.SetLength(index + 1);
      CellwiseParts(s + [value]);
      EntriesParts(s + [value]);
    }

    /** Add a value; a full heap first gives up its least value, or refuses a value less than that. */
    method InsertExtract(value: V) returns (r: Offer<V>)
      requires Valid() && 0 < inner.capacity && Offerable(inner.codec, less, inner.capacity, Items(), value)
      modifies inner.store
      ensures Valid() && Items() == Offered(less, inner.capacity, old(Items()), value)
      ensures r == Refused <==> |old(Items())| == inner.capacity && less(value, old(Items())[0])
      ensures r == Refused ==> inner.store.data == old(inner.store.data)
      ensures r != Refused ==> r.evicted == if |old(Items())| == inner.capacity then Some(old(Items())[0]) else None
      ensures Outside(inner.store.data, inner.domain) == old(Outside(inner.store.data, inner.domain))
    {
      ghost var s := Items();
      var length := inner.Length();
      if length == 0 {
        var inserted := Insert(value);
        assert inserted == Ok;
        return Accepted(None);
      }
      var firstV := At(0, s);
      var replaced := None;
      if length == inner.capacity {
        if less(value, firstV) {
          return Refused;
        }
        EvictedKeyGoes(inner.codec, less, inner.capacity, s, value);
        replaced := Extract();
      }
      var inserted := Insert(value);
      assert inserted == Ok;
      r := Accepted(replaced);
    }

    /** Change the value kept under a key; a key that is not in the heap is ignored. */
    method ChangeKey(value: V)
      requires Valid()
      modifies inner.store
      ensures Valid()
      ensures !HasKey(inner.codec, old(Items()), inner.codec.key(value)) ==> inner.store.data == old(inner.store.data)
      ensures HasKey(inner.codec, old(Items()), inner.codec.key(value)) ==>
                Items() == Changed(less, old(Items()), Position(inner.codec, old(Items()), inner.codec.key(value)),
                    value)
      ensures Outside(inner.store.data, inner.domain) == old(Outside(inner.store.data, inner.domain))
    {
      ghost var s := Items();
      var length := inner.Length();
      var found := Locate(inner.codec.key(value), s);
      if found == None {
        return;
      }
      var index := found.value;
      assert index == Position(inner.codec, s, inner.codec.key(value));
      var oldValue := At(index, s);
      ChangedIsHeap(less, s, index, value);
      OverwriteEntry(inner.codec, inner.store.data, inner.domain, s, index, value);
      OverwriteKeepsDistinct(inner.codec, s, index, value);
      if less(oldValue, value) {
        inner.Set(index, value);
        ghost var swaps := DownHeapify(index, length, s[index := value]);
        ItemsAre(Changed(less, s, index, value));
      } else if less(value, oldValue) {
        inner.Set(index, value);
        ghost var swaps := UpHeapify(index, s[index := value]);
        ItemsAre(Changed(less, s, index, value));
      }
    }

    /** Remove the entry of a key; a key that is not in the heap is ignored. */
    method RemoveItem(key: Bytes)
      requires Valid()
      modifies inner.store
      ensures Valid()
      ensures !HasKey(inner.codec, old(Items()), key) ==> inner.store.data == old(inner.store.data)
      ensures HasKey(inner.codec, old(Items()), key) ==>
                && Items() == Removed(less, old(Items()), Position(inner.codec, old(Items()), key))
                && LenKey(inner.domain) in inner.store.data
      ensures Outside(inner.store.data, inner.domain) == old(Outside(inner.store.data, inner.domain))
    {
      ghost var s := Items();
      var length := inner.Length();
      var found := Locate(key, s);
      if found == None {
        return;
      }
      var index := found.value;
      assert index == Position(inner.codec, s, key);
      if index == 0 {
        var root := Extract();
        return;
      }
      RemoveBelowRoot(index, length, key, s);
      RemovedIsHeap(less, s, index);
      LengthWritten(Removed(less, s, index));
      ItemsAre(Removed(less, s, index));
    }

    /** The part of `remove_item` for an entry other than the root. */
    method RemoveBelowRoot(index: u32, length: u32, key: Bytes, ghost s: seq<V>)
      requires Entries(s) && 0 < index < length == |s| && inner.codec.key(s[index]) == key
      modifies inner.store
      ensures Entries(Removed(less, s, index))
      ensures Outside(inner.store.data, inner.domain) == old(Outside(inner.store.data, inner.domain))
    {
      hide Entries, Outside, Up, Down, Extracted;
      if index == length - 1 {
        DeleteLast(length, key, s);
        return;
      }
      MoveLast(index, length, s);
    }

    /** Move the last entry to position `index` and let it rise or sink from there. */
    method MoveLast(index: u32, length: u32, ghost s: seq<V>)
      requires Entries(s) && 0 < index < length - 1 && length == |s|
      modifies inner.store
      ensures Entries(Removed(less, s, index))
      ensures Outside(inner.store.data, inner.domain) == old(Outside(inner.store.data, inner.domain))
    {
      hide *;
      var thisV := At(index, s);
      var lastV := At(length - 1, s);
      var isDownward := less(thisV, lastV);
      var isUpward := less(lastV, thisV);
      RemovedSteps(less, s, index);
      ReplaceWithLast(index, length, s);
      ghost var t := s[index := s[length - 1]][..length - 1];
      if isDownward {
        ghost var swaps := DownHeapify(index, length - 1, t);
      } else if isUpward {
        ghost var swaps := UpHeapify(index, t);
      }
    }

    method Clear()
      requires Valid()
      modifies inner.store
      ensures Valid() && Items() == []
      ensures Inside(inner.store.data, inner.domain) == map[LenKey(inner.domain) := Le32(0)]
      ensures Outside(inner.store.data, inner.domain) == old(Outside(inner.store.data, inner.domain))
    {
      inner.Clear();
      ItemsAre([]);
    }

    /** Once the length cell is written, the heap takes exactly 1 + 2n cells and nothing stale lies under its domain. */
    lemma Footprint()
      requires Valid() && LenKey(inner.domain) in inner.store.data
      ensures |Inside(inner.store.data, inner.domain)| == 1 + 2 * |Items()|
    {
      ExactFootprint(inner.codec, inner.store.data, inner.domain, Items());
    }
  }

  /** Once the root is taken, no entry has the key of a value that may be offered and is not refused. */
  lemma EvictedKeyGoes<V(!new)>(c: Codec<V>, less: (V, V) -> bool, cap: nat, s: seq<V>, v: V)
    requires TotalPreorder(less) && IsHeap(less, s) && DistinctKeys(c, s) && s != []
    requires Offerable(c, less, cap, s, v) && !less(v, s[0])
    ensures !HasKey(c, Extracted(less, s), c.key(v))
    ensures |Extracted(less, s)| == |s| - 1
  {
    var t := Extracted(less, s);
    ExtractTakesLeast(less, s);
    DistinctOccurOnce(c, s, 0);
    assert |multiset(t)| == |multiset(s)| - 1;
    forall j: nat | j < |t| ensures c.key(t[j]) != c.key(v) {
      assert t[j] in multiset(t);
      assert t[j] in multiset(s) && t[j] != s[0];
      var i: nat :| i < |s| && s[i] == t[j];
    }
  }
}
