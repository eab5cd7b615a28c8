/** The indexed map: a sequence of keyed values with a reverse index, kept in the cells of one domain. */
module IndexMaps {
  import opened Bytes
  import opened KeyValueStore
  import opened IndexCells

  datatype Outcome = Ok | Err

  class IndexMap<V(!new)> {
    const codec: Codec<V>
    const store: Store
    const domain: Bytes
    const capacity: u32

    constructor (codec: Codec<V>, domain: Bytes, store: Store, capacity: u32)
      ensures this.codec == codec && this.store == store && this.domain == domain && this.capacity == capacity
    {
      this.codec, this.domain, this.store, this.capacity := codec, domain, store, capacity;
    }

    /** The cells under the domain are exactly an encoding of `s`, within the capacity. */
    ghost predicate Holds(s: seq<V>)
      reads store
    {
      |s| <= capacity && Stored(codec, store.data, domain, s)
    }

    ghost predicate Valid()
      reads store
    {
      Lawful(codec) && exists s :: Holds(s)
    }

    /** The sequence that the stored bytes decode to. */
    ghost function Items(): (s: seq<V>)
      requires Valid()
      reads store
      ensures Holds(s)
    {
      var s :| Holds(s); s
    }

    lemma ItemsAre(s: seq<V>)
      requires Lawful(codec) && Holds(s)
      ensures Valid() && Items() == s
    {
    }

    method Length() returns (n: u32)
      requires LengthReadable(store.data, domain)
      ensures n == LengthOf(store.data, domain)
      ensures domain + [0] !in store.data ==> n == 0
      ensures forall a, b, c, d | Lookup(store.data, domain + [0]) == Some([a, b, c, d]) ::
                n == a as int + 0x100 * b as int + 0x1_0000 * c as int + 0x100_0000 * d as int
    {
      forall a, b, c, d | Lookup(store.data, domain + [0]) == Some([a, b, c, d])
        ensures FromLe32([a, b, c, d]) == a as int + 0x100 * b as int + 0x1_0000 * c as int + 0x100_0000 * d as int
      {
        FourBytes(a, b, c, d);
      }
      var bytes := store.Get(LenKey(domain));
      n := match bytes case None => 0 case Some(b) => FromLe32(b);
    }

    method SetLength(length: u32)
      modifies store
      ensures store.data == WithLength(old(store.data), domain, length)
      ensures Outside(store.data, domain) == old(Outside(store.data, domain))
    {
      store.Set(LenKey(domain), Le32(length));
    }

    method IndexOfKey(key: Bytes) returns (r: Option<u32>)
      requires IndexReadable(store.data, domain, key)
      ensures r == IndexOf(store.data, domain, key)
      ensures r.Some? <==> domain + [1] + key in store.data
      ensures forall i: u32 | Lookup(store.data, domain + [1] + key) == Some(Le32(i)) :: r == Some(i)
    {
      var bytes := store.Get(KiKey(domain, key));
      r := match bytes case None => None case Some(b) => Some(FromLe32(b));
    }

    method Get(index: u32) returns (r: Option<V>)
      requires index < capacity ==> ValueReadable(codec, store.data, domain, index)
      ensures r == if index < capacity then ValueAt(codec, store.data, domain, index) else None
      ensures r.Some? <==> index < capacity && domain + [2] + Le32(index) in store.data
      ensures r.Some? ==> r == codec.decode(store.data[domain + [2] + Le32(index)])
    {
      if index >= capacity {
        return None;
      }
      var bytes := store.Get(IvKey(domain, index));
      r := match bytes case None => None case Some(b) => Some(codec.decode(b).value);
    }

    method GetBy(key: Bytes) returns (r: Option<V>)
      requires IndexReadable(store.data, domain, key)
      requires var i := IndexOf(store.data, domain, key);
               i.Some? && i.value < capacity ==> ValueReadable(codec, store.data, domain, i.value)
      ensures var i := IndexOf(store.data, domain, key);
              r == if i.Some? && i.value < capacity then ValueAt(codec, store.data, domain, i.value) else None
    {
      var index := IndexOfKey(key);
      if index == None {
        return None;
      }
      r := Get(index.value);
    }

    method Set(index: u32, value: V)
      modifies store
      ensures store.data == WithEntry(codec, old(store.data), domain, index, value)
      ensures Outside(store.data, domain) == old(Outside(store.data, domain))
    {
      store.Set(KiKey(domain, codec.key(value)), Le32(index));
      store.Set(IvKey(domain, index), codec.encode(value));
    }

    method Delete(index: u32, key: Bytes)
      modifies store
      ensures store.data == WithoutEntry(old(store.data), domain, index, key)
      ensures Outside(store.data, domain) == old(Outside(store.data, domain))
    {
      store.Delete(KiKey(domain, key));
      store.Delete(IvKey(domain, index));
    }

    /** Append one value, or refuse it when the map is full. Stale entries beyond the length do not matter. */
    method Push(value: V) returns (r: Outcome)
      requires LengthReadable(store.data, domain)
      modifies store
      ensures var n := LengthOf(old(store.data), domain);
              if n < capacity
              then r == Ok
                  && store.data == WithLength(WithEntry(codec, old(store.data), domain, n, value), domain, n + 1)
              else r == Err && store.data == old(store.data)
      ensures Outside(store.data, domain) == old(Outside(store.data, domain))
    {
      var len := Length();
      if len >= capacity {
        return Err;
      }
      Set(len, value);
      SetLength(len + 1);
      r := Ok;
    }

    /** Delete every entry. Only the length cell is left, holding 0. */
    method Clear()
      requires Valid()
      modifies store
      ensures Valid() && Items() == []
      ensures Inside(store.data, domain) == map[LenKey(domain) := Le32(0)]
      ensures Outside(store.data, domain) == old(Outside(store.data, domain))
    {
      ghost var s, before := Items(), store.data;
      var len := Length();
      var i: u32 := 0;
      while i < len
        invariant i <= len == |s|
        invariant ClearedTo(codec, before, store.data, domain, s, i)
        invariant Outside(store.data, domain) == Outside(before, domain)
      {
        assert ValueCell(codec, store.data, domain, i, s[i]);
        var v := Get(i);
        ClearOne(codec, before, store.data, domain, s, i);
        Delete(i, codec.key(v.value));
        i := i + 1;
      }
      ClearAll(codec, before, store.data, domain, s);
      SetLength(0);
      ItemsAre([]);
    }

    /** Replace all entries by `values`. The length is taken modulo 2^32 before it is compared with the capacity, so
        when there are that many values and the reset goes ahead, the cells are no longer those of any sequence. */
    method Reset(values: seq<V>) returns (r: Outcome)
      requires Valid()
      modifies store
      ensures r == Ok <==> |values| % TWO_32 <= capacity
      ensures r == Err ==> store.data == old(store.data)
      ensures r == Ok ==> LenKey(domain) in store.data && (Valid() <==> |values| < TWO_32)
      ensures r == Ok && |values| < TWO_32 ==> Items() == values
      ensures Outside(store.data, domain) == old(Outside(store.data, domain))
    {
      var vLen: u32 := |values| % TWO_32;
      assert |values| < TWO_32 ==> vLen == |values|;
      if vLen > capacity {
        return Err;
      }
      Clear();
      assert LenKey(domain) in Inside(store.data, domain);
      assert WithLength(store.data, domain, 0) == store.data;
      hide Stored, Outside, WrittenUpTo;
      Refill(values);
      ghost var m := store.data;
      SetLength(vLen);
      if |values| < TWO_32 {
        ItemsAre(values);
      } else {
        TooLong(codec, m, domain, vLen, |values|);
      }
      r := Ok;
    }

    /** The loop of `reset`: write the entries of `values` one by one; the length is still to come. */
    method Refill(values: seq<V>)
      requires Stored(codec, WithLength(store.data, domain, 0), domain, [])
      modifies store
      ensures |values| < TWO_32 ==> Stored(codec, WithLength(store.data, domain, |values|), domain, values)
      ensures WrittenUpTo(store.data, domain, |values|)
      ensures Outside(store.data, domain) == old(Outside(store.data, domain))
    {
      ghost var d, m := domain, store.data;
      assert values[..0] == [];
      assert WrittenUpTo(m, d, 0);
      hide *;
      var i: nat := 0;
      while i < |values|
        invariant i <= |values|
        invariant |values| < TWO_32 ==> Stored(codec, WithLength(store.data, d, i), d, values[..i])
        invariant WrittenUpTo(store.data, d, i)
        invariant Outside(store.data, d) == Outside(m, d)
      {
        if |values| < TWO_32 { AppendNext(codec, store.data, d, values, i); }
        WrittenOne(codec, store.data, d, i, values[i]);
        assert |values| < TWO_32 ==> i % TWO_32 == i;
        Set(i % TWO_32, values[i]);
        i := i + 1;
      }
      assert values[..i] == values;
    }
  }
}
