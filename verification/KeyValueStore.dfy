/** The flat byte-keyed store that every network account structure shares. */
module KeyValueStore {
  import opened Bytes

  type Cells = map<Bytes, Bytes>

  class Store {
    var data: Cells

    constructor ()
      ensures data == map[]
    {
      data := map[];
    }

    method Get(key: Bytes) returns (r: Option<Bytes>)
      ensures r == Lookup(data, key)
    {
      r := if key in data then Some(data[key]) else None;
    }

    method Contains(key: Bytes) returns (r: bool)
      ensures r <==> key in data
    {
      r := key in data;
    }

    method Set(key: Bytes, value: Bytes)
      modifies this
      ensures data == old(data)[key := value]
    {
      data := data[key := value];
    }

    method Delete(key: Bytes)
      modifies this
      ensures data == old(data) - {key}
    {
      data := data - {key};
    }
  }
}
