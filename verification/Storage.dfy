/** The in-memory key-value storage behind every repository. */
module Storage {
  import opened MachineInts
  import opened Tasks
  import opened Graph
  import opened TextOrder

  datatype StoreError = EmptyKey | EntityExists | NotFound

  /** A page of a listing with the total it was cut from; `Panics` is a slice expression out of range. */
  datatype Listing<+T> = Page(items: seq<T>, total: nat) | Panics

  /** The part of `s` from `offset` on, at most `limit` long. */
  function Cut<T>(s: seq<T>, offset: nat, limit: nat): seq<T> {
    if offset >= |s| then []
    else if offset + limit >= |s| then s[offset..]
    else s[offset..offset + limit]
  }

  /** A page is no longer than asked for, and consecutive pages make up the listing. */
  lemma PagesJoin<T>(s: seq<T>, offset: nat, limit: nat, more: nat)
    ensures |Cut(s, offset, limit)| <= limit
    ensures Cut(s, offset, limit) + Cut(s, offset + limit, more) == Cut(s, offset, limit + more)
    ensures Cut(s, 0, |s|) == s
  {
  }

  /** Where a page ends: the sum is taken modulo 2^64 before it is capped. */
  function PageEnd(offset: nat, limit: nat, total: nat): (end: nat)
    requires offset < TWO_64 && limit < TWO_64 && offset < total < TWO_64
    ensures end < offset <==> offset + limit >= TWO_64
    ensures offset <= end ==> end == if offset + limit < total then offset + limit else total
  {
    var sum := offset + limit;
    var wrapped := if sum < TWO_64 then sum else sum - TWO_64;
    if wrapped < total then wrapped else total
  }

  /** The values of a map in ascending order of their keys. */
  ghost function Values<V>(data: map<string, V>): (r: seq<V>)
    ensures |r| == |data|
  {
    var keys := Ascending(data.Keys);
    seq(|keys|, i requires 0 <= i < |keys| => assert keys[i] in keys; data[keys[i]])
  }

  lemma ValueAt<V>(data: map<string, V>, i: nat)
    requires i < |data|
    ensures Ascending(data.Keys)[i] in data && Values(data)[i] == data[Ascending(data.Keys)[i]]
  {
    assert Ascending(data.Keys)[i] in Ascending(data.Keys);
  }

  class MemoryStorage<V> {
    var data: map<string, V>

    constructor ()
      ensures data == map[]
    {
      data := map[];
    }

    method Create(key: string, value: V) returns (r: Result<(), StoreError>)
      modifies this
      ensures r == if key == "" then Err(EmptyKey) else if key in old(data) then Err(EntityExists) else Ok(())
      ensures data == if r.Ok? then old(data)[key := value] else old(data)
    {
      if key == "" {
        return Err(EmptyKey);
      }
      if key in data {
        return Err(EntityExists);
      }
      data := data[key := value];
      return Ok(());
    }

    method Get(key: string) returns (r: Result<V, StoreError>)
      ensures r == if key == "" then Err(EmptyKey) else if key in data then Ok(data[key]) else Err(NotFound)
    {
      if key == "" {
        return Err(EmptyKey);
      }
      if key in data {
        return Ok(data[key]);
      }
      return Err(NotFound);
    }

    method Update(key: string, value: V) returns (r: Result<(), StoreError>)
      modifies this
      ensures r == if key == "" then Err(EmptyKey) else if key !in old(data) then Err(NotFound) else Ok(())
      ensures data == if r.Ok? then old(data)[key := value] else old(data)
    {
      if key == "" {
        return Err(EmptyKey);
      }
      if key !in data {
        return Err(NotFound);
      }
      data := data[key := value];
      return Ok(());
    }

    method Delete(key: string) returns (r: Result<(), StoreError>)
      modifies this
      ensures r == if key == "" then Err(EmptyKey) else Ok(())
      ensures data == if r.Ok? then old(data) - {key} else old(data)
    {
      if key == "" {
        return Err(EmptyKey);
      }
      data := data - {key};
      return Ok(());
    }

    method SortedKeys() returns (keys: seq<string>)
      ensures keys == Ascending(data.Keys)
    {
      keys := [];
      var rest := data.Keys;
      while rest != {}
        invariant rest <= data.Keys && Distinct(keys)
        invariant forall x :: x in keys <==> x in data && x !in rest
      {
        var k :| k in rest;
        rest := rest - {k};
        keys := keys + [k];
      }
      SortIsAscending(keys, data.Keys);
      keys := Sort(keys);
    }

    /**
      * The page of the key-sorted values. Offsets and limits are 64-bit and their sum wraps; the call panics exactly
      * when the page starts inside the listing and the sum wraps.
      */
    method List(offset: nat, limit: nat) returns (r: Listing<V>)
      requires offset < TWO_64 && limit < TWO_64 && |data| < TWO_64
      ensures r.Panics? <==> offset < |data| && offset + limit >= TWO_64
      ensures r.Page? ==> r.items == Cut(Values(data), offset, limit) && r.total == |data|
    {
      hide Values, Ascending;
      var keys := SortedKeys();
      var total := |keys|;
      if offset >= total {
        return Page([], total);
      }
      var end := PageEnd(offset, limit, total);
      if end < offset {
        return Panics;
      }
      var items := Fetch(keys, offset, end);
      return Page(items, total);
    }

    method Fetch(keys: seq<string>, offset: nat, end: nat) returns (items: seq<V>)
      requires keys == Ascending(data.Keys) && offset <= end <= |keys|
      ensures items == Values(data)[offset..end]
    {
      hide Values, Ascending;
      items := [];
      for i := offset to end
        invariant items == Values(data)[offset..i]
      {
        ValueAt(data, i);
        items := items + [data[keys[i]]];
      }
    }
  }

  /** Two entries, an offset of one and the largest limit: the end of the page wraps to zero, before its start. */
  method PageWraps() returns (r: Listing<int>)
    ensures r.Panics?
  {
    var storage := new MemoryStorage<int>();
    var first := storage.Create("a", 0);
    var second := storage.Create("b", 0);
    assert storage.data.Keys == {"a", "b"};
    assert |storage.data| == |storage.data.Keys|;
    r := storage.List(1, TWO_64 - 1);
  }
}
