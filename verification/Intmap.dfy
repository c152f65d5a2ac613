/** The hash table of src/lib9p/intmap.c: 128 buckets, each a linked list, new nodes at the front. */
module Intmap {
  import opened Options

  const NHASH: nat := 128

  function HashId(id: nat): (h: nat)
    ensures h < NHASH
  {
    id % NHASH
  }

  /** An Intlist node. */
  datatype Item<V> = Item(id: nat, aux: V)

  /** The position of id in a bucket, or the length of the bucket. */
  ghost predicate At<V>(bucket: seq<Item<V>>, id: nat, i: nat) {
    && i <= |bucket|
    && (i < |bucket| ==> bucket[i].id == id)
    && (forall j :: 0 <= j < i ==> bucket[j].id != id)
  }

  /** Each id is in its own bucket, once. */
  ghost predicate BucketOk<V>(bucket: seq<Item<V>>, h: nat) {
    && (forall i :: 0 <= i < |bucket| ==> HashId(bucket[i].id) == h)
    && (forall i, j :: 0 <= i < j < |bucket| ==> bucket[i].id != bucket[j].id)
  }

  /** The bucket holds what m holds for the ids that hash to h. */
  ghost predicate Holds<V>(bucket: seq<Item<V>>, h: nat, m: map<nat, V>) {
    && (forall i :: 0 <= i < |bucket| ==> bucket[i].id in m && m[bucket[i].id] == bucket[i].aux)
    && (forall id {:trigger id in m} :: id in m && HashId(id) == h ==> exists i :: 0 <= i < |bucket| && bucket[i].id == id)
  }

  lemma LookupIs<V>(bucket: seq<Item<V>>, h: nat, m: map<nat, V>, id: nat, i: nat)
    requires BucketOk(bucket, h) && Holds(bucket, h, m) && HashId(id) == h && At(bucket, id, i)
    ensures id in m <==> i < |bucket|
    ensures id in m ==> m[id] == bucket[i].aux
  {
  }

  lemma PushHolds<V>(bucket: seq<Item<V>>, h: nat, m: map<nat, V>, id: nat, v: V)
    requires BucketOk(bucket, h) && Holds(bucket, h, m) && HashId(id) == h && id !in m
    ensures BucketOk([Item(id, v)] + bucket, h) && Holds([Item(id, v)] + bucket, h, m[id := v])
  {
    var bucket' := [Item(id, v)] + bucket;
    forall x | x in m[id := v] && HashId(x) == h
      ensures exists i :: 0 <= i < |bucket'| && bucket'[i].id == x
    {
      if x == id {
        assert bucket'[0].id == x;
      } else {
        var i :| 0 <= i < |bucket| && bucket[i].id == x;
        assert bucket'[i + 1].id == x;
      }
    }
  }

  lemma SetHolds<V>(bucket: seq<Item<V>>, h: nat, m: map<nat, V>, i: nat, v: V)
    requires BucketOk(bucket, h) && Holds(bucket, h, m) && i < |bucket|
    ensures
      var bucket' := bucket[i := Item(bucket[i].id, v)];
      BucketOk(bucket', h) && Holds(bucket', h, m[bucket[i].id := v])
  {
    var bucket' := bucket[i := Item(bucket[i].id, v)];
    forall x | x in m[bucket[i].id := v] && HashId(x) == h
      ensures exists j :: 0 <= j < |bucket'| && bucket'[j].id == x
    {
      var j :| 0 <= j < |bucket| && bucket[j].id == x;
      assert bucket'[j].id == x;
    }
  }

  lemma CutHolds<V>(bucket: seq<Item<V>>, h: nat, m: map<nat, V>, i: nat)
    requires BucketOk(bucket, h) && Holds(bucket, h, m) && i < |bucket|
    ensures
      var bucket' := bucket[..i] + bucket[i + 1..];
      BucketOk(bucket', h) && Holds(bucket', h, m - {bucket[i].id})
  {
    var bucket' := bucket[..i] + bucket[i + 1..];
    forall x | x in m - {bucket[i].id} && HashId(x) == h
      ensures exists j :: 0 <= j < |bucket'| && bucket'[j].id == x
    {
      var j :| 0 <= j < |bucket| && bucket[j].id == x;
      assert bucket'[if j < i then j else j - 1].id == x;
    }
  }

  /** The buckets determine the map, and the map what each bucket holds. */
  lemma OneMap<V>(hash: seq<seq<Item<V>>>, m: map<nat, V>, m': map<nat, V>)
    requires |hash| == NHASH
    requires forall h :: 0 <= h < NHASH ==> BucketOk(hash[h], h) && Holds(hash[h], h, m) && Holds(hash[h], h, m')
    ensures m == m'
  {
    forall id | id in m
      ensures id in m' && m'[id] == m[id]
    {
      assert Holds(hash[HashId(id)], HashId(id), m);
    }
    forall id | id in m'
      ensures id in m
    {
      assert Holds(hash[HashId(id)], HashId(id), m');
    }
  }

  class Intmap<V> {
    const hash: array<seq<Item<V>>>
    ghost var contents: map<nat, V>

    ghost predicate Valid()
      reads this, hash
    {
      && hash.Length == NHASH
      && forall h :: 0 <= h < NHASH ==> BucketOk(hash[h], h) && Holds(hash[h], h, contents)
    }

    constructor ()
      ensures Valid() && contents == map[] && fresh(hash)
    {
      hash := new seq<Item<V>>[NHASH](_ => []);
      contents := map[];
    }

    /** llookup. */
    method LLookup(id: nat) returns (i: nat)
      requires Valid()
      ensures At(hash[HashId(id)], id, i)
      ensures id in contents <==> i < |hash[HashId(id)]|
      ensures id in contents ==> contents[id] == hash[HashId(id)][i].aux
    {
      i := 0;
      var bucket := hash[HashId(id)];
      while i < |bucket| && bucket[i].id != id
        invariant i <= |bucket|
        invariant forall j :: 0 <= j < i ==> bucket[j].id != id
      {
        i := i + 1;
      }
      LookupIs(bucket, HashId(id), contents, id, i);
    }

    method LookupKey(id: nat) returns (v: Option<V>)
      requires Valid()
      ensures v == if id in contents then Some(contents[id]) else None
    {
      var i := LLookup(id);
      var bucket := hash[HashId(id)];
      return if i < |bucket| then Some(bucket[i].aux) else None;
    }

    method InsertKey(id: nat, v: V) returns (ov: Option<V>)
      requires Valid()
      modifies this, hash
      ensures Valid() && contents == old(contents)[id := v]
      ensures ov == if id in old(contents) then Some(old(contents)[id]) else None
    {
      var i := LLookup(id);
      var h := HashId(id);
      if i < |hash[h]| {
        ov := Some(hash[h][i].aux);
        SetHolds(hash[h], h, contents, i, v);
        Put(h, hash[h][i := Item(id, v)], contents[id := v]);
      } else {
        ov := None;
        PushHolds(hash[h], h, contents, id, v);
        Put(h, [Item(id, v)] + hash[h], contents[id := v]);
      }
    }

    method CanInsertKey(id: nat, v: V) returns (ok: bool)
      requires Valid()
      modifies this, hash
      ensures Valid() && ok == (id !in old(contents))
      ensures contents == if ok then old(contents)[id := v] else old(contents)
    {
      var i := LLookup(id);
      var h := HashId(id);
      ok := i == |hash[h]|;
      if ok {
        PushHolds(hash[h], h, contents, id, v);
        Put(h, [Item(id, v)] + hash[h], contents[id := v]);
      }
    }

    method DeleteKey(id: nat) returns (ov: Option<V>)
      requires Valid()
      modifies this, hash
      ensures Valid() && contents == old(contents) - {id}
      ensures ov == if id in old(contents) then Some(old(contents)[id]) else None
    {
      var i := LLookup(id);
      var h := HashId(id);
      if i < |hash[h]| {
        ov := Some(hash[h][i].aux);
        CutHolds(hash[h], h, contents, i);
        Put(h, hash[h][..i] + hash[h][i + 1..], contents - {id});
      } else {
        ov := None;
      }
    }

    /** Stores a bucket that holds what m does; the other buckets hold it already. */
    method Put(h: nat, bucket: seq<Item<V>>, ghost m: map<nat, V>)
      requires Valid() && h < NHASH && BucketOk(bucket, h) && Holds(bucket, h, m)
      requires forall id :: HashId(id) != h ==> (id in m <==> id in contents) && (id in m ==> m[id] == contents[id])
      modifies this, hash
      ensures Valid() && contents == m
    {
      ghost var was := contents;
      assert forall g :: 0 <= g < NHASH ==> BucketOk(hash[g], g) && Holds(hash[g], g, was);
      hash[h] := bucket;
      contents := m;
    }
  }
}
