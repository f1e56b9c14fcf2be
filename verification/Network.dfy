/** The object table of `CNetwork`: slots chosen by the index of a key. */
module Network {
  import opened Types
  import opened Poller

  class ObjectTable {
    /** `ObjecKeyPool::index`, whatever it computes. */
    const index: UInt32 -> nat
    const objects: array<IOObject?>
    /** The plain map the slots stand for. */
    ghost var live: map<UInt32, IOObject>

    ghost predicate Valid()
      reads this, objects, live.Values
    {
      && (forall k :: index(k) < objects.Length)
      && (forall k | k in live :: live[k].key == k && objects[index(k)] == live[k])
      && (forall i | 0 <= i < objects.Length && objects[i] != null ::
            objects[i] in live.Values && live[objects[i].key] == objects[i] && index(objects[i].key) == i)
    }

    constructor (index: UInt32 -> nat, size: nat)
      requires forall k :: index(k) < size
      ensures Valid() && live == map[] && fresh(objects) && this.index == index && objects.Length == size
    {
      this.index, live := index, map[];
      objects := new IOObject?[size](_ => null);
    }

    /** The source asserts that the slot is free: no live key has the same index. */
    method AddObject(o: IOObject)
      requires Valid() && forall k | k in live :: index(k) != index(o.key)
      modifies this`live, objects
      ensures Valid() && live == old(live)[o.key := o]
    {
      FreeSlot(o.key);
      objects[index(o.key)] := o;
      live := live[o.key := o];
    }

    lemma FreeSlot(key: UInt32)
      requires Valid() && forall k | k in live :: index(k) != index(key)
      ensures objects[index(key)] == null
    {
    }

    /** The source asserts that the key is that of the object in its slot. */
    method RemoveObject(key: UInt32)
      requires Valid() && key in live
      modifies this`live, objects
      ensures Valid() && live == old(live) - {key}
    {
      objects[index(key)] := null;
      live := live - {key};
    }

    /** The object added under this very key, never another one that came to share its slot. */
    method GetObject(key: UInt32) returns (r: IOObject?)
      requires Valid()
      ensures r == if key in live then live[key] else null
    {
      r := objects[index(key)];
      if r == null || r.key != key {
        r := null;
      }
    }

    method IsEmpty() returns (r: bool)
      requires Valid()
      ensures r <==> live == map[]
    {
      var i := 0;
      while i < objects.Length
        invariant 0 <= i <= objects.Length
        invariant forall j | 0 <= j < i :: objects[j] == null
      {
        if objects[i] != null {
          return false;
        }
        i := i + 1;
      }
      return true;
    }
  }
}
