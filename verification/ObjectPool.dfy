/** The object pool of shared/utils/objectPool.go, as one thread at a time runs
    it: an array of free containers filled from the front, and a disposal
    counter in each container. PoolLocks has the interleavings. */
module ObjectPool {
  import opened Bytes

  const POOL_SIZE_MAX: nat := 100

  class Container<T> {
    const data: T
    var current: nat
    var target: u32

    constructor (data: T)
      ensures this.data == data && current == 0 && target == 1
    {
      this.data := data;
      current, target := 0, 1;
    }

    predicate Disposed()
      reads this
    {
      current >= target
    }

    method Reset()
      modifies this
      ensures current == 0 && target == 1 && !Disposed()
    {
      current, target := 0, 1;
    }

    /** Data: fails exactly on a disposed container. */
    method Data(default: T) returns (ok: bool, value: T)
      ensures ok <==> !Disposed()
      ensures ok ==> value == data
    {
      if current >= target {
        return false, default;
      }
      return true, data;
    }

    method UpdateCounter(newTarget: u32) returns (ok: bool)
      modifies this
      ensures ok <==> !old(Disposed())
      ensures current == old(current)
      ensures target == if ok then newTarget else old(target)
    {
      if current >= target {
        return false;
      }
      target := newTarget;
      return true;
    }
  }

  class Pool<T> {
    var slots: array<Container?<T>>
    var length: nat

    /** The free list: distinct disposed containers in the first `length` slots, nil above. */
    ghost predicate Valid()
      reads this, slots, set i | 0 <= i < slots.Length :: slots[i]
    {
      && slots.Length == POOL_SIZE_MAX && length <= POOL_SIZE_MAX
      && (forall i :: 0 <= i < length ==> slots[i] != null && slots[i].Disposed())
      && (forall i, j :: 0 <= i < j < length ==> slots[i] != slots[j])
      && forall i :: length <= i < POOL_SIZE_MAX ==> slots[i] == null
    }

    ghost function Free(): seq<Container?<T>>
      reads this, slots
      requires length <= slots.Length
    {
      slots[..length]
    }

    constructor ()
      ensures Valid() && Free() == [] && fresh(slots)
    {
      slots := new Container?<T>[POOL_SIZE_MAX](_ => null);
      length := 0;
    }

    /** Obtain; `spare` stands for what the factory would return. */
    method Obtain(spare: T) returns (c: Container<T>)
      requires Valid()
      modifies this, slots, set i | 0 <= i < length :: slots[i]
      ensures Valid() && slots == old(slots)
      ensures !c.Disposed() && c.current == 0 && c.target == 1 && c !in Free()
      ensures old(length) == 0 ==> fresh(c) && c.data == spare && Free() == []
      ensures old(length) > 0 ==> old(Free()) == Free() + [c]
    {
      if length == 0 {
        c := new Container(spare);
      } else {
        length := length - 1;
        c := slots[length];
        slots[length] := null;
        c.Reset();
      }
    }

    /** release: a full pool lets the container go. */
    method Release(c: Container<T>) returns (kept: bool)
      requires Valid() && c.Disposed() && c !in Free()
      modifies `length, slots
      ensures Valid() && slots == old(slots)
      ensures kept <==> old(length) < POOL_SIZE_MAX
      ensures Free() == if kept then old(Free()) + [c] else old(Free())
    {
      if length >= POOL_SIZE_MAX {
        return false;
      }
      slots[length] := c;
      length := length + 1;
      return true;
    }

    /** Dispose of a container of this pool: the last of `target` disposals puts it on the free list. */
    method Dispose(c: Container<T>) returns (ok: bool)
      requires Valid()
      modifies this, slots, c
      ensures Valid() && slots == old(slots)
      ensures ok <==> !old(c.Disposed())
      ensures c.target == old(c.target) && c.current == if ok then old(c.current) + 1 else old(c.current)
      ensures Free() ==
        if ok && c.current == c.target && old(length) < POOL_SIZE_MAX then old(Free()) + [c] else old(Free())
    {
      if c.current >= c.target {
        return false;
      }
      assert c !in Free();
      c.current := c.current + 1;
      if c.current >= c.target {
        var kept := Release(c);
      }
      return true;
    }
  }
}
