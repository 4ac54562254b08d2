/** The `sync.Pool`s of slices and responses, and who owns what they hold. */
module ObjectPool {
  import opened Types

  /** A pointer to a Go slice: a backing array and a length. Its capacity is the
      length of the backing array. */
  class Slice<T(0)> {
    var data: array<T>
    var len: nat

    constructor (capacity: nat)
      ensures fresh(data) && data.Length == capacity && len == 0
    {
      data := new T[capacity];
      len := 0;
    }
  }

  /** A pool of slices. `free` is what the pool may hand out again; `lent` is what
      borrowers hold. `Repr` is what a pool operation may touch: the free slices
      and their backing arrays, never a lent one. */
  class SlicePool<T(0)> {
    const initialCapacity: nat
    var free: set<Slice<T>>
    ghost var lent: set<Slice<T>>
    ghost var Repr: set<object>

    ghost predicate Valid()
      reads this, Repr, lent
    {
      && this in Repr
      && (forall s | s in free :: s in Repr && s.data in Repr && s.len == 0)
      && (forall s | s in lent :: s !in Repr && s.data !in Repr)
      && (forall s, t | s in free && t in free && s != t :: s.data != t.data)
      && (forall s, t | s in lent && t in lent && s != t :: s.data != t.data)
    }

    constructor (capacity: nat)
      ensures Valid() && fresh(Repr) && lent == {} && initialCapacity == capacity
    {
      initialCapacity := capacity;
      free := {};
      lent := {};
      Repr := {this};
    }

    /** `Get` of the pool, followed by resetting the length. Which stored slice
        comes back, or whether one does, is not determined; its backing array
        still has whatever its last borrower left there. */
    method Take() returns (s: Slice<T>)
      requires Valid()
      modifies this, free
      ensures Valid() && fresh(Repr - old(Repr))
      ensures s !in old(lent) && lent == old(lent) + {s} && free <= old(free) && s.len == 0
      ensures (s in old(free) || fresh(s)) && fresh({s, s.data} - old(Repr))
      ensures forall t | t in old(lent) :: s.data != t.data
      ensures s in old(free) ==> s.data == old(s.data)
      ensures s !in old(free) ==> s.data.Length == initialCapacity
    {
      var reuse := *;
      if reuse && free != {} {
        s :| s in free;
        free := free - {s};
      } else {
        s := new Slice<T>(initialCapacity);
      }
      Repr := Repr - {s, s.data};
      lent := lent + {s};
      s.len := 0;
    }

    /** `Put` of the pool, after setting the length to zero. */
    method GiveBack(s: Slice<T>)
      requires Valid() && s in lent
      modifies this, s
      ensures Valid() && lent == old(lent) - {s} && free == old(free) + {s}
      ensures Repr == old(Repr) + {s, s.data} && s.data == old(s.data)
    {
      s.len := 0;
      lent := lent - {s};
      free := free + {s};
      Repr := Repr + {s, s.data};
    }
  }

  method GetFloat64Slice(pool: SlicePool<real>, capacity: nat) returns (s: Slice<real>)
    requires pool.Valid()
    modifies pool, pool.free
    ensures pool.Valid() && fresh(pool.Repr - old(pool.Repr))
    ensures s !in old(pool.lent) && pool.lent == old(pool.lent) + {s} && pool.free <= old(pool.free) && s.len == 0
    ensures capacity <= s.data.Length
    ensures (s in old(pool.free) || fresh(s)) && fresh({s, s.data} - old(pool.Repr))
    ensures forall t | t in old(pool.lent) :: s.data != t.data
    ensures s in old(pool.free) && old(s.data.Length) >= capacity ==> s.data == old(s.data)
    ensures s in old(pool.free) && old(s.data.Length) < capacity ==> s.data.Length == capacity
  {
    s := pool.Take();
    if s.data.Length < capacity {
      s.data := new real[capacity];
    }
  }

  method PutFloat64Slice(pool: SlicePool<real>, s: Slice?<real>)
    requires pool.Valid() && (s != null ==> s in pool.lent)
    modifies pool, s
    ensures pool.Valid()
    ensures s == null ==> pool.lent == old(pool.lent) && pool.free == old(pool.free) && pool.Repr == old(pool.Repr)
    ensures s != null ==> pool.lent == old(pool.lent) - {s} && pool.free == old(pool.free) + {s}
    ensures s != null ==> pool.Repr == old(pool.Repr) + {s, s.data} && s.data == old(s.data)
  {
    if s == null {
      return;
    }
    pool.GiveBack(s);
  }

  /** A pointer to a `Response` struct. */
  class ResponseRef {
    var value: Response

    constructor ()
      ensures value == ZERO_RESPONSE
    {
      value := ZERO_RESPONSE;
    }
  }

  method GetResponseSlice(pool: SlicePool<ResponseRef?>) returns (s: Slice<ResponseRef?>)
    requires pool.Valid()
    modifies pool, pool.free
    ensures pool.Valid() && fresh(pool.Repr - old(pool.Repr))
    ensures s !in old(pool.lent) && pool.lent == old(pool.lent) + {s} && pool.free <= old(pool.free) && s.len == 0
    ensures (s in old(pool.free) || fresh(s)) && fresh({s, s.data} - old(pool.Repr))
    ensures forall t | t in old(pool.lent) :: s.data != t.data
  {
    s := pool.Take();
  }

  /** The clearing loop runs over the slice's current length: exactly the first
      `len` pointers are cleared, and anything stored beyond stays in the array. */
  method PutResponseSlice(pool: SlicePool<ResponseRef?>, s: Slice?<ResponseRef?>)
    requires pool.Valid() && (s != null ==> s in pool.lent && s.len <= s.data.Length)
    modifies pool, s, if s == null then {} else {s.data}
    ensures pool.Valid()
    ensures s == null ==> pool.lent == old(pool.lent) && pool.free == old(pool.free) && pool.Repr == old(pool.Repr)
    ensures s != null ==> pool.lent == old(pool.lent) - {s} && pool.free == old(pool.free) + {s}
    ensures s != null ==> pool.Repr == old(pool.Repr) + {s, s.data} && s.data == old(s.data)
    ensures s != null ==> forall i | 0 <= i < s.data.Length ::
                s.data[i] == if i < old(s.len) then null else old(s.data[i])
  {
    if s == null {
      return;
    }
    var i := 0;
    while i < s.len
      invariant 0 <= i <= s.len
      invariant forall k | 0 <= k < s.data.Length :: s.data[k] == if k < i then null else old(s.data[k])
      modifies s.data
    {
      s.data[i] := null;
      i := i + 1;
    }
    pool.GiveBack(s);
  }

  /** The pool of response structs. Every struct in it has been zeroed. */
  class ResponsePool {
    var free: set<ResponseRef>
    ghost var lent: set<ResponseRef>

    ghost predicate Valid()
      reads this, free
    {
      free !! lent && forall r | r in free :: r.value == ZERO_RESPONSE
    }

    ghost function Repr(): set<object>
      reads this
    {
      {this} + free
    }

    constructor ()
      ensures Valid() && fresh(Repr()) && lent == {}
    {
      free := {};
      lent := {};
    }

    /** A zeroed response that nobody else holds. */
    method GetResponse() returns (r: ResponseRef)
      requires Valid()
      modifies this
      ensures Valid() && fresh(Repr() - old(Repr())) && free <= old(free)
      ensures r !in old(lent) && lent == old(lent) + {r} && r.value == ZERO_RESPONSE
      ensures fresh({r} - old(Repr()))
    {
      var reuse := *;
      if reuse && free != {} {
        r :| r in free;
        free := free - {r};
      } else {
        r := new ResponseRef();
      }
      lent := lent + {r};
    }

    method PutResponse(r: ResponseRef?)
      requires Valid() && (r != null ==> r in lent)
      modifies this, r
      ensures Valid()
      ensures r == null ==> lent == old(lent) && free == old(free)
      ensures r != null ==> lent == old(lent) - {r} && free == old(free) + {r}
    {
      if r == null {
        return;
      }
      r.value := ZERO_RESPONSE;
      lent := lent - {r};
      free := free + {r};
    }
  }
}
