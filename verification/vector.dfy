/**
 * The growable vector of change8/dynamicIntArray.c (copied into change9
 * and change13): an array, the number of elements in use and the array's
 * capacity. It starts at capacity 64, doubles when an insertion finds it
 * full and halves (never below 64) when a removal leaves it less than a
 * quarter full. The copies differ in remove_at, whose shrink test reads
 * the size from before the removal (`RemoveAtSizeBefore`), and in clear,
 * whose change9 form never exits (see the module AsWritten).
 *
 * An index outside [0, size) makes the C functions abort; here the
 * operation reports that instead of changing anything.
 */
module DynamicArray {
  import opened Wrappers

  const INITIAL_CAPACITY: nat := 64

  /** The capacities a vector can reach: 64 doubled any number of times. */
  predicate IsCapacity(c: nat)
    decreases c
  {
    c == INITIAL_CAPACITY || (c > INITIAL_CAPACITY && c % 2 == 0 && IsCapacity(c / 2))
  }

  lemma {:induction false} CapacityAtLeastInitial(c: nat)
    requires IsCapacity(c)
    ensures c >= INITIAL_CAPACITY
  {
  }

  function Min(x: int, y: int): int
  {
    if x < y then x else y
  }

  class Vector<T(0)> {
    var data: array<T>
    var size: nat
    var capacity: nat

    ghost predicate Valid()
      reads this
    {
      capacity == data.Length && size <= capacity && IsCapacity(capacity)
    }

    ghost function Repr(): set<object>
      reads this
    {
      {this, data}
    }

    /** The elements in use, in order. */
    ghost function Elements(): seq<T>
      reads this, data
      requires Valid()
    {
      data[..size]
    }

    /** uint32_vector_new: an empty vector of capacity 64. */
    constructor ()
      ensures Valid() && fresh(data)
      ensures Elements() == [] && capacity == INITIAL_CAPACITY
    {
      data := new T[INITIAL_CAPACITY];
      size := 0;
      capacity := INITIAL_CAPACITY;
      assert IsCapacity(INITIAL_CAPACITY);
    }

    /** uint32_vector_double_capacity: copy into an array twice as large. */
    method DoubleCapacity()
      requires Valid()
      modifies this
      ensures Valid() && fresh(data)
      ensures capacity == 2 * old(capacity) && Elements() == old(Elements())
    {
      var newCapacity := 2 * capacity;
      var newArray := new T[newCapacity];
      var i := 0;
      while i < size
        modifies newArray
        invariant newArray.Length == 2 * capacity
        invariant 0 <= i <= size
        invariant newArray[..i] == data[..i]
      {
        newArray[i] := data[i];
        i := i + 1;
      }
      assert newArray[..size] == data[..size];
      data := newArray;
      capacity := newCapacity;
    }

    /**
     * uint32_vector_half_capacity: above capacity 64, copy into an array half
     * as large, dropping the elements that do not fit; at 64 or below, nothing.
     */
    method HalfCapacity()
      requires Valid()
      modifies this
      ensures Valid()
      ensures old(capacity) <= INITIAL_CAPACITY ==>
        data == old(data) && capacity == old(capacity) && size == old(size) && Elements() == old(Elements())
      ensures old(capacity) > INITIAL_CAPACITY ==>
        fresh(data) && capacity == old(capacity) / 2 && size == Min(old(size), capacity) &&
        Elements() == old(Elements())[..size]
      ensures 4 * old(size) < old(capacity) ==> Elements() == old(Elements())
    {
      if capacity <= INITIAL_CAPACITY {
        return;
      }
      var newCapacity := capacity / 2;
      var newArray := new T[newCapacity];
      var n := Min(size, newCapacity);
      var i := 0;
      while i < n
        modifies newArray
        invariant newArray.Length == newCapacity && n <= size && n <= newCapacity
        invariant 0 <= i <= n
        invariant newArray[..i] == data[..i]
      {
        newArray[i] := data[i];
        i := i + 1;
      }
      assert newArray[..n] == data[..n];
      data := newArray;
      capacity := newCapacity;
      size := n;
    }

    /** uint32_vector_addhi: append, doubling first when full. */
    method AddHi(value: T)
      requires Valid()
      modifies this, data
      ensures Valid() && (data == old(data) || fresh(data))
      ensures Elements() == old(Elements()) + [value]
      ensures capacity == if old(size) >= old(capacity) then 2 * old(capacity) else old(capacity)
    {
      if size >= capacity {
        DoubleCapacity();
      }
      data[size] := value;
      size := size + 1;
    }

    /** uint32_vector_get: the element at i, or None where the C code aborts. */
    method Get(i: int) returns (r: Option<T>)
      requires Valid()
      ensures r.Some? <==> 0 <= i < |Elements()|
      ensures r.Some? ==> r.value == Elements()[i]
    {
      if i < 0 || i >= size {
        return None;
      }
      return Some(data[i]);
    }

    /** uint32_vector_put: overwrite the element at i; false where the C code aborts. */
    method Put(i: int, value: T) returns (ok: bool)
      requires Valid()
      modifies data
      ensures Valid()
      ensures ok <==> 0 <= i < old(|Elements()|)
      ensures Elements() == if ok then old(Elements())[i := value] else old(Elements())
    {
      if i < 0 || i >= size {
        return false;
      }
      data[i] := value;
      return true;
    }

    /**
     * uint32_vector_add_at: insert before position i (which must hold an
     * element), shifting the tail up by one.
     */
    method AddAt(i: int, value: T) returns (ok: bool)
      requires Valid()
      modifies this, data
      ensures Valid() && (data == old(data) || fresh(data))
      ensures ok <==> 0 <= i < old(|Elements()|)
      ensures ok ==> Elements() == old(Elements())[..i] + [value] + old(Elements())[i..]
      ensures !ok ==> Elements() == old(Elements())
    {
      if i < 0 || i >= size {
        return false;
      }
      if size >= capacity {
        DoubleCapacity();
      }
      ghost var before := data[..size];
      var j := size;
      while j > i
        modifies data
        invariant size < capacity && |before| == size
        invariant i <= j <= size
        invariant forall k :: 0 <= k < j ==> data[k] == before[k]
        invariant forall k :: j < k <= size ==> data[k] == before[k - 1]
      {
        data[j] := data[j - 1];
        j := j - 1;
      }
      data[i] := value;
      size := size + 1;
      ghost var expected := before[..i] + [value] + before[i..];
      assert |expected| == size;
      forall k | 0 <= k < size
        ensures data[k] == expected[k]
      {
        if k < i {
        } else if k == i {
        } else {
          assert expected[k] == before[k - 1];
        }
      }
      assert data[..size] == expected;
      ok := true;
    }

    /** The shifting loop of remove_at: the elements after i move down one place over it. */
    method ShiftDownOver(i: nat)
      requires Valid() && i < size
      modifies this, data
      ensures Valid() && data == old(data) && capacity == old(capacity) && size == old(size) - 1
      ensures Elements() == old(Elements())[..i] + old(Elements())[i + 1..]
    {
      ghost var before := data[..size];
      var j := i + 1;
      while j < size
        modifies data
        invariant |before| == size
        invariant i + 1 <= j <= size
        invariant forall k :: 0 <= k < i ==> data[k] == before[k]
        invariant forall k :: i <= k < j - 1 ==> data[k] == before[k + 1]
        invariant forall k :: j <= k < size ==> data[k] == before[k]
      {
        data[j - 1] := data[j];
        j := j + 1;
      }
      size := size - 1;
      assert data[..size] == before[..i] + before[i + 1..];
    }

    /**
     * uint32_vector_remove_at: remove and return the element at i, shifting
     * the tail down by one, then halve the capacity when the vector has become
     * less than a quarter full (the test reads the size after the removal).
     */
    method RemoveAt(i: int) returns (r: Option<T>)
      requires Valid()
      modifies this, data
      ensures Valid() && (data == old(data) || fresh(data))
      ensures r.Some? <==> 0 <= i < old(|Elements()|)
      ensures r.Some? ==>
        r.value == old(Elements())[i] && Elements() == old(Elements())[..i] + old(Elements())[i + 1..]
      ensures r.None? ==> Elements() == old(Elements()) && capacity == old(capacity)
      ensures r.Some? ==>
        capacity == if 4 * (old(size) - 1) < old(capacity) && old(capacity) > INITIAL_CAPACITY
                    then old(capacity) / 2 else old(capacity)
    {
      if i < 0 || i >= size {
        return None;
      }
      var ret := data[i];
      ShiftDownOver(i);
      if 4 * size < capacity {
        HalfCapacity();
      }
      return Some(ret);
    }

    /**
     * The remove_at of change9 and change13: the index is checked only
     * against the size, and the shrink test reads the size from before the
     * removal, so the vector halves when it was less than a quarter full
     * before the element went. It still never drops an element.
     */
    method RemoveAtSizeBefore(i: nat) returns (r: Option<T>)
      requires Valid()
      modifies this, data
      ensures Valid() && (data == old(data) || fresh(data))
      ensures r.Some? <==> i < old(|Elements()|)
      ensures r.Some? ==>
        r.value == old(Elements())[i] && Elements() == old(Elements())[..i] + old(Elements())[i + 1..]
      ensures r.None? ==> Elements() == old(Elements()) && capacity == old(capacity)
      ensures r.Some? ==>
        capacity == if 4 * old(size) < old(capacity) && old(capacity) > INITIAL_CAPACITY
                    then old(capacity) / 2 else old(capacity)
    {
      if i >= size {
        return None;
      }
      var ret := data[i];
      var sizeBefore := size;
      ShiftDownOver(i);
      if 4 * sizeBefore < capacity {
        HalfCapacity();
      }
      return Some(ret);
    }

    /** uint32_vector_is_empty. */
    function IsEmpty(): (b: bool)
      reads this, data
      requires Valid()
      ensures b <==> Elements() == []
    {
      size == 0
    }

    /** uint32_vector_length. */
    function Length(): (n: nat)
      reads this, data
      requires Valid()
      ensures n == |Elements()|
    {
      size
    }

    /** uint32_vector_clear: empty the vector and halve it back down to capacity 64. */
    method Clear()
      requires Valid()
      modifies this
      ensures Valid() && Elements() == [] && capacity == INITIAL_CAPACITY
    {
      size := 0;
      while capacity > INITIAL_CAPACITY
        invariant Valid() && size == 0
        decreases capacity
      {
        HalfCapacity();
      }
      CapacityAtLeastInitial(capacity);
    }

    /**
     * The clear of change13: the loop tests a copy of the capacity taken
     * before the loop, so it ends by the return inside its body.
     */
    method ClearFromSnapshot()
      requires Valid()
      modifies this
      ensures Valid() && Elements() == [] && capacity == INITIAL_CAPACITY
    {
      size := 0;
      var snapshot := capacity;
      while snapshot > INITIAL_CAPACITY
        invariant Valid() && size == 0
        decreases capacity
      {
        if capacity <= INITIAL_CAPACITY {
          CapacityAtLeastInitial(capacity);
          return;
        }
        HalfCapacity();
      }
      CapacityAtLeastInitial(capacity);
    }
  }
}
