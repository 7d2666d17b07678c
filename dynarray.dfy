/**
 * The dynamic arrays of ds.h (the ds_da_* macros): a data pointer, a
 * length and a capacity, grown by ds_da_reserve.  One class, Vec, stands
 * for every struct that ds_da_declare creates; the element type is its
 * type parameter.  A NULL data pointer is an array of length 0.
 */
module DynArray {
  import opened Wrappers

  /** DS_DA_INIT_CAPACITY. */
  const InitCapacity: nat := 1024

  /** The growth loop of ds_da_reserve: add half the capacity until `expected` fits. */
  function GrowFrom(cap: nat, expected: nat): (r: nat)
    requires cap >= 2
    ensures r >= expected && r >= cap
    ensures r == cap || 2 * r < 3 * expected
    decreases if expected <= cap then 0 else expected - cap
  {
    if expected <= cap then cap else GrowFrom(cap + cap / 2, expected)
  }

  /** The capacity ds_da_reserve leaves behind. A capacity of 1 would never grow, so it is excluded. */
  function ReservedCapacity(cap: nat, expected: nat): (r: nat)
    requires cap == 0 || cap >= 2
    ensures r >= expected && r >= cap
    ensures expected <= cap ==> r == cap
    ensures cap == 0 && expected > 0 ==> r >= InitCapacity
  {
    if expected <= cap then cap
    else GrowFrom(if cap == 0 then InitCapacity else cap, expected)
  }

  /** The array after `x` is placed at index `i` (ds_da_insert). */
  function InsertAt<T>(s: seq<T>, i: nat, x: T): seq<T>
    requires i <= |s|
  {
    s[..i] + [x] + s[i..]
  }

  /** The array after `d` elements starting at `i` are taken out (ds_da_remove). */
  function RemoveRange<T>(s: seq<T>, i: nat, d: nat): seq<T>
    requires i + d <= |s|
  {
    s[..i] + s[i + d..]
  }

  /** Insertion puts `x` at `i` and shifts everything from `i` on one place up. */
  lemma InsertAtElements<T>(s: seq<T>, i: nat, x: T)
    requires i <= |s|
    ensures |InsertAt(s, i, x)| == |s| + 1
    ensures forall j :: 0 <= j < |s| + 1 ==>
      InsertAt(s, i, x)[j] == if j < i then s[j] else if j == i then x else s[j - 1]
  {
  }

  /** Removal keeps the elements before `i` and moves the ones after the range down by `d`. */
  lemma RemoveRangeElements<T>(s: seq<T>, i: nat, d: nat)
    requires i + d <= |s|
    ensures |RemoveRange(s, i, d)| == |s| - d
    ensures forall j :: 0 <= j < |s| - d ==>
      RemoveRange(s, i, d)[j] == if j < i then s[j] else s[j + d]
  {
  }

  /** Removing the one element just inserted gives the original array back. */
  lemma RemoveUndoesInsert<T>(s: seq<T>, i: nat, x: T)
    requires i <= |s|
    ensures RemoveRange(InsertAt(s, i, x), i, 1) == s
  {
    assert InsertAt(s, i, x)[..i] == s[..i];
    assert InsertAt(s, i, x)[i + 1..] == s[i..];
  }

  /** The two examples of the header: [1,2,3] with 42 at 1, and removing 2 at 1 from [1,2,3,4,5]. */
  lemma HeaderExamples()
    ensures InsertAt([1, 2, 3], 1, 42) == [1, 42, 2, 3]
    ensures RemoveRange([1, 2, 3, 4, 5], 1, 2) == [1, 4, 5]
  {
  }

  /**
   * The body of ds_da_insert and ds_sb_insert on the block: move a[at .. n)
   * up by |items| places and copy `items` into the gap.
   */
  method OpenGap<T>(a: array<T>, at: nat, n: nat, items: seq<T>)
    requires at <= n && n + |items| <= a.Length
    modifies a
    ensures a[..n + |items|] == old(a[..n])[..at] + items + old(a[..n])[at..]
  {
    ghost var before := a[..n];
    var k := |items|;
    MoveUp(a, at, n, k);
    ghost var moved := a[..];
    assert moved[..at] == before[..at];
    assert moved[at + k..n + k] == before[at..];
    CopyInto(a, at, items);
    assert a[..at] == moved[..at];
    assert a[at..at + k] == items;
    assert a[at + k..n + k] == moved[at + k..n + k];
    assert a[..n + k] == a[..at] + a[at..at + k] + a[at + k..n + k];
  }

  /** The body of ds_da_remove on the block: move a[idx + del .. n) down over the `del` elements at `idx`. */
  method CloseGap<T>(a: array<T>, idx: nat, n: nat, del: nat)
    requires idx + del <= n <= a.Length
    modifies a
    ensures a[..n - del] == RemoveRange(old(a[..n]), idx, del)
  {
    ghost var before := a[..n];
    MoveDown(a, idx, n - del, del);
    assert a[..idx] == before[..idx];
    assert a[idx..n - del] == before[idx + del..];
    assert a[..n - del] == a[..idx] + a[idx..n - del];
  }

  /** memmove of a[lo .. hi) up by `gap` places, the copy running from the top down. */
  method MoveUp<T>(a: array<T>, lo: nat, hi: nat, gap: nat)
    requires lo <= hi && hi + gap <= a.Length
    modifies a
    ensures forall m {:trigger a[m]} :: lo + gap <= m < hi + gap ==> a[m] == old(a[m - gap])
    ensures forall m {:trigger a[m]} :: 0 <= m < lo + gap ==> a[m] == old(a[m])
    ensures forall m {:trigger a[m]} :: hi + gap <= m < a.Length ==> a[m] == old(a[m])
  {
    ghost var orig := a[..];
    var k := hi;
    while k > lo
      invariant lo <= k <= hi
      invariant forall m {:trigger a[m]} :: k + gap <= m < hi + gap ==> a[m] == orig[m - gap]
      invariant forall m {:trigger a[m]} :: 0 <= m < k + gap ==> a[m] == orig[m]
      invariant forall m {:trigger a[m]} :: hi + gap <= m < a.Length ==> a[m] == orig[m]
    {
      a[k - 1 + gap] := a[k - 1];
      k := k - 1;
    }
  }

  /** memmove of a[lo + gap .. hi + gap) down to a[lo .. hi), the copy running from the bottom up. */
  method MoveDown<T>(a: array<T>, lo: nat, hi: nat, gap: nat)
    requires lo <= hi && hi + gap <= a.Length
    modifies a
    ensures forall m {:trigger a[m]} :: lo <= m < hi ==> a[m] == old(a[m + gap])
    ensures forall m {:trigger a[m]} :: 0 <= m < lo ==> a[m] == old(a[m])
    ensures forall m {:trigger a[m]} :: hi <= m < a.Length ==> a[m] == old(a[m])
  {
    ghost var orig := a[..];
    var k := lo;
    while k < hi
      invariant lo <= k <= hi
      invariant forall m {:trigger a[m]} :: lo <= m < k ==> a[m] == orig[m + gap]
      invariant forall m {:trigger a[m]} :: 0 <= m < lo ==> a[m] == orig[m]
      invariant forall m {:trigger a[m]} :: k <= m < a.Length ==> a[m] == orig[m]
    {
      a[k] := a[k + gap];
      k := k + 1;
    }
  }

  /** memset of a[lo .. hi) to `v`. */
  method Fill<T>(a: array<T>, lo: nat, hi: nat, v: T)
    requires lo <= hi <= a.Length
    modifies a
    ensures forall m :: lo <= m < hi ==> a[m] == v
    ensures forall m :: 0 <= m < a.Length && (m < lo || hi <= m) ==> a[m] == old(a[m])
    ensures a[..lo] == old(a[..lo])
  {
    var k := lo;
    while k < hi
      invariant lo <= k <= hi
      invariant forall m :: lo <= m < k ==> a[m] == v
      invariant forall m :: 0 <= m < a.Length && (m < lo || k <= m) ==> a[m] == old(a[m])
    {
      a[k] := v;
      k := k + 1;
    }
    assert a[..lo] == old(a[..lo]);
  }

  /** memcpy of `items` into a[at .. at + |items|). */
  method CopyInto<T>(a: array<T>, at: nat, items: seq<T>)
    requires at + |items| <= a.Length
    modifies a
    ensures forall m :: 0 <= m < |items| ==> a[at + m] == items[m]
    ensures forall m :: 0 <= m < a.Length && (m < at || at + |items| <= m) ==> a[m] == old(a[m])
  {
    var j := 0;
    while j < |items|
      invariant 0 <= j <= |items|
      invariant forall m :: 0 <= m < j ==> a[at + m] == items[m]
      invariant forall m :: 0 <= m < a.Length && (m < at || at + j <= m) ==> a[m] == old(a[m])
    {
      a[at + j] := items[j];
      j := j + 1;
    }
  }

  class Vec<T> {
    /** The allocated block; its length is the capacity. */
    var data: array<T>
    var length: nat
    /** The all-zero-bytes value of the element type, which memset writes. */
    const zero: T

    ghost predicate Valid()
      reads this
    {
      length <= data.Length && (data.Length == 0 || data.Length >= InitCapacity)
    }

    /** The elements in use, data[0 .. length). */
    ghost function Elements(): seq<T>
      reads this, data
      requires Valid()
    {
      data[..length]
    }

    /** A zero-initialised array: NULL data, no elements, no capacity. */
    constructor (zero: T)
      ensures Valid() && fresh(data)
      ensures Elements() == [] && data.Length == 0 && this.zero == zero
    {
      this.zero := zero;
      data := new T[0](_ => zero);
      length := 0;
    }

    /** ds_da_reserve: grow the block (keeping the elements) until `expected` elements fit. */
    method Reserve(expected: nat)
      requires Valid()
      modifies this
      ensures Valid() && length == old(length)
      ensures data.Length == ReservedCapacity(old(data.Length), expected)
      ensures Elements() == old(Elements())
      ensures expected <= old(data.Length) ==> data == old(data)
      ensures data == old(data) || fresh(data)
    {
      if expected > data.Length {
        var cap := data.Length;
        if cap == 0 {
          cap := InitCapacity;
        }
        while expected > cap
          invariant cap >= InitCapacity
          invariant GrowFrom(cap, expected) == ReservedCapacity(data.Length, expected)
          decreases expected - cap
        {
          cap := cap + cap / 2;
        }
        var block := new T[cap](_ => zero);
        CopyInto(block, 0, data[..length]);
        assert block[..length] == data[..length];
        data := block;
      }
    }

    /** The copy-and-advance step of ds_da_append_many and _ds_sb_append, once capacity is there. */
    method CopyTail(items: seq<T>)
      requires Valid() && length + |items| <= data.Length
      modifies this, data
      ensures Valid() && data == old(data)
      ensures Elements() == old(Elements()) + items
    {
      var i := 0;
      while i < |items|
        invariant 0 <= i <= |items|
        invariant data == old(data) && length == old(length)
        invariant data[..length + i] == old(Elements()) + items[..i]
      {
        data[length + i] := items[i];
        assert items[..i + 1] == items[..i] + [items[i]];
        i := i + 1;
      }
      assert items[..i] == items;
      length := length + |items|;
    }

    /** ds_da_append: reserve room for one more, then store `item` after the last element. */
    method Append(item: T)
      requires Valid()
      modifies this, data
      ensures Valid()
      ensures Elements() == old(Elements()) + [item]
      ensures data.Length == ReservedCapacity(old(data.Length), old(length) + 1)
    {
      Reserve(length + 1);
      CopyTail([item]);
    }

    /** ds_da_append_many: a no-op for no items, else reserve and copy them after the last element. */
    method AppendMany(items: seq<T>)
      requires Valid()
      modifies this, data
      ensures Valid()
      ensures Elements() == old(Elements()) + items
      ensures items == [] ==> data == old(data)
      ensures items != [] ==> data.Length == ReservedCapacity(old(data.Length), old(length) + |items|)
    {
      if |items| == 0 {
        return;
      }
      Reserve(length + |items|);
      CopyTail(items);
    }

    /** ds_da_pop: the last element, which is dropped from the array. */
    method Pop() returns (item: T)
      requires Valid() && length > 0
      modifies this
      ensures Valid() && data == old(data)
      ensures item == old(Elements())[old(length) - 1]
      ensures Elements() == old(Elements())[..old(length) - 1]
    {
      length := length - 1;
      item := data[length];
    }

    /**
     * ds_da_remove: when `idx` is in range, move the tail down over `del` elements
     * and zero the slots left behind; otherwise nothing changes.
     */
    method Remove(idx: nat, del: nat)
      requires Valid()
      requires idx < length ==> idx + del <= length
      modifies this, data
      ensures Valid() && data == old(data)
      ensures idx >= old(length) ==> length == old(length) && data[..] == old(data[..])
      ensures idx < old(length) ==> Elements() == RemoveRange(old(Elements()), idx, del)
      ensures idx < old(length) ==> forall k :: length <= k < old(length) ==> data[k] == zero
    {
      if data.Length > 0 && idx < length {
        CloseGap(data, idx, length, del);
        length := length - del;
        Fill(data, length, length + del, zero);
      }
    }

    /** ds_da_insert: clamp `idx` to the length, shift the tail up by one, store `item` there. */
    method Insert(idx: nat, item: T) returns (at: nat)
      requires Valid()
      modifies this, data
      ensures Valid()
      ensures at == if idx > old(length) then old(length) else idx
      ensures Elements() == InsertAt(old(Elements()), at, item)
      ensures data.Length == ReservedCapacity(old(data.Length), old(length) + 1)
    {
      at := if idx > length then length else idx;
      Reserve(length + 1);
      OpenGap(data, at, length, [item]);
      length := length + 1;
    }

    /** ds_da_find: the index of the first element satisfying `p` (the pointer of the source), if any. */
    method Find(p: T -> bool) returns (r: Option<nat>)
      requires Valid()
      ensures r.Some? ==> r.value < length && p(data[r.value])
      ensures r.Some? ==> forall j :: 0 <= j < r.value ==> !p(data[j])
      ensures r.None? ==> forall j :: 0 <= j < length ==> !p(data[j])
    {
      var i := 0;
      while i < length
        invariant 0 <= i <= length
        invariant forall j :: 0 <= j < i ==> !p(data[j])
      {
        if p(data[i]) {
          return Some(i);
        }
        i := i + 1;
      }
      return None;
    }

    /** ds_da_index_of: the index of the first element satisfying `p`, or -1. */
    method IndexOf(p: T -> bool) returns (r: int)
      requires Valid()
      ensures -1 <= r < length
      ensures r >= 0 ==> p(data[r]) && forall j :: 0 <= j < r ==> !p(data[j])
      ensures r == -1 ==> forall j :: 0 <= j < length ==> !p(data[j])
    {
      r := -1;
      var i := 0;
      while i < length
        invariant 0 <= i <= length
        invariant forall j :: 0 <= j < i ==> !p(data[j])
      {
        if p(data[i]) {
          r := i;
          return;
        }
        i := i + 1;
      }
    }
  }
}
