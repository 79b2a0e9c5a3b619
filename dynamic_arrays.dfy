/** The macro-generic growable array of arrays.h: a record of `items`,
    `count` and `capacity` that every macro updates in place. */
module DynamicArrays {

  function Min(a: int, b: int): int { if a <= b then a else b }
  function Max(a: int, b: int): int { if a >= b then a else b }

  /** Capacity of the first growth: a zero capacity is seeded to 256 and then doubled. */
  const FirstGrowth: nat := 512

  /** `s` with positions `i` and `j` exchanged. */
  function Swapped<T>(s: seq<T>, i: nat, j: nat): (r: seq<T>)
    requires i < |s| && j < |s|
    ensures |r| == |s| && r[i] == s[j] && r[j] == s[i]
    ensures forall k | 0 <= k < |s| && k != i && k != j :: r[k] == s[k]
  {
    s[i := s[j]][j := s[i]]
  }

  /** Exchanging the same two positions twice restores the sequence,
      and exchanging a position with itself changes nothing. */
  lemma SwappedInvolution<T>(s: seq<T>, i: nat, j: nat)
    requires i < |s| && j < |s|
    ensures Swapped(Swapped(s, i, j), i, j) == s
    ensures Swapped(s, i, i) == s
  {
    var t := Swapped(Swapped(s, i, j), i, j);
    assert forall k | 0 <= k < |s| :: t[k] == s[k];
  }

  /** A swap inside the prefix `s[..n]` permutes that prefix and leaves the rest alone. */
  lemma {:induction false} SwappedPermutesPrefix<T>(s: seq<T>, i: nat, j: nat, n: nat)
    requires i < n && j < n && n <= |s|
    ensures multiset(Swapped(s, i, j)[..n]) == multiset(s[..n])
    ensures Swapped(s, i, j)[n..] == s[n..]
  {
    var t := Swapped(s, i, j);
    assert t[..n] == s[..n][i := s[j]][j := s[i]];
    assert t[n..] == s[n..];
  }

  /** The storage after `realloc` to `n` slots: the first min(old, new) slots
      are kept, the others hold whatever `fill` is. */
  function Resized<T>(s: seq<T>, n: nat, fill: T): (r: seq<T>)
    ensures |r| == n
    ensures r[..Min(|s|, n)] == s[..Min(|s|, n)]
  {
    if n <= |s| then s[..n] else s + seq(n - |s|, _ => fill)
  }

  /** Capacity reached by doubling from `c` until it holds `n` elements. */
  function GrowFrom(c: nat, n: nat): (r: nat)
    requires c > 0
    decreases n - c
  {
    if n <= c then c else GrowFrom(2 * c, n)
  }

  /** Capacity of an array built from the zero record by `n` appends alone. */
  function GrownCapacity(n: nat): nat
  {
    if n == 0 then 0 else GrowFrom(FirstGrowth, n)
  }

  lemma {:induction false} GrowFromBounds(c: nat, n: nat)
    requires c > 0
    ensures c <= GrowFrom(c, n) && n <= GrowFrom(c, n)
    ensures n > c ==> GrowFrom(c, n) < 2 * n
    decreases n - c
  {
    if n > c {
      GrowFromBounds(2 * c, n);
    }
  }

  /** Appending only: capacity is at least the count and, past the seed, less than
      twice the count (amortised doubling). */
  lemma GrownCapacityBounds(n: nat)
    ensures n <= GrownCapacity(n)
    ensures n > FirstGrowth / 2 ==> GrownCapacity(n) < 2 * n
  {
    if n > 0 {
      GrowFromBounds(FirstGrowth, n);
    }
  }

  lemma {:induction false} GrowFromStep(c: nat, n: nat)
    requires c > 0
    ensures GrowFrom(c, n + 1) == if n < GrowFrom(c, n) then GrowFrom(c, n) else 2 * GrowFrom(c, n)
    decreases n - c
  {
    if n > c {
      GrowFromStep(2 * c, n);
    } else if n == c {
      assert GrowFrom(2 * c, n + 1) == 2 * c;
    }
  }

  /** One append keeps the capacity of an append-only array at GrownCapacity(count). */
  lemma GrownCapacityStep(n: nat)
    ensures GrownCapacity(n + 1) ==
      if n < GrownCapacity(n) then GrownCapacity(n)
      else if GrownCapacity(n) == 0 then FirstGrowth
      else 2 * GrownCapacity(n)
  {
    if n > 0 {
      GrowFromStep(FirstGrowth, n);
      GrowFromBounds(FirstGrowth, n);
    }
  }

  /** The part of a stack of (start, end) ranges that is still unsorted, as the
      sum of the squared widths of its ranges of two or more elements. */
  function RangeWeight(start: int, end: int): nat
  {
    if start < end then (end - start + 1) * (end - start + 1) else 0
  }

  function StackWeight(stack: seq<int>): nat
  {
    if |stack| < 2 then 0
    else StackWeight(stack[..|stack| - 2]) + RangeWeight(stack[|stack| - 2], stack[|stack| - 1])
  }

  lemma StackWeightPush(stack: seq<int>, start: int, end: int)
    ensures StackWeight(stack + [start, end]) == StackWeight(stack) + RangeWeight(start, end)
  {
    var s := stack + [start, end];
    assert s[..|s| - 2] == stack;
  }

  /** Every index on the stack is a position in use. */
  ghost predicate InRange(stack: seq<int>, count: nat)
  {
    forall k | 0 <= k < |stack| :: 0 <= stack[k] < count
  }

  lemma InRangePop(stack: seq<int>, count: nat)
    requires InRange(stack, count) && |stack| >= 2
    ensures InRange(stack[..|stack| - 2], count)
    ensures 0 <= stack[|stack| - 2] < count && 0 <= stack[|stack| - 1] < count
  {
  }

  lemma InRangePush(stack: seq<int>, start: int, end: int, count: nat)
    requires InRange(stack, count) && 0 <= start < count && 0 <= end < count
    ensures InRange(stack + [start, end], count)
  {
  }

  lemma MulLeft(x: int, y: int, z: int)
    requires x >= 0 && y <= z
    ensures x * y <= x * z
  {
  }

  /** Splitting a range at a crossed partition leaves strictly less weight. */
  lemma PartitionShrinks(start: int, end: int, left: int, right: int)
    requires start < end && start < left && right < end && right < left
    ensures RangeWeight(start, right) + RangeWeight(left, end) < RangeWeight(start, end)
  {
    var n := end - start + 1;
    var a := right - start + 1;
    var b := end - left + 1;
    assert RangeWeight(start, end) == n * n;
    assert n * n == n * (n - 1) + n;
    MulLeft(n - 1, 0, n - 1);
    if start < right && left < end {
      MulLeft(a, a, n - 1);
      MulLeft(b, b, n - 1);
      MulLeft(n - 1, a + b, n);
      assert a * (n - 1) + b * (n - 1) == (n - 1) * (a + b);
      assert n * (n - 1) == (n - 1) * n;
    } else if start < right {
      MulLeft(a, a, n - 1);
      MulLeft(n - 1, a, n);
      assert a * (n - 1) == (n - 1) * a;
      assert n * (n - 1) == (n - 1) * n;
    } else if left < end {
      MulLeft(b, b, n - 1);
      MulLeft(n - 1, b, n);
      assert b * (n - 1) == (n - 1) * b;
      assert n * (n - 1) == (n - 1) * n;
    }
  }

  /** A growable array: `items` is the allocated storage (`[]` stands for a NULL
      pointer), `count` the number of elements in use, `capacity` the recorded size. */
  class DynArray<T(0,!new)> {
    var items: seq<T>
    var count: nat
    var capacity: nat

    /** The storage matches the recorded capacity and holds every element in use. */
    ghost predicate Valid()
      reads this
    {
      count <= capacity && |items| == capacity
    }

    /** The elements in use. */
    function Contents(): seq<T>
      reads this
      requires count <= |items|
    {
      items[..count]
    }

    /** The zero-initialised record `{0}`. */
    constructor ()
      ensures items == [] && count == 0 && capacity == 0
      ensures Valid() && Contents() == []
    {
      items, count, capacity := [], 0, 0;
    }

    /** da_append: grow when full (0 becomes 256 then 512, otherwise doubling),
        then store `x` at the old count. */
    method Append(x: T)
      requires Valid()
      modifies this
      ensures Valid()
      ensures count == old(count) + 1
      ensures Contents() == old(Contents()) + [x]
      ensures capacity ==
        if old(count) < old(capacity) then old(capacity)
        else if old(capacity) == 0 then FirstGrowth
        else 2 * old(capacity)
      ensures old(capacity) == GrownCapacity(old(count)) ==> capacity == GrownCapacity(count)
    {
      GrownCapacityStep(count);
      if count >= capacity {
        if capacity == 0 {
          capacity := 256;
        }
        capacity := capacity * 2;
        var fill: T := *;
        items := Resized(items, capacity, fill);
      }
      items := items[count := x];
      count := count + 1;
    }

    /** da_capacity: record capacity `n` and reallocate to it; `count` is left alone. */
    method SetCapacity(n: nat)
      modifies this
      ensures capacity == n && |items| == n && count == old(count)
      ensures items[..Min(old(|items|), n)] == old(items)[..Min(old(|items|), n)]
    {
      capacity := n;
      var fill: T := *;
      items := Resized(items, capacity, fill);
    }

    /** da_replace: grow to 2 * (i + 1) when `i` is past the capacity, extend the
        count to cover `i`, and store `x` at `i`. */
    method Replace(i: nat, x: T)
      requires |items| == capacity
      modifies this
      ensures |items| == capacity
      ensures capacity == if i >= old(capacity) then 2 * (i + 1) else old(capacity)
      ensures count == Max(old(count), i + 1)
      ensures items[i] == x
      ensures forall k | 0 <= k < old(capacity) && k != i :: items[k] == old(items[k])
      ensures old(count) <= old(capacity) ==> Valid()
    {
      if i >= capacity {
        capacity := (i + 1) * 2;
        var fill: T := *;
        items := Resized(items, capacity, fill);
      }
      if i >= count {
        count := i + 1;
      }
      items := items[i := x];
    }

    /** da_free: release the storage and reset the count; the capacity is left stale. */
    method Free()
      modifies this
      ensures items == [] && count == 0 && capacity == old(capacity)
    {
      items := [];
      count := 0;
    }

    /** da_empty: free, then allocate fresh storage of the (stale) capacity. */
    method Empty()
      modifies this
      ensures count == 0 && capacity == old(capacity) && |items| == capacity
      ensures Valid() && Contents() == []
    {
      Free();
      var fill: T := *;
      items := seq(capacity, _ => fill);
    }

    /** da_swap: exchange the elements at `i` and `j`. */
    method Swap(i: nat, j: nat)
      requires i < |items| && j < |items|
      modifies this
      ensures items == Swapped(old(items), i, j)
      ensures count == old(count) && capacity == old(capacity)
    {
      var tmp := items[i];
      items := items[i := items[j]];
      items := items[j := tmp];
    }

    /** da_clone: a new record with the same count and capacity, its own storage of
        `capacity` slots, and a copy of the elements in use. */
    method Clone() returns (ys: DynArray<T>)
      requires count <= capacity && count <= |items|
      ensures fresh(ys)
      ensures ys.count == count && ys.capacity == capacity && |ys.items| == capacity
      ensures ys.Valid() && ys.Contents() == Contents()
    {
      ys := new DynArray();
      ys.capacity := capacity;
      ys.count := count;
      var fill: T := *;
      ys.items := items[..count] + seq(capacity - count, _ => fill);
      assert ys.items[..count] == items[..count];
    }

    /** One partition step of da_quicksort over `start..end` (both inclusive):
        the cursors scan towards each other against the element currently at the
        pivot index and swap out-of-place pairs until they cross. The scans carry
        the explicit guards `left <= end` and `right >= start`. */
    method Partition(cmp: (T, T) -> int, start: int, end: int) returns (left: int, right: int)
      requires count <= |items| && 0 <= start < end < count
      requires forall x :: cmp(x, x) == 0
      modifies this
      ensures count == old(count) && capacity == old(capacity) && |items| == old(|items|)
      ensures multiset(items[..count]) == multiset(old(items[..count]))
      ensures items[count..] == old(items[count..])
      ensures start < left <= end + 1 && start - 1 <= right < end && right < left
    {
      var pivot := start + (end - start) / 2;
      left := start;
      right := end;
      while left <= right
        invariant count == old(count) && capacity == old(capacity) && |items| == old(|items|)
        invariant multiset(items[..count]) == multiset(old(items[..count]))
        invariant items[count..] == old(items[count..])
        invariant start <= left <= end + 1 && start - 1 <= right <= end
        invariant (left == start && right == end) || (start < left && right < end)
        decreases right - left + 1
      {
        ghost var first := left == start && right == end;
        assert cmp(items[pivot], items[pivot]) == 0;
        while left <= end && cmp(items[left], items[pivot]) < 0
          invariant start <= left <= end + 1
          invariant first ==> left <= pivot
          modifies {}
          decreases end + 1 - left
        {
          left := left + 1;
        }
        while right >= start && cmp(items[right], items[pivot]) > 0
          invariant start - 1 <= right <= end
          invariant first ==> pivot <= right
          modifies {}
          decreases right - start + 1
        {
          right := right - 1;
        }
        if left <= right {
          SwappedPermutesPrefix(items, left, right, count);
          Swap(left, right);
          left := left + 1;
          right := right - 1;
        }
      }
    }

    /** da_quicksort: an iterative Hoare-style partition sort over an explicit stack
        of (start, end) pairs. Only the elements in use are ever swapped, so the
        result is a permutation of them; it is not in general sorted, because the
        pivot is held as an index whose element a swap can move. */
    method Quicksort(cmp: (T, T) -> int)
      requires count <= |items|
      requires forall x :: cmp(x, x) == 0
      modifies this
      ensures count == old(count) && capacity == old(capacity) && |items| == old(|items|)
      ensures multiset(Contents()) == multiset(old(Contents()))
      ensures items[count..] == old(items[count..])
      ensures old(count) <= 1 ==> items == old(items)
    {
      if count <= 1 {
        return;
      }
      var stack: seq<int> := [0, count - 1];
      ghost var pairs: nat := 1;
      while |stack| > 0
        invariant count == old(count) && capacity == old(capacity) && |items| == old(|items|)
        invariant multiset(items[..count]) == multiset(old(items[..count]))
        invariant items[count..] == old(items[count..])
        invariant |stack| == 2 * pairs
        invariant InRange(stack, count)
        decreases StackWeight(stack), |stack|
      {
        ghost var weight := StackWeight(stack);
        InRangePop(stack, count);
        var end := stack[|stack| - 1];
        var start := stack[|stack| - 2];
        stack := stack[..|stack| - 2];
        pairs := pairs - 1;
        assert weight == StackWeight(stack) + RangeWeight(start, end);
        if start >= end {
          continue;
        }
        var left, right := Partition(cmp, start, end);
        PartitionShrinks(start, end, left, right);
        if start < right {
          StackWeightPush(stack, start, right);
          InRangePush(stack, start, right, count);
          stack := stack + [start, right];
          pairs := pairs + 1;
        }
        if left < end {
          StackWeightPush(stack, left, end);
          InRangePush(stack, left, end, count);
          stack := stack + [left, end];
          pairs := pairs + 1;
        }
        assert StackWeight(stack) < weight;
      }
    }
  }
}
