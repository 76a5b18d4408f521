// The ring buffer under the thread-safe queue: 32-bit indices that run freely
// and are masked by a power of two.
module SeqRing {
  import opened E2ap

  function Pow2(k: nat): (p: nat)
    ensures p >= 1
  {
    if k == 0 then 1 else 2 * Pow2(k - 1)
  }

  /** The buffer starts with 32 = 2^5 elements and doubles. */
  const FIRST_LEVEL := 5
  const LAST_LEVEL := 31

  lemma PowersMultiply(a: nat, b: nat)
    ensures Pow2(a) * Pow2(b) == Pow2(a + b)
  {
    if a > 0 {
      PowersMultiply(a - 1, b);
      assert 2 * Pow2(a - 1) * Pow2(b) == 2 * (Pow2(a - 1) * Pow2(b));
    }
  }

  lemma Pow32()
    ensures Pow2(32) == TWO_32
  {
    assert Pow2(8) == 256;
    PowersMultiply(8, 8);
    PowersMultiply(16, 16);
  }

  /** `val & (cap - 1)`: the remainder, as cap is a power of two. */
  function Mask(cap: nat, val: nat): (r: nat)
    requires cap > 0
    ensures r < cap
    decreases val
  {
    if val < cap then val else Mask(cap, val - cap)
  }

  /** Position i after the tail position. */
  function Slot(cap: nat, tail: nat, i: nat): int {
    if tail + i < cap then tail + i else tail + i - cap
  }

  lemma MaskMultiple(cap: nat, val: nat, z: nat)
    requires cap > 0
    ensures Mask(cap, val + cap * z) == Mask(cap, val)
  {
    if z > 0 {
      MaskMultiple(cap, val, z - 1);
      assert val + cap * z == (val + cap * (z - 1)) + cap;
    }
  }

  lemma MaskAdd(cap: nat, x: nat, i: nat)
    requires i < cap
    ensures Mask(cap, x + i) == Slot(cap, Mask(cap, x), i)
    decreases x
  {
    if x >= cap {
      MaskAdd(cap, x - cap, i);
    } else if x + i >= cap {
      assert Mask(cap, x + i) == Mask(cap, x + i - cap);
    }
  }

  /** The wrap-around of the 32-bit index does not disturb the masked position. */
  lemma MaskSlot(level: nat, tail: U32, i: nat)
    requires level <= 32 && i < Pow2(level)
    ensures Mask(Pow2(level), (tail + i) % TWO_32) == Slot(Pow2(level), Mask(Pow2(level), tail), i)
  {
    var cap := Pow2(level);
    var m := Width(level);
    MaskAdd(cap, tail, i);
    WrapOnce(tail, i);
    if tail + i >= TWO_32 {
      MaskMultiple(cap, tail + i - TWO_32, m);
    }
  }

  lemma Width(level: nat) returns (m: nat)
    requires level <= 32
    ensures Pow2(level) * m == TWO_32 && Pow2(level) <= TWO_32
  {
    Pow32();
    m := Pow2(32 - level);
    PowersMultiply(level, 32 - level);
    MulGe(Pow2(level), m);
  }

  lemma WrapOnce(tail: U32, i: nat)
    requires i < TWO_32
    ensures (tail + i) % TWO_32 == if tail + i < TWO_32 then tail + i else tail + i - TWO_32
  {
  }

  /** `head - tail` in 32 bits. */
  function Distance(head: U32, tail: U32): nat {
    (head - tail) % TWO_32
  }

  lemma DistanceIs(head: U32, tail: U32)
    ensures Distance(head, tail) == if head >= tail then head - tail else head - tail + TWO_32
  {
    assert -TWO_32 < head - tail < TWO_32;
  }

  lemma DistanceMoves(head: U32, tail: U32, n: nat)
    requires n <= Distance(head, tail)
    ensures head == (tail + Distance(head, tail)) % TWO_32
    ensures Distance(head, (tail + n) % TWO_32) == Distance(head, tail) - n
    ensures Distance(head, tail) + 1 < TWO_32 ==> Distance((head + 1) % TWO_32, tail) == Distance(head, tail) + 1
  {
    DistanceIs(head, tail);
    WrapOnce(tail, n);
    WrapOnce(tail, Distance(head, tail));
    WrapOnce(head, 1);
    DistanceIs(head, (tail + n) % TWO_32);
    DistanceIs((head + 1) % TWO_32, tail);
  }

  lemma BelowWidth(level: nat)
    requires level <= LAST_LEVEL
    ensures Pow2(level) < TWO_32
  {
    Pow32();
    PowersMultiply(level, 31 - level);
    MulGe(Pow2(level), Pow2(31 - level));
    assert Pow2(32) == 2 * Pow2(31);
  }

  /** The masked head is the slot after the last element. */
  lemma HeadSlot(level: nat, head: U32, tail: U32)
    requires level <= 32 && Distance(head, tail) < Pow2(level)
    ensures Mask(Pow2(level), head) == Slot(Pow2(level), Mask(Pow2(level), tail), Distance(head, tail))
  {
    DistanceMoves(head, tail, 0);
    MaskSlot(level, tail, Distance(head, tail));
  }

  lemma MulGe(c: nat, m: nat)
    requires m >= 1
    ensures c * m >= c
  {
  }

  /** What a ring holds: `size` elements from the tail position on. */
  function View<T>(a: seq<T>, tail: nat, size: nat): (s: seq<T>)
    requires tail < |a| && size < |a|
    ensures |s| == size
  {
    seq(size, i requires 0 <= i < size => a[Slot(|a|, tail, i)])
  }

  class Ring<T> {
    const blank: T
    var array_: array<T>
    var head: U32
    var tail: U32
    ghost var level: nat

    ghost predicate Valid()
      reads this
    {
      && FIRST_LEVEL <= level <= LAST_LEVEL
      && array_.Length == Pow2(level)
      && Distance(head, tail) < array_.Length
    }

    function Size(): nat
      reads this
    {
      Distance(head, tail)
    }

    ghost function Contents(): (s: seq<T>)
      reads this, array_
      requires Valid()
      ensures |s| == Size()
    {
      View(array_[..], Mask(array_.Length, tail), Size())
    }

    constructor (blank: T)
      ensures Valid() && Contents() == [] && level == FIRST_LEVEL && fresh(array_) && this.blank == blank
    {
      this.blank := blank;
      array_ := new T[32](_ => blank);
      head, tail, level := 0, 0, FIRST_LEVEL;
      assert Pow2(5) == 32;
    }

    predicate Full()
      reads this
    {
      Size() == array_.Length - 1
    }

    /** memcpy of `n` elements. */
    method CopyTo(dst: array<T>, at: nat, from: nat, n: nat)
      requires dst != array_ && at + n <= dst.Length && from + n <= array_.Length
      modifies dst
      ensures forall j | at <= j < at + n :: dst[j] == array_[from + (j - at)]
      ensures forall j | 0 <= j < dst.Length && !(at <= j < at + n) :: dst[j] == old(dst[j])
    {
      for i := 0 to n
        invariant forall j | at <= j < at + i :: dst[j] == array_[from + (j - at)]
        invariant forall j | 0 <= j < dst.Length && !(at <= j < at + i) :: dst[j] == old(dst[j])
      {
        dst[at + i] := array_[from + i];
      }
    }

    /** The contents of a full buffer, moved to the start of one twice as long. */
    method Unrolled() returns (tmp: array<T>)
      requires Valid() && Full()
      ensures fresh(tmp) && tmp.Length == 2 * array_.Length
      ensures View(tmp[..], 0, Size()) == Contents()
    {
      HeadSlot(level, head, tail);
      var cap := array_.Length;
      tmp := new T[cap * 2](_ => blank);
      var headPos, tailPos := Mask(cap, head), Mask(cap, tail);
      assert headPos == Slot(cap, tailPos, cap - 1);
      if headPos > tailPos {
        CopyTo(tmp, 0, tailPos, headPos - tailPos);
      } else {
        CopyTo(tmp, 0, tailPos, cap - tailPos);
        CopyTo(tmp, cap - tailPos, 0, headPos);
      }
      assert forall i | 0 <= i < cap - 1 :: tmp[i] == array_[Slot(cap, tailPos, i)];
    }

    method Enlarge()
      requires Valid() && Full() && level < LAST_LEVEL
      modifies this
      ensures Valid() && !Full() && fresh(array_) && level == old(level) + 1
      ensures Contents() == old(Contents())
    {
      BelowWidth(level + 1);
      var tmp := Unrolled();
      array_ := tmp;
      level := level + 1;
      tail := 0;
      head := array_.Length / 2 - 1;
      assert Distance(head, tail) == head;
      assert Mask(array_.Length, 0) == 0;
    }

    method Store(x: T)
      requires Valid() && !Full()
      modifies this`head, array_
      ensures Valid() && Contents() == old(Contents()) + [x]
    {
      ghost var was := array_[..];
      BelowWidth(level);
      HeadSlot(level, head, tail);
      DistanceMoves(head, tail, 0);
      PushView(was, was[Mask(array_.Length, head) := x], Mask(array_.Length, tail), Size(), x);
      array_[Mask(array_.Length, head)] := x;
      head := (head + 1) % TWO_32;
    }

    method PushBack(x: T)
      requires Valid() && (Full() ==> level < LAST_LEVEL)
      modifies this, array_
      ensures Valid() && (array_ == old(array_) || fresh(array_))
      ensures level == if old(Full()) then old(level) + 1 else old(level)
      ensures Contents() == old(Contents()) + [x]
    {
      if Full() {
        Enlarge();
      }
      Store(x);
    }

    static lemma PushView(was: seq<T>, a: seq<T>, tail: nat, n: nat, x: T)
      requires tail < |was| && n + 1 < |was|
      requires a == was[Slot(|was|, tail, n) := x]
      ensures View(a, tail, n + 1) == View(was, tail, n) + [x]
    {
    }

    /** The element that the k-th iterator from the front points to. */
    method At(k: nat) returns (x: T)
      requires Valid() && k < Size()
      ensures x == Contents()[k]
    {
      MaskSlot(level, tail, k);
      x := array_[Mask(array_.Length, (tail + k) % TWO_32)];
    }

    /** seq_ring_erase from the front up to the n-th iterator. */
    method EraseFront(n: nat)
      requires Valid() && n <= Size()
      modifies this, array_
      ensures Valid() && array_ == old(array_) && level == old(level)
      ensures Contents() == old(Contents())[n..]
    {
      if n == 0 {
        return;
      }
      MaskSlot(level, tail, n);
      DistanceMoves(head, tail, n);
      var cap := array_.Length;
      var start, end := Mask(cap, tail), Mask(cap, (tail + n) % TWO_32);
      assert end == Slot(cap, start, n);
      ghost var was := array_[..];
      var erased := EraseRange(start, end);
      assert erased == n;
      EraseView(was, array_[..], start, Size(), n);
      tail := (tail + erased) % TWO_32;
    }

    method EraseRange(start: nat, end: nat) returns (erased: nat)
      requires start < array_.Length && end < array_.Length && start != end
      modifies array_
      ensures erased == if end > start then end - start else array_.Length - start + end
      ensures forall j | 0 <= j < array_.Length && (if end > start then !(start <= j < end) else end <= j < start) ::
                array_[j] == old(array_[j])
    {
      if end > start {
        Clear(start, end);
        erased := end - start;
      } else {
        Clear(start, array_.Length);
        Clear(0, end);
        erased := array_.Length - start + end;
      }
    }

    static lemma EraseView(was: seq<T>, a: seq<T>, start: nat, size: nat, n: nat)
      requires start < |was| == |a| && 0 < n <= size < |was|
      requires forall j | 0 <= j < |a|
               && (if start + n < |a| then !(start <= j < start + n) else start + n - |a| <= j < start) ::
                   a[j] == was[j]
      ensures View(a, Slot(|a|, start, n), size - n) == View(was, start, size)[n..]
    {
    }

    /** memset of a range to zero. */
    method Clear(from: nat, to: nat)
      requires from <= to <= array_.Length
      modifies array_
      ensures forall j | from <= j < to :: array_[j] == blank
      ensures forall j | 0 <= j < array_.Length && !(from <= j < to) :: array_[j] == old(array_[j])
    {
      for i := from to to
        invariant forall j | from <= j < i :: array_[j] == blank
        invariant forall j | 0 <= j < array_.Length && !(from <= j < i) :: array_[j] == old(array_[j])
      {
        array_[i] := blank;
      }
    }
  }
}
