/** The sizes of `Buffer::Allocator` and `BufferPool`: powers of two, and the list of the pool that each has. */
module BufferSizes {

  const LARGEST: bv32 := 0x8000_0000

  predicate IsPower(p: bv32) { p != 0 && p & (p - 1) == 0 }

  // ---------------------------------------------------------------- rounding

  function Smear(x: bv32): bv32 {
    var x1 := x | (x >> 1);
    var x2 := x1 | (x1 >> 2);
    var x4 := x2 | (x2 >> 4);
    var x8 := x4 | (x4 >> 8);
    x8 | (x8 >> 16)
  }

  /** The next power of two, or 0 when it does not fit in 32 bits. */
  function RoundedUp(size: bv32): bv32 { After(Smear(Before(size))) }

  function Before(size: bv32): bv32 { size - 1 }

  function After(x: bv32): bv32 { x + 1 }

  /** A buffer of this capacity holds a content of this size. */
  predicate Holds(capacity: bv32, size: bv32) { size <= capacity }

  /** The capacity that `Alloc` gives for a size. */
  function Capacity(size: bv32): bv32 {
    if size == 0 then 0 else if Holds(16, size) then 16 else
      var capacity := RoundedUp(size);
      if capacity != 0 then capacity else size
  }

  predicate IsMask(m: bv32) { m & (m + 1) == 0 }

  lemma SmearStep(x: bv32, mask: bv32)
    requires IsMask(mask) && Holds(mask, x)
    ensures Holds(mask, x | (x >> 1)) && Holds(mask, x | (x >> 2)) && Holds(mask, x | (x >> 4))
    ensures Holds(mask, x | (x >> 8)) && Holds(mask, x | (x >> 16))
  {
  }

  lemma SmearIsMask(x: bv32)
    ensures Holds(Smear(x), x) && IsMask(Smear(x))
  {
  }

  lemma SmearIsLeast(x: bv32, mask: bv32)
    requires IsMask(mask) && Holds(mask, x)
    ensures Holds(mask, Smear(x))
  {
    hide IsMask, Holds;
    var x1 := x | (x >> 1);
    var x2 := x1 | (x1 >> 2);
    var x4 := x2 | (x2 >> 4);
    var x8 := x4 | (x4 >> 8);
    SmearStep(x, mask);
    SmearStep(x1, mask);
    SmearStep(x2, mask);
    SmearStep(x4, mask);
    SmearStep(x8, mask);
  }

  lemma BelowPower(p: bv32, mask: bv32)
    requires IsPower(p) && Holds(Before(p), mask)
    ensures Holds(p, After(mask))
  {
  }

  lemma BeforePower(p: bv32, size: bv32)
    requires IsPower(p) && size != 0 && Holds(p, size)
    ensures Holds(Before(p), Before(size)) && IsMask(Before(p))
  {
  }

  lemma RoundedUpIsNoMore(size: bv32, p: bv32)
    requires size != 0
    requires IsPower(p) && Holds(p, size)
    ensures Holds(p, RoundedUp(size))
  {
    BeforePower(p, size);
    hide Smear, IsPower, IsMask, Holds, Before, After;
    SmearIsLeast(Before(size), Before(p));
    BelowPower(p, Smear(Before(size)));
  }

  lemma BeforeSize(size: bv32)
    ensures !Holds(16, size) && Holds(LARGEST, size) ==> Holds(Before(size), 16) && Holds(0x7FFF_FFFF, Before(size))
    ensures !Holds(LARGEST, size) ==> Holds(Before(size), LARGEST)
    ensures After(Before(size)) == size && After(0xFFFF_FFFF) == 0
  {
  }

  /** What the successor of a mask is, when it does not wrap. */
  lemma AfterMask(x: bv32, mask: bv32)
    requires IsMask(mask) && Holds(x, 16) && Holds(mask, x) && Holds(0x7FFF_FFFF, mask)
    ensures Holds(After(mask), After(x)) && Holds(After(mask), 16) && IsPower(After(mask))
  {
  }

  lemma SmallIsRounded(size: bv32)
    requires !Holds(16, size) && Holds(LARGEST, size)
    ensures Holds(RoundedUp(size), 16) && Holds(RoundedUp(size), size) && IsPower(RoundedUp(size))
  {
    BeforeSize(size);
    assert IsMask(0x7FFF_FFFF);
    hide Smear, IsPower, IsMask, Holds, Before, After;
    SmearIsMask(Before(size));
    SmearIsLeast(Before(size), 0x7FFF_FFFF);
    AfterMask(Before(size), Smear(Before(size)));
  }

  lemma LargeIsNot(size: bv32)
    requires !Holds(LARGEST, size)
    ensures RoundedUp(size) == 0
  {
    BeforeSize(size);
    Upper(Before(size));
    hide Smear, Holds, Before, After;
  }

  lemma RoundedUpIsEnough(size: bv32)
    requires !Holds(16, size)
    ensures Holds(LARGEST, size) ==> Holds(RoundedUp(size), 16) && Holds(RoundedUp(size), size) && IsPower(RoundedUp(size))
    ensures !Holds(LARGEST, size) ==> RoundedUp(size) == 0
  {
    hide Smear, IsPower, Holds, RoundedUp;
    if Holds(LARGEST, size) {
      SmallIsRounded(size);
    } else {
      LargeIsNot(size);
    }
  }

  lemma PowerOf(p: bv32)
    ensures IsPower(p) ==> p != 0 && Holds(LARGEST, p)
    ensures IsPower(16) && Holds(16, 16)
  {
  }

  lemma CapacityIsNoMore(size: bv32, p: bv32)
    requires size != 0
    requires IsPower(p) && Holds(p, size) && Holds(p, 16)
    ensures Holds(p, Capacity(size))
  {
    RoundedUpIsNoMore(size, p);
    hide RoundedUp, IsPower, Smear, Holds;
  }

  /** The least power of two that holds the size and 16 bytes; beyond 2^31 the size itself. */
  lemma CapacityIsLeast(size: bv32)
    requires size != 0
    ensures Holds(Capacity(size), size) && Holds(Capacity(size), 16)
    ensures Holds(LARGEST, size) ==> IsPower(Capacity(size))
    ensures forall p :: IsPower(p) && Holds(p, size) && Holds(p, 16) ==> Holds(p, Capacity(size))
    ensures !Holds(LARGEST, size) ==> Capacity(size) == size && !IsPower(size)
  {
    PowerOf(size);
    Large(size);
    hide RoundedUp, IsPower, Smear, Holds;
    if !Holds(16, size) {
      RoundedUpIsEnough(size);
      PowerOf(RoundedUp(size));
    }
    forall p | IsPower(p) && Holds(p, size) && Holds(p, 16)
      ensures Holds(p, Capacity(size))
    {
      CapacityIsNoMore(size, p);
    }
  }

  lemma Large(size: bv32)
    ensures Holds(size, size)
    ensures !Holds(LARGEST, size) ==> Holds(size, 16) && !Holds(16, size)
  {
  }

  lemma Upper(x: bv32)
    requires Holds(x, LARGEST)
    ensures Smear(x) == 0xFFFF_FFFF
  {
  }

  // ---------------------------------------------------------------- the list of a size

  /** The perfect hash of a power of two: a product kept in 32 bits, of which the six upper bits remain. */
  function Slot(capacity: bv32): bv32 {
    var c := capacity - 1;
    var c7 := (c << 3) - c;
    var once := (c7 << 8) - c7;
    var twice := (once << 8) - once;
    ((twice << 8) - twice) >> 26
  }

  /** The table of `computeIndex`. */
  function Entry(slot: bv32): nat {
    if slot == 0 then 100 else if slot == 1 then 101 else if slot == 2 then 99 else if slot == 3 then 12 else if slot == 4 then 99 else if slot == 5 then 102 else if slot == 6 then 25 else if slot == 7 then 99 else
    if slot == 8 then 13 else if slot == 9 then 99 else if slot == 10 then 99 else if slot == 11 then 99 else if slot == 12 then 103 else if slot == 13 then 18 else if slot == 14 then 26 else if slot == 15 then 99 else
    if slot == 16 then 99 else if slot == 17 then 99 else if slot == 18 then 16 else if slot == 19 then 14 else if slot == 20 then 7 else if slot == 21 then 99 else if slot == 22 then 9 else if slot == 23 then 99 else
    if slot == 24 then 99 else if slot == 25 then 0 else if slot == 26 then 99 else if slot == 27 then 3 else if slot == 28 then 99 else if slot == 29 then 19 else if slot == 30 then 27 else if slot == 31 then 99 else
    if slot == 32 then 11 else if slot == 33 then 99 else if slot == 34 then 24 else if slot == 35 then 99 else if slot == 36 then 99 else if slot == 37 then 99 else if slot == 38 then 17 else if slot == 39 then 99 else
    if slot == 40 then 15 else if slot == 41 then 6 else if slot == 42 then 8 else if slot == 43 then 99 else if slot == 44 then 2 else if slot == 45 then 99 else if slot == 46 then 99 else if slot == 47 then 10 else
    if slot == 48 then 23 else if slot == 49 then 99 else if slot == 50 then 99 else if slot == 51 then 5 else if slot == 52 then 99 else if slot == 53 then 1 else if slot == 54 then 99 else if slot == 55 then 22 else
    if slot == 56 then 99 else if slot == 57 then 4 else if slot == 58 then 21 else if slot == 59 then 99 else if slot == 60 then 20 else if slot == 61 then 99 else if slot == 62 then 28 else 99
  }

  function ComputeIndex(capacity: bv32): nat { Entry(Slot(capacity)) }

  /** The size of the buffers of a list: 16, doubled once for each list before it. */
  function ClassSize(i: nat): bv32
    requires i < 28
    decreases i
  {
    if i == 0 then 16 else ClassSize(i - 1) << 1
  }

  lemma ClassSizes()
    ensures ClassSize(0) == 0x10 && ClassSize(1) == 0x20 && ClassSize(2) == 0x40 && ClassSize(3) == 0x80 && ClassSize(4) == 0x100 && ClassSize(5) == 0x200 && ClassSize(6) == 0x400
    ensures ClassSize(7) == 0x800 && ClassSize(8) == 0x1000 && ClassSize(9) == 0x2000 && ClassSize(10) == 0x4000 && ClassSize(11) == 0x8000 && ClassSize(12) == 0x10000 && ClassSize(13) == 0x20000
    ensures ClassSize(14) == 0x40000 && ClassSize(15) == 0x80000 && ClassSize(16) == 0x100000 && ClassSize(17) == 0x200000 && ClassSize(18) == 0x400000 && ClassSize(19) == 0x800000 && ClassSize(20) == 0x1000000
    ensures ClassSize(21) == 0x2000000 && ClassSize(22) == 0x4000000 && ClassSize(23) == 0x8000000 && ClassSize(24) == 0x10000000 && ClassSize(25) == 0x20000000 && ClassSize(26) == 0x40000000 && ClassSize(27) == 0x80000000
  {
    assert ClassSize(0) == 16;
    hide ClassSize;
    NextSize(0);
    NextSize(1);
    NextSize(2);
    NextSize(3);
    NextSize(4);
    NextSize(5);
    NextSize(6);
    NextSize(7);
    NextSize(8);
    NextSize(9);
    NextSize(10);
    NextSize(11);
    NextSize(12);
    NextSize(13);
    NextSize(14);
    NextSize(15);
    NextSize(16);
    NextSize(17);
    NextSize(18);
    NextSize(19);
    NextSize(20);
    NextSize(21);
    NextSize(22);
    NextSize(23);
    NextSize(24);
    NextSize(25);
    NextSize(26);
  }

  lemma NextSize(i: nat)
    requires i < 27
    ensures ClassSize(i + 1) == ClassSize(i) << 1
  {
  }

  lemma Slots()
    ensures Slot(0x10) == 25 && Slot(0x20) == 53 && Slot(0x40) == 44 && Slot(0x80) == 27 && Slot(0x100) == 57 && Slot(0x200) == 51 && Slot(0x400) == 41
    ensures Slot(0x800) == 20 && Slot(0x1000) == 42 && Slot(0x2000) == 22 && Slot(0x4000) == 47 && Slot(0x8000) == 32 && Slot(0x10000) == 3 && Slot(0x20000) == 8
    ensures Slot(0x40000) == 19 && Slot(0x80000) == 40 && Slot(0x100000) == 18 && Slot(0x200000) == 38 && Slot(0x400000) == 13 && Slot(0x800000) == 29 && Slot(0x1000000) == 60
    ensures Slot(0x2000000) == 58 && Slot(0x4000000) == 55 && Slot(0x8000000) == 48 && Slot(0x10000000) == 34 && Slot(0x20000000) == 6 && Slot(0x40000000) == 14 && Slot(0x80000000) == 30
  {
  }

  lemma Entries0()
    ensures Entry(25) == 0 && Entry(53) == 1 && Entry(44) == 2 && Entry(27) == 3 && Entry(57) == 4 && Entry(51) == 5 && Entry(41) == 6
  {
  }

  lemma Entries7()
    ensures Entry(20) == 7 && Entry(42) == 8 && Entry(22) == 9 && Entry(47) == 10 && Entry(32) == 11 && Entry(3) == 12 && Entry(8) == 13
  {
  }

  lemma Entries14()
    ensures Entry(19) == 14 && Entry(40) == 15 && Entry(18) == 16 && Entry(38) == 17 && Entry(13) == 18 && Entry(29) == 19 && Entry(60) == 20
  {
  }

  lemma Entries21()
    ensures Entry(58) == 21 && Entry(55) == 22 && Entry(48) == 23 && Entry(34) == 24 && Entry(6) == 25 && Entry(14) == 26 && Entry(30) == 27
  {
  }

  lemma Entries()
    ensures Entry(25) == 0 && Entry(53) == 1 && Entry(44) == 2 && Entry(27) == 3 && Entry(57) == 4 && Entry(51) == 5 && Entry(41) == 6
    ensures Entry(20) == 7 && Entry(42) == 8 && Entry(22) == 9 && Entry(47) == 10 && Entry(32) == 11 && Entry(3) == 12 && Entry(8) == 13
    ensures Entry(19) == 14 && Entry(40) == 15 && Entry(18) == 16 && Entry(38) == 17 && Entry(13) == 18 && Entry(29) == 19 && Entry(60) == 20
    ensures Entry(58) == 21 && Entry(55) == 22 && Entry(48) == 23 && Entry(34) == 24 && Entry(6) == 25 && Entry(14) == 26 && Entry(30) == 27
  {
    hide Entry;
    Entries0();
    Entries7();
    Entries14();
    Entries21();
  }

  lemma IndexOfClass(i: nat)
    requires i < 28
    ensures ComputeIndex(ClassSize(i)) == i
  {
    Slots();
    Entries();
    ClassSizes();
    hide Slot, Entry, ClassSize;
  }

  lemma PowersAre(p: bv32)
    requires IsPower(p) && p >= 16
    ensures p == 0x10 || p == 0x20 || p == 0x40 || p == 0x80 || p == 0x100 || p == 0x200 || p == 0x400 || p == 0x800 || p == 0x1000 || p == 0x2000 || p == 0x4000 || p == 0x8000 || p == 0x10000 || p == 0x20000 || p == 0x40000 || p == 0x80000 || p == 0x100000 || p == 0x200000 || p == 0x400000 || p == 0x800000 || p == 0x1000000 || p == 0x2000000 || p == 0x4000000 || p == 0x8000000 || p == 0x10000000 || p == 0x20000000 || p == 0x40000000 || p == 0x80000000
  {
  }

  /** Every capacity that the pool sees has a list of its own. */
  lemma IndexOfPower(p: bv32)
    requires IsPower(p) && p >= 16
    ensures ComputeIndex(p) < 28 && ClassSize(ComputeIndex(p)) == p
  {
    PowersAre(p);
    Slots();
    Entries();
    ClassSizes();
    hide Slot, Entry, ClassSize, IsPower;
  }
}

/** One list of `BufferPool`: a stack of free buffers, the least number it held since the last collection, and
    the greatest number it reached by a push. */
module BufferLists {

  datatype Pointer = Null | Empty | Block(id: nat)

  datatype List = List(items: seq<Pointer>, low: nat, high: nat)

  const Nothing := List([], 0, 0)

  datatype Use = Pop | Push(buffer: Pointer) | Manage

  function Popped(l: List): List {
    if l.items == [] then l else
      var n := |l.items| - 1;
      List(l.items[..n], if n < l.low then n else l.low, l.high)
  }

  /** The buffer that the next `pop` gives. */
  function Top(l: List): Pointer {
    if l.items == [] then Null else l.items[|l.items| - 1]
  }

  function Pushed(l: List, buffer: Pointer): List {
    var n := |l.items| + 1;
    List(l.items + [buffer], l.low, if n > l.high then n else l.high)
  }

  /** The youngest buffers leave, as many as were never needed since the last collection. */
  function Managed(l: List): List
    requires l.low <= |l.items|
  {
    var n := |l.items| - l.low;
    List(l.items[..n], n, 0)
  }

  function Collected(l: List): seq<Pointer>
    requires l.low <= |l.items|
  {
    l.items[|l.items| - l.low..]
  }

  /** Why `resize(_maxSize)` never truncates what a collection keeps. */
  predicate Kept(l: List) {
    l.low <= |l.items| && (|l.items| > l.low ==> |l.items| <= l.high)
  }

  function After(l: List, uses: seq<Use>): (r: List)
    requires Kept(l)
    ensures Kept(r)
    decreases |uses|
  {
    if uses == [] then l else
      Applied(After(l, uses[..|uses| - 1]), uses[|uses| - 1])
  }

  function Applied(l: List, use: Use): (r: List)
    requires Kept(l)
    ensures Kept(r)
  {
    match use
    case Pop => Popped(l)
    case Push(buffer) => Pushed(l, buffer)
    case Manage => Managed(l)
  }

  /** The least number of buffers in the list since the last collection. */
  function Least(l: List, uses: seq<Use>): nat
    requires Kept(l)
    decreases |uses|
  {
    var n := |After(l, uses).items|;
    if uses == [] || uses[|uses| - 1].Manage? then n else
      var before := Least(l, uses[..|uses| - 1]);
      if n < before then n else before
  }

  lemma {:induction false} LowIsLeast(uses: seq<Use>)
    ensures After(Nothing, uses).low == Least(Nothing, uses)
    decreases |uses|
  {
    if uses != [] {
      var before := uses[..|uses| - 1];
      LowIsLeast(before);
      assert After(Nothing, uses) == Applied(After(Nothing, before), uses[|uses| - 1]);
    }
  }

  /** Over any run, what a collection takes is exactly the low-water mark since the one before. */
  lemma LowWater(uses: seq<Use>)
    ensures var l := After(Nothing, uses);
      |Collected(l)| == Least(Nothing, uses) && Managed(l).items + Collected(l) == l.items
  {
    LowIsLeast(uses);
    hide After, Least;
  }

  /** The place in `uses` after the last collection. */
  function LastManage(uses: seq<Use>): (k: nat)
    ensures k <= |uses|
    decreases |uses|
  {
    if uses == [] || uses[|uses| - 1].Manage? then |uses| else LastManage(uses[..|uses| - 1])
  }

  /** As many of the oldest buffers did not move since the last collection: none of them was of any use. */
  lemma {:induction false} LowestUntouched(uses: seq<Use>)
    ensures var k := Least(Nothing, uses);
      var start, end := After(Nothing, uses[..LastManage(uses)]), After(Nothing, uses);
      k <= |start.items| && k <= |end.items| && start.items[..k] == end.items[..k]
    decreases |uses|
  {
    var n := |uses| - 1;
    if n < 0 || uses[n].Manage? {
      assert uses[..|uses|] == uses;
    } else {
      LowestUntouched(uses[..n]);
      assert uses[..n][..LastManage(uses)] == uses[..LastManage(uses)];
      var start, before := After(Nothing, uses[..LastManage(uses)]), After(Nothing, uses[..n]);
      var most, k := Least(Nothing, uses[..n]), Least(Nothing, uses);
      hide Applied, LastManage, Kept;
      assert start.items[..most][..k] == start.items[..k] && before.items[..most][..k] == before.items[..k];
      BottomStays(before, uses[n], k);
    }
  }

  lemma BottomStays(l: List, use: Use, k: nat)
    requires Kept(l) && !use.Manage? && k <= |l.items| && k <= |Applied(l, use).items|
    ensures Applied(l, use).items[..k] == l.items[..k]
  {
  }

  /** A list that two collections find idle is empty. */
  lemma IdleIsEmptied(l: List)
    requires Kept(l)
    ensures Managed(Managed(l)).items == []
    ensures Collected(Managed(l)) == Managed(l).items
  {
  }

  function Resized(items: seq<Pointer>, size: nat): seq<Pointer> {
    if size <= |items| then items[..size] else items + seq(size - |items|, _ => Null)
  }

  /** `BufferPool::Buffers` */
  class Buffers {
    var items: seq<Pointer>
    var minSize: nat
    var maxSize: nat

    function View(): List
      reads this
    {
      List(items, minSize, maxSize)
    }

    constructor ()
      ensures View() == Nothing
    {
      items, minSize, maxSize := [], 0, 0;
    }

    method Pop() returns (buffer: Pointer)
      modifies this
      ensures View() == Popped(old(View()))
      ensures buffer == Top(old(View()))
    {
      if items == [] {
        return Null;
      }
      buffer := items[|items| - 1];
      items := items[..|items| - 1];
      if |items| < minSize {
        minSize := |items|;
      }
    }

    method Push(buffer: Pointer)
      modifies this
      ensures View() == Pushed(old(View()), buffer)
    {
      items := items + [buffer];
      if |items| > maxSize {
        maxSize := |items|;
      }
    }

    /** The resizing truncates no buffer that is kept, and pads with no null pointer. */
    method Manage(gc: seq<Pointer>) returns (gc': seq<Pointer>)
      requires Kept(View())
      modifies this
      ensures View() == Managed(old(View()))
      ensures gc' == gc + Collected(old(View()))
    {
      gc' := gc + items[|items| - minSize..];
      minSize := |items| - minSize;
      items := Resized(items, maxSize);
      items := Resized(items, minSize);
      maxSize := 0;
    }
  }
}

/** `Buffer::Allocator` with a `BufferPool`: calls of any thread, a lock that may be taken by another, a
    collector, and a system allocator that may give any address that is not in use. */
module BufferPools {
  import opened BufferSizes
  import opened BufferLists
  import L = BufferLists

  datatype State = State(
    lists: seq<List>,
    live: map<Pointer, bv32>,  // what `new` has given and `delete` not taken back
    used: map<Pointer, bv32>,  // what `Alloc` has given, with its capacity
    doomed: set<Pointer>)      // collected, not yet deleted

  datatype Step =
    | Alloc(size: bv32, locked: bool, address: Pointer)
    | Free(buffer: Pointer, size: bv32, locked: bool)
    | Collect(index: nat)
    | Delete(buffer: Pointer)

  function Init(): State { State(seq(28, _ => Nothing), map[], map[], {}) }

  /** The size given to `Free` is the capacity that `Alloc` has returned.  The collector copies `_minSize` items
      of a list, which are there: `CollectIsSafe`. */
  predicate Enabled(s: State, step: Step) {
    match step
    case Alloc(size, locked, address) => address.Block? && address !in s.live
    case Free(buffer, size, locked) => if size == 0 then buffer == Empty else buffer in s.used && s.used[buffer] == size
    case Collect(index) => index < |s.lists| && s.lists[index].low <= |s.lists[index].items|
    case Delete(buffer) => buffer in s.doomed
  }

  /** The list that `Alloc` may take a buffer from. */
  predicate FromPool(s: State, size: bv32, locked: bool) {
    var capacity := Capacity(size);
    Holds(LARGEST, capacity) && locked && ComputeIndex(capacity) < |s.lists| && s.lists[ComputeIndex(capacity)].items != []
  }

  /** What `Alloc` returns. */
  function Given(s: State, size: bv32, locked: bool, address: Pointer): Pointer {
    if size == 0 then Empty
    else if FromPool(s, size, locked) then Top(s.lists[ComputeIndex(Capacity(size))])
    else address
  }

  function Allocated(s: State, size: bv32, locked: bool, address: Pointer): State {
    var capacity, buffer := Capacity(size), Given(s, size, locked, address);
    if size == 0 then s
    else if FromPool(s, size, locked) then
      var i := ComputeIndex(capacity);
      s.(lists := s.lists[i := Popped(s.lists[i])], used := s.used[buffer := capacity])
    else s.(live := s.live[buffer := capacity], used := s.used[buffer := capacity])
  }

  function Freed(s: State, buffer: Pointer, size: bv32, locked: bool): State
    requires Enabled(s, Free(buffer, size, locked))
  {
    if size == 0 then s
    else if !IsPower(size) || !locked || ComputeIndex(size) >= |s.lists| then
      s.(live := s.live - {buffer}, used := s.used - {buffer})
    else
      var i := ComputeIndex(size);
      s.(lists := s.lists[i := Pushed(s.lists[i], buffer)], used := s.used - {buffer})
  }

  function Members(buffers: seq<Pointer>): set<Pointer> { set p | p in buffers }

  function PickedUp(s: State, i: nat): State
    requires Enabled(s, Collect(i))
  {
    s.(lists := s.lists[i := Managed(s.lists[i])], doomed := s.doomed + Members(Collected(s.lists[i])))
  }

  function Next(s: State, step: Step): State
    requires Enabled(s, step)
  {
    match step
    case Alloc(size, locked, address) => Allocated(s, size, locked, address)
    case Free(buffer, size, locked) => Freed(s, buffer, size, locked)
    case Collect(i) => PickedUp(s, i)
    case Delete(buffer) => s.(live := s.live - {buffer}, doomed := s.doomed - {buffer})
  }

  // ---------------------------------------------------------------- the invariant

  predicate NoRepeat(items: seq<Pointer>) {
    forall i, j :: 0 <= i < j < |items| ==> items[i] != items[j]
  }

  /** A buffer of the list `i` is allocated with the size of the list and nobody uses it. */
  predicate Spare(s: State, i: nat, p: Pointer)
    requires i < 28
  {
    p.Block? && p in s.live && s.live[p] == ClassSize(i) && p !in s.used && p !in s.doomed
  }

  predicate ListOk(s: State, i: nat)
    requires i < 28 && |s.lists| == 28
  {
    Kept(s.lists[i]) && NoRepeat(s.lists[i].items) && forall p :: p in s.lists[i].items ==> Spare(s, i, p)
  }

  predicate Pooled(s: State, p: Pointer) {
    exists i :: 0 <= i < |s.lists| && p in s.lists[i].items
  }

  predicate Inv(s: State) {
    && |s.lists| == 28
    && (forall i :: 0 <= i < 28 ==> ListOk(s, i))
    && (forall p :: p in s.used ==>
          p.Block? && p in s.live && s.live[p] == s.used[p] && p !in s.doomed && Holds(s.used[p], 16))
    && (forall p :: p in s.doomed ==> p in s.live)
    && (forall p :: p in s.live ==> p.Block? && (p in s.used || p in s.doomed || Pooled(s, p)))
  }

  lemma OneClass(i: nat, j: nat)
    requires i < 28 && j < 28 && ClassSize(i) == ClassSize(j)
    ensures i == j
  {
    IndexOfClass(i);
    IndexOfClass(j);
  }

  /** The lists that do not change, when the buffers in them do not. */
  lemma OtherList(s: State, t: State, i: nat, j: nat, buffers: set<Pointer>)
    requires i < 28 && j < 28 && j != i && |s.lists| == 28 && |t.lists| == 28
    requires t.lists[j] == s.lists[j] && ListOk(s, j)
    requires forall p :: p in buffers ==> p in s.live && s.live[p] == ClassSize(i)
    requires forall p :: p !in buffers ==>
               (p in t.used <==> p in s.used) && (p in t.doomed <==> p in s.doomed) && (p in t.live <==> p in s.live)
    requires forall p :: p !in buffers && p in s.live ==> t.live[p] == s.live[p]
    ensures ListOk(t, j)
  {
    hide ClassSize;
    forall p | p in t.lists[j].items
      ensures Spare(t, j, p)
    {
      assert Spare(s, j, p);
      if p in buffers {
        OneClass(i, j);
      }
    }
  }

  /** A buffer that is in a list before is in the same list after, unless it is one of those that leave. */
  lemma StillPooled(s: State, t: State, i: nat, p: Pointer)
    requires i < |s.lists| == |t.lists| && Pooled(s, p)
    requires forall j :: 0 <= j < |s.lists| && j != i ==> t.lists[j] == s.lists[j]
    requires p in s.lists[i].items ==> p in t.lists[i].items
    ensures Pooled(t, p)
  {
    var k :| 0 <= k < |s.lists| && p in s.lists[k].items;
    assert p in t.lists[k].items;
  }

  lemma InFront(items: seq<Pointer>, n: nat)
    requires n <= |items| && NoRepeat(items)
    ensures NoRepeat(items[..n])
    ensures forall p :: p in items <==> p in items[..n] || p in items[n..]
    ensures forall p :: p in items[..n] ==> p !in items[n..]
  {
    assert items == items[..n] + items[n..];
  }

  lemma TakeKeepsInv(s: State, i: nat, capacity: bv32)
    requires Inv(s) && i < 28 && s.lists[i].items != [] && capacity == ClassSize(i) && Holds(capacity, 16)
    ensures var buffer := s.lists[i].items[|s.lists[i].items| - 1];
      Inv(s.(lists := s.lists[i := Popped(s.lists[i])], used := s.used[buffer := capacity]))
  {
    hide ClassSize, Holds;
    var l := s.lists[i];
    var n := |l.items| - 1;
    var buffer := l.items[n];
    var t := s.(lists := s.lists[i := Popped(l)], used := s.used[buffer := capacity]);
    assert ListOk(s, i) && Spare(s, i, buffer);
    InFront(l.items, n);
    assert l.items[n..] == [buffer];
    forall j: nat | j < 28
      ensures ListOk(t, j)
    {
      assert ListOk(s, j);
      if j != i {
        OtherList(s, t, i, j, {buffer});
      }
    }
    forall p | p in t.live
      ensures p.Block? && (p in t.used || p in t.doomed || Pooled(t, p))
    {
      if Pooled(s, p) && p != buffer {
        StillPooled(s, t, i, p);
      }
    }
  }

  lemma NewKeepsInv(s: State, address: Pointer, capacity: bv32)
    requires Inv(s) && address.Block? && address !in s.live && Holds(capacity, 16)
    ensures Inv(s.(live := s.live[address := capacity], used := s.used[address := capacity]))
  {
    hide ClassSize, Holds;
    var t := s.(live := s.live[address := capacity], used := s.used[address := capacity]);
    forall j: nat | j < 28
      ensures ListOk(t, j)
    {
      assert ListOk(s, j);
    }
    forall p | p in t.live
      ensures p.Block? && (p in t.used || p in t.doomed || Pooled(t, p))
    {
      if p != address && Pooled(s, p) {
        StillPooled(s, t, 0, p);
      }
    }
  }

  /** A capacity that the pool serves is the size of one of its lists. */
  lemma PoolSize(size: bv32)
    requires size != 0
    ensures Holds(Capacity(size), 16)
    ensures Holds(LARGEST, Capacity(size)) ==> IsPower(Capacity(size)) && ComputeIndex(Capacity(size)) < 28
    ensures Holds(LARGEST, Capacity(size)) ==> ClassSize(ComputeIndex(Capacity(size))) == Capacity(size)
  {
    CapacityIsLeast(size);
    hide Capacity, ComputeIndex, ClassSize, IsPower;
    var capacity := Capacity(size);
    if Holds(LARGEST, capacity) {
      IndexOf(capacity);
    }
  }

  lemma AllocKeepsInv(s: State, size: bv32, locked: bool, address: Pointer)
    requires Inv(s) && Enabled(s, Alloc(size, locked, address))
    ensures Inv(Allocated(s, size, locked, address))
  {
    hide Inv, Capacity, ComputeIndex, ClassSize, Holds;
    if size != 0 {
      PoolSize(size);
      assert |s.lists| == 28 by {
        ListCount(s);
      }
      if FromPool(s, size, locked) {
        TakeKeepsInv(s, ComputeIndex(Capacity(size)), Capacity(size));
      } else {
        NewKeepsInv(s, address, Capacity(size));
      }
    }
  }

  lemma ListCount(s: State)
    requires Inv(s)
    ensures |s.lists| == 28
  {
  }

  lemma GiveBackKeepsInv(s: State, buffer: Pointer, i: nat)
    requires Inv(s) && buffer in s.used && i < 28 && s.used[buffer] == ClassSize(i)
    ensures Inv(s.(lists := s.lists[i := Pushed(s.lists[i], buffer)], used := s.used - {buffer}))
  {
    hide ClassSize, Holds;
    var l := s.lists[i];
    var t := s.(lists := s.lists[i := Pushed(l, buffer)], used := s.used - {buffer});
    assert ListOk(s, i);
    assert buffer !in l.items by {
      assert buffer in l.items ==> Spare(s, i, buffer);
    }
    forall j: nat | j < 28
      ensures ListOk(t, j)
    {
      assert ListOk(s, j);
      if j != i {
        OtherList(s, t, i, j, {buffer});
      }
    }
    forall p | p in t.live
      ensures p.Block? && (p in t.used || p in t.doomed || Pooled(t, p))
    {
      if p == buffer {
        assert p in t.lists[i].items;
      } else if Pooled(s, p) {
        StillPooled(s, t, i, p);
      }
    }
  }

  /** A buffer that nobody else holds is deleted. */
  lemma ReleaseKeepsInv(s: State, buffer: Pointer)
    requires Inv(s) && (buffer in s.used || buffer in s.doomed)
    ensures Inv(s.(live := s.live - {buffer}, used := s.used - {buffer}, doomed := s.doomed - {buffer}))
  {
    hide ClassSize, Holds;
    var t := s.(live := s.live - {buffer}, used := s.used - {buffer}, doomed := s.doomed - {buffer});
    forall j: nat | j < 28
      ensures ListOk(t, j)
    {
      assert ListOk(s, j);
      forall p | p in t.lists[j].items
        ensures Spare(t, j, p)
      {
        assert Spare(s, j, p);
      }
    }
    forall p | p in t.live
      ensures p.Block? && (p in t.used || p in t.doomed || Pooled(t, p))
    {
      if Pooled(s, p) {
        StillPooled(s, t, 0, p);
      }
    }
  }

  lemma FreeKeepsInv(s: State, buffer: Pointer, size: bv32, locked: bool)
    requires Inv(s) && Enabled(s, Free(buffer, size, locked))
    ensures Inv(Freed(s, buffer, size, locked))
  {
    hide ClassSize, Holds, ComputeIndex, IsPower;
    ListCount(s);
    if size != 0 {
      assert buffer !in s.doomed && Holds(size, 16);
      if !IsPower(size) || !locked || ComputeIndex(size) >= |s.lists| {
        ReleaseKeepsInv(s, buffer);
        assert s.doomed - {buffer} == s.doomed;
      } else {
        IndexOf(size);
        GiveBackKeepsInv(s, buffer, ComputeIndex(size));
      }
    }
  }

  lemma IndexOf(size: bv32)
    requires IsPower(size) && Holds(size, 16)
    ensures ComputeIndex(size) < 28 && ClassSize(ComputeIndex(size)) == size
  {
    IndexOfPower(size);
  }

  lemma CollectIsSafe(s: State, i: nat)
    requires Inv(s) && i < 28
    ensures Enabled(s, Collect(i))
  {
    assert ListOk(s, i);
  }

  lemma CollectKeepsInv(s: State, i: nat)
    requires Inv(s) && Enabled(s, Collect(i))
    ensures Inv(PickedUp(s, i))
  {
    hide ClassSize, Holds;
    var l, t := s.lists[i], PickedUp(s, i);
    assert ListOk(s, i);
    var n := |l.items| - l.low;
    InFront(l.items, n);
    var gone := Members(Collected(l));
    forall p | p in gone
      ensures p in s.live && s.live[p] == ClassSize(i)
    {
      assert Spare(s, i, p);
    }
    forall j: nat | j < 28
      ensures ListOk(t, j)
    {
      assert ListOk(s, j);
      if j != i {
        OtherList(s, t, i, j, gone);
      } else {
        forall p | p in t.lists[i].items
          ensures Spare(t, i, p)
        {
          assert Spare(s, i, p);
        }
      }
    }
    forall p | p in t.live
      ensures p.Block? && (p in t.used || p in t.doomed || Pooled(t, p))
    {
      if Pooled(s, p) && p !in gone {
        StillPooled(s, t, i, p);
      }
    }
  }

  lemma DeleteKeepsInv(s: State, buffer: Pointer)
    requires Inv(s) && buffer in s.doomed
    ensures Inv(Next(s, Delete(buffer)))
  {
    assert buffer !in s.used;
    ReleaseKeepsInv(s, buffer);
    assert s.used - {buffer} == s.used;
  }

  lemma StepKeepsInv(s: State, step: Step)
    requires Inv(s) && Enabled(s, step)
    ensures Inv(Next(s, step))
  {
    match step {
      case Alloc(size, locked, address) => AllocKeepsInv(s, size, locked, address);
      case Free(buffer, size, locked) => FreeKeepsInv(s, buffer, size, locked);
      case Collect(i) => CollectKeepsInv(s, i);
      case Delete(buffer) => DeleteKeepsInv(s, buffer);
    }
  }

  // ---------------------------------------------------------------- whole runs

  lemma InitHolds()
    ensures Inv(Init())
  {
  }

  predicate Runs(steps: seq<Step>)
    decreases |steps|, 0
  {
    steps == [] ||
    (var before := steps[..|steps| - 1];
     Runs(before) && Enabled(After(before), steps[|steps| - 1]))
  }

  function After(steps: seq<Step>): State
    requires Runs(steps)
    decreases |steps|, 1
  {
    if steps == [] then Init() else Next(After(steps[..|steps| - 1]), steps[|steps| - 1])
  }

  lemma {:induction false} RunKeepsInv(steps: seq<Step>)
    requires Runs(steps)
    ensures Inv(After(steps))
    decreases |steps|
  {
    hide Inv, Enabled, Next;
    if steps == [] {
      InitHolds();
    } else {
      var before := steps[..|steps| - 1];
      RunKeepsInv(before);
      StepKeepsInv(After(before), steps[|steps| - 1]);
    }
  }

  /** Whatever happened before, `Alloc` gives a buffer that nobody has, that no list holds any more and that the
      collector will not delete, allocated with at least the size asked for. */
  lemma NeverHandedOutTwice(steps: seq<Step>, size: bv32, locked: bool, address: Pointer)
    requires Runs(steps) && Enabled(After(steps), Alloc(size, locked, address)) && size != 0
    ensures var s, t := After(steps), Next(After(steps), Alloc(size, locked, address));
      var buffer := Given(s, size, locked, address);
      && buffer.Block? && buffer !in s.used && buffer !in s.doomed
      && !Pooled(t, buffer) && buffer !in t.doomed
      && t.used == s.used[buffer := Capacity(size)]
      && buffer in t.live && t.live[buffer] == Capacity(size)
      && Holds(Capacity(size), size)
  {
    var s := After(steps);
    RunKeepsInv(steps);
    var t := Next(s, Alloc(size, locked, address));
    var buffer := Given(s, size, locked, address);
    StepKeepsInv(s, Alloc(size, locked, address));
    PoolSize(size);
    CapacityIsLeast(size);
    hide Capacity, ComputeIndex, ClassSize, Holds;
    PooledIsSpare(t, buffer);
    if FromPool(s, size, locked) {
      var i := ComputeIndex(Capacity(size));
      assert ListOk(s, i) && Spare(s, i, buffer);
    }
  }

  lemma PooledIsSpare(s: State, p: Pointer)
    requires Inv(s)
    ensures Pooled(s, p) ==> p in s.live && p !in s.used && p !in s.doomed
  {
    hide ClassSize, Holds;
    if Pooled(s, p) {
      var i :| 0 <= i < |s.lists| && p in s.lists[i].items;
      assert ListOk(s, i) && Spare(s, i, p);
    }
  }

  /** No buffer is lost: each that was allocated and not deleted is in use, or in a list, or about to be
      deleted, and in one of the three only. */
  lemma NothingLeaks(steps: seq<Step>, p: Pointer)
    requires Runs(steps)
    ensures var s := After(steps);
      && (p in s.live <==> p in s.used || p in s.doomed || Pooled(s, p))
      && !(p in s.used && p in s.doomed) && !(p in s.used && Pooled(s, p)) && !(p in s.doomed && Pooled(s, p))
  {
    var s := After(steps);
    RunKeepsInv(steps);
    PooledIsSpare(s, p);
    hide ClassSize, Holds;
  }

  // ---------------------------------------------------------------- what a call gives and takes, seen from outside

  /** A list of buffers of this size gives its last one, which it loses; an empty one has the system asked. */
  ghost predicate OutOf(s: State, t: State, i: nat, capacity: bv32, address: Pointer, buffer: Pointer)
    requires i < |s.lists| == |t.lists|
  {
    && (forall j :: 0 <= j < |s.lists| && j != i ==> t.lists[j] == s.lists[j])
    && if s.lists[i].items == [] then
         buffer == address && t.lists[i] == s.lists[i] && t.live == s.live[address := capacity]
       else
         s.lists[i].items == t.lists[i].items + [buffer] && t.live == s.live
  }

  /** `Alloc` between two states: without the lock, or for more than the largest list, the buffer is new. */
  ghost predicate Gives(s: State, t: State, size: bv32, locked: bool, address: Pointer, buffer: Pointer, capacity: bv32) {
    if size == 0 then buffer == Empty && t == s
    else
      && |s.lists| == |t.lists| == 28 && t.used == s.used[buffer := capacity] && t.doomed == s.doomed
      && if locked && capacity <= 0x8000_0000 then
           exists i :: 0 <= i < 28 && ClassSize(i) == capacity && OutOf(s, t, i, capacity, address, buffer)
         else
           buffer == address && t.lists == s.lists && t.live == s.live[address := capacity]
  }

  /** `Free` between two states: when the lock is held, a buffer of the size of some list joins this list as the last
      one; any other is deleted. */
  ghost predicate Takes(s: State, t: State, buffer: Pointer, size: bv32, locked: bool) {
    if size == 0 then t == s
    else
      && |s.lists| == |t.lists| == 28 && t.used == s.used - {buffer} && t.doomed == s.doomed
      && if locked && exists i :: 0 <= i < 28 && ClassSize(i) == size then
           t.live == s.live && exists i :: 0 <= i < 28 && ClassSize(i) == size && Joins(s, t, i, buffer)
         else
           t.lists == s.lists && t.live == s.live - {buffer}
  }

  ghost predicate Joins(s: State, t: State, i: nat, buffer: Pointer)
    requires i < |s.lists| == |t.lists|
  {
    && t.lists[i].items == s.lists[i].items + [buffer]
    && forall j :: 0 <= j < |s.lists| && j != i ==> t.lists[j] == s.lists[j]
  }

  lemma AllocFromList(s: State, size: bv32, address: Pointer, i: nat)
    requires |s.lists| == 28 && i < 28 && size != 0 && Holds(LARGEST, Capacity(size)) && ComputeIndex(Capacity(size)) == i
    requires Enabled(s, Alloc(size, true, address))
    ensures var t, buffer := Next(s, Alloc(size, true, address)), Given(s, size, true, address);
      |t.lists| == 28 && OutOf(s, t, i, Capacity(size), address, buffer)
      && t.used == s.used[buffer := Capacity(size)] && t.doomed == s.doomed
  {
    hide Capacity, ComputeIndex, ClassSize;
  }

  lemma AllocFromSystem(s: State, size: bv32, locked: bool, address: Pointer)
    requires size != 0 && !(locked && Holds(LARGEST, Capacity(size))) && Enabled(s, Alloc(size, locked, address))
    ensures var t := Next(s, Alloc(size, locked, address));
      Given(s, size, locked, address) == address && t.lists == s.lists && t.live == s.live[address := Capacity(size)]
      && t.used == s.used[address := Capacity(size)] && t.doomed == s.doomed
  {
    hide Capacity, ComputeIndex, ClassSize;
  }

  lemma AllocGives(s: State, size: bv32, locked: bool, address: Pointer)
    requires Inv(s) && Enabled(s, Alloc(size, locked, address))
    ensures Gives(s, Next(s, Alloc(size, locked, address)), size, locked, address, Given(s, size, locked, address), Capacity(size))
  {
    ListCount(s);
    hide Inv, Capacity, ComputeIndex, ClassSize;
    if size != 0 {
      if locked && Holds(LARGEST, Capacity(size)) {
        PoolSize(size);
        AllocFromList(s, size, address, ComputeIndex(Capacity(size)));
      } else {
        AllocFromSystem(s, size, locked, address);
      }
      hide Next, Given, Enabled, OutOf;
    }
  }

  lemma ClassIsPower(i: nat)
    requires i < 28
    ensures IsPower(ClassSize(i))
  {
    ClassSizes();
    hide ClassSize;
  }

  lemma FreeTakes(s: State, buffer: Pointer, size: bv32, locked: bool)
    requires Inv(s) && Enabled(s, Free(buffer, size, locked))
    ensures Takes(s, Next(s, Free(buffer, size, locked)), buffer, size, locked)
  {
    ListCount(s);
    if size != 0 {
      LargeEnough(s, buffer, size);
      hide Inv, ComputeIndex, ClassSize, IsPower, Holds;
      if IsPower(size) {
        IndexOf(size);
      } else {
        forall i | 0 <= i < 28
          ensures ClassSize(i) != size
        {
          ClassIsPower(i);
        }
      }
    }
  }

  /** What a step does to the list `i`. */
  function UseOf(s: State, step: Step, i: nat): seq<Use>
    requires Enabled(s, step)
  {
    match step
    case Alloc(size, locked, _) =>
      if size != 0 && FromPool(s, size, locked) && ComputeIndex(Capacity(size)) == i then [Pop] else []
    case Free(buffer, size, locked) =>
      if size != 0 && IsPower(size) && locked && ComputeIndex(size) == i then [Push(buffer)] else []
    case Collect(j) => if j == i then [Manage] else []
    case Delete(_) => []
  }

  function Uses(steps: seq<Step>, i: nat): seq<Use>
    requires Runs(steps)
    decreases |steps|
  {
    if steps == [] then [] else
      var before := steps[..|steps| - 1];
      Uses(before, i) + UseOf(After(before), steps[|steps| - 1], i)
  }

  lemma AllocOnList(s: State, size: bv32, locked: bool, address: Pointer, i: nat)
    requires |s.lists| == 28 && i < 28 && Kept(s.lists[i]) && Enabled(s, Alloc(size, locked, address))
    ensures var uses, t := UseOf(s, Alloc(size, locked, address), i), Allocated(s, size, locked, address);
      |t.lists| == 28 && t.lists[i] == if uses == [] then s.lists[i] else Applied(s.lists[i], uses[0])
  {
    hide ComputeIndex, Capacity, Holds, Kept, Popped;
  }

  lemma FreeOnList(s: State, buffer: Pointer, size: bv32, locked: bool, i: nat)
    requires |s.lists| == 28 && i < 28 && Kept(s.lists[i]) && Enabled(s, Free(buffer, size, locked))
    requires size != 0 && IsPower(size) ==> ComputeIndex(size) < 28
    ensures var uses, t := UseOf(s, Free(buffer, size, locked), i), Freed(s, buffer, size, locked);
      |t.lists| == 28 && t.lists[i] == if uses == [] then s.lists[i] else Applied(s.lists[i], uses[0])
  {
    hide ComputeIndex, IsPower, Kept, Pushed;
  }

  lemma StepOnList(s: State, step: Step, i: nat)
    requires Inv(s) && Enabled(s, step) && i < 28
    ensures |s.lists| == |Next(s, step).lists| == 28 && Kept(s.lists[i])
    ensures var uses := UseOf(s, step, i);
      Next(s, step).lists[i] == if uses == [] then s.lists[i] else Applied(s.lists[i], uses[0])
  {
    ListCount(s);
    KeptInPool(s, i);
    hide Inv, ComputeIndex, Capacity, IsPower, Holds, ClassSize, Popped, Pushed, Managed, Allocated, Freed, FromPool;
    match step {
      case Alloc(size, locked, address) => AllocOnList(s, size, locked, address, i);
      case Free(buffer, size, locked) =>
        if size != 0 && IsPower(size) {
          LargeEnough(s, buffer, size);
          IndexOf(size);
        }
        FreeOnList(s, buffer, size, locked, i);
      case Collect(j) =>
      case Delete(buffer) =>
    }
  }

  lemma {:induction false} ListsAreRuns(steps: seq<Step>, i: nat)
    requires Runs(steps) && i < 28
    ensures |After(steps).lists| == 28
    ensures After(steps).lists[i] == L.After(Nothing, Uses(steps, i))
    decreases |steps|
  {
    if steps != [] {
      var before := steps[..|steps| - 1];
      ListsAreRuns(before, i);
      RunKeepsInv(before);
      StepOnList(After(before), steps[|steps| - 1], i);
      hide Inv, Next, Enabled, UseOf, L.After;
      OneMoreUse(Uses(before, i), UseOf(After(before), steps[|steps| - 1], i));
    }
  }

  /** Over whole runs of the allocator, whichever calls went to a list, a collection takes from it exactly as
      many buffers as it always had to spare since the one before. */
  lemma CollectTakesLowWater(steps: seq<Step>, i: nat)
    requires Runs(steps) && i < 28
    ensures |After(steps).lists| == 28 && Kept(After(steps).lists[i])
    ensures |Collected(After(steps).lists[i])| == Least(Nothing, Uses(steps, i))
  {
    ListsAreRuns(steps, i);
    LowWater(Uses(steps, i));
    hide After, L.After, Uses, Least, Collected;
  }

  lemma OneMoreUse(uses: seq<Use>, more: seq<Use>)
    requires |more| <= 1
    ensures L.After(Nothing, uses + more) == if more == [] then L.After(Nothing, uses) else Applied(L.After(Nothing, uses), more[0])
  {
    if more == [] {
      assert uses + more == uses;
    } else {
      assert (uses + more)[..|uses|] == uses;
    }
  }

  // ---------------------------------------------------------------- the code

  /** The allocator.  `address` is what the system would answer to `new`; the history of what it has given and
      of what is in use is in `state`, whose lists are those of the pool. */
  class Allocator {
    var buffers: seq<Buffers>
    ghost var state: State

    ghost predicate Shows(lists: seq<List>)
      reads this`buffers, buffers
    {
      && |buffers| == |lists| == 28
      && (forall i :: 0 <= i < 28 ==> buffers[i].View() == lists[i])
      && (forall i, j :: 0 <= i < j < 28 ==> buffers[i] != buffers[j])
    }

    ghost predicate Valid()
      reads this, buffers
    {
      Shows(state.lists) && Inv(state)
    }

    constructor ()
      ensures Valid() && state == Init()
      ensures fresh(buffers)
    {
      state := Init();
      buffers := [];
      new;
      while |buffers| < 28
        invariant |buffers| <= 28 && fresh(buffers) && state == Init()
        invariant forall i :: 0 <= i < |buffers| ==> buffers[i].View() == Nothing
        invariant forall i, j :: 0 <= i < j < |buffers| ==> buffers[i] != buffers[j]
      {
        var list := new Buffers();
        buffers := buffers + [list];
      }
      InitHolds();
    }

    /** `BufferPool::alloc` */
    method PoolAlloc(i: nat, address: Pointer) returns (buffer: Pointer)
      requires Shows(state.lists) && i < 28
      modifies buffers
      ensures Shows(state.lists[i := Popped(state.lists[i])])
      ensures buffer == if Top(state.lists[i]) == Null then address else Top(state.lists[i])
    {
      assert buffers[i].View() == state.lists[i];
      buffer := buffers[i].Pop();
      if buffer == Null {
        buffer := address;
      }
    }

    /** `Allocator::Alloc` */
    method Alloc(size: bv32, locked: bool, address: Pointer) returns (buffer: Pointer, capacity: bv32)
      requires Valid() && Enabled(state, Step.Alloc(size, locked, address))
      modifies this`state, buffers
      ensures Valid() && state == Next(old(state), Step.Alloc(size, locked, address))
      ensures buffer == Given(old(state), size, locked, address) && capacity == Capacity(size)
      ensures Gives(old(state), state, size, locked, address, buffer, capacity)
    {
      capacity := Capacity(size);
      if size == 0 {
        return Empty, capacity;
      }
      ghost var s := state;
      PoolSize(size);
      AllocGives(s, size, locked, address);
      StepKeepsInv(s, Step.Alloc(size, locked, address));
      hide Gives, Inv, Shows, Capacity, ComputeIndex, Holds, ClassSize, Popped, Top;
      buffer := address;
      if Holds(LARGEST, capacity) && locked {
        ShowsCount();
        PoolGives(s, ComputeIndex(capacity));
        buffer := PoolAlloc(ComputeIndex(capacity), address);
      }
      state := Next(s, Step.Alloc(size, locked, address));
    }

    lemma ShowsCount()
      requires Shows(state.lists)
      ensures |state.lists| == 28
    {
    }

    /** `BufferPool::free` */
    method PoolFree(i: nat, buffer: Pointer)
      requires Shows(state.lists) && i < 28
      modifies buffers
      ensures Shows(state.lists[i := Pushed(state.lists[i], buffer)])
    {
      assert buffers[i].View() == state.lists[i];
      buffers[i].Push(buffer);
    }

    /** `Allocator::Free` */
    method Free(buffer: Pointer, size: bv32, locked: bool)
      requires Valid() && Enabled(state, Step.Free(buffer, size, locked))
      modifies this`state, buffers
      ensures Valid() && state == Next(old(state), Step.Free(buffer, size, locked))
      ensures Takes(old(state), state, buffer, size, locked)
    {
      hide Takes, Inv, Shows, Next, Enabled, ComputeIndex, IsPower, Pushed, ClassSize, Holds, Freed, Joins;
      ghost var s := state;
      StepKeepsInv(s, Step.Free(buffer, size, locked));
      FreeTakes(s, buffer, size, locked);
      FreeNext(s, buffer, size, locked);
      if size != 0 && IsPower(size) && locked {
        PoolFree(ComputeIndex(size), buffer);
      }
      state := Next(s, Step.Free(buffer, size, locked));
    }

    /** One list of the loop of `BufferPool::run`: under the lock, what the collector picks up. */
    method Collect(i: nat) returns (gc: seq<Pointer>)
      requires Valid() && i < 28
      modifies this`state, buffers
      ensures Valid() && Enabled(old(state), Step.Collect(i)) && state == Next(old(state), Step.Collect(i))
      ensures gc == Collected(old(state).lists[i])
    {
      hide Inv, Shows, Managed, Collected, Next, Enabled, PickedUp;
      ghost var s := state;
      CollectIsSafe(s, i);
      StepKeepsInv(s, Step.Collect(i));
      CollectNext(s, i);
      gc := PickUp(i);
      state := Next(s, Step.Collect(i));
    }

    method PickUp(i: nat) returns (gc: seq<Pointer>)
      requires Shows(state.lists) && i < 28 && Kept(state.lists[i])
      modifies buffers
      ensures Shows(state.lists[i := Managed(state.lists[i])])
      ensures gc == Collected(state.lists[i])
    {
      hide Managed, Collected;
      assert buffers[i].View() == state.lists[i];
      gc := buffers[i].Manage([]);
      assert [] + Collected(state.lists[i]) == Collected(state.lists[i]);
    }

    /** And, out of the lock, what it deletes. */
    method Delete(gc: seq<Pointer>)
      requires Valid() && NoRepeat(gc) && forall p :: p in gc ==> p in state.doomed
      modifies this`state
      ensures Valid() && state.lists == old(state).lists && state.used == old(state).used
      ensures state.doomed == old(state).doomed - Members(gc)
      ensures state.live == old(state).live - Members(gc)
    {
      hide Inv, Shows;
      var i := 0;
      while i < |gc|
        invariant i <= |gc|
        invariant Valid() && state.lists == old(state).lists && state.used == old(state).used
        invariant state.doomed == old(state).doomed - Members(gc[..i])
        invariant state.live == old(state).live - Members(gc[..i])
      {
        OneMoreGone(gc, i);
        DeleteKeepsInv(state, gc[i]);
        state := Next(state, Step.Delete(gc[i]));
        i := i + 1;
      }
      assert gc[..|gc|] == gc;
    }
  }

  lemma OneMoreGone(gc: seq<Pointer>, i: nat)
    requires i < |gc| && NoRepeat(gc)
    ensures Members(gc[..i + 1]) == Members(gc[..i]) + {gc[i]}
    ensures gc[i] !in gc[..i]
  {
    assert gc[..i + 1] == gc[..i] + [gc[i]];
  }

  lemma FreeNext(s: State, buffer: Pointer, size: bv32, locked: bool)
    requires Inv(s) && Enabled(s, Free(buffer, size, locked))
    ensures |s.lists| == 28
    ensures var t := Next(s, Free(buffer, size, locked));
      if size != 0 && IsPower(size) && locked then
        ComputeIndex(size) < 28 && t.lists == s.lists[ComputeIndex(size) := Pushed(s.lists[ComputeIndex(size)], buffer)]
      else t.lists == s.lists
  {
    ListCount(s);
    if size != 0 && IsPower(size) {
      LargeEnough(s, buffer, size);
      IndexOf(size);
    }
    hide Inv, ComputeIndex, ClassSize, IsPower, Holds, Pushed;
  }

  lemma KeptInPool(s: State, i: nat)
    requires Inv(s) && i < 28
    ensures |s.lists| == 28 && Kept(s.lists[i])
  {
    assert ListOk(s, i);
  }

  lemma CollectNext(s: State, i: nat)
    requires Inv(s) && i < 28 && Enabled(s, Collect(i))
    ensures |s.lists| == 28 && Kept(s.lists[i])
    ensures Next(s, Collect(i)).lists == s.lists[i := Managed(s.lists[i])]
  {
    assert ListOk(s, i);
  }

  /** A list gives a buffer unless it is empty, and then it does not change. */
  lemma PoolGives(s: State, i: nat)
    requires Inv(s) && i < 28
    ensures |s.lists| == 28
    ensures s.lists[i].items != [] ==> Top(s.lists[i]) != Null
    ensures s.lists[i].items == [] ==> Top(s.lists[i]) == Null && s.lists[i := Popped(s.lists[i])] == s.lists
  {
    ListCount(s);
    NoNull(s, i);
    hide Inv;
    if s.lists[i].items == [] {
      assert Popped(s.lists[i]) == s.lists[i];
    } else {
      assert Top(s.lists[i]) in s.lists[i].items;
    }
  }

  lemma NoNull(s: State, i: nat)
    requires Inv(s) && i < 28
    ensures forall p :: p in s.lists[i].items ==> p != Null
  {
    assert ListOk(s, i);
    assert forall p :: p in s.lists[i].items ==> Spare(s, i, p);
  }

  lemma LargeEnough(s: State, buffer: Pointer, size: bv32)
    requires Inv(s) && size != 0 && Enabled(s, Free(buffer, size, true))
    ensures Holds(size, 16)
  {
  }
}
