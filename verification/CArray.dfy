/** `CArray` (src/CArrayImp.h:38-79 and 123-197): the sign of `length` tells owned memory from
    borrowed memory. Blocks live in an explicit `Memory`, so that freeing is visible. */
module CArray {
  import opened Strings

  /** The free store. Block numbers are never reused; `delete[]` of anything but a live block is
      an error, so each block is freed at most once. */
  class Memory {
    var live: map<nat, seq<int>>
    var next: nat

    ghost predicate Valid() reads this {
      forall b :: b in live ==> b < next
    }

    constructor ()
      ensures Valid() && live == map[]
    {
      live, next := map[], 0;
    }

    method New(n: nat) returns (b: nat)
      requires Valid()
      modifies this
      ensures Valid() && b == old(next) && next == b + 1
      ensures b !in old(live) && b in live && |live[b]| == n && live == old(live)[b := live[b]]
    {
      b := next;
      live := live[b := seq(n, _ => 0)];
      next := next + 1;
    }

    method Delete(b: nat)
      requires Valid() && b in live
      modifies this
      ensures Valid() && live == old(live) - {b} && next == old(next)
    {
      live := live - {b};
    }

    /** `memcpy` into a block. */
    method Copy(b: nat, src: seq<int>)
      requires Valid() && b in live && |src| <= |live[b]|
      modifies this
      ensures Valid() && next == old(next)
      ensures live == old(live)[b := src + old(live)[b][|src|..]]
    {
      live := live[b := src + live[b][|src|..]];
    }
  }

  /** What an array holds on to. */
  datatype View = View(arr: Option<nat>, length: int)

  const EMPTY := View(None, 0)

  function OwnedBy(v: View): set<nat> {
    if v.length > 0 && v.arr.Some? then {v.arr.value} else {}
  }

  /** Positive length: a live block of at least that size. Otherwise nothing is owned. */
  ghost predicate ViewOk(v: View, live: map<nat, seq<int>>) {
    && (v.length > 0 ==> v.arr.Some? && v.arr.value in live && v.length <= |live[v.arr.value]|)
    && (v.arr.None? ==> v.length == 0)
  }

  /** What an operation on one array may do to the memory: free what the array owned, allocate
      what it now owns, write where it pleases. */
  ghost predicate Touches(old_: View, new_: View, live: map<nat, seq<int>>, live': map<nat, seq<int>>) {
    && live'.Keys == live.Keys - OwnedBy(old_) + OwnedBy(new_)
    && (OwnedBy(new_) <= OwnedBy(old_) || OwnedBy(new_) !! live.Keys)
    && ViewOk(new_, live')
    && forall b :: b in live && b in live' && b !in OwnedBy(old_) ==> |live'[b]| == |live[b]|
  }

  /** How many elements of `width` bytes lie entirely within `n` bytes. */
  function Whole(n: nat, width: nat): (k: nat)
    requires width > 0
    ensures k <= n && (width == 1 ==> k == n)
    decreases n
  {
    if n < width then 0 else 1 + Whole(n - width, width)
  }

  class CArray {
    var arr: Option<nat>
    var length: int
    const memory: Memory

    function Size(): nat
      reads this
    {
      if length > 0 then length else -length
    }

    ghost predicate Valid()
      reads this, memory
    {
      memory.Valid() && ViewOk(View(arr, length), memory.live)
    }

    ghost function Owned(): set<nat>
      reads this
    {
      OwnedBy(View(arr, length))
    }

    /** The array can be read: what it borrows is still there. */
    ghost predicate Readable()
      reads this, memory
    {
      Valid() && (arr.Some? ==> arr.value in memory.live && Size() <= |memory.live[arr.value]|)
    }

    ghost function Contents(): seq<int>
      reads this, memory
      requires Readable()
    {
      if arr.None? then [] else memory.live[arr.value][..Size()]
    }

    constructor (memory: Memory, len: nat)
      requires memory.Valid()
      modifies memory
      ensures Readable() && length == len && this.memory == memory
      ensures Touches(EMPTY, View(arr, length), old(memory.live), memory.live)
      ensures forall b :: b in old(memory.live) ==> memory.live[b] == old(memory.live)[b]
    {
      this.memory := memory;
      arr, length := None, len;
      if len > 0 {
        var b := memory.New(len);
        arr := Some(b);
      }
    }

    /** Borrowing an existing block. */
    constructor Borrow(memory: Memory, block: nat, len: nat)
      requires memory.Valid() && block in memory.live && len <= |memory.live[block]|
      ensures Readable() && Owned() == {} && Size() == len && this.memory == memory
      ensures Contents() == memory.live[block][..len]
    {
      this.memory, arr, length := memory, Some(block), -(len as int);
    }

    /** The copy constructor. It copies `length` bytes of elements that are `width` bytes wide, so
        only one-byte elements are all copied; a borrowing array is copied as borrowing. */
    constructor CopyOf(rhs: CArray, width: nat)
      requires rhs.Valid() && width > 0
      modifies rhs.memory
      ensures Valid() && memory == rhs.memory && length == rhs.length
      ensures Touches(EMPTY, View(arr, length), old(rhs.memory.live), rhs.memory.live)
      ensures forall b :: b in old(rhs.memory.live) ==> rhs.memory.live[b] == old(rhs.memory.live)[b]
      ensures length <= 0 ==> arr == rhs.arr
      ensures length > 0 ==> Readable() && rhs.Readable() && arr != rhs.arr
      ensures length > 0 ==> Contents()[..Whole(length, width)] == rhs.Contents()[..Whole(length, width)]
      ensures length > 0 && width == 1 ==> Contents() == rhs.Contents()
    {
      memory, arr, length := rhs.memory, rhs.arr, rhs.length;
      new;
      hide Whole;
      if length > 0 {
        var src := memory.live[rhs.arr.value];
        var b := memory.New(length);
        arr := Some(b);
        memory.Copy(b, src[..Whole(length, width)]);
      }
    }

    method Destroy()
      requires Valid()
      modifies memory
      ensures memory.Valid() && memory.live == old(memory.live) - Owned()
      ensures Touches(View(arr, length), EMPTY, old(memory.live), memory.live)
    {
      if arr.Some? && length > 0 {
        memory.Delete(arr.value);
      }
    }

    /** `assign(_arr, size)`, where `src` is what `_arr` points to. */
    method Assign(src: seq<int>, size: nat) returns (ok: bool)
      requires Readable() && |src| >= (if size == 0 then Size() else size)
      modifies this, memory
      ensures Readable()
      ensures !ok ==> unchanged(this) && unchanged(memory)
      ensures ok <==> (old(length) != 0 && size <= old(Size())) || (size > 0 && old(arr).None?)
      ensures ok ==> var n := if size == 0 then old(Size()) else size;
        && n <= Size() && Contents()[..n] == src[..n]
        && Size() == (if old(arr).None? then n else old(Size()))
      ensures Touches(old(View(arr, length)), View(arr, length), old(memory.live), memory.live)
      ensures forall b :: b in old(memory.live) && old(arr) != Some(b) ==> b in memory.live && memory.live[b] == old(memory.live)[b]
      ensures old(arr).Some? ==> arr == old(arr) && length == old(length)
      ensures ok && old(arr).Some? ==>
        var n, b := if size == 0 then old(Size()) else size, old(arr).value;
        |memory.live[b]| == |old(memory.live)[b]| && memory.live[b][n..] == old(memory.live)[b][n..]
    {
      var n := size;
      if size == 0 {
        if length == 0 { return false; }
        n := Size();
      } else if size > Size() {
        if arr.None? {
          length := size;
          var b := memory.New(size);
          arr := Some(b);
        } else {
          return false;
        }
      }
      memory.Copy(arr.value, src[..n]);
      return true;
    }

    /** `wrap(_arr, size)`: what was owned is freed, what was borrowed is not. */
    method Wrap(block: Option<nat>, size: nat)
      requires Valid()
      modifies this, memory
      ensures Valid() && Owned() == {}
      ensures memory.live == old(memory.live) - old(Owned())
      ensures Touches(old(View(arr, length)), View(arr, length), old(memory.live), memory.live)
      ensures arr == block && length == if block.None? then 0 else -(size as int)
    {
      if length > 0 {
        memory.Delete(arr.value);
      }
      arr := block;
      length := if block.None? then 0 else -(size as int);
    }

    /** `reserve(size)`: afterwards an owned block of at least `size`, the old one if it was large
        enough; only what this array owned is freed. */
    method Reserve(size: nat)
      requires Valid()
      modifies this, memory
      ensures Valid()
      ensures size == 0 || old(length) >= size ==> unchanged(this) && unchanged(memory)
      ensures size > 0 && old(length) < size ==>
        && length == size && arr == Some(old(memory.next))
        && forall b :: b in old(memory.live) && b !in old(Owned()) ==> b in memory.live && memory.live[b] == old(memory.live)[b]
      ensures size > 0 ==> length >= size
      ensures Touches(old(View(arr, length)), View(arr, length), old(memory.live), memory.live)
    {
      if size > 0 {
        if length > 0 {
          if length < size {
            memory.Delete(arr.value);
          } else {
            return;
          }
        }
        var b := memory.New(size);
        arr := Some(b);
        length := size;
      }
    }

    /** A failed batch without command information (src/MariaDbStatement.cpp:259-271): whatever
        the array held before, it now exposes exactly `size` entries, all EXECUTE_FAILED, in
        memory it owns. */
    method ReportFailedBatch(size: nat)
      requires Valid() && size > 0
      modifies this, memory
      ensures Readable() && length == size && Contents() == seq(size, _ => -3)
      ensures forall b :: b in old(memory.live) && b !in old(Owned()) ==> b in memory.live && memory.live[b] == old(memory.live)[b]
      ensures forall b :: b in memory.live ==> b in old(memory.live) || b in Owned()
    {
      ghost var before := memory.live;
      ghost var was := Owned();
      Reserve(size);
      length := size;
      var p := 0;
      while p < length
        invariant 0 <= p <= length == size && Readable() && length > 0
        invariant arr.Some? && (arr.value in was || arr.value !in before)
        invariant memory.live[arr.value][..p] == seq(p, _ => -3)
        invariant forall b :: b in before && b !in was ==> b in memory.live && memory.live[b] == before[b]
        invariant forall b :: b in memory.live ==> b in before || b == arr.value
      {
        memory.Copy(arr.value, memory.live[arr.value][..p] + [-3]);
        p := p + 1;
      }
    }
  }

  // ---------- ownership among many arrays ----------

  ghost predicate HasOwner(views: seq<View>, b: nat) {
    exists i :: 0 <= i < |views| && b in OwnedBy(views[i])
  }

  /** The arrays own different blocks, none of those `outside` that somebody else allocated, and
      every live block is one or the other: nothing is freed early and nothing is lost. */
  ghost predicate Separate(views: seq<View>, live: map<nat, seq<int>>, outside: set<nat>) {
    && outside <= live.Keys
    && (forall i :: 0 <= i < |views| ==> ViewOk(views[i], live) && OwnedBy(views[i]) !! outside)
    && (forall i, j :: 0 <= i < j < |views| ==> OwnedBy(views[i]) !! OwnedBy(views[j]))
    && (forall b :: b in live && b !in outside ==> HasOwner(views, b))
  }

  lemma TouchKeeps(views: seq<View>, i: nat, v: View, live: map<nat, seq<int>>, live': map<nat, seq<int>>, outside: set<nat>)
    requires Separate(views, live, outside) && i < |views| && Touches(views[i], v, live, live')
    ensures Separate(views[i := v], live', outside)
  {
    var next := views[i := v];
    forall j | 0 <= j < |next| ensures ViewOk(next[j], live') && OwnedBy(next[j]) !! outside {
      if j != i {
        assert ViewOk(views[j], live) && OwnedBy(views[j]) !! OwnedBy(views[i]);
        assert views[j].length > 0 ==> views[j].arr.value in OwnedBy(views[j]);
      }
    }
    forall b | b in live' && b !in outside ensures HasOwner(next, b) {
      if b in OwnedBy(v) {
        assert b in OwnedBy(next[i]);
      } else {
        assert HasOwner(views, b);
        var k :| 0 <= k < |views| && b in OwnedBy(views[k]);
        assert b in OwnedBy(next[k]);
      }
    }
    hide ViewOk;
    forall j, k | 0 <= j < k < |next| ensures OwnedBy(next[j]) !! OwnedBy(next[k]) {
      assert OwnedBy(views[j]) !! OwnedBy(views[k]);
      assert OwnedBy(views[j]) <= live.Keys && OwnedBy(views[k]) <= live.Keys by {
        OwnedIsLive(views[j], live);
        OwnedIsLive(views[k], live);
      }
    }
  }

  lemma OwnedIsLive(v: View, live: map<nat, seq<int>>)
    requires ViewOk(v, live)
    ensures OwnedBy(v) <= live.Keys
  {
  }

  /** An array that owns nothing comes and goes. */
  lemma EmptyComes(views: seq<View>, v: View, live: map<nat, seq<int>>, outside: set<nat>)
    requires Separate(views, live, outside) && ViewOk(v, live) && OwnedBy(v) == {}
    ensures Separate(views + [v], live, outside)
  {
    forall b | b in live && b !in outside ensures HasOwner(views + [v], b) {
      var k :| 0 <= k < |views| && b in OwnedBy(views[k]);
      assert b in OwnedBy((views + [v])[k]);
    }
  }

  lemma EmptyGoes(views: seq<View>, i: nat, live: map<nat, seq<int>>, outside: set<nat>)
    requires Separate(views, live, outside) && i < |views| && OwnedBy(views[i]) == {}
    ensures Separate(Without(views, i), live, outside)
  {
    var next := Without(views, i);
    forall b | b in live && b !in outside ensures HasOwner(next, b) {
      var k :| 0 <= k < |views| && b in OwnedBy(views[k]);
      assert b in OwnedBy(next[if k < i then k else k - 1]);
    }
    hide ViewOk, OwnedBy;
  }

  function Without<T>(s: seq<T>, i: nat): (r: seq<T>)
    requires i < |s|
    ensures |r| == |s| - 1 && forall k :: 0 <= k < |r| ==> r[k] == s[if k < i then k else k + 1]
  {
    s[..i] + s[i + 1..]
  }

  // ---------- every program over the arrays of one memory ----------

  /** Different objects, all on this memory, with these views, which are separate. */
  ghost predicate Owners(arrays: seq<CArray>, views: seq<View>, memory: Memory, outside: set<nat>)
    reads memory, arrays
  {
    && memory.Valid() && |views| == |arrays|
    && (forall i :: 0 <= i < |arrays| ==>
          arrays[i].memory == memory && views[i] == View(arrays[i].arr, arrays[i].length))
    && (forall i, j :: 0 <= i < j < |arrays| ==> arrays[i] != arrays[j])
    && Separate(views, memory.live, outside)
  }

  datatype Op =
    | Construct(len: nat) | Copying(i: nat, width: nat) | BorrowFrom(block: nat, len: nat)
    | AssignTo(i: nat, src: seq<int>, size: nat) | WrapIn(i: nat, wrapped: Option<nat>, size: nat)
    | ReserveIn(i: nat, size: nat) | Drop(i: nat)

  method DoConstruct(arrays: seq<CArray>, ghost views: seq<View>, len: nat, memory: Memory, ghost outside: set<nat>)
    returns (a: CArray, ghost views': seq<View>)
    requires Owners(arrays, views, memory, outside)
    modifies memory
    ensures fresh(a) && Owners(arrays + [a], views', memory, outside)
  {
    ghost var live := memory.live;
    a := new CArray(memory, len);
    views' := views + [View(a.arr, a.length)];
    EmptyComes(views, EMPTY, live, outside);
    hide Separate, Touches;
    TouchKeeps(views + [EMPTY], |views|, View(a.arr, a.length), live, memory.live, outside);
    assert (views + [EMPTY])[|views| := View(a.arr, a.length)] == views';
  }

  method DoCopy(arrays: seq<CArray>, ghost views: seq<View>, i: nat, width: nat, memory: Memory, ghost outside: set<nat>)
    returns (a: CArray, ghost views': seq<View>)
    requires Owners(arrays, views, memory, outside) && i < |arrays| && width > 0
    modifies memory
    ensures fresh(a) && Owners(arrays + [a], views', memory, outside)
  {
    ghost var live := memory.live;
    assert ViewOk(views[i], live);
    a := new CArray.CopyOf(arrays[i], width);
    views' := views + [View(a.arr, a.length)];
    EmptyComes(views, EMPTY, live, outside);
    hide Separate, Touches, ViewOk;
    TouchKeeps(views + [EMPTY], |views|, View(a.arr, a.length), live, memory.live, outside);
    assert (views + [EMPTY])[|views| := View(a.arr, a.length)] == views';
  }

  method DoBorrow(arrays: seq<CArray>, ghost views: seq<View>, block: nat, len: nat, memory: Memory, ghost outside: set<nat>)
    returns (a: CArray, ghost views': seq<View>)
    requires Owners(arrays, views, memory, outside) && block in memory.live && len <= |memory.live[block]|
    ensures fresh(a) && Owners(arrays + [a], views', memory, outside)
  {
    a := new CArray.Borrow(memory, block, len);
    views' := views + [View(a.arr, a.length)];
    EmptyComes(views, View(a.arr, a.length), memory.live, outside);
    hide Separate;
  }

  method DoAssign(arrays: seq<CArray>, ghost views: seq<View>, i: nat, src: seq<int>, size: nat, memory: Memory, ghost outside: set<nat>)
    returns (ghost views': seq<View>)
    requires Owners(arrays, views, memory, outside) && i < |arrays|
    modifies memory, arrays[i]
    ensures Owners(arrays, views', memory, outside)
  {
    var a := arrays[i];
    var n := a.Size();
    ghost var live := memory.live;
    hide Separate, Touches, ViewOk, OwnedBy;
    if |src| >= (if size == 0 then n else size)
       && (a.arr.Some? ==> a.arr.value in memory.live && n <= |memory.live[a.arr.value]|) {
      var _ := a.Assign(src, size);
    }
    views' := views[i := View(a.arr, a.length)];
    TouchKeeps(views, i, View(a.arr, a.length), live, memory.live, outside);
  }

  method DoWrap(arrays: seq<CArray>, ghost views: seq<View>, i: nat, block: Option<nat>, size: nat, memory: Memory, ghost outside: set<nat>)
    returns (ghost views': seq<View>)
    requires Owners(arrays, views, memory, outside) && i < |arrays|
    modifies memory, arrays[i]
    ensures Owners(arrays, views', memory, outside)
  {
    var a := arrays[i];
    ghost var live := memory.live;
    hide Separate, Touches, ViewOk, OwnedBy;
    a.Wrap(block, size);
    views' := views[i := View(a.arr, a.length)];
    TouchKeeps(views, i, View(a.arr, a.length), live, memory.live, outside);
  }

  method DoReserve(arrays: seq<CArray>, ghost views: seq<View>, i: nat, size: nat, memory: Memory, ghost outside: set<nat>)
    returns (ghost views': seq<View>)
    requires Owners(arrays, views, memory, outside) && i < |arrays|
    modifies memory, arrays[i]
    ensures Owners(arrays, views', memory, outside)
  {
    var a := arrays[i];
    ghost var live := memory.live;
    hide Separate, Touches, ViewOk, OwnedBy;
    a.Reserve(size);
    views' := views[i := View(a.arr, a.length)];
    TouchKeeps(views, i, View(a.arr, a.length), live, memory.live, outside);
  }

  method DoDrop(arrays: seq<CArray>, ghost views: seq<View>, i: nat, memory: Memory, ghost outside: set<nat>)
    returns (ghost views': seq<View>)
    requires Owners(arrays, views, memory, outside) && i < |arrays|
    modifies memory
    ensures Owners(Without(arrays, i), views', memory, outside)
  {
    ghost var live := memory.live;
    hide Separate, Touches, ViewOk, OwnedBy;
    arrays[i].Destroy();
    TouchKeeps(views, i, EMPTY, live, memory.live, outside);
    EmptyGoes(views[i := EMPTY], i, memory.live, outside);
    views' := Without(views[i := EMPTY], i);
  }

  /** One operation on any of the arrays; what C++ leaves undefined is not done. */
  method Do(arrays: seq<CArray>, ghost views: seq<View>, op: Op, memory: Memory, ghost outside: set<nat>)
    returns (r: seq<CArray>, ghost views': seq<View>)
    requires Owners(arrays, views, memory, outside)
    modifies memory, arrays
    ensures Owners(r, views', memory, outside)
    ensures forall a :: a in r ==> a in arrays || fresh(a)
  {
    assert memory.Valid();
    hide Owners;
    r, views' := arrays, views;
    if op.Construct? {
      var a;
      a, views' := DoConstruct(arrays, views, op.len, memory, outside);
      r := arrays + [a];
    } else if op.BorrowFrom? {
      if op.block in memory.live && op.len <= |memory.live[op.block]| {
        var a;
        a, views' := DoBorrow(arrays, views, op.block, op.len, memory, outside);
        r := arrays + [a];
      }
    } else if op.i < |arrays| && op.Copying? {
      if op.width > 0 {
        var a;
        a, views' := DoCopy(arrays, views, op.i, op.width, memory, outside);
        r := arrays + [a];
      }
    } else if op.i < |arrays| {
      match op
      case AssignTo(i, src, size) => views' := DoAssign(arrays, views, i, src, size, memory, outside);
      case WrapIn(i, wrapped, size) => views' := DoWrap(arrays, views, i, wrapped, size, memory, outside);
      case ReserveIn(i, size) => views' := DoReserve(arrays, views, i, size, memory, outside);
      case Drop(i) =>
        views' := DoDrop(arrays, views, i, memory, outside);
        r := Without(arrays, i);
    }
  }

  /** Any program, ended by destroying its arrays, leaves exactly the blocks it found: each block
      it allocated was freed, and what it borrowed was not. */
  method RunProgram(ops: seq<Op>, memory: Memory)
    requires memory.Valid()
    modifies memory
    ensures memory.Valid() && memory.live.Keys == old(memory.live.Keys)
  {
    ghost var outside := memory.live.Keys;
    var arrays: seq<CArray> := [];
    ghost var views: seq<View> := [];
    assert Owners(arrays, views, memory, outside);
    for k := 0 to |ops|
      invariant Owners(arrays, views, memory, outside)
      invariant fresh(set a | a in arrays)
    {
      hide Owners;
      arrays, views := Do(arrays, views, ops[k], memory, outside);
    }
    while arrays != []
      invariant Owners(arrays, views, memory, outside)
      decreases |arrays|
    {
      hide Owners;
      views := DoDrop(arrays, views, 0, memory, outside);
      arrays := Without(arrays, 0);
    }
    assert forall b :: b in memory.live && b !in outside ==> HasOwner(views, b);
  }
}
