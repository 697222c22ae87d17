/**
 References to network handles, kept in a table whose free slots form a list threaded
 through the table itself, slot 0 being the list's head.  A reference is given back twice,
 by the Lua side and by the network side, in either order.
 */
module HandleRefs {
  import opened Basics

  type Ptr = p: nat | p != 0 witness 1   // a handle's address, never NULL

  // What a slot of the table holds; a slot that is not in the map is nil.
  datatype Slot = Live(h: Ptr) | Null | Link(next: nat)

  datatype Side = LuaSide | NetSide

  // Who has not given the reference back yet.
  datatype Holding = Holding(h: Ptr, lua: bool, net: bool) {
    predicate Holds(s: Side) { if s.LuaSide? then lua else net }
    function Drop(s: Side): Holding { if s.LuaSide? then this.(lua := false) else this.(net := false) }
    function Slot(): Slot { if lua && net then Live(h) else Null }
  }

  type Table = map<nat, Slot>

  // ----- runs

  datatype Event = Grabbed(ref: nat, h: Ptr) | Released(ref: nat, side: Side)

  // The references in use after a run in which no side gives a reference back twice.
  function After(held: map<nat, Holding>, e: Event): Option<map<nat, Holding>> {
    match e
    case Grabbed(r, h) => if r in held then None else Some(held[r := Holding(h, true, true)])
    case Released(r, s) =>
      if r !in held || !held[r].Holds(s) then None
      else
        var left := held[r].Drop(s);
        Some(if left.lua || left.net then held[r := left] else held - {r})
  }

  function RunOf(es: seq<Event>): Option<map<nat, Holding>> {
    if es == [] then Some(map[]) else
    var before := RunOf(es[..|es| - 1]);
    if before.None? then None else After(before.value, es[|es| - 1])
  }

  lemma {:induction false} PrefixRuns(es: seq<Event>, j: nat)
    requires RunOf(es).Some? && j <= |es|
    ensures RunOf(es[..j]).Some?
    decreases |es|
  {
    if j < |es| {
      assert es[..|es| - 1][..j] == es[..j];
      PrefixRuns(es[..|es| - 1], j);
    } else { assert es[..j] == es; }
  }

  // A side that has not given a reference back still holds it.
  lemma {:induction false} StillHeld(es: seq<Event>, i: nat, j: nat, s: Side)
    requires RunOf(es).Some? && i < j <= |es| && es[i].Grabbed?
    requires forall k :: i < k < j ==> es[k] != Released(es[i].ref, s)
    ensures RunOf(es[..j]).Some? && es[i].ref in RunOf(es[..j]).value && RunOf(es[..j]).value[es[i].ref].Holds(s)
    decreases j
  {
    PrefixRuns(es, j);
    PrefixRuns(es, j - 1);
    assert es[..j][..j - 1] == es[..j - 1];
    if j - 1 > i { StillHeld(es, i, j - 1, s); }
  }

  // A number is given out again only after both sides have given it back, in either order.
  lemma ReissuedAfterBoth(es: seq<Event>, i: nat, j: nat)
    requires RunOf(es).Some? && i < j < |es| && es[i].Grabbed? && es[j].Grabbed? && es[i].ref == es[j].ref
    ensures exists k :: i < k < j && es[k] == Released(es[i].ref, LuaSide)
    ensures exists k :: i < k < j && es[k] == Released(es[i].ref, NetSide)
  {
    PrefixRuns(es, j + 1);
    assert es[..j + 1][..j] == es[..j];
    if forall k :: i < k < j ==> es[k] != Released(es[i].ref, LuaSide) { StillHeld(es, i, j, LuaSide); }
    if forall k :: i < k < j ==> es[k] != Released(es[i].ref, NetSide) { StillHeld(es, i, j, NetSide); }
  }

  // ----- the table

  // The link to list element i: from slot 0, or from the element before it.
  function LinkTo(free: seq<nat>, i: nat): nat
    requires i <= |free|
  {
    if i == 0 then 0 else free[i - 1]
  }

  // Slot k points to list element i, and the last one to nothing.
  predicate Linked(t: Table, free: seq<nat>, i: nat)
    requires i <= |free|
  {
    if i < |free| then LinkTo(free, i) in t && t[LinkTo(free, i)] == Link(free[i]) else LinkTo(free, i) !in t
  }

  ghost predicate FreeList(t: Table, free: seq<nat>) {
    Distinct(free) && 0 !in free && forall i: nat :: i <= |free| ==> Linked(t, free, i)
  }

  // Slots 1 to size are free or held; nothing lies beyond them.
  ghost predicate SlotsOk(t: Table, free: seq<nat>, held: map<nat, Holding>, size: nat) {
    && (forall r: nat :: (1 <= r <= size) <==> (r in free || r in held))
    && (forall r: nat :: r in held ==> r !in free && r in t && t[r] == held[r].Slot() && (held[r].lua || held[r].net))
    && (forall r: nat :: r in t && r > 0 ==> r <= size)
  }

  // lua_rawlen: some n after which the next slot is nil.
  predicate Border(t: Table, n: nat) { (n > 0 ==> n in t) && n + 1 !in t }

  class RefTable {
    var t: Table
    ghost var free: seq<nat>              // the free list, first element first
    ghost var held: map<nat, Holding>     // the references in use
    ghost var size: nat
    ghost var trace: seq<Event>           // what has happened so far

    ghost predicate Valid()
      reads this
    {
      FreeList(t, free) && SlotsOk(t, free, held, size) && RunOf(trace) == Some(held)
    }

    constructor ()
      ensures Valid() && held == map[]
    {
      t, free, held, size, trace := map[], [], map[], 0, [];
    }

    // luaL_ref
    method Ref(h: Ptr, border: nat) returns (ref: nat)
      requires Valid() && Border(t, border)
      modifies this
      ensures Valid() && ref > 0 && ref !in old(held) && held == old(held)[ref := Holding(h, true, true)]
      ensures trace == old(trace) + [Grabbed(ref, h)]
    {
      HeadOfFree(t, free);
      ref := if 0 in t && t[0].Link? then t[0].next else 0;
      if ref != 0 { TakeFree(h, ref); } else { ref := TakeNew(h, border); }
      trace := trace + [Grabbed(ref, h)];
      held := held[ref := Holding(h, true, true)];
    }

    // The first free slot.
    method TakeFree(h: Ptr, ref: nat)
      requires FreeList(t, free) && SlotsOk(t, free, held, size) && free != [] && free[0] == ref
      modifies `t, `free
      ensures FreeList(t, free) && SlotsOk(t, free, held[ref := Holding(h, true, true)], size) && ref !in held
    {
      ghost var was := t;
      t := if ref in t then t[0 := t[ref]] else t - {0};
      t := t[ref := Live(h)];
      Popped(was, free, held, size, t, h);
      free := free[1..];
    }

    // The slot after the last.
    method TakeNew(h: Ptr, border: nat) returns (ref: nat)
      requires free == [] && FreeList(t, free) && SlotsOk(t, free, held, size) && Border(t, border)
      modifies `t, `size
      ensures FreeList(t, free) && SlotsOk(t, free, held[ref := Holding(h, true, true)], size) && ref > 0 && ref !in held
    {
      BorderIsSize(t, held, size, border);
      Appended(t, held, size, h);
      ref := border + 1;
      t := t[ref := Live(h)];
      size := size + 1;
    }

    // luaL_unref
    method Unref(ref: nat)
      requires FreeList(t, free) && SlotsOk(t, free, held, size) && ref in held
      modifies this
      ensures FreeList(t, free) && SlotsOk(t, free, held, size) && held == old(held) - {ref} && trace == old(trace)
    {
      ghost var was := t;
      assert Linked(t, free, 0);
      assert 1 <= ref <= size;
      t := if 0 in t then t[ref := t[0]] else t - {ref};
      t := t[0 := Link(ref)];
      Pushed(was, free, held, size, t, ref);
      free := [ref] + free;
      held := held - {ref};
    }

    // release_ref: the first release leaves a marker, the second frees the slot.
    method ReleaseRef(ref: nat, ghost side: Side)
      requires Valid() && ref in held && held[ref].Holds(side)
      modifies this
      ensures Valid()
      ensures var left := old(held)[ref].Drop(side);
        held == if left.lua || left.net then old(held)[ref := left] else old(held) - {ref}
      ensures trace == old(trace) + [Released(ref, side)]
    {
      assert t[ref] == held[ref].Slot();
      trace := trace + [Released(ref, side)];
      if ref in t && t[ref].Live? {
        ghost var was := t;
        t := t[ref := Null];
        held := held[ref := held[ref].Drop(side)];
        forall i: nat | i <= |free| ensures Linked(t, free, i) {
          assert Linked(was, free, i);
          assert 1 <= ref <= size;
          assert i > 0 ==> LinkTo(free, i) in free;
        }
      } else if !(ref in t && t[ref].Link?) {
        Unref(ref);
      }
    }

    // get_lua_handle: the handle while neither side has given the reference back, else NULL.
    method GetLuaHandle(ref: nat) returns (h: nat)
      requires Valid() && ref > 0
      ensures h == if ref in held && held[ref].lua && held[ref].net then held[ref].h else 0
    {
      FreeIsNotLive(t, free);
      h := if ref in t && t[ref].Live? then t[ref].h else 0;
    }
  }

  lemma FreeIsNotLive(t: Table, free: seq<nat>)
    requires FreeList(t, free)
    ensures forall r: nat :: r in free ==> r !in t || t[r].Link?
  {
    forall r: nat | r in free ensures r !in t || t[r].Link? {
      var i :| 0 <= i < |free| && free[i] == r;
      assert Linked(t, free, i + 1);
    }
  }

  // The first free slot taken off the list.
  lemma Popped(t: Table, free: seq<nat>, held: map<nat, Holding>, size: nat, t': Table, h: Ptr)
    requires FreeList(t, free) && SlotsOk(t, free, held, size) && free != []
    requires var ref := free[0]; t' == (if ref in t then t[0 := t[ref]] else t - {0})[ref := Live(h)]
    ensures FreeList(t', free[1..]) && SlotsOk(t', free[1..], held[free[0] := Holding(h, true, true)], size)
    ensures free[0] !in held
  {
    var rest := free[1..];
    Tail(free);
    forall i: nat | i <= |rest| ensures Linked(t', rest, i) {
      assert Linked(t, free, i + 1);
      if i > 0 { assert LinkTo(free, i + 1) == free[i] && free[i] in free && free[i] != free[0]; }
    }
  }

  // What luaL_ref reads in slot 0.
  lemma HeadOfFree(t: Table, free: seq<nat>)
    requires FreeList(t, free)
    ensures (if 0 in t && t[0].Link? then t[0].next else 0) == if free == [] then 0 else free[0]
    ensures free != [] ==> free[0] != 0
  {
    assert Linked(t, free, 0);
    if free != [] { assert free[0] in free; }
  }

  lemma Tail(free: seq<nat>)
    requires Distinct(free) && free != []
    ensures Distinct(free[1..]) && free[0] in free && forall r: nat :: r in free[1..] <==> r in free && r != free[0]
  {
    assert free == [free[0]] + free[1..];
    forall i | 0 <= i < |free| - 1 ensures free[1..][i] == free[i + 1] && free[i + 1] != free[0] {}
  }

  // A slot put in front of the list.
  lemma Pushed(t: Table, free: seq<nat>, held: map<nat, Holding>, size: nat, t': Table, ref: nat)
    requires FreeList(t, free) && SlotsOk(t, free, held, size) && ref in held
    requires t' == (if 0 in t then t[ref := t[0]] else t - {ref})[0 := Link(ref)]
    ensures FreeList(t', [ref] + free) && SlotsOk(t', [ref] + free, held - {ref}, size)
  {
    var more := [ref] + free;
    assert 1 <= ref <= size;
    forall i: nat | i <= |more| ensures Linked(t', more, i) {
      if i > 0 {
        assert Linked(t, free, i - 1);
        if i > 1 { assert LinkTo(free, i - 1) in free; }
      }
    }
    forall i, j | 0 <= i < j < |more| ensures more[i] != more[j] {
      if i == 0 { assert more[j] == free[j - 1] && free[j - 1] in free; }
    }
  }

  // A slot beyond the last one.
  lemma Appended(t: Table, held: map<nat, Holding>, size: nat, h: Ptr)
    requires FreeList(t, []) && SlotsOk(t, [], held, size)
    ensures var t' := t[size + 1 := Live(h)];
      FreeList(t', []) && SlotsOk(t', [], held[size + 1 := Holding(h, true, true)], size + 1) && size + 1 !in held
  {
    assert Linked(t, [], 0);
  }

  // With no free slot, the border lua_rawlen finds is the last slot.
  lemma BorderIsSize(t: Table, held: map<nat, Holding>, size: nat, border: nat)
    requires SlotsOk(t, [], held, size) && Border(t, border)
    ensures border == size
  {
    assert border < size ==> border + 1 in held;
  }
}
