/**
 context_mgr: the handle table.  A context sits in the slot that its handle selects
 modulo the capacity; a full table is rebuilt four times as large.  Handles are 32-bit
 and 0 is skipped.
 */
module ContextMgr {
  import opened Arith

  const WORD := 0x1_0000_0000
  const MAX_CTX_SIZE := 0xffff_ffff

  class Context {
    var handle: nat
    var parent: nat
    var ref: int
    constructor () ensures handle == 0 && ref == 1 { handle, parent, ref := 0, 0, 1; }
  }

  // The capacities reachable from 4 by quadrupling within 32 bits.
  function Pow4(k: nat): nat { if k == 0 then 4 else 4 * Pow4(k - 1) }

  ghost predicate Capacity(c: nat) { exists k: nat :: k <= 14 && c == Pow4(k) }

  const MAX_CAPACITY := 0x4000_0000

  lemma Pow4Top()
    ensures Pow4(14) == MAX_CAPACITY && Pow4(0) == 4
  {
    assert Pow4(4) == 0x400;
    assert Pow4(9) == 0x10_0000;
  }

  lemma {:induction false} Pow4Complement(k: nat)
    requires k <= 14
    ensures Pow4(k) * Pow4(14 - k) == WORD
  {
    if k == 0 {
      Pow4Top();
    } else {
      Pow4Complement(k - 1);
      MoveFour(Pow4(k - 1), Pow4(14 - k));
    }
  }

  lemma MoveFour(a: nat, b: nat)
    ensures (4 * a) * b == a * (4 * b)
  {
  }

  lemma CapacityDividesWord(c: nat)
    requires Capacity(c)
    ensures c >= 4 && WORD % c == 0
  {
    var k: nat :| k <= 14 && c == Pow4(k);
    Pow4Complement(k);
    Pow4Grows(k);
    assert Pow4(14 - k) * c == c * Pow4(14 - k);
    MultipleMod(Pow4(14 - k), c);
  }

  lemma {:induction false} Pow4Bound(k: nat)
    requires k <= 14
    ensures Pow4(k) <= MAX_CAPACITY && (k < 14 ==> Pow4(k) < MAX_CAPACITY)
    decreases 14 - k
  {
    if k == 14 { Pow4Complement(14); } else { Pow4Bound(k + 1); Pow4Grows(k); }
  }

  lemma CapacityTimesFour(c: nat)
    requires Capacity(c)
    ensures (c * 4) % WORD == if c < MAX_CAPACITY then c * 4 else 0
    ensures c <= MAX_CAPACITY && (c < MAX_CAPACITY ==> Capacity(c * 4))
  {
    var k: nat :| k <= 14 && c == Pow4(k);
    Pow4Bound(k);
    if k < 14 {
      assert c * 4 == Pow4(k + 1);
      Pow4Bound(k + 1);
    } else {
      Pow4Complement(14);
    }
  }

  lemma {:induction false} Pow4Grows(k: nat)
    ensures Pow4(k) >= 4
  {
    if k > 0 { Pow4Grows(k - 1); }
  }

  function Occupied<T(==)>(s: seq<T>, none: T): nat {
    if s == [] then 0 else Occupied(s[1..], none) + if s[0] == none then 0 else 1
  }

  lemma {:induction false} OccupiedSet<T>(s: seq<T>, none: T, k: nat, x: T)
    requires k < |s| && (s[k] == none) != (x == none)
    ensures Occupied(s[k := x], none) == if x == none then Occupied(s, none) - 1 else Occupied(s, none) + 1
  {
    if k == 0 {
      assert s[0 := x][1..] == s[1..];
    } else {
      assert s[k := x][1..] == s[1..][k - 1 := x];
      OccupiedSet(s[1..], none, k - 1, x);
    }
  }

  lemma {:induction false} OccupiedFull<T>(s: seq<T>, none: T)
    ensures Occupied(s, none) <= |s|
    ensures Occupied(s, none) == |s| <==> forall k :: 0 <= k < |s| ==> s[k] != none
  {
    if s != [] {
      OccupiedFull(s[1..], none);
      assert forall k :: 1 <= k < |s| ==> s[k] == s[1..][k - 1];
    }
  }

  lemma {:induction false} OccupiedNone<T>(s: seq<T>, none: T)
    requires forall k :: 0 <= k < |s| ==> s[k] == none
    ensures Occupied(s, none) == 0
  {
    if s != [] { OccupiedNone(s[1..], none); }
  }

  // Reducing to 32 bits does not change the residue modulo a capacity.
  lemma WordResidue(x: nat, c: nat)
    requires Capacity(c) && c > 0
    ensures (x % WORD) % c == x % c
  {
    CapacityDividesWord(c);
    ModMod(x, WORD, c);
  }

  predicate Congruent(a: nat, b: nat, c: nat)
    requires c > 0
  {
    a % c == b % c
  }

  // The residue met at offset j of a pass.
  function Residue(base: nat, j: nat, c: nat): (r: nat)
    requires c > 0
    ensures r < c
  {
    (base + j) % c
  }

  // A pass over `c` consecutive handles meets every residue.
  lemma PassMeets(base: nat, r: nat, c: nat) returns (i: nat)
    requires r < c
    ensures i < c && Residue(base, i, c) == r
  {
    var q, b := base / c, base % c;
    i := if b <= r then r - b else r + c - b;
    DivUnique(base + i, if b <= r then q else q + 1, r, c);
  }

  // The residue that offset i of a pass probes, computed in 32 bits.
  lemma ProbeResidue(index: nat, base: nat, i: nat, c: nat)
    requires Capacity(c) && c > 0 && index % c == base % c
    ensures ((i + index) % WORD) % c == Residue(base, i, c)
  {
    WordResidue(i + index, c);
    ModSum(index, base, i, c);
  }

  // Handle 0 is skipped by moving the index a whole capacity on, which keeps the residues.
  lemma SkipZero(index: nat, i: nat, c: nat)
    requires Capacity(c) && 0 < c <= MAX_CAPACITY && index < WORD && i < c && (i + index) % WORD == 0
    ensures ((index + c) % WORD) % c == index % c
    ensures (i + (index + c) % WORD) % WORD == c
  {
    WordResidue(index + c, c);
    ModAdd(index, 1, c);
    if i + index == 0 {
      DivUnique(c, 0, c, WORD);
    } else {
      var q := (i + index) / WORD;
      assert i + index == q * WORD;
      assert q == 1;
      DivUnique(index + c, 1, c - i, WORD);
      DivUnique(c, 0, c, WORD);
    }
  }

  lemma ModSum(a: nat, b: nat, i: nat, c: nat)
    requires c > 0 && a % c == b % c
    ensures (a + i) % c == (b + i) % c
  {
    ModAdd(a % c + i, a / c, c);
    ModAdd(b % c + i, b / c, c);
    assert a + i == a % c + i + (a / c) * c;
    assert b + i == b % c + i + (b / c) * c;
  }

  // Quadrupling keeps different slots apart.
  lemma NoCollision(g: nat, h: nat, c: nat)
    requires c > 0 && g % c != h % c
    ensures g % (4 * c) != h % (4 * c)
  {
    DivUnique(4 * c, 4, 0, c);
    ModMod(g, 4 * c, c);
    ModMod(h, 4 * c, c);
  }

  datatype Outcome = Registered | Refused | Overrun   // Overrun: the capacity wrapped to 0

  // One more, in 32 bits.
  function Next(handle: nat): nat { if handle + 1 < WORD then handle + 1 else 0 }

  lemma NextWraps(handle: nat)
    requires handle < WORD
    ensures (handle + 1) % WORD == Next(handle)
  {
  }

  // The registered contexts and the index at some moment.
  datatype Mark = Mark(live: map<nat, Context>, index: nat, turn: nat)

  // What may be done to the table after start-up.
  datatype Op = Add(ctx: Context, parent: nat) | Remove(ctx: Context) | Look(handle: nat)

  // Every context in a slot is registered under a handle of that slot.
  ghost predicate Backed(live: map<nat, Context>, s: seq<Context?>) {
    forall k :: 0 <= k < |s| && s[k] != null ==> exists h :: h in live && live[h] == s[k] && h % |s| == k
  }

  lemma BackedMore(live: map<nat, Context>, s: seq<Context?>, handle: nat, ctx: Context)
    requires Backed(live, s) && |s| > 0 && s[handle % |s|] == null && handle !in live
    ensures Backed(live[handle := ctx], s[handle % |s| := ctx])
  {
    var live', s' := live[handle := ctx], s[handle % |s| := ctx];
    forall k | 0 <= k < |s'| && s'[k] != null ensures exists h :: h in live' && live'[h] == s'[k] && h % |s'| == k {
      if k == handle % |s| { assert live'[handle] == s'[k]; }
      else {
        var h: nat :| h in live && live[h] == s[k] && h % |s| == k;
        assert live'[h] == s'[k];
      }
    }
  }

  lemma BackedLess(live: map<nat, Context>, s: seq<Context?>, handle: nat)
    requires Backed(live, s) && |s| > 0
    ensures Backed(live - {handle}, s[handle % |s| := null])
  {
    var live', s' := live - {handle}, s[handle % |s| := null];
    forall k | 0 <= k < |s'| && s'[k] != null ensures exists h :: h in live' && live'[h] == s'[k] && h % |s'| == k {
      var h: nat :| h in live && live[h] == s[k] && h % |s| == k;
      assert live'[h] == s'[k];
    }
  }

  class ContextMgr {
    var handleIndex: nat
    var ctxSize: nat
    var slotCap: nat
    var slots: array<Context?>
    ghost var live: map<nat, Context>       // the meaning of the table: handle to registered context
    ghost var turn: nat                     // how often the index was reset or wrapped
    ghost var mark: Mark                    // some earlier moment

    // The table without the index.
    ghost predicate Table()
      reads `ctxSize, `slotCap, `slots, `live, slots, live.Values
    {
      && Capacity(slotCap) && 0 < slotCap && slots.Length == slotCap
      && ctxSize == Occupied(slots[..], null)
      && (forall h :: h in live ==> 0 < h < WORD && live[h].handle == h && slots[h % slotCap] == live[h])
      && Backed(live, slots[..])
    }

    ghost predicate Valid()
      reads this, slots, live.Values
    {
      handleIndex < WORD && Table()
    }

    // In the turn of the mark, a handle below the index of that moment belongs to whom it did or to nobody.
    ghost predicate Kept()
      reads `live, `handleIndex, `turn, `mark
    {
      && turn >= mark.turn
      && (turn == mark.turn ==>
           mark.index <= handleIndex && forall h :: h in live && h < mark.index ==> h in mark.live && mark.live[h] == live[h])
    }

    constructor ()
      ensures Valid() && Kept() && fresh(slots) && handleIndex == 1 && ctxSize == 0 && live == map[]
    {
      handleIndex, ctxSize, slotCap, live, turn, mark := 1, 0, 4, map[], 0, Mark(map[], 1, 0);
      slots := new Context?[4](_ => null);
      new;
      assert Pow4(0) == 4;
      OccupiedNone(slots[..], null);
    }

    // Where each context of a full table goes when the capacity is quadrupled.
    lemma NewPlaces(newCap: nat) returns (pos: seq<nat>)
      requires newCap > 0 && slotCap == slots.Length && forall k :: 0 <= k < slotCap ==> slots[k] != null
      ensures |pos| == slotCap
      ensures forall k :: 0 <= k < slotCap ==> pos[k] < newCap && pos[k] == slots[k].handle % newCap
    {
      pos := [];
      for k := 0 to slotCap
        invariant |pos| == k && forall j :: 0 <= j < k ==> pos[j] < newCap && pos[j] == slots[j].handle % newCap
      {
        pos := pos + [slots[k].handle % newCap];
      }
    }

    ghost method NewPlacesApart(newCap: nat) returns (pos: seq<nat>)
      requires Table() && newCap == 4 * slotCap && forall k :: 0 <= k < slotCap ==> slots[k] != null
      ensures |pos| == slotCap && forall j, k :: 0 <= j < k < slotCap ==> pos[j] != pos[k]
      ensures forall k :: 0 <= k < slotCap ==> pos[k] < newCap && pos[k] == slots[k].handle % newCap
    {
      CapacityDividesWord(slotCap);
      pos := NewPlaces(newCap);
      forall j, k | 0 <= j < k < slotCap ensures pos[j] != pos[k] {
        NoCollision(slots[j].handle, slots[k].handle, slotCap);
      }
    }

    // The copy loop of expand_slot.
    method Rehash(newCap: nat) returns (newSlots: array<Context?>)
      requires Table() && newCap == 4 * slotCap && forall k :: 0 <= k < slotCap ==> slots[k] != null
      ensures fresh(newSlots) && newSlots.Length == newCap && Occupied(newSlots[..], null) == slotCap
      ensures forall k :: 0 <= k < newCap && newSlots[k] != null ==>
        exists j :: 0 <= j < slotCap && newSlots[k] == slots[j] && slots[j].handle % newCap == k
      ensures forall j :: 0 <= j < slotCap ==> newSlots[slots[j].handle % newCap] == slots[j]
    {
      newSlots := new Context?[newCap](_ => null);
      OccupiedNone(newSlots[..], null);
      ghost var pos := NewPlacesApart(newCap);
      CopyAll(newSlots, pos);
    }

    method CopyAll(newSlots: array<Context?>, ghost pos: seq<nat>)
      requires slotCap == slots.Length && newSlots != slots && forall k :: 0 <= k < slotCap ==> slots[k] != null
      requires |pos| == slotCap && (forall j, k :: 0 <= j < k < slotCap ==> pos[j] != pos[k])
      requires newSlots.Length > 0
      requires forall k :: 0 <= k < slotCap ==> pos[k] < newSlots.Length && pos[k] == slots[k].handle % newSlots.Length
      requires Occupied(newSlots[..], null) == 0 && forall k :: 0 <= k < newSlots.Length ==> newSlots[k] == null
      modifies newSlots
      ensures Occupied(newSlots[..], null) == slotCap
      ensures forall k :: 0 <= k < newSlots.Length && newSlots[k] != null ==> exists j :: 0 <= j < slotCap && newSlots[k] == slots[j] && pos[j] == k
      ensures forall j :: 0 <= j < slotCap ==> newSlots[pos[j]] == slots[j]
    {
      for i := 0 to slotCap
        invariant Occupied(newSlots[..], null) == i
        invariant forall k :: 0 <= k < newSlots.Length && newSlots[k] != null ==> exists j :: 0 <= j < i && pos[j] == k
        invariant forall j :: 0 <= j < i ==> newSlots[pos[j]] == slots[j]
      {
        var hash := slots[i].handle % newSlots.Length;
        assert hash == pos[i];
        OccupiedSet(newSlots[..], null, hash, slots[i]);
        ghost var s := newSlots[..];
        newSlots[hash] := slots[i];
        assert newSlots[..] == s[hash := slots[i]];
      }
    }

    method ExpandSlot() returns (ok: bool)
      requires Table() && forall k :: 0 <= k < slotCap ==> slots[k] != null
      modifies `slots, `slotCap
      ensures Table()
      ensures ok <==> old(slotCap) < MAX_CAPACITY
      ensures ok ==> slotCap == 4 * old(slotCap) && fresh(slots)
      ensures !ok ==> slotCap == old(slotCap) && slots == old(slots)
    {
      CapacityTimesFour(slotCap);
      var newCap := (slotCap * 4) % WORD;
      if newCap == 0 {
        return false;
      }
      OccupiedFull(slots[..], null);
      var newSlots := Rehash(newCap);
      forall h | h in live ensures newSlots[h % newCap] == live[h] {
        assert live[h] == slots[h % slotCap];
      }
      slots, slotCap := newSlots, newCap;
      ok := true;
    }

    // The handle tried at offset i; `base` is the index the pass began with.
    method NextHandle(i: nat, ghost base: nat) returns (handle: nat)
      requires Capacity(slotCap) && 0 < slotCap && handleIndex < WORD && i < slotCap
      requires Congruent(handleIndex, base, slotCap)
      modifies `handleIndex
      ensures handleIndex < WORD && Congruent(handleIndex, base, slotCap)
      ensures 0 < handle < WORD && handle % slotCap == Residue(base, i, slotCap)
      ensures 0 < old(handleIndex) && old(handleIndex) + slotCap <= WORD ==>
        handleIndex == old(handleIndex) && handle == handleIndex + i
    {
      CapacityTimesFour(slotCap);
      handle := (i + handleIndex) % WORD;
      ProbeResidue(handleIndex, base, i, slotCap);
      if handle == 0 {
        SkipZero(handleIndex, i, slotCap);
        handleIndex := (handleIndex + slotCap) % WORD;
        handle := (i + handleIndex) % WORD;
        ProbeResidue(handleIndex, base, i, slotCap);
      }
    }

    // One pass over the capacity: a free handle, or the table is full.
    method Probe() returns (ok: bool, handle: nat)
      requires Valid()
      modifies `handleIndex
      ensures Valid()
      ensures ok ==> 0 < handle < WORD && slots[handle % slotCap] == null
      ensures !ok ==> forall k :: 0 <= k < slotCap ==> slots[k] != null
      ensures 0 < old(handleIndex) && old(handleIndex) + slotCap <= WORD ==>
        handleIndex == old(handleIndex) && (ok ==> handleIndex <= handle < handleIndex + slotCap)
    {
      handle := 0;
      ghost var base := handleIndex;
      for i := 0 to slotCap
        invariant handleIndex < WORD && Congruent(handleIndex, base, slotCap)
        invariant 0 < base && base + slotCap <= WORD ==> handleIndex == base
        invariant forall j :: 0 <= j < i ==> slots[Residue(base, j, slotCap)] != null
      {
        handle := NextHandle(i, base);
        if slots[handle % slotCap] == null {
          return true, handle;
        }
      }
      forall k | 0 <= k < slotCap ensures slots[k] != null {
        var j := PassMeets(base, k, slotCap);
      }
      ok := false;
    }

    // Probe, grow a full table, probe again: `ok` with a free handle, or the capacity wrapped.
    method FindFree() returns (ok: bool, handle: nat)
      requires Valid()
      modifies `handleIndex, `slots, `slotCap
      ensures Valid() && (slots == old(slots) || fresh(slots))
      ensures !ok <==> ctxSize == MAX_CAPACITY == old(slotCap)
      ensures ok ==> 0 < handle < WORD && slots[handle % slotCap] == null
      ensures 0 < old(handleIndex) && old(handleIndex) + 4 * old(slotCap) < WORD && ok ==>
        old(handleIndex) <= handle < WORD - 1
    {
      CapacityTimesFour(slotCap);
      OccupiedFull(slots[..], null);
      ok, handle := Probe();
      if !ok {
        ok := ExpandSlot();
        if ok {
          OccupiedFull(slots[..], null);
          ok, handle := Probe();
        }
      }
    }

    // The index starts anew.
    method SetHandleIndex(index: nat)
      requires Valid() && index < WORD
      modifies `handleIndex, `turn
      ensures Valid() && handleIndex == index && turn == old(turn) + 1 && (old(Kept()) ==> Kept())
    {
      handleIndex := index;
      turn := turn + 1;
    }

    // What register_context does with the free slot it found; `start`: the index it began with.
    method Store(ctx: Context, parent: nat, handle: nat, ghost start: nat)
      requires Valid() && ctx.handle == 0 && 0 < handle < WORD && slots[handle % slotCap] == null
      modifies this, slots, ctx
      ensures Valid() && slots == old(slots) && slotCap == old(slotCap)
      ensures live == old(live)[handle := ctx] && handle !in old(live) && mark == old(mark)
      ensures turn == if handle < start || handleIndex == 0 then old(turn) + 1 else old(turn)
      ensures ctx.handle == handle && ctx.parent == parent && ctx.ref == old(ctx.ref) + 1
      ensures handleIndex == Next(handle) && ctxSize == old(ctxSize) + 1
    {
      var hash := handle % slotCap;
      assert handle !in live;
      OccupiedSet(slots[..], null, hash, ctx);
      BackedMore(live, slots[..], handle, ctx);
      ghost var s := slots[..];
      slots[hash] := ctx;
      assert slots[..] == s[hash := ctx];
      NextWraps(handle);
      handleIndex := (handle + 1) % WORD;
      ctxSize := ctxSize + 1;
      ctx.parent := parent;
      ctx.handle := handle;
      ctx.ref := ctx.ref + 1;
      live := live[handle := ctx];
      if handle < start || handleIndex == 0 { turn := turn + 1; }
    }

    method Register(ctx: Context, parent: nat) returns (r: Outcome)
      requires Valid()
      modifies this, slots, ctx
      ensures Valid()
      ensures r == Refused <==> old(ctxSize) == MAX_CTX_SIZE || old(ctx.handle) != 0
      ensures r == Overrun <==> old(ctxSize) != MAX_CTX_SIZE && old(ctx.handle) == 0 && old(ctxSize) == MAX_CAPACITY == old(slotCap)
      ensures r != Registered ==> live == old(live) && ctxSize == old(ctxSize) && ctx.handle == old(ctx.handle)
      ensures r == Registered ==>
        && 0 < ctx.handle < WORD && ctx.handle !in old(live) && live == old(live)[ctx.handle := ctx]
        && ctxSize == old(ctxSize) + 1 && ctx.parent == parent && ctx.ref == old(ctx.ref) + 1
        && handleIndex == Next(ctx.handle)
      // Handles only go up, until the index wraps; it does not while all that may be probed lies ahead.
      ensures turn == if r == Registered && (ctx.handle < old(handleIndex) || handleIndex == 0) then old(turn) + 1 else old(turn)
      ensures r == Registered && 0 < old(handleIndex) && old(handleIndex) + 4 * old(slotCap) < WORD ==> turn == old(turn)
      ensures mark == old(mark) && (slots == old(slots) || fresh(slots)) && (r != Overrun && old(Kept()) ==> Kept())
    {
      if ctxSize == MAX_CTX_SIZE || ctx.handle != 0 {
        return Refused;
      }
      ghost var start := handleIndex;
      var ok, handle := FindFree();
      if !ok {
        return Overrun;
      }
      Store(ctx, parent, handle, start);
      r := Registered;
    }

    method Retire(ctx: Context)
      requires Valid() && (ctx.handle != 0 ==> ctx.handle in live && live[ctx.handle] == ctx)
      modifies this, slots, ctx
      ensures Valid() && handleIndex == old(handleIndex) && turn == old(turn) && mark == old(mark) && slots == old(slots) && ctx.handle == 0
      ensures old(ctx.handle) == 0 ==> live == old(live) && ctxSize == old(ctxSize) && ctx.ref == old(ctx.ref)
      ensures old(ctx.handle) != 0 ==> live == old(live) - {old(ctx.handle)} && ctxSize == old(ctxSize) - 1 && ctx.ref == old(ctx.ref) - 1
    {
      var handle := ctx.handle;
      if handle == 0 {
        return;
      }
      var hash := handle % slotCap;
      OccupiedSet(slots[..], null, hash, null);
      BackedLess(live, slots[..], handle);
      ghost var s := slots[..];
      slots[hash] := null;
      assert slots[..] == s[hash := null];
      ctxSize := ctxSize - 1;
      live := live - {handle};
      ctx.handle := 0;
      ctx.ref := ctx.ref - 1;
      forall h | h in live ensures slots[h % slotCap] == live[h] && live[h] != ctx {
        assert old(live)[h].handle == h;
      }
    }

    // A handle resolves to the context registered under it.
    method Grab(handle: nat) returns (ctx: Context?)
      requires Valid()
      modifies live.Values
      ensures Valid()
      ensures ctx == if handle in live then live[handle] else null
      ensures ctx != null ==> ctx.ref == old(ctx.ref) + 1
      ensures forall c :: c in live.Values && c != ctx ==> c.ref == old(c.ref)
    {
      ctx := slots[handle % slotCap];
      if ctx != null && ctx.handle == handle {
        assert exists h :: h in live && live[h] == ctx && h % slotCap == handle % slotCap;
        assert handle in live && live[handle] == ctx;
        assert ctx in live.Values;
        ctx.ref := ctx.ref + 1;
      } else {
        ctx := null;
      }
    }

    // A context's handle is the one it is registered under, if any.
    ghost predicate Owned(cs: set<Context>)
      reads `live, cs
    {
      live.Values <= cs && forall c :: c in cs && c.handle != 0 ==> c.handle in live && live[c.handle] == c
    }

    // Whatever is registered, retired and looked up: until the index wraps or is reset, a handle
    // below it never resolves to another context than it did, and once retired to none.
    method Run(ops: seq<Op>, ghost cs: set<Context>) returns (overrun: bool)
      requires Valid() && Owned(cs) && forall op <- ops :: !op.Look? ==> op.ctx in cs
      modifies this, slots, cs
      ensures overrun || (Valid() && Owned(cs) && turn >= old(turn))
      ensures !overrun && turn == old(turn) ==>
        old(handleIndex) <= handleIndex && forall h :: h in live && h < old(handleIndex) ==> h in old(live) && live[h] == old(live)[h]
    {
      mark := Mark(live, handleIndex, turn);
      for i := 0 to |ops|
        invariant Valid() && Owned(cs) && Kept() && mark == Mark(old(live), old(handleIndex), old(turn))
        invariant slots == old(slots) || fresh(slots)
      {
        assert ops[i] in ops;
        match ops[i] {
          case Add(ctx, parent) =>
            var r := Register(ctx, parent);
            if r == Overrun { return true; }
          case Remove(ctx) => Retire(ctx);
          case Look(handle) => var ctx := Grab(handle);
        }
      }
      return false;
    }
  }
}
