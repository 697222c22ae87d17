/**
 Copy-on-write buffers.  A handle points to a block of memory that counts the handles
 sharing it; an operation on a handle writes into the block only if nobody else shares it,
 and gives the handle a block of its own otherwise.  Allocations succeed.
 */
module Buffer {
  import opened Basics
  import opened Bytes

  type Handle = nat
  type BlockId = nat

  const DEFAULT_BUFFER_CAPACITY := 32
  const MAX_BUFFER_CAPACITY := 0x7fff_ffff
  const MAX_BUFFER_PREALLOC := 1024 * 1024

  // data is the whole memory of the block, room for the final NUL included.
  datatype Block = Block(ref: nat, len: nat, cap: nat, data: seq<Byte>) {
    predicate Ok() { len <= cap <= MAX_BUFFER_CAPACITY && |data| == cap + 1 }
    function Content(): seq<Byte>
      requires Ok()
    {
      data[..len]
    }
  }

  datatype Memory = Memory(blocks: map<BlockId, Block>, handles: map<Handle, BlockId>, next: BlockId)

  function Sharers(m: Memory, b: BlockId): set<Handle> { set h | h in m.handles && m.handles[h] == b }

  ghost predicate BlockOk(m: Memory, b: BlockId) {
    b in m.blocks ==> b < m.next && m.blocks[b].Ok() && m.blocks[b].ref == |Sharers(m, b)| && m.blocks[b].ref > 0
  }

  ghost predicate Valid(m: Memory) {
    && (forall h :: h in m.handles ==> m.handles[h] in m.blocks)
    && (forall b :: BlockOk(m, b))
  }

  // What a handle shows; nothing if it is invalid.
  function View(m: Memory, h: Handle): seq<Byte> {
    if h in m.handles && m.handles[h] in m.blocks && m.blocks[m.handles[h]].Ok() then m.blocks[m.handles[h]].Content() else []
  }

  // Only handle h sees a change.
  predicate OnlyChanges(m: Memory, m': Memory, h: Handle) {
    && m'.handles.Keys - {h} == m.handles.Keys - {h}
    && forall k :: k in m.handles && k != h ==> k in m'.handles && View(m', k) == View(m, k)
  }

  // Every handle in use keeps its block, and the block its memory.
  predicate Untouched(m: Memory, m': Memory) {
    forall k :: k in m.handles && m.handles[k] in m.blocks ==>
      k in m'.handles && m'.handles[k] == m.handles[k] && m.handles[k] in m'.blocks && m'.blocks[m.handles[k]] == m.blocks[m.handles[k]]
  }

  // ----- the three ways memory changes

  // A handle gives up its block, which is freed if nobody else shares it.
  function Released(m: Memory, h: Handle): Memory {
    if h !in m.handles || m.handles[h] !in m.blocks then m else
    var b := m.handles[h];
    var blk := m.blocks[b];
    m.(handles := m.handles - {h}, blocks := if blk.ref <= 1 then m.blocks - {b} else m.blocks[b := blk.(ref := blk.ref - 1)])
  }

  lemma ReleasedValid(m: Memory, h: Handle)
    requires Valid(m)
    ensures Valid(Released(m, h)) && OnlyChanges(m, Released(m, h), h) && h !in Released(m, h).handles
  {
    if h in m.handles {
      var m', b := Released(m, h), m.handles[h];
      assert BlockOk(m, b);
      forall c ensures BlockOk(m', c) {
        assert BlockOk(m, c);
        Resized(Sharers(m, c), Sharers(m', c), h);
      }
      forall k | k in m'.handles ensures m'.handles[k] in m'.blocks {
        assert BlockOk(m, m.handles[k]);
        if m.handles[k] == b && m.blocks[b].ref <= 1 {
          Two(h, k, Sharers(m, b));
        }
      }
    }
  }

  lemma Two(h: Handle, k: Handle, s: set<Handle>)
    requires h != k && h in s && k in s
    ensures |s| >= 2
  {
    assert s == {h} + ({k} + (s - {h, k}));
  }

  // A handle that is not in use gets a new block.
  function Bound(m: Memory, h: Handle, blk: Block): Memory {
    m.(handles := m.handles[h := m.next], blocks := m.blocks[m.next := blk.(ref := 1)], next := m.next + 1)
  }

  lemma BoundValid(m: Memory, h: Handle, blk: Block)
    requires Valid(m) && h !in m.handles && blk.Ok()
    ensures Valid(Bound(m, h, blk)) && OnlyChanges(m, Bound(m, h, blk), h) && View(Bound(m, h, blk), h) == blk.Content()
  {
    var m' := Bound(m, h, blk);
    assert m.next !in m.blocks by { assert BlockOk(m, m.next); }
    forall k | k in m.handles ensures m.handles[k] != m.next { assert BlockOk(m, m.handles[k]); }
    forall c ensures BlockOk(m', c) {
      assert BlockOk(m, c);
      Resized(Sharers(m, c), Sharers(m', c), h);
      if c == m.next { assert Sharers(m', c) == {h}; }
    }
  }

  // An unshared block changed, where it is or moved by realloc.
  function Rewritten(m: Memory, h: Handle, blk: Block, moved: bool): Memory
    requires h in m.handles
  {
    var b := m.handles[h];
    if moved then Bound(m.(handles := m.handles - {h}, blocks := m.blocks - {b}), h, blk)
    else m.(blocks := m.blocks[b := blk.(ref := 1)])
  }

  lemma RewrittenValid(m: Memory, h: Handle, blk: Block, moved: bool)
    requires Valid(m) && h in m.handles && m.blocks[m.handles[h]].ref == 1 && blk.Ok()
    ensures Valid(Rewritten(m, h, blk, moved)) && OnlyChanges(m, Rewritten(m, h, blk, moved), h)
    ensures View(Rewritten(m, h, blk, moved), h) == blk.Content() && h in Rewritten(m, h, blk, moved).handles
  {
    var b := m.handles[h];
    assert BlockOk(m, b);
    Alone(m, h);
    if moved {
      var m1 := m.(handles := m.handles - {h}, blocks := m.blocks - {b});
      assert m1 == Released(m, h);
      ReleasedValid(m, h);
      BoundValid(m1, h, blk);
    } else {
      var m' := Rewritten(m, h, blk, moved);
      forall c ensures BlockOk(m', c) {
        assert BlockOk(m, c);
        assert Sharers(m', c) == Sharers(m, c);
      }
    }
  }

  // A count of one means that no other handle has the block.
  lemma Alone(m: Memory, h: Handle)
    requires Valid(m) && h in m.handles && m.blocks[m.handles[h]].ref == 1
    ensures forall k :: k in m.handles && k != h ==> m.handles[k] != m.handles[h]
  {
    var b := m.handles[h];
    assert BlockOk(m, b);
    forall k | k in m.handles && k != h ensures m.handles[k] != b {
      if m.handles[k] == b { Two(h, k, Sharers(m, b)); }
    }
  }

  // ----- sources and sizes

  // Data to append: from elsewhere, or from inside a block, by its place there.
  datatype Source = Null | Outside(bytes: seq<Byte>) | Inside(block: BlockId, offset: nat, n: nat)

  predicate Readable(m: Memory, src: Source) {
    src.Inside? ==> src.block in m.blocks && src.offset + src.n <= |m.blocks[src.block].data|
  }

  function Read(m: Memory, src: Source): seq<Byte>
    requires Readable(m, src)
  {
    match src
    case Null => []
    case Outside(bytes) => bytes
    case Inside(b, offset, n) => m.blocks[b].data[offset..offset + n]
  }

  const WORD := 0x1_0000_0000_0000_0000
  const HEADER := 16                    // of a block before its bytes, where long has 64 bits
  const MAX_OFFSET := 0x7fff_ffff       // buffer_append keeps a place in a block in an int32_t

  // realloc moves the block, and the place of the data in it does not fit: the data are read
  // from where the block was.
  predicate Misplaced(m: Memory, h: Handle, src: Source) {
    && h in m.handles && m.handles[h] in m.blocks
    && src.Inside? && src.block == m.handles[h] && HEADER + src.offset > MAX_OFFSET
    && var blk := m.blocks[m.handles[h]]; blk.ref == 1 && blk.len + src.n > blk.cap
  }

  lemma MisplacedExists() returns (m: Memory, src: Source)
    ensures Valid(m) && Readable(m, src) && Misplaced(m, 0, src)
    ensures 0 in m.blocks && Appends(m.blocks[0], src, 1)
  {
    var cap := MAX_BUFFER_CAPACITY - 8;
    m := Memory(map[0 := Block(1, cap, cap, Zeros(cap + 1))], map[0 := 0], 1);
    src := Inside(0, cap - 1, 1);
    assert Sharers(m, 0) == {0};
    assert forall b :: BlockOk(m, b);
  }

  // buffer_gen_capacity, in a size_t; 0 for too much, and for nothing at all.
  function GenCapacity(len: nat, add: nat): nat {
    var cap := (len + add) % WORD;
    if cap >= MAX_BUFFER_CAPACITY || cap < add then 0
    else
      var grown := if cap < MAX_BUFFER_PREALLOC then 2 * cap else cap + MAX_BUFFER_PREALLOC;
      if grown > MAX_BUFFER_CAPACITY then MAX_BUFFER_CAPACITY else grown
  }

  lemma GenCapacityFits(len: nat, add: nat)
    requires len <= MAX_BUFFER_CAPACITY && add < WORD
    ensures GenCapacity(len, add) == 0 <==> len + add >= MAX_BUFFER_CAPACITY || len + add == 0
    ensures GenCapacity(len, add) > 0 ==> len + add <= GenCapacity(len, add) <= MAX_BUFFER_CAPACITY
  {
  }

  // memmove into a block's memory; the bytes were read before.
  function Poke(data: seq<Byte>, at: nat, bytes: seq<Byte>): (r: seq<Byte>)
    requires at + |bytes| <= |data|
    ensures |r| == |data|
  {
    data[..at] + bytes + data[at + |bytes|..]
  }

  function Zeros(n: nat): (r: seq<Byte>)
    ensures |r| == n
  {
    seq(n, _ => 0)
  }

  // malloc or realloc to a capacity, keeping what fits.
  function Room(data: seq<Byte>, cap: nat): (r: seq<Byte>)
    ensures |r| == cap + 1
  {
    if |data| >= cap + 1 then data[..cap + 1] else data + Zeros(cap + 1 - |data|)
  }

  // The block after writing bytes at its end, and the NUL after them.
  function Extended(cap: nat, len: nat, data: seq<Byte>, bytes: seq<Byte>): Block
    requires |data| == cap + 1 && len + |bytes| <= cap
  {
    Block(1, len + |bytes|, cap, Poke(data, len, bytes + [0]))
  }

  function Fresh(cap: nat, content: seq<Byte>): Block
    requires |content| <= cap
  {
    Block(1, |content|, cap, content + Zeros(cap + 1 - |content|))
  }

  // An append is refused if it makes too long a buffer, and, in a shared block, if it makes an empty one.
  predicate Appends(blk: Block, src: Source, n: nat) {
    || src.Null?
    || (if blk.ref == 1 then blk.len + n <= blk.cap || blk.len + n < MAX_BUFFER_CAPACITY
        else 0 < blk.len + n < MAX_BUFFER_CAPACITY)
  }

  // Room is refused alike.
  predicate Reserves(blk: Block, n: nat) {
    (blk.ref == 1 && blk.len + n <= blk.cap) || 0 < blk.len + n < MAX_BUFFER_CAPACITY
  }

  class Buffers {
    var mem: Memory

    constructor ()
      ensures Valid(mem) && mem.handles == map[]
    {
      mem := Memory(map[], map[], 0);
    }

    // The handle takes a block of its own with some content: a copy made before writing.
    method Replace(h: Handle, cap: nat, content: seq<Byte>)
      requires Valid(mem) && |content| <= cap <= MAX_BUFFER_CAPACITY
      modifies this
      ensures Valid(mem) && OnlyChanges(old(mem), mem, h) && h in mem.handles && View(mem, h) == content
      ensures mem.blocks[mem.handles[h]] == Fresh(cap, content)
      ensures h !in old(mem).handles ==> Untouched(old(mem), mem)
    {
      ReleasedValid(mem, h);
      ghost var m := Released(mem, h);
      mem := Released(mem, h);
      BoundValid(mem, h, Fresh(cap, content));
      forall k | k in m.handles ensures m.handles[k] != m.next { assert BlockOk(m, m.handles[k]); }
      mem := Bound(mem, h, Fresh(cap, content));
    }

    // The handle's unshared block rewritten.
    method Rewrite(h: Handle, blk: Block, moved: bool)
      requires Valid(mem) && h in mem.handles && mem.blocks[mem.handles[h]].ref == 1 && blk.Ok()
      modifies this
      ensures Valid(mem) && OnlyChanges(old(mem), mem, h) && h in mem.handles && View(mem, h) == blk.Content()
      ensures mem.blocks[mem.handles[h]] == blk.(ref := 1)
    {
      RewrittenValid(mem, h, blk, moved);
      assert BlockOk(mem, mem.handles[h]);
      mem := Rewritten(mem, h, blk, moved);
    }

    // buffer_new into an unused handle; refused for too large a capacity.
    method New(h: Handle, cap0: nat, init: seq<Byte>)
      requires Valid(mem) && h !in mem.handles
      modifies this
      ensures Valid(mem) && OnlyChanges(old(mem), mem, h)
      ensures h in mem.handles <==> cap0 < MAX_BUFFER_CAPACITY && |init| < MAX_BUFFER_CAPACITY
      ensures (h in mem.handles ==> View(mem, h) == init) && Untouched(old(mem), mem)
    {
      var cap := if cap0 < |init| then |init| else cap0;
      if cap >= MAX_BUFFER_CAPACITY { return; }
      Replace(h, cap, init);
    }

    // Old content and then the data, even if that lies in the block that moves.  `freed` is
    // what can be read there once it has moved.
    method Append(h: Handle, src: Source, freed: seq<Byte>) returns (ok: bool)
      requires Valid(mem) && Readable(mem, src) && |freed| == |Read(mem, src)| < WORD
      modifies this
      ensures Valid(mem) && OnlyChanges(old(mem), mem, h)
      ensures ok ==> h in mem.handles
      ensures ok ==> View(mem, h) == View(old(mem), h) + if Misplaced(old(mem), h, src) then freed else Read(old(mem), src)
      ensures !ok ==> mem == old(mem)
      ensures ok <==> h in old(mem).handles && Appends(old(mem).blocks[old(mem).handles[h]], src, |Read(old(mem), src)|)
    {
      if h !in mem.handles { return false; }
      if src.Null? {
        assert View(mem, h) + [] == View(mem, h);
        return true;
      }
      var b := mem.handles[h];
      var blk := mem.blocks[b];
      assert BlockOk(mem, b);
      var n := if src.Inside? then src.n else |src.bytes|;
      GenCapacityFits(blk.len, n);
      if blk.ref == 1 {
        if n <= blk.cap - blk.len {
          Rewrite(h, Extended(blk.cap, blk.len, blk.data, Read(mem, src)), false);
          return true;
        }
        var cap := GenCapacity(blk.len, n);
        if cap == 0 { return false; }
        ok := AppendMoved(h, src, n, cap, freed);
      } else {
        var cap := GenCapacity(blk.len, n);
        if cap == 0 { return false; }
        Replace(h, cap, blk.data[..blk.len] + Read(mem, src));
        ok := true;
      }
    }

    // realloc, after which data inside the block has moved with it.
    method AppendMoved(h: Handle, src: Source, n: nat, cap: nat, freed: seq<Byte>) returns (ok: bool)
      requires Valid(mem) && Readable(mem, src) && n == |Read(mem, src)| == |freed| && h in mem.handles
      requires var blk := mem.blocks[mem.handles[h]]; blk.Ok() && blk.ref == 1 && blk.cap < blk.len + n <= cap <= MAX_BUFFER_CAPACITY
      modifies this
      ensures Valid(mem) && OnlyChanges(old(mem), mem, h) && ok && h in mem.handles
      ensures View(mem, h) == View(old(mem), h) + if Misplaced(old(mem), h, src) then freed else Read(old(mem), src)
    {
      var b := mem.handles[h];
      var blk := mem.blocks[b];
      var moved := Room(blk.data, cap);
      var inside := src.Inside? && src.block == b;
      var data := if !inside then Read(mem, src)
        else if HEADER + src.offset <= MAX_OFFSET then moved[src.offset..src.offset + src.n]
        else freed;
      assert data == if Misplaced(mem, h, src) then freed else Read(mem, src);
      assert moved[..blk.len] == blk.data[..blk.len];
      Rewrite(h, Extended(cap, blk.len, moved, data), true);
      return true;
    }

    // Room for n more bytes in a block of the handle's own.
    method Reserve(h: Handle, n: nat) returns (ok: bool)
      requires Valid(mem) && n < WORD
      modifies this
      ensures Valid(mem) && OnlyChanges(old(mem), mem, h) && View(mem, h) == View(old(mem), h)
      ensures ok ==> h in mem.handles && var blk := mem.blocks[mem.handles[h]]; blk.ref == 1 && blk.len + n <= blk.cap
      ensures ok <==> h in old(mem).handles && Reserves(old(mem).blocks[old(mem).handles[h]], n)
      ensures !ok ==> mem == old(mem)
    {
      if h !in mem.handles { return false; }
      var b := mem.handles[h];
      var blk := mem.blocks[b];
      assert BlockOk(mem, b);
      GenCapacityFits(blk.len, n);
      if blk.ref == 1 && n <= blk.cap - blk.len { return true; }
      var cap := GenCapacity(blk.len, n);
      if cap == 0 { return false; }
      if blk.ref == 1 {
        var moved := Room(blk.data, cap);
        assert moved[..blk.len] == blk.data[..blk.len];
        Rewrite(h, Block(1, blk.len, cap, moved), true);
      } else {
        Replace(h, cap, blk.data[..blk.len]);
      }
      return true;
    }

    method AppendChar(h: Handle, ch: Byte) returns (ok: bool)
      requires Valid(mem)
      modifies this
      ensures Valid(mem) && OnlyChanges(old(mem), mem, h)
      ensures ok ==> View(mem, h) == View(old(mem), h) + [ch]
      ensures !ok ==> mem == old(mem)
      ensures ok <==> h in old(mem).handles && Appends(old(mem).blocks[old(mem).handles[h]], Outside([ch]), 1)
    {
      ok := h in mem.handles;
      if ok { ok := Append(h, Outside([ch]), [ch]); }
    }

    method Clear(h: Handle)
      requires Valid(mem)
      modifies this
      ensures Valid(mem) && OnlyChanges(old(mem), mem, h) && View(mem, h) == []
    {
      if h !in mem.handles { return; }
      var blk := mem.blocks[mem.handles[h]];
      assert BlockOk(mem, mem.handles[h]);
      if blk.ref == 1 { Rewrite(h, Block(1, 0, blk.cap, Poke(blk.data, 0, [0])), false); }
      else { Replace(h, blk.len, []); }
    }

    // buffer_grab: one more handle on the same block.
    method Grab(h: Handle, copy: Handle)
      requires Valid(mem) && copy !in mem.handles
      modifies this
      ensures Valid(mem) && OnlyChanges(old(mem), mem, copy) && View(mem, copy) == View(old(mem), h)
      ensures copy in mem.handles <==> h in old(mem).handles
    {
      if h !in mem.handles { return; }
      ghost var was, b := mem, mem.handles[h];
      var blk := mem.blocks[mem.handles[h]];
      mem := mem.(handles := mem.handles[copy := mem.handles[h]], blocks := mem.blocks[mem.handles[h] := blk.(ref := blk.ref + 1)]);
      forall c ensures BlockOk(mem, c) {
        assert BlockOk(was, c);
        Resized(Sharers(was, c), Sharers(mem, c), copy);
      }
    }

    // The block is freed with its last handle.
    method Release(h: Handle)
      requires Valid(mem)
      modifies this
      ensures Valid(mem) && OnlyChanges(old(mem), mem, h) && h !in mem.handles
      ensures forall b :: b in old(mem).blocks ==> (b in mem.blocks <==> exists k :: k in old(mem).handles && k != h && old(mem).handles[k] == b)
    {
      ReleasedValid(mem, h);
      ghost var was := mem;
      mem := Released(mem, h);
      forall b | b in was.blocks
        ensures b in mem.blocks <==> exists k :: k in was.handles && k != h && was.handles[k] == b
      {
        assert BlockOk(was, b) && BlockOk(mem, b);
        if b in mem.blocks {
          var k :| k in Sharers(mem, b);
          assert k in was.handles && k != h && was.handles[k] == b;
        }
      }
    }

    method Concat(dest: Handle, src: Handle) returns (ok: bool)
      requires Valid(mem)
      modifies this
      ensures Valid(mem) && OnlyChanges(old(mem), mem, dest)
      ensures ok && dest in old(mem).handles ==> View(mem, dest) == View(old(mem), dest) + View(old(mem), src)
      ensures !ok ==> mem == old(mem)
      ensures src !in old(mem).handles ==> ok
      ensures src in old(mem).handles ==> var n := |View(old(mem), src)|; var b := old(mem).handles[src];
        ok <==> dest in old(mem).handles && Appends(old(mem).blocks[old(mem).handles[dest]], Inside(b, 0, n), n)
    {
      if dest in mem.handles && src in mem.handles {
        var b := mem.handles[src];
        assert BlockOk(mem, b);
        ok := Append(dest, Inside(b, 0, mem.blocks[b].len), mem.blocks[b].Content());
      } else {
        ok := src !in mem.handles;
        assert View(mem, dest) + [] == View(mem, dest);
      }
    }

    // buffer_adjust_len writes the length in the block itself: the handles that share it see
    // the change too.
    method AdjustLen(h: Handle, add: nat) returns (ok: bool)
      requires Valid(mem) && add < WORD
      modifies this
      ensures Valid(mem) && mem == Lengthened(old(mem), h, add)
      ensures ok <==> add == 0 || Adjusts(old(mem), h, add)
      ensures ok && h in mem.handles ==>
        forall k :: k in mem.handles && mem.handles[k] == mem.handles[h] ==> |View(mem, k)| == |View(old(mem), k)| + add
      ensures OnlyChanges(old(mem), mem, h) <==>
        add == 0 || !Adjusts(old(mem), h, add) || old(mem).blocks[old(mem).handles[h]].ref == 1
    {
      if h in mem.handles {
        var b := mem.handles[h];
        var blk := mem.blocks[b];
        assert BlockOk(mem, b);
        if blk.len + add <= blk.cap {
          Adjusted(mem, h, add);
          mem := mem.(blocks := mem.blocks[b := blk.(len := blk.len + add)]);
          return true;
        }
      }
      ok := add == 0;
    }

    // The first bytes move to a new handle.
    method Split(h: Handle, len: nat, out: Handle)
      requires Valid(mem) && out !in mem.handles && out != h
      modifies this
      ensures Valid(mem) && out in mem.handles && OthersKept(old(mem), mem, h, out)
      ensures View(mem, out) == SplitPiece(View(old(mem), h), len)
      ensures View(mem, out) + View(mem, h) == View(old(mem), h) <==> !SplitLoses(old(mem), h, len)
    {
      ghost var m0, v := mem, View(mem, h);
      if h in mem.handles {
        assert BlockOk(mem, mem.handles[h]);
        var m := mem.blocks[mem.handles[h]].len;
        if len > 0 && m > 0 && len < MAX_BUFFER_CAPACITY {
          SplitOff(h, len, if len < m then len else m, out);
          return;
        }
      }
      New(out, DEFAULT_BUFFER_CAPACITY, []);
      OneChange(m0, mem, out, h);
    }

    method SplitOff(h: Handle, len: nat, n: nat, out: Handle)
      requires Valid(mem) && out !in mem.handles && out != h && h in mem.handles
      requires 0 < len < MAX_BUFFER_CAPACITY && |View(mem, h)| > 0 && n == if len < |View(mem, h)| then len else |View(mem, h)|
      modifies this
      ensures Valid(mem) && out in mem.handles && OthersKept(old(mem), mem, h, out)
      ensures var v := View(old(mem), h);
        View(mem, out) == v[..n] && View(mem, h) == if SplitLoses(old(mem), h, len) then [] else v[n..]
    {
      ghost var m0 := mem;
      assert BlockOk(mem, mem.handles[h]);
      New(out, len, mem.blocks[mem.handles[h]].data[..n]);
      ghost var m1 := mem;
      CutFront(h, n);
      BothChanges(m0, m1, mem, out, h);
    }

    // The front of a handle's content dropped; a shared buffer of the greatest length is lost.
    method CutFront(h: Handle, n: nat)
      requires Valid(mem) && h in mem.handles && 0 < n <= |View(mem, h)|
      modifies this
      ensures Valid(mem) && OnlyChanges(old(mem), mem, h)
      ensures var v := View(old(mem), h);
        View(mem, h) == if old(mem).blocks[old(mem).handles[h]].ref > 1 && n < |v| == MAX_BUFFER_CAPACITY then [] else v[n..]
    {
      var b := mem.handles[h];
      var blk := mem.blocks[b];
      assert BlockOk(mem, b);
      if blk.ref == 1 {
        var left := blk.len - n;
        var data := Poke(Poke(blk.data, 0, blk.data[n..blk.len]), left, [0]);
        assert data[..left] == blk.data[..blk.len][n..];
        Rewrite(h, Block(1, left, blk.cap, data), false);
      } else if n < blk.len {
        ReleaseThenNew(h, blk.len, blk.data[n..blk.len]);
        assert blk.data[n..blk.len] == blk.data[..blk.len][n..];
      } else {
        ReleaseThenNew(h, DEFAULT_BUFFER_CAPACITY, []);
      }
    }

    method ReleaseThenNew(h: Handle, cap: nat, content: seq<Byte>)
      requires Valid(mem) && |content| <= cap && (|content| < MAX_BUFFER_CAPACITY)
      modifies this
      ensures Valid(mem) && OnlyChanges(old(mem), mem, h)
      ensures h in mem.handles <==> cap < MAX_BUFFER_CAPACITY
      ensures View(mem, h) == if cap < MAX_BUFFER_CAPACITY then content else []
    {
      Release(h);
      New(h, cap, content);
    }

    // Exactly the clamped range goes.
    method Remove(h: Handle, start: nat, len: nat) returns (n: nat)
      requires Valid(mem)
      modifies this
      ensures Valid(mem) && OnlyChanges(old(mem), mem, h)
      ensures var v := View(old(mem), h);
        n == (if len > 0 && |v| > start then (if len < |v| - start then len else |v| - start) else 0)
        && (if n == 0 then mem == old(mem) else View(mem, h) == v[..start] + v[start + n..])
    {
      if h !in mem.handles { return 0; }
      var b := mem.handles[h];
      var blk := mem.blocks[b];
      assert BlockOk(mem, b);
      if len == 0 || blk.len <= start { return 0; }
      n := if len < blk.len - start then len else blk.len - start;
      var rest := blk.data[start + n..blk.len];
      assert blk.data[..blk.len][..start] + blk.data[..blk.len][start + n..] == blk.data[..start] + rest;
      if blk.ref == 1 {
        var left := blk.len - n;
        var data := Poke(Poke(blk.data, start, rest), left, [0]);
        assert data[..left] == blk.data[..start] + rest;
        Rewrite(h, Block(1, left, blk.cap, data), false);
      } else if n < blk.len {
        ReleaseThenNew(h, blk.len - n, blk.data[..start] + rest);
      } else {
        ReleaseThenNew(h, DEFAULT_BUFFER_CAPACITY, []);
      }
    }
  }

  // Every other handle shows what it did.
  predicate OthersKept(m: Memory, m': Memory, h: Handle, out: Handle) {
    && m'.handles.Keys - {h, out} == m.handles.Keys - {h, out}
    && forall k :: k in m.handles && k != h && k != out ==> View(m', k) == View(m, k)
  }

  function SplitPiece(v: seq<Byte>, len: nat): seq<Byte> {
    if len < MAX_BUFFER_CAPACITY then v[..if len < |v| then len else |v|] else []
  }

  // Splitting a shared buffer of the greatest length: no new block is made for the rest.
  predicate SplitLoses(m: Memory, h: Handle, len: nat) {
    h in m.handles && m.handles[h] in m.blocks && m.blocks[m.handles[h]].ref > 1 && 0 < len < |View(m, h)| == MAX_BUFFER_CAPACITY
  }

  lemma OneChange(m: Memory, m1: Memory, out: Handle, h: Handle)
    requires OnlyChanges(m, m1, out) && out != h && Untouched(m, m1) && Valid(m)
    ensures View(m1, h) == View(m, h) && OthersKept(m, m1, h, out)
  {
    assert h in m.handles <==> h in m.handles.Keys - {out};
    assert h in m1.handles <==> h in m1.handles.Keys - {out};
    assert m1.handles.Keys - {h, out} == (m1.handles.Keys - {out}) - {h};
    assert m.handles.Keys - {h, out} == (m.handles.Keys - {out}) - {h};
  }

  lemma BothChanges(m: Memory, m1: Memory, m2: Memory, out: Handle, h: Handle)
    requires OnlyChanges(m, m1, out) && OnlyChanges(m1, m2, h) && out in m1.handles && out != h
    ensures View(m2, out) == View(m1, out) && out in m2.handles && OthersKept(m, m2, h, out)
  {
    assert m2.handles.Keys - {h, out} == (m2.handles.Keys - {h}) - {out};
    assert m1.handles.Keys - {h, out} == (m1.handles.Keys - {h}) - {out} == (m1.handles.Keys - {out}) - {h};
    assert m.handles.Keys - {h, out} == (m.handles.Keys - {out}) - {h};
    forall k | k in m.handles && k != h && k != out ensures View(m2, k) == View(m, k) {
      assert k in m.handles.Keys - {out};
    }
  }

  // There is a block, with room for `add` more bytes.
  predicate Adjusts(m: Memory, h: Handle, add: nat) {
    h in m.handles && m.handles[h] in m.blocks && var blk := m.blocks[m.handles[h]]; blk.len + add <= blk.cap
  }

  function Lengthened(m: Memory, h: Handle, add: nat): Memory {
    if !Adjusts(m, h, add) then m
    else
      var b := m.handles[h];
      m.(blocks := m.blocks[b := m.blocks[b].(len := m.blocks[b].len + add)])
  }

  lemma Adjusted(m: Memory, h: Handle, add: nat)
    requires Valid(m) && Adjusts(m, h, add)
    ensures var m' := Lengthened(m, h, add);
      && Valid(m')
      && (forall k :: k in m.handles && m.handles[k] == m.handles[h] ==> |View(m', k)| == |View(m, k)| + add)
      && (OnlyChanges(m, m', h) <==> add == 0 || m.blocks[m.handles[h]].ref == 1)
  {
    var m', b := Lengthened(m, h, add), m.handles[h];
    assert BlockOk(m, b);
    forall c ensures BlockOk(m', c) {
      assert BlockOk(m, c);
      assert Sharers(m', c) == Sharers(m, c);
    }
    if m.blocks[b].ref == 1 { Alone(m, h); }
    else {
      var k := Another(m, h);
      assert |View(m', k)| == |View(m, k)| + add;
    }
  }

  // Two handles on one empty block with room: setting one's length shows in the other.
  lemma AdjustShowsElsewhere() returns (m: Memory)
    ensures Valid(m) && 1 in m.handles && View(m, 1) == [] && View(Lengthened(m, 0, 1), 1) == [7]
  {
    m := Memory(map[0 := Block(2, 0, 1, [7, 0])], map[0 := 0, 1 := 0], 1);
    assert Sharers(m, 0) == {0, 1};
    assert forall b :: BlockOk(m, b);
  }

  // Two handles on one block of the greatest length: splitting one loses its remainder.
  lemma SplitCanLose() returns (m: Memory)
    ensures Valid(m) && SplitLoses(m, 0, 1)
  {
    m := Memory(map[0 := Block(2, MAX_BUFFER_CAPACITY, MAX_BUFFER_CAPACITY, Zeros(MAX_BUFFER_CAPACITY + 1))], map[0 := 0, 1 := 0], 1);
    assert Sharers(m, 0) == {0, 1};
    assert forall b :: BlockOk(m, b);
  }

  // A count above one means that some other handle has the block.
  lemma Another(m: Memory, h: Handle) returns (k: Handle)
    requires Valid(m) && h in m.handles && m.blocks[m.handles[h]].ref != 1
    ensures k in m.handles && k != h && m.handles[k] == m.handles[h]
  {
    var b := m.handles[h];
    assert BlockOk(m, b);
    var others := Sharers(m, b) - {h};
    assert Sharers(m, b) == others + {h};
    assert others != {};
    k :| k in others;
  }
}
