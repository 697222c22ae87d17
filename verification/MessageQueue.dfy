/**
 message_queue: the mailbox of a context, a ring buffer that doubles when full.
 `contents` is its meaning; it grows at the end by `Push` and shrinks at the front by
 `Pop`, across wrap-around and reallocation.  All indices are 32-bit: doubling the
 largest capacity wraps to 0, and then `Push` refuses.
 */
module MessageQueue {
  import Arith

  const DEFAULT_MQ_SIZE := 64
  const WORD := 0x1_0000_0000

  function Pow2(k: nat): nat { if k == 0 then 1 else 2 * Pow2(k - 1) }

  ghost predicate Capacity(cap: nat) { exists k: nat :: cap == Pow2(k) && cap < WORD }

  // The ring position `i` places after `head`.
  function Ring(head: nat, i: nat, cap: nat): nat { if head + i < cap then head + i else head + i - cap }

  // For a capacity that is a power of two the code masks with `cap - 1`, which is this remainder.
  lemma RingIsRemainder(head: nat, i: nat, cap: nat)
    requires head < cap && i <= cap
    ensures Ring(head, i, cap) == (head + i) % cap
  {
    if head + i >= cap { ByOne(head + i, cap); } else { Arith.DivUnique(head + i, 0, head + i, cap); }
  }

  lemma ByOne(x: int, c: int)
    requires 0 < c <= x < 2 * c
    ensures x % c == x - c
  {
    Arith.DivUnique(x, 1, x - c, c);
  }

  lemma {:induction false} Pow2Bound(k: nat)
    requires Pow2(k) < WORD
    ensures 2 * Pow2(k) < WORD || Pow2(k) == WORD / 2
  {
    if k >= 32 { Pow2Large(k); } else { Pow2Small(k); }
  }

  lemma Pow2At31()
    ensures Pow2(31) == WORD / 2
  {
    assert Pow2(8) == 0x100;
    assert Pow2(16) == 0x1_0000;
    assert Pow2(24) == 0x100_0000;
  }

  lemma {:induction false} Pow2Large(k: nat)
    requires k >= 32
    ensures Pow2(k) >= WORD
  {
    if k == 32 { Pow2At31(); } else { Pow2Large(k - 1); }
  }

  lemma {:induction false} Pow2Small(k: nat)
    requires k < 32
    ensures Pow2(k) <= WORD / 2
    ensures Pow2(k) < WORD / 2 ==> 2 * Pow2(k) < WORD
    decreases 32 - k
  {
    if k == 31 { Pow2At31(); } else { Pow2Small(k + 1); }
  }

  class MessageQueue<T(0)> {
    var cap: nat
    var head: nat
    var tail: nat
    var size: nat
    var queue: array<T>
    ghost var contents: seq<T>

    ghost predicate Valid()
      reads this, queue
    {
      && Capacity(cap) && queue.Length == cap
      && head < cap && size <= cap && tail == Ring(head, size, cap)
      && |contents| == size
      && (forall i :: 0 <= i < size ==> contents[i] == queue[Ring(head, i, cap)])
    }

    constructor ()
      ensures Valid() && fresh(queue) && contents == []
    {
      cap, head, tail, size, contents := DEFAULT_MQ_SIZE, 0, 0, 0, [];
      queue := new T[DEFAULT_MQ_SIZE];
      new;
      assert Pow2(6) == DEFAULT_MQ_SIZE;
    }

    method Push(message: T) returns (ok: bool)
      requires Valid()
      modifies this, queue
      ensures Valid() && (queue == old(queue) || fresh(queue))
      ensures ok <==> |old(contents)| < WORD / 2
      ensures contents == if ok then old(contents) + [message] else old(contents)
    {
      if size == cap {
        ok := ExpandQueue();
        if !ok {
          return false;
        }
      } else {
        CapacityBound();
      }
      ghost var before := contents;
      size := size + 1;
      queue[tail] := message;
      tail := if tail + 1 != cap then tail + 1 else 0;
      contents := before + [message];
      ok := true;
    }

    method Pop() returns (ok: bool, message: T)
      requires Valid()
      modifies this
      ensures Valid() && queue == old(queue)
      ensures ok <==> old(contents) != []
      ensures ok ==> message == old(contents)[0] && contents == old(contents)[1..]
      ensures !ok ==> contents == old(contents)
    {
      if size == 0 {
        message := *;
        return false, message;
      }
      size := size - 1;
      message := queue[head];
      head := if head + 1 != cap then head + 1 else 0;
      contents := contents[1..];
      ok := true;
    }

    lemma CapacityBound()
      requires Valid()
      ensures cap <= WORD / 2
      ensures 2 * cap < WORD || cap == WORD / 2
    {
      var k: nat :| cap == Pow2(k);
      Pow2Bound(k);
    }

    // The messages in order at the start of a larger ring.
    method CopyTo(newQueue: array<T>)
      requires Valid() && newQueue.Length >= size && newQueue != queue
      modifies newQueue
      ensures forall j :: 0 <= j < size ==> newQueue[j] == contents[j]
    {
      for i := 0 to size
        invariant forall j :: 0 <= j < i ==> newQueue[j] == contents[j]
      {
        RingIsRemainder(head, i, cap);
        newQueue[i] := queue[(head + i) % cap];
      }
    }

    method ExpandQueue() returns (ok: bool)
      requires Valid() && size == cap
      modifies this
      ensures Valid() && contents == old(contents)
      ensures ok <==> old(cap) < WORD / 2
      ensures ok ==> fresh(queue) && cap == 2 * old(cap) && size == old(size)
      ensures !ok ==> queue == old(queue)
    {
      CapacityBound();
      var newCap := (cap * 2) % WORD;
      if newCap <= cap {
        return false;
      }
      var newQueue := new T[newCap];
      CopyTo(newQueue);
      ghost var k: nat :| cap == Pow2(k);
      assert newCap == Pow2(k + 1);
      head, tail, cap, queue := 0, size, newCap, newQueue;
      ok := true;
    }
  }
}
