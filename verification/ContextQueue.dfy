/**
 context_queue: an intrusive singly linked run list with a length and a semaphore.
 `list` is its meaning; every operation is proved to do on the links what RunQueue does
 on the sequence, which is what the scheduler's steps use.
 */
module ContextQueue {
  import opened Basics
  import opened RunQueue

  class Node {
    var next: Node?
    constructor () ensures next == null { next := null; }
  }

  // The nodes of `s` are chained in order and the last one ends the chain.
  ghost predicate Chain(s: seq<Node>)
    reads s
  {
    && Distinct(s)
    && (forall i :: 0 <= i < |s| - 1 ==> s[i].next == s[i + 1])
    && (s != [] ==> s[|s| - 1].next == null)
  }

  class ContextQueue {
    var head: Node?
    var tail: Node?
    var count: int
    var sem: nat
    ghost var list: seq<Node>

    ghost predicate Valid()
      reads this, list
    {
      && Chain(list)
      && count == |list|
      && (list == [] ==> head == null && tail == null)
      && (list != [] ==> head == list[0] && tail == list[|list| - 1])
    }

    constructor ()
      ensures Valid() && list == [] && sem == 0
    {
      head, tail, count, sem, list := null, null, 0, 0, [];
    }

    method PushOne(c: Node)
      requires Valid() && c !in list
      modifies this, c, set n | n in list
      ensures Valid() && list == old(list) + [c]
      ensures sem == old(sem) + if old(list) == [] then 1 else 0
    {
      c.next := null;
      if tail != null {
        tail.next := c;
        tail := c;
        count := count + 1;
        list := list + [c];
      } else {
        head, tail, count := c, c, 1;
        list := [c];
        sem := sem + 1;
      }
    }

    // `seg` is the chain from `first` to `last`; its end need not be unlinked yet.
    method PushMany(first: Node, last: Node, length: int, ghost seg: seq<Node>)
      requires Valid()
      requires seg != [] && |seg| == length && first == seg[0] && last == seg[length - 1]
      requires Distinct(seg) && (forall i :: 0 <= i < length - 1 ==> seg[i].next == seg[i + 1])
      requires forall n :: n in seg ==> n !in list
      modifies this, last, set n | n in list
      ensures Valid() && list == old(list) + seg
      ensures sem == old(sem) + if old(list) == [] then 1 else 0
    {
      if length == 1 {
        PushOne(first);
        assert seg == [first];
        return;
      }
      ghost var before := list;
      JoinDistinct(before, seg);
      forall i | 0 <= i < |before| - 1 ensures before[i] != last && before[i] != tail && before[i].next == before[i + 1] {
        assert before[i] in before && last in seg;
      }
      last.next := null;
      if tail != null {
        tail.next := first;
        tail := last;
        count := count + length;
      } else {
        head, tail, count := first, last, length;
        sem := sem + 1;
      }
      list := before + seg;
      forall i | 0 <= i < |list| - 1 ensures list[i].next == list[i + 1] {
        if i < |before| - 1 { assert list[i] == before[i] && before[i].next == before[i + 1]; }
        else if i == |before| - 1 { assert list[i] == before[i] && before[i].next == seg[0]; }
        else { assert list[i] == seg[i - |before|] && seg[i - |before|].next == seg[i - |before| + 1]; }
      }
      assert list[|list| - 1] == last;
    }

    method TryPopOne() returns (c: Node?)
      requires Valid()
      modifies this, set n | n in list
      ensures Valid() && sem == old(sem)
      ensures old(list) == [] ==> c == null && list == []
      ensures old(list) != [] ==> c == old(list)[0] && list == old(list)[1..] && c.next == null
    {
      if head == null {
        return null;
      }
      c := head;
      assert |list| > 1 ==> list[0].next == list[1];
      head := head.next;
      if head != null {
        count := count - 1;
      } else {
        count := 0;
        tail := null;
      }
      list := list[1..];
      c.next := null;
    }

    // Cuts off the first half, rounded down; at least one node stays.
    method TryPopHalf() returns (half: int, first: Node?, last: Node?)
      requires Valid()
      modifies this, set n | n in list
      ensures Valid() && sem == old(sem)
      ensures half == |old(list)| / 2 && list == old(list)[|old(list)| / 2..]
      ensures half == 0 ==> first == null && last == null
      ensures half > 0 ==>
        var seg := old(list)[..half];
        first == seg[0] && last == seg[half - 1] && Chain(seg) && list != []
    {
      half := count / 2;
      if head == null || half == 0 {
        return 0, null, null;
      }
      ghost var before := list;
      count := count - half;
      first, last := head, head;
      var i := 1;
      while i < half
        invariant 1 <= i <= half && 2 * half <= |before|
        invariant last == before[i - 1] && list == before && Chain(before)
        invariant head == old(head) && tail == old(tail) && count == |before| - half && sem == old(sem)
      {
        last := last.next;
        i := i + 1;
      }
      head := last.next;
      list := KeptPart(before);
      SplitDistinct(before, half);
      last.next := null;
    }

    method PopAll() returns (first: Node?)
      requires Valid()
      modifies this
      ensures Valid() && list == [] && sem == old(sem)
      ensures first == if old(list) == [] then null else old(list)[0]
      ensures Chain(old(list))
    {
      first := head;
      head, tail, count, list := null, null, 0, [];
    }
  }
}
