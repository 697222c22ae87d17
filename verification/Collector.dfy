/**
 The incremental tri-colour collector.  Lua code and collector steps alternate freely; every
 method keeps Valid(), whose marking part says that no black object points to a white one
 and that every gray object is on a gray list.
 */
module Collector {
  import opened Basics
  import opened GcHeap

  datatype GcState = Propagate | AtomicStart | SwpAllGc | SwpFinObj | SwpToBeFnz | SwpEnd | CallFin | Pause | InsideAtomic

  class Gc {
    var heap: Heap
    var cells: Cells
    var allgc: seq<Obj>          // every object but the main thread, newest first
    var gray: seq<Obj>
    var grayagain: seq<Obj>      // to be traversed in the atomic phase
    var currentwhite: bool
    var gcstate: GcState
    var sweepleft: nat           // how many objects at the end of allgc are still to be swept
    var running: Obj             // the running thread
    var registry: seq<Obj>       // the registry and the metatables of the basic types
    var next: Obj                // objects are not reused here
    const mainthread: Obj
    ghost var lost: set<Obj>     // what could not be reached when the cycle started
    ghost var garbage: set<Obj>  // what the cycle is to free

    // A new state: the main thread, and no collection under way.
    constructor ()
      ensures Valid() && gcstate.Pause? && heap == map[mainthread := Object(Thread, White(currentwhite), None, [], [])]
      ensures running == mainthread && registry == [] && cells == map[]
    {
      heap := map[0 := Object(Thread, White(false), None, [], [])];
      cells, allgc, gray, grayagain, registry := map[], [], [], [], [];
      currentwhite, gcstate, sweepleft := false, Pause, 0;
      mainthread, running, next := 0, 0, 1;
      lost, garbage := {}, {};
    }

    ghost function L(later: seq<Obj>): Lists
      reads this
    {
      Lists(gray, later, gcstate.InsideAtomic?)
    }

    ghost predicate Marking(later: seq<Obj>, busy: set<Obj>)
      reads this
    {
      TriColor(heap, cells, currentwhite, L(later), busy)
    }

    // ---- mark ----

    method ReallyMark(o: Obj, ghost later: seq<Obj>, ghost busy: set<Obj>, ghost bound: set<Obj>)
      requires o in heap && heap[o].mark.White? && o in bound && Within(heap, cells, bound) && Marking(later, busy)
      modifies `heap, `gray
      ensures Marking(later, busy) && Marked(old(heap), heap) && Within(heap, cells, bound)
      ensures !heap[o].mark.White? && Whites(heap) < Whites(old(heap))
      ensures |gray| >= |old(gray)|
      decreases Whites(heap), 2
    {
      match heap[o].kind {
        case Str => MarkString(o, later, busy, bound);
        case Userdata => MarkUserdata(o, later, busy, bound);
        case _ => LinkGray(o, later, busy, bound);
      }
    }

    // Marked, and put on the gray list to be traversed.
    method LinkGray(o: Obj, ghost later: seq<Obj>, ghost busy: set<Obj>, ghost bound: set<Obj>)
      requires o in heap && heap[o].mark.White? && o in bound && Within(heap, cells, bound) && Marking(later, busy)
      requires Traversed(heap[o].kind)
      modifies `heap, `gray
      ensures Marking(later, busy) && Marked(old(heap), heap) && Within(heap, cells, bound)
      ensures !heap[o].mark.White? && Whites(heap) < Whites(old(heap))
      ensures |gray| >= |old(gray)|
    {
      ghost var was := heap;
      Graying(heap, cells, currentwhite, L(later), busy, o);
      WithinMarked(heap, cells, bound, o, Gray);
      heap := heap[o := heap[o].(mark := Gray)];
      gray := [o] + gray;
      FewerWhites(was, heap, o);
    }

    method Take(o: Obj, m: Mark, ghost later: seq<Obj>, ghost busy: set<Obj>, ghost bound: set<Obj>)
      requires o in heap && o in bound && Within(heap, cells, bound) && !m.White? && !Traversed(heap[o].kind)
      requires Marking(later, busy) && (heap[o].mark.White? || o in busy)
      modifies `heap
      ensures heap == old(heap)[o := old(heap)[o].(mark := m)]
      ensures Marking(later, busy + {o}) && Within(heap, cells, bound)
    {
      TakingUp(heap, cells, currentwhite, L(later), busy, o, m);
      WithinMarked(heap, cells, bound, o, m);
      heap := heap[o := heap[o].(mark := m)];
    }

    method MarkString(o: Obj, ghost later: seq<Obj>, ghost busy: set<Obj>, ghost bound: set<Obj>)
      requires o in heap && heap[o].mark.White? && o in bound && Within(heap, cells, bound) && Marking(later, busy)
      requires heap[o].kind.Str?
      modifies `heap
      ensures Marking(later, busy) && Marked(old(heap), heap) && Within(heap, cells, bound)
      ensures !heap[o].mark.White? && Whites(heap) < Whites(old(heap))
    {
      ghost var was := heap;
      assert ObjOk(heap, cells, currentwhite, L(later), busy, o);
      Take(o, Black, later, busy, bound);
      DoneWith(heap, cells, currentwhite, L(later), busy, o);
      FewerWhites(was, heap, o);
    }

    // The metatable, then the user value.
    method MarkUserdata(o: Obj, ghost later: seq<Obj>, ghost busy: set<Obj>, ghost bound: set<Obj>)
      requires o in heap && heap[o].mark.White? && o in bound && Within(heap, cells, bound) && Marking(later, busy)
      requires heap[o].kind.Userdata?
      modifies `heap, `gray
      ensures Marking(later, busy) && Marked(old(heap), heap) && Within(heap, cells, bound)
      ensures !heap[o].mark.White? && Whites(heap) < Whites(old(heap))
      ensures |gray| >= |old(gray)|
      decreases Whites(heap), 1
    {
      ghost var was := heap;
      Take(o, Gray, later, busy, bound);
      FewerWhites(was, heap, o);
      MarkMeta(o, later, busy + {o}, bound);
      FinishUserdata(o, later, busy, bound);
    }

    method FinishUserdata(o: Obj, ghost later: seq<Obj>, ghost busy: set<Obj>, ghost bound: set<Obj>)
      requires o in heap && o in bound && Within(heap, cells, bound) && Marking(later, busy + {o})
      requires heap[o].kind.Userdata? && heap[o].mark.Gray?
      requires heap[o].meta.Some? ==> heap[o].meta.value in heap && !heap[heap[o].meta.value].mark.White?
      modifies `heap, `gray
      ensures Marking(later, busy) && heap.Keys == old(heap).Keys && Within(heap, cells, bound)
      ensures SameShape(old(heap)[o], heap[o]) && forall x: Obj :: x in heap && x != o ==> MarkedObject(old(heap)[x], heap[x])
      ensures heap[o].mark.Black? && Whites(heap) <= Whites(old(heap))
      ensures |gray| >= |old(gray)|
      decreases Whites(heap), 5
    {
      ghost var mid := heap;
      Take(o, Black, later, busy + {o}, bound);
      assert busy + {o} + {o} == busy + {o};
      assert Whites(heap) == Whites(mid);
      ghost var end := heap;
      MarkUserValue(o, later, busy + {o}, bound);
      UserdataDone(end, heap, cells, o, L(later), busy, currentwhite);
      DoneWith(heap, cells, currentwhite, L(later), busy, o);
    }

    method MarkMeta(o: Obj, ghost later: seq<Obj>, ghost busy: set<Obj>, ghost bound: set<Obj>)
      requires o in heap && o in bound && Within(heap, cells, bound) && Marking(later, busy)
      modifies `heap, `gray
      ensures Marking(later, busy) && Marked(old(heap), heap) && Within(heap, cells, bound)
      ensures Whites(heap) < Whites(old(heap)) || (heap == old(heap) && gray == old(gray))
      ensures heap[o].meta.Some? ==> heap[o].meta.value in heap && !heap[heap[o].meta.value].mark.White?
      ensures |gray| >= |old(gray)|
      decreases Whites(heap), 4
    {
      if heap[o].meta.Some? {
        ChildOf(heap, cells, currentwhite, L(later), busy, bound, o, heap[o].meta.value);
        MarkObject(heap[o].meta.value, later, busy, bound);
      }
    }

    method MarkUserValue(o: Obj, ghost later: seq<Obj>, ghost busy: set<Obj>, ghost bound: set<Obj>)
      requires o in heap && o in bound && Within(heap, cells, bound) && Marking(later, busy)
      modifies `heap, `gray
      ensures Marking(later, busy) && Marked(old(heap), heap) && Within(heap, cells, bound)
      ensures Whites(heap) < Whites(old(heap)) || (heap == old(heap) && gray == old(gray))
      ensures heap[o].refs != [] ==> heap[o].refs[0] in heap && !heap[heap[o].refs[0]].mark.White?
      ensures |gray| >= |old(gray)|
      decreases Whites(heap), 4
    {
      if heap[o].refs != [] {
        ChildOf(heap, cells, currentwhite, L(later), busy, bound, o, heap[o].refs[0]);
        MarkObject(heap[o].refs[0], later, busy, bound);
      }
    }

    method MarkObject(o: Obj, ghost later: seq<Obj>, ghost busy: set<Obj>, ghost bound: set<Obj>)
      requires o in heap && o in bound && Within(heap, cells, bound) && Marking(later, busy)
      modifies `heap, `gray
      ensures Marking(later, busy) && Marked(old(heap), heap) && Within(heap, cells, bound) && !heap[o].mark.White?
      ensures Whites(heap) < Whites(old(heap)) || (heap == old(heap) && gray == old(gray))
      ensures |gray| >= |old(gray)|
      decreases Whites(heap), 3
    {
      if heap[o].mark.White? { ReallyMark(o, later, busy, bound); }
    }

    // ---- traverse ----

    // Everything an object refers to marked: its metatable, its fields, its closed upvalues.
    method Traverse(o: Obj, ghost later: seq<Obj>, ghost busy: set<Obj>, ghost bound: set<Obj>)
      requires o in heap && o in bound && Within(heap, cells, bound) && Marking(later, busy)
      modifies `heap, `gray
      ensures Marking(later, busy) && Marked(old(heap), heap) && Within(heap, cells, bound)
      ensures o in heap && NoWhite(heap, cells, heap[o])
      ensures Whites(heap) < Whites(old(heap)) || (heap == old(heap) && gray == old(gray))
    {
      ghost var was := heap;
      var ob := heap[o];
      MarkMeta(o, later, busy, bound);
      MarkFields(o, ob.refs, later, busy, bound);
      MarkUpvalues(o, ob.upvals, later, busy, bound);
    }

    method MarkFields(o: Obj, refs: seq<Obj>, ghost later: seq<Obj>, ghost busy: set<Obj>, ghost bound: set<Obj>)
      requires o in heap && o in bound && Within(heap, cells, bound) && Marking(later, busy)
      requires forall r: Obj :: r in refs ==> Refers(cells, heap[o], r)
      modifies `heap, `gray
      ensures Marking(later, busy) && Marked(old(heap), heap) && Within(heap, cells, bound)
      ensures forall r: Obj :: r in refs ==> r in heap && !heap[r].mark.White?
      ensures Whites(heap) < Whites(old(heap)) || (heap == old(heap) && gray == old(gray))
    {
      ghost var was, lists := heap, gray;
      for i := 0 to |refs|
        invariant Marking(later, busy) && Marked(was, heap) && Within(heap, cells, bound)
        invariant forall j :: 0 <= j < i ==> refs[j] in heap && !heap[refs[j]].mark.White?
        invariant Whites(heap) < Whites(was) || (heap == was && gray == lists)
      {
        assert MarkedObject(was[o], heap[o]) && refs[i] in refs && Refers(cells, was[o], refs[i]);
        ChildOf(heap, cells, currentwhite, L(later), busy, bound, o, refs[i]);
        MarkObject(refs[i], later, busy, bound);
      }
    }

    method MarkUpvalues(o: Obj, upvals: seq<Cell>, ghost later: seq<Obj>, ghost busy: set<Obj>, ghost bound: set<Obj>)
      requires o in heap && o in bound && Within(heap, cells, bound) && Marking(later, busy) && upvals == heap[o].upvals
      modifies `heap, `gray
      ensures Marking(later, busy) && Marked(old(heap), heap) && Within(heap, cells, bound)
      ensures forall c: Cell :: c in upvals && c in cells ==> cells[c] in heap && !heap[cells[c]].mark.White?
      ensures Whites(heap) < Whites(old(heap)) || (heap == old(heap) && gray == old(gray))
    {
      ghost var was, lists := heap, gray;
      for i := 0 to |upvals|
        invariant Marking(later, busy) && Marked(was, heap) && Within(heap, cells, bound)
        invariant forall j :: 0 <= j < i && upvals[j] in cells ==> cells[upvals[j]] in heap && !heap[cells[upvals[j]]].mark.White?
        invariant Whites(heap) < Whites(was) || (heap == was && gray == lists)
      {
        if upvals[i] in cells {
          assert MarkedObject(was[o], heap[o]) && upvals[i] in heap[o].upvals && Refers(cells, heap[o], cells[upvals[i]]);
          ChildOf(heap, cells, currentwhite, L(later), busy, bound, o, cells[upvals[i]]);
          MarkObject(cells[upvals[i]], later, busy, bound);
        }
      }
    }

    // One gray object traversed: black, except for a thread, which is to be traversed again.
    method PropagateMark(ghost later0: seq<Obj>, ghost bound: set<Obj>) returns (ghost later: seq<Obj>)
      requires gray != [] && Marking(later0, {}) && Within(heap, cells, bound)
      modifies `heap, `gray, `grayagain
      ensures Marking(later, {}) && Within(heap, cells, bound) && Darker(old(heap), heap)
      ensures gcstate.InsideAtomic? ==> later == later0
      ensures !gcstate.InsideAtomic? && later0 == old(grayagain) ==> later == grayagain
      ensures Whites(heap) < Whites(old(heap)) || (Whites(heap) == Whites(old(heap)) && |gray| < |old(gray)|)
    {
      ghost var was, l0 := heap, L(later0);
      var o := gray[0];
      later := later0;
      assert o in gray && ObjOk(heap, cells, currentwhite, l0, {}, o);
      gray := gray[1..];
      if heap[o].kind.Thread? {
        grayagain := [o] + grayagain;
        if !gcstate.InsideAtomic? { later := [o] + later; }
      } else {
        WithinMarked(heap, cells, bound, o, Black);
        heap := heap[o := heap[o].(mark := Black)];
      }
      Popping(was, cells, currentwhite, l0, L(later), heap);
      ghost var mid, g := heap, gray;
      Traverse(o, later, {o}, bound);
      assert MarkedObject(mid[o], heap[o]);
      assert {} + {o} == {o};
      DoneWith(heap, cells, currentwhite, L(later), {}, o);
    }

    method PropagateAll(ghost later0: seq<Obj>, ghost bound: set<Obj>) returns (ghost later: seq<Obj>)
      requires Marking(later0, {}) && Within(heap, cells, bound)
      modifies `heap, `gray, `grayagain
      ensures Marking(later, {}) && Within(heap, cells, bound) && Darker(old(heap), heap) && gray == []
      ensures gcstate.InsideAtomic? ==> later == later0
      ensures !gcstate.InsideAtomic? && later0 == old(grayagain) ==> later == grayagain
      ensures Whites(heap) <= Whites(old(heap))
    {
      ghost var was := heap;
      later := later0;
      while gray != []
        invariant Marking(later, {}) && Within(heap, cells, bound) && Darker(was, heap)
        invariant gcstate.InsideAtomic? ==> later == later0
        invariant !gcstate.InsideAtomic? && later0 == old(grayagain) ==> later == grayagain
        invariant Whites(heap) <= Whites(was)
        decreases Whites(heap), |gray|
      {
        later := PropagateMark(later, bound);
      }
    }

    // ---- the whole ----

    ghost function Roots(): set<Obj>
      reads `running, `registry
    {
      {mainthread, running} + set r <- registry
    }

    ghost predicate SweepPhase()
      reads this
    {
      && Sweeping(heap, cells, currentwhite, allgc, sweepleft, Roots(), garbage)
      && (forall o: Obj :: o in lost && o in heap ==> o in garbage)
      && (if gcstate.SwpAllGc? then sweepleft < |allgc| || sweepleft == 0 else sweepleft == 0)
      && mainthread in heap && (gcstate.CallFin? || gcstate.Pause? ==> heap[mainthread].mark == White(currentwhite))
    }

    ghost predicate Valid()
      reads this
    {
      && Common(heap, cells, currentwhite, allgc, mainthread, next, running, Roots())
      && (forall o: Obj :: o in lost || o in garbage ==> o < next)
      && !gcstate.InsideAtomic?
      && if gcstate.Propagate? || gcstate.AtomicStart? then
           MarkPhase(heap, cells, currentwhite, L(grayagain), mainthread, Roots(), lost) && (gcstate.Propagate? ==> gray != [])
         else SweepPhase()
    }

    // ---- one cycle ----

    method MarkRoots(ghost later: seq<Obj>, ghost bound: set<Obj>)
      requires Marking(later, {}) && Within(heap, cells, bound)
      requires forall r: Obj :: r in registry ==> r in heap && r in bound
      modifies `heap, `gray
      ensures Marking(later, {}) && Marked(old(heap), heap) && Within(heap, cells, bound)
      ensures forall r: Obj :: r in registry ==> r in heap && !heap[r].mark.White?
      ensures Whites(heap) <= Whites(old(heap))
    {
      ghost var was := heap;
      for i := 0 to |registry|
        invariant Marking(later, {}) && Marked(was, heap) && Within(heap, cells, bound)
        invariant forall j :: 0 <= j < i ==> registry[j] in heap && !heap[registry[j]].mark.White?
        invariant Whites(heap) <= Whites(was)
      {
        assert registry[i] in registry;
        MarkObject(registry[i], later, {}, bound);
      }
    }

    // The cycle starts: lost is what cannot be reached in h.
    ghost predicate LostIs(h: Heap)
      reads this
    {
      lost <= h.Keys && IsReach(h, cells, Roots(), h.Keys - lost)
    }

    // The sweep starts: all objects of h are garbage save those reached from roots and marked ones.
    ghost predicate GarbageIs(h: Heap)
      reads this
    {
      IsReach(h, cells, Roots() + NonWhite(h), h.Keys - garbage)
    }

    method RestartCollection()
      requires Valid() && gcstate.Pause?
      modifies this
      ensures Valid() && gcstate.Propagate? && Darker(old(heap), heap)
      ensures cells == old(cells) && Roots() == old(Roots()) && allgc == old(allgc) && next == old(next) && currentwhite == old(currentwhite)
      ensures LostIs(old(heap))
    {
      ghost var bound := CycleStart(heap, cells, currentwhite, allgc, mainthread, next, running, Roots(), garbage);
      gray, grayagain := [], [];
      StartMarking(bound);
    }

    method StartMarking(ghost bound: set<Obj>)
      requires Common(heap, cells, currentwhite, allgc, mainthread, next, running, Roots())
      requires TriColor(heap, cells, currentwhite, Lists([], [], false), {}) && Within(heap, cells, bound) && Roots() <= bound <= heap.Keys
      requires gray == [] && grayagain == [] && forall o: Obj :: o in garbage ==> o < next
      modifies `heap, `gray, `gcstate, `lost
      ensures Valid() && gcstate.Propagate? && Darker(old(heap), heap) && lost == old(heap).Keys - bound
    {
      ghost var was, roots := heap, Roots();
      lost := heap.Keys - bound;
      assert heap.Keys - lost == bound;
      gcstate := Propagate;
      MarkMainAndRoots(bound);
      PhaseMarked(was, heap, cells, currentwhite, L([]), allgc, mainthread, next, running, roots, lost);
    }

    method MarkMainAndRoots(ghost bound: set<Obj>)
      requires gray == [] && Marking([], {}) && Within(heap, cells, bound) && mainthread in heap && heap[mainthread].kind.Thread?
      requires !gcstate.InsideAtomic?
      requires Roots() <= bound && forall r: Obj :: r in Roots() ==> r in heap
      modifies `heap, `gray
      ensures Marking([], {}) && Darker(old(heap), heap) && Within(heap, cells, bound)
      ensures gray != [] && !heap[mainthread].mark.White?
    {
      ghost var was := heap;
      MarkObject(mainthread, [], {}, bound);
      ghost var mid := heap;
      MarkRoots([], bound);
      assert MarkedObject(mid[mainthread], heap[mainthread]) && MarkedObject(was[mainthread], mid[mainthread]);
      assert ObjOk(heap, cells, currentwhite, L([]), {}, mainthread);
    }

    // Marks what is still to be marked: the roots, which may have changed, and everything gray.
    method AtomicMark(ghost bound: set<Obj>)
      requires !gcstate.InsideAtomic? && Marking(grayagain, {}) && Within(heap, cells, bound)
      requires Roots() <= bound && (forall r: Obj :: r in Roots() ==> r in heap) && mainthread in heap && !heap[mainthread].mark.White?
      modifies `heap, `gray, `grayagain, `gcstate
      ensures TriColor(heap, cells, currentwhite, Lists([], [], true), {}) && Within(heap, cells, bound)
      ensures Darker(old(heap), heap) && Roots() <= NonWhite(heap)
    {
      ghost var h0 := heap;
      ghost var later := PropagateAll(grayagain, bound);
      ghost var h1 := heap;
      var saved := grayagain;
      Finishing(heap, cells, currentwhite, L(saved));
      gcstate := InsideAtomic;
      MarkChangedRoots(saved, bound);
      ghost var h2 := heap;
      later := PropagateAll(saved, bound);
      Promoted(heap, cells, currentwhite, saved);
      ghost var h3 := heap;
      gray := saved;
      later := PropagateAll([], bound);
      assert DarkerObject(h0[mainthread], heap[mainthread]);
      forall r: Obj | r in Roots() ensures r in NonWhite(heap) { assert DarkerObject(h2[r], heap[r]); }
    }

    method MarkChangedRoots(ghost later: seq<Obj>, ghost bound: set<Obj>)
      requires Marking(later, {}) && Within(heap, cells, bound) && Roots() <= bound && forall r: Obj :: r in Roots() ==> r in heap
      modifies `heap, `gray
      ensures Marking(later, {}) && Darker(old(heap), heap) && Within(heap, cells, bound)
      ensures forall r: Obj :: r in Roots() && r != mainthread ==> r in heap && !heap[r].mark.White?
    {
      ghost var was := heap;
      MarkObject(running, later, {}, bound);
      ghost var mid := heap;
      MarkRoots(later, bound);
      assert MarkedObject(mid[running], heap[running]);
    }

    // What the coming sweep will free: everything not reached from the roots or from what is
    // marked already.
    method Atomic()
      requires Valid() && gcstate.AtomicStart?
      modifies this
      ensures Common(heap, cells, currentwhite, allgc, mainthread, next, running, Roots())
      ensures Sweeping(heap, cells, currentwhite, allgc, |allgc|, Roots(), garbage)
      ensures Darker(old(heap), heap)
      ensures cells == old(cells) && Roots() == old(Roots()) && allgc == old(allgc) && next == old(next) && lost == old(lost)
      ensures lost !! heap.Keys - garbage && garbage <= heap.Keys
      ensures IsReach(old(heap), cells, Roots() + NonWhite(old(heap)), heap.Keys - garbage)
    {
      ghost var h0, from := heap, Roots() + NonWhite(heap);
      ghost var bound := AtomicBound(from);
      AtomicMark(bound);
      MarkedIsReached(h0, heap, cells, currentwhite, from, bound);
      Flipped(h0, heap, cells, currentwhite, allgc, mainthread, next, running, Roots());
      garbage := Whites(heap);
      assert heap.Keys - garbage == NonWhite(heap);
      currentwhite := !currentwhite;
    }

    ghost method AtomicBound(from: set<Obj>) returns (bound: set<Obj>)
      requires Valid() && gcstate.AtomicStart? && from == Roots() + NonWhite(heap)
      ensures IsReach(heap, cells, from, bound) && Within(heap, cells, bound) && Roots() <= bound && bound !! lost
    {
      assert forall o: Obj, r: Obj {:trigger Refers(cells, heap[o], r)} :: o in heap && Refers(cells, heap[o], r) ==> r in heap by {
        forall o: Obj, r: Obj | o in heap && Refers(cells, heap[o], r) ensures r in heap {
          assert ObjOk(heap, cells, currentwhite, L(grayagain), {}, o);
        }
      }
      bound := ReachSet(heap, cells, from);
      LostStaysLost(heap, cells, from, bound, lost);
    }

    // ---- sweep ----

    ghost predicate InSweep()
      reads this
    {
      && Common(heap, cells, currentwhite, allgc, mainthread, next, running, Roots())
      && Sweeping(heap, cells, currentwhite, allgc, sweepleft, Roots(), garbage)
    }

    // The next object of the list freed if dead, else turned white.
    method SweepOne()
      requires InSweep() && sweepleft > 0
      modifies `heap, `allgc, `sweepleft
      ensures InSweep() && SweptTo(old(heap), heap, currentwhite)
      ensures sweepleft == old(sweepleft) - 1
      ensures |allgc| == |old(allgc)| - (if Dead(old(heap), currentwhite, old(allgc)[|old(allgc)| - old(sweepleft)]) then 1 else 0)
    {
      SweptOne(heap, cells, currentwhite, allgc, sweepleft, Roots(), garbage, mainthread, next, running);
      var i := |allgc| - sweepleft;
      var curr := allgc[i];
      if heap[curr].mark == White(!currentwhite) {
        allgc := allgc[..i] + allgc[i + 1..];
        heap := heap - {curr};
      } else {
        heap := heap[curr := heap[curr].(mark := White(currentwhite))];
      }
      sweepleft := sweepleft - 1;
    }

    method SweepList(count: nat)
      requires InSweep()
      modifies `heap, `allgc, `sweepleft
      ensures InSweep() && SweptTo(old(heap), heap, currentwhite)
      ensures sweepleft == if old(sweepleft) < count then 0 else old(sweepleft) - count
      ensures |allgc| - sweepleft >= |old(allgc)| - old(sweepleft)
    {
      ghost var was, left, all := heap, sweepleft, allgc;
      var n := 0;
      while sweepleft > 0 && n < count
        invariant InSweep() && SweptTo(was, heap, currentwhite)
        invariant n <= count && n <= left && sweepleft == left - n && |allgc| - sweepleft >= |all| - left
        decreases sweepleft
      {
        ghost var mid := heap;
        SweepOne();
        n := n + 1;
      }
    }

    // From the head of the list up to the first live object, so that new objects, which go in
    // at the head, are not met by the sweep.
    method EnterSweep()
      requires Common(heap, cells, currentwhite, allgc, mainthread, next, running, Roots())
      requires Sweeping(heap, cells, currentwhite, allgc, |allgc|, Roots(), garbage)
      modifies `heap, `allgc, `sweepleft, `gcstate
      ensures InSweep() && SweptTo(old(heap), heap, currentwhite) && gcstate.SwpAllGc?
      ensures sweepleft < |allgc| || sweepleft == 0
    {
      ghost var was := heap;
      gcstate := SwpAllGc;
      sweepleft := |allgc|;
      while sweepleft > 0 && sweepleft == |allgc|
        invariant InSweep() && SweptTo(was, heap, currentwhite) && gcstate.SwpAllGc?
        decreases sweepleft
      {
        ghost var mid := heap;
        SweepOne();
      }
    }

    // Part of the list, or on to the next phase.
    method SweepStep(max: nat, after: GcState)
      requires Valid() && max > 0
      requires (gcstate.SwpAllGc? && after.SwpFinObj?) || (gcstate.SwpFinObj? && after.SwpToBeFnz?) || (gcstate.SwpToBeFnz? && after.SwpEnd?)
      modifies `heap, `allgc, `sweepleft, `gcstate
      ensures Valid() && KeepsReachable(old(heap), heap, cells, Roots()) && old(heap).Keys - garbage <= heap.Keys
      ensures gcstate == after || (gcstate == old(gcstate) && sweepleft < old(sweepleft))
    {
      ghost var was := heap;
      SweptKeeps(heap, heap, cells, currentwhite, Roots());
      if sweepleft > 0 {
        SweepList(max);
        SweptKeeps(was, heap, cells, currentwhite, Roots());
        if sweepleft > 0 { return; }
      }
      gcstate := after;
    }

    // ---- one step ----

    method SingleStep(sweepmax: nat)
      requires Valid() && sweepmax > 0
      modifies this
      ensures Valid() && KeepsReachable(old(heap), heap, cells, Roots())
      ensures cells == old(cells) && Roots() == old(Roots()) && next == old(next)
      ensures old(gcstate).Pause? ==> LostIs(old(heap))
      ensures !old(gcstate).Pause? ==> lost == old(lost)
      ensures old(gcstate).AtomicStart? ==> GarbageIs(old(heap))
      ensures Sweeps(old(gcstate)) ==> garbage == old(garbage)
      ensures Sweeps(old(gcstate)) || old(gcstate).AtomicStart? ==> old(heap).Keys - garbage <= heap.Keys
      ensures gcstate == After(old(gcstate)) || Closer(old(gcstate), old(heap), old(gray), old(sweepleft))
    {
      ghost var was := heap;
      if Sweeps(gcstate) { StepInSweep(sweepmax); }
      else if gcstate.AtomicStart? { AtomicStep(); }
      else {
        if gcstate.Pause? { RestartCollection(); } else { PropagateStep(); }
        DarkerKeeps(was, heap, cells, Roots());
      }
    }

    // The steps of the phases from the sweep on.
    method StepInSweep(sweepmax: nat)
      requires Valid() && sweepmax > 0 && Sweeps(gcstate)
      modifies `heap, `allgc, `sweepleft, `gcstate
      ensures Valid() && KeepsReachable(old(heap), heap, cells, Roots()) && old(heap).Keys - garbage <= heap.Keys
      ensures gcstate == After(old(gcstate)) || Closer(old(gcstate), old(heap), gray, old(sweepleft))
    {
      match gcstate {
        case SwpAllGc =>
          SweepStep(sweepmax, SwpFinObj);
        case SwpFinObj =>
          SweepStep(sweepmax, SwpToBeFnz);
        case SwpToBeFnz =>
          SweepStep(sweepmax, SwpEnd);
        case SwpEnd =>
          WhitenMain();
        case CallFin =>
          DarkerKeeps(heap, heap, cells, Roots());
          gcstate := Pause;
      }
    }

    ghost predicate Closer(was: GcState, h: Heap, g: seq<Obj>, left: nat)
      reads this
    {
      gcstate == was && (
        if was.Propagate? then Whites(heap) < Whites(h) || (Whites(heap) == Whites(h) && |gray| < |g|)
        else was.SwpAllGc? && sweepleft < left)
    }

    method PropagateStep()
      requires Valid() && gcstate.Propagate?
      modifies `heap, `gray, `grayagain, `gcstate
      ensures Valid() && Darker(old(heap), heap)
      ensures gcstate.AtomicStart? || Closer(Propagate, old(heap), old(gray), sweepleft)
    {
      ghost var was := heap;
      ghost var later := PropagateMark(grayagain, heap.Keys - lost);
      assert DarkerObject(was[mainthread], heap[mainthread]);
      PhaseMarked(was, heap, cells, currentwhite, L(later), allgc, mainthread, next, running, Roots(), lost);
      if gray == [] { gcstate := AtomicStart; }
    }

    method AtomicStep()
      requires Valid() && gcstate.AtomicStart?
      modifies this
      ensures Valid() && gcstate.SwpAllGc? && KeepsReachable(old(heap), heap, cells, Roots())
      ensures cells == old(cells) && Roots() == old(Roots()) && next == old(next) && lost == old(lost)
      ensures GarbageIs(old(heap)) && garbage <= old(heap).Keys && old(heap).Keys - garbage <= heap.Keys
    {
      ghost var was := heap;
      Atomic();
      ghost var mid := heap;
      DarkerKeeps(was, mid, cells, Roots());
      EnterSweep();
      SweptKeeps(mid, heap, cells, currentwhite, Roots());
      KeepsTwice(was, mid, heap, cells, Roots());
    }

    method WhitenMain()
      requires Valid() && gcstate.SwpEnd?
      modifies `heap, `gcstate
      ensures Valid() && gcstate.CallFin? && KeepsReachable(old(heap), heap, cells, Roots()) && heap.Keys == old(heap).Keys
    {
      assert mainthread in Roots();
      MainWhitened(heap, cells, currentwhite, allgc, mainthread, next, running, Roots(), garbage);
      heap := heap[mainthread := heap[mainthread].(mark := White(currentwhite))];
      gcstate := CallFin;
    }

    // ---- several steps ----

    method RunTilState(mask: set<GcState>, sweepmax: nat, ghost target: GcState)
      requires Valid() && sweepmax > 0 && target in mask && !target.InsideAtomic?
      modifies this
      ensures Valid() && gcstate in mask && KeepsReachable(old(heap), heap, cells, Roots())
      ensures cells == old(cells) && Roots() == old(Roots()) && next == old(next)
      ensures !old(gcstate).Pause? && (Pause in mask || CallFin in mask) ==> lost == old(lost)
    {
      ghost var h0, s0, lost0 := heap, gcstate, lost;
      DarkerKeeps(heap, heap, cells, Roots());
      while gcstate !in mask
        invariant Valid() && KeepsReachable(h0, heap, cells, Roots())
        invariant cells == old(cells) && Roots() == old(Roots()) && next == old(next)
        invariant !s0.Pause? && (Pause in mask || CallFin in mask) ==> lost == lost0 && (gcstate.Pause? ==> Pause in mask)
        decreases Distance(gcstate, target), if gcstate.Propagate? then Whites(heap) else {},
          if gcstate.Propagate? then |gray| else sweepleft
      {
        StepTowards(h0, sweepmax, target);
      }
    }

    method StepTowards(ghost h0: Heap, sweepmax: nat, ghost target: GcState)
      requires Valid() && sweepmax > 0 && gcstate != target && !target.InsideAtomic? && KeepsReachable(h0, heap, cells, Roots())
      modifies this
      ensures Valid() && KeepsReachable(h0, heap, cells, Roots())
      ensures cells == old(cells) && Roots() == old(Roots()) && next == old(next)
      ensures !old(gcstate).Pause? ==> lost == old(lost) && (gcstate.Pause? ==> old(gcstate).CallFin?)
      ensures Distance(gcstate, target) < Distance(old(gcstate), target) || Closer(old(gcstate), old(heap), old(gray), old(sweepleft))
    {
      ghost var mid, s := heap, gcstate;
      SingleStep(sweepmax);
      KeepsTwice(h0, mid, heap, cells, Roots());
      Nearer(s, target);
    }

    // While marking, everything may be turned back to white: nothing is freed.
    method AbandonMarking()
      requires Valid() && (gcstate.Propagate? || gcstate.AtomicStart?)
      modifies this
      ensures Valid() && gcstate.SwpAllGc? && KeepsReachable(old(heap), heap, cells, Roots())
      ensures cells == old(cells) && Roots() == old(Roots()) && next == old(next)
    {
      ghost var was := heap;
      Undone(heap, cells, currentwhite, L(grayagain), allgc, mainthread, next, running, Roots());
      lost, garbage := {}, {};
      EnterSweep();
      SweptKeeps(was, heap, cells, currentwhite, Roots());
    }

    // A full collection leaves exactly what could be reached.
    method FullGc(sweepmax: nat)
      requires Valid() && sweepmax > 0
      modifies this
      ensures Valid() && gcstate.Pause?
      ensures cells == old(cells) && Roots() == old(Roots())
      ensures IsReach(old(heap), cells, Roots(), heap.Keys) && KeepsReachable(old(heap), heap, cells, Roots())
    {
      ghost var h0, roots := heap, Roots();
      DarkerKeeps(heap, heap, cells, roots);
      if gcstate.Propagate? || gcstate.AtomicStart? { AbandonMarking(); }
      ghost var h := heap;
      RunTilState({Pause}, sweepmax, Pause);
      KeepsTwice(h0, h, heap, cells, roots);
      h := heap;
      WholeCycle(sweepmax);
      ReachBefore(h0, h, heap, cells, roots);
    }

    method WholeCycle(sweepmax: nat)
      requires Valid() && gcstate.Pause? && sweepmax > 0
      modifies this
      ensures Valid() && gcstate.Pause?
      ensures cells == old(cells) && Roots() == old(Roots())
      ensures IsReach(old(heap), cells, Roots(), heap.Keys) && KeepsReachable(old(heap), heap, cells, Roots())
    {
      ghost var h1, roots := heap, Roots();
      SingleStep(sweepmax);                              // start new collection
      ghost var bound := h1.Keys - lost;
      ghost var h := heap;
      RunToFinalizers(sweepmax);
      KeepsTwice(h1, h, heap, cells, roots);
      ghost var h2 := heap;
      assert h2.Keys <= bound;
      RunTilState({Pause}, sweepmax, Pause);             // finish collection
      CycleEnd(h1, h2, heap, cells, roots, bound);
    }

    method RunToFinalizers(sweepmax: nat)
      requires Valid() && !gcstate.Pause? && sweepmax > 0
      modifies this
      ensures Valid() && gcstate.CallFin? && KeepsReachable(old(heap), heap, cells, Roots())
      ensures cells == old(cells) && Roots() == old(Roots())
      ensures heap.Keys !! old(lost)
    {
      RunTilState({CallFin}, sweepmax, CallFin);
      NothingLost();
    }

    // From the atomic phase to the end of the sweep: what is left is exactly what was reached then
    // from the roots or from what was marked already.
    method FinishCycle(sweepmax: nat)
      requires Valid() && gcstate.AtomicStart? && sweepmax > 0
      modifies this
      ensures Valid() && gcstate.CallFin? && cells == old(cells) && Roots() == old(Roots())
      ensures IsReach(old(heap), cells, Roots() + NonWhite(old(heap)), heap.Keys) && KeepsReachable(old(heap), heap, cells, Roots())
    {
      ghost var h0, roots := heap, Roots();
      AtomicStep();
      ghost var h1 := heap;
      SweepToEnd(sweepmax);
      KeepsTwice(h0, h1, heap, cells, roots);
      assert heap.Keys == h0.Keys - garbage;
    }

    method SweepToEnd(sweepmax: nat)
      requires Valid() && gcstate.SwpAllGc? && sweepmax > 0
      modifies `heap, `allgc, `sweepleft, `gcstate
      ensures Valid() && gcstate.CallFin? && KeepsReachable(old(heap), heap, cells, Roots())
      ensures old(heap).Keys - garbage <= heap.Keys && garbage !! heap.Keys
    {
      SweepAll(sweepmax);
      ghost var mid := heap;
      WhitenMain();
      KeepsTwice(old(heap), mid, heap, cells, Roots());
      NothingLost();
    }

    method SweepAll(sweepmax: nat)
      requires Valid() && gcstate.SwpAllGc? && sweepmax > 0
      modifies `heap, `allgc, `sweepleft, `gcstate
      ensures Valid() && gcstate.SwpEnd? && KeepsReachable(old(heap), heap, cells, Roots()) && old(heap).Keys - garbage <= heap.Keys
    {
      DarkerKeeps(heap, heap, cells, Roots());
      while gcstate.SwpAllGc?
        invariant Valid() && KeepsReachable(old(heap), heap, cells, Roots()) && old(heap).Keys - garbage <= heap.Keys
        invariant gcstate.SwpAllGc? || gcstate.SwpFinObj?
        decreases gcstate.SwpAllGc?, sweepleft
      {
        SweepSome(old(heap), sweepmax);
      }
      SweepNone(old(heap), sweepmax, SwpToBeFnz);
      SweepNone(old(heap), sweepmax, SwpEnd);
    }

    method SweepSome(ghost h0: Heap, sweepmax: nat)
      requires Valid() && gcstate.SwpAllGc? && sweepmax > 0 && KeepsReachable(h0, heap, cells, Roots()) && h0.Keys - garbage <= heap.Keys
      modifies `heap, `allgc, `sweepleft, `gcstate
      ensures Valid() && KeepsReachable(h0, heap, cells, Roots()) && h0.Keys - garbage <= heap.Keys
      ensures gcstate.SwpFinObj? || (gcstate.SwpAllGc? && sweepleft < old(sweepleft))
    {
      ghost var mid := heap;
      SweepStep(sweepmax, SwpFinObj);
      KeepsTwice(h0, mid, heap, cells, Roots());
    }

    // The lists of objects with finalizers are empty here.
    method SweepNone(ghost h0: Heap, sweepmax: nat, after: GcState)
      requires Valid() && sweepmax > 0 && KeepsReachable(h0, heap, cells, Roots()) && h0.Keys - garbage <= heap.Keys
      requires (gcstate.SwpFinObj? && after.SwpToBeFnz?) || (gcstate.SwpToBeFnz? && after.SwpEnd?)
      modifies `heap, `allgc, `sweepleft, `gcstate
      ensures Valid() && KeepsReachable(h0, heap, cells, Roots()) && h0.Keys - garbage <= heap.Keys && gcstate == after
    {
      ghost var mid := heap;
      SweepStep(sweepmax, after);
      KeepsTwice(h0, mid, heap, cells, Roots());
    }

    // Propagating to the end of the gray list.
    method PropagateToAtomic()
      requires Valid() && gcstate.Propagate?
      modifies `heap, `gray, `grayagain, `gcstate
      ensures Valid() && gcstate.AtomicStart? && Darker(old(heap), heap)
    {
      while gcstate.Propagate?
        invariant Valid() && KeepsInvariant() && Darker(old(heap), heap)
        decreases gcstate.Propagate?, Whites(heap), |gray|
      {
        ghost var mid := heap;
        PropagateStep();
        DarkerTwice(old(heap), mid, heap);
      }
    }

    // Once the sweep is over, nothing that was out of reach when the cycle started is left.
    lemma NothingLost()
      requires Valid() && (gcstate.SwpEnd? || gcstate.CallFin? || gcstate.Pause?)
      ensures lost !! heap.Keys && garbage !! heap.Keys
    {
      forall o: Obj | o in heap ensures o !in garbage {
        assert !Dead(heap, currentwhite, o) by {
          if o != mainthread { var i :| 0 <= i < |allgc| && allgc[i] == o; }
          else { assert mainthread in Roots(); assert mainthread in Living(heap, currentwhite); }
        }
      }
    }

    // ---- Lua code, between steps ----

    ghost predicate CanReach(o: Obj)
      reads this
    {
      Reaches(heap, cells, Roots(), o)
    }

    ghost predicate KeepsInvariant()
      reads this
    {
      gcstate.Propagate? || gcstate.AtomicStart?
    }

    ghost function Lost(): set<Obj>
      reads this
    {
      if gcstate.Propagate? || gcstate.AtomicStart? then lost else {}
    }

    // Every value a program can get hold of may be stored.
    lemma Safe(o: Obj)
      requires Valid() && CanReach(o)
      ensures o in heap && !Dead(heap, currentwhite, o) && o !in Lost()
    {
      ReachedIsSafe(heap, cells, currentwhite, allgc, mainthread, next, running, Roots(), o);
      if gcstate.Propagate? || gcstate.AtomicStart? {
        ReachedIsNotLost(heap, cells, currentwhite, L(grayagain), mainthread, Roots(), lost, o);
      }
    }

    // An object whose references all are reachable.
    lemma SafeObject(ob: Object)
      requires Valid() && WellTyped(ob) && forall r: Obj {:trigger Refers(cells, ob, r)} :: Refers(cells, ob, r) ==> CanReach(r)
      ensures Storable(heap, cells, currentwhite, ob, Lost())
    {
      forall r: Obj | Refers(cells, ob, r) ensures r in heap && !Dead(heap, currentwhite, r) && r !in Lost() { Safe(r); }
    }

    // A write into an object that is not black, or that stores nothing white: no barrier.
    method Write(o: Obj, ob: Object)
      requires Valid() && CanReach(o) && o in heap && ob.kind == heap[o].kind && ob.mark == heap[o].mark
      requires WellTyped(ob) && forall r: Obj {:trigger Refers(cells, ob, r)} :: Refers(cells, ob, r) ==> CanReach(r)
      requires KeepsInvariant() && ob.mark.Black? ==> NoWhite(heap, cells, ob)
      modifies `heap
      ensures Valid() && heap == old(heap)[o := ob]
    {
      Safe(o);
      SafeObject(ob);
      Put(o, ob);
    }

    method Put(o: Obj, ob: Object)
      requires Valid() && o in heap && !Dead(heap, currentwhite, o) && o !in Lost() && ob.kind == heap[o].kind && ob.mark == heap[o].mark
      requires Storable(heap, cells, currentwhite, ob, Lost())
      requires KeepsInvariant() && ob.mark.Black? ==> NoWhite(heap, cells, ob)
      modifies `heap
      ensures Valid() && heap == old(heap)[o := ob]
    {
      if gcstate.Propagate? || gcstate.AtomicStart? { assert ObjOk(heap, cells, currentwhite, L(grayagain), {}, o); }
      CommonStore(heap, cells, currentwhite, allgc, mainthread, next, running, Roots(), o, ob, Lost());
      if gcstate.Propagate? || gcstate.AtomicStart? { MarkStore(heap, cells, currentwhite, L(grayagain), o, ob, lost); }
      else { SweepStore(heap, cells, currentwhite, allgc, sweepleft, Roots(), garbage, o, ob); }
      heap := heap[o := ob];
    }

    // The references an object keeps, and one more.
    ghost predicate Adds(o: Obj, ob: Object, v: Obj)
      requires o in heap
      reads this
    {
      && ob.kind == heap[o].kind && ob.mark == heap[o].mark && WellTyped(ob)
      && forall r: Obj {:trigger Refers(cells, ob, r)} :: Refers(cells, ob, r) ==> Refers(cells, heap[o], r) || r == v
    }

    lemma AddsSafely(o: Obj, ob: Object, v: Obj)
      requires Valid() && CanReach(o) && CanReach(v) && o in heap && Adds(o, ob, v)
      ensures Storable(heap, cells, currentwhite, ob, Lost())
      ensures forall r: Obj {:trigger Refers(cells, ob, r)} :: Refers(cells, ob, r) ==> CanReach(r)
    {
      forall r: Obj | Refers(cells, ob, r) ensures CanReach(r) {
        if r != v { ReachesOn(heap, cells, Roots(), o, r); }
      }
      SafeObject(ob);
    }

    lemma NoWhiteAdded(o: Obj, ob: Object, v: Obj)
      requires Valid() && KeepsInvariant() && o in heap && Adds(o, ob, v) && v in heap && !heap[v].mark.White?
      ensures ob.mark.Black? ==> NoWhite(heap, cells, ob)
    {
      assert ObjOk(heap, cells, currentwhite, L(grayagain), {}, o);
    }

    // A value stored into a table: luaC_barrierback.
    method TableWrite(t: Obj, ob: Object, v: Obj)
      requires Valid() && CanReach(t) && CanReach(v) && t in heap && heap[t].kind.Table? && Adds(t, ob, v)
      modifies `heap, `grayagain
      ensures Valid() && v in old(heap)
      ensures heap == old(heap)[t := if ob.mark.Black? && old(heap)[v].mark.White? then ob.(mark := Gray) else ob]
    {
      Safe(v);
      AddsSafely(t, ob, v);
      if heap[t].mark.Black? && heap[v].mark.White? {
        BarrierBack(t, ob);
      } else {
        if gcstate.Propagate? || gcstate.AtomicStart? { if heap[t].mark.Black? { NoWhiteAdded(t, ob, v); } }
        Write(t, ob);
      }
    }

    method BarrierBack(t: Obj, ob: Object)
      requires Valid() && CanReach(t) && t in heap && heap[t].kind.Table? && ob.kind.Table? && heap[t].mark.Black? && ob.mark.Black?
      requires Storable(heap, cells, currentwhite, ob, Lost())
      modifies `heap, `grayagain
      ensures Valid() && heap == old(heap)[t := ob.(mark := Gray)]
    {
      var ob' := ob.(mark := Gray);
      RefersSame(cells, ob, ob');
      Safe(t);
      CommonStore(heap, cells, currentwhite, allgc, mainthread, next, running, Roots(), t, ob', Lost());
      if gcstate.Propagate? || gcstate.AtomicStart? {
        StoreBack(heap, cells, currentwhite, L(grayagain), mainthread, Roots(), lost, t, ob);
      } else {
        SweepStore(heap, cells, currentwhite, allgc, sweepleft, Roots(), garbage, t, ob');
      }
      heap := heap[t := ob'];
      grayagain := [t] + grayagain;
    }

    // A value stored into any other object: luaC_barrier.
    method ForwardWrite(o: Obj, ob: Object, v: Obj)
      requires Valid() && CanReach(o) && CanReach(v) && o in heap && Adds(o, ob, v)
      modifies `heap, `gray
      ensures Valid() && v in old(heap)
      ensures if !old(heap)[o].mark.Black? || !old(heap)[v].mark.White? then heap == old(heap)[o := ob]
        else if KeepsInvariant() then Marked(old(heap)[o := ob], heap) && !heap[v].mark.White?
        else heap == old(heap)[o := ob.(mark := White(currentwhite))]
    {
      Safe(v);
      Safe(o);
      AddsSafely(o, ob, v);
      if heap[o].mark.Black? && heap[v].mark.White? {
        if gcstate.Propagate? || gcstate.AtomicStart? { BarrierMark(o, ob, v); }
        else { BarrierSweep(o, ob); }
      } else {
        if gcstate.Propagate? || gcstate.AtomicStart? { if heap[o].mark.Black? { NoWhiteAdded(o, ob, v); } }
        Write(o, ob);
      }
    }

    // While the invariant is kept, the white object is marked.
    method BarrierMark(o: Obj, ob: Object, v: Obj)
      requires Valid() && KeepsInvariant() && o in heap && o !in lost && v in heap && v !in lost && Adds(o, ob, v)
      requires heap[o].mark.Black? && heap[v].mark.White? && Storable(heap, cells, currentwhite, ob, lost)
      modifies `heap, `gray
      ensures Valid() && Marked(old(heap)[o := ob], heap) && !heap[v].mark.White?
    {
      ghost var was := heap;
      StoreAhead(heap, cells, currentwhite, L(grayagain), allgc, mainthread, next, running, Roots(), lost, o, ob);
      heap := heap[o := ob];
      ghost var mid := heap;
      MarkStored(was, o, ob, v);
      PhaseStored(mid, heap, cells, currentwhite, L(grayagain), allgc, mainthread, next, running, Roots(), lost);
    }

    method MarkStored(ghost was: Heap, o: Obj, ob: Object, v: Obj)
      requires KeepsInvariant() && TriColor(was, cells, currentwhite, L(grayagain), {}) && o in was && was[o].mark.Black? && ob.mark.Black?
      requires heap == was[o := ob] && v in heap && v !in lost && heap[v].mark.White?
      requires forall r: Obj {:trigger Refers(cells, ob, r)} :: Refers(cells, ob, r) ==> Refers(cells, was[o], r) || r == v
      requires Marking(grayagain, {o}) && Within(heap, cells, heap.Keys - lost)
      modifies `heap, `gray
      ensures Marking(grayagain, {}) && Marked(old(heap), heap) && Darker(old(heap), heap) && Within(heap, cells, old(heap).Keys - lost)
      ensures (old(gray) != [] ==> gray != []) && !heap[v].mark.White?
    {
      ghost var mid, l := heap, L(grayagain);
      ReallyMark(v, grayagain, {o}, heap.Keys - lost);
      BarrierDone(was, mid, heap, cells, currentwhite, L(grayagain), l, o, ob, v);
    }

    // In the sweep, the black object is swept at once.
    method BarrierSweep(o: Obj, ob: Object)
      requires Valid() && !KeepsInvariant() && o in heap && !Dead(heap, currentwhite, o) && ob.kind == heap[o].kind
      requires heap[o].mark.Black? && Storable(heap, cells, currentwhite, ob, {})
      modifies `heap
      ensures Valid() && heap == old(heap)[o := ob.(mark := White(currentwhite))]
    {
      var ob' := ob.(mark := White(currentwhite));
      RefersSame(cells, ob, ob');
      CommonStore(heap, cells, currentwhite, allgc, mainthread, next, running, Roots(), o, ob', {});
      SweepStore(heap, cells, currentwhite, allgc, sweepleft, Roots(), garbage, o, ob');
      heap := heap[o := ob'];
    }

    // A value on a thread's stack: threads are never black, so there is no barrier.
    method SetStack(th: Obj, refs: seq<Obj>)
      requires Valid() && CanReach(th) && th in heap && heap[th].kind.Thread?
      requires forall r: Obj :: r in refs ==> CanReach(r)
      modifies `heap
      ensures Valid() && heap == old(heap)[th := old(heap)[th].(refs := refs)]
    {
      var ob := heap[th].(refs := refs);
      forall r: Obj | Refers(cells, ob, r) ensures CanReach(r) {
        if r !in refs { ReachesOn(heap, cells, Roots(), th, r); }
      }
      Write(th, ob);
    }

    // A closed upvalue assigned, which several closures may share: luaC_upvalbarrier.
    method SetUpvalue(c: Cell, v: Obj)
      requires Valid() && CanReach(v)
      modifies `heap, `gray, `cells
      ensures Valid() && cells == old(cells)[c := v] && Darker(old(heap), heap)
      ensures KeepsInvariant() ==> v in heap && !heap[v].mark.White?
    {
      Safe(v);
      if gcstate.Propagate? || gcstate.AtomicStart? { MarkKept(v); }
      Rebind(c, v);
    }

    method MarkKept(v: Obj)
      requires Valid() && KeepsInvariant() && v in heap && v !in lost
      modifies `heap, `gray
      ensures Valid() && Darker(old(heap), heap) && !heap[v].mark.White?
    {
      ghost var was := heap;
      MarkObject(v, grayagain, {}, heap.Keys - lost);
      PhaseStored(was, heap, cells, currentwhite, L(grayagain), allgc, mainthread, next, running, Roots(), lost);
    }

    method Rebind(c: Cell, v: Obj)
      requires Valid() && v in heap && !Dead(heap, currentwhite, v) && v !in Lost() && (KeepsInvariant() ==> !heap[v].mark.White?)
      modifies `cells
      ensures Valid() && cells == old(cells)[c := v]
    {
      if gcstate.Propagate? || gcstate.AtomicStart? { MarkCell(heap, cells, currentwhite, L(grayagain), c, v, lost); }
      LifeCell(heap, cells, currentwhite, c, v);
      cells := cells[c := v];
    }

    // A new object, white, at the head of the list and on the running thread's stack.
    method NewObject(ob: Object) returns (o: Obj)
      requires Valid() && WellTyped(ob) && ob.mark == White(currentwhite)
      requires forall r: Obj {:trigger Refers(cells, ob, r)} :: Refers(cells, ob, r) ==> CanReach(r)
      modifies `heap, `allgc, `next
      ensures Valid() && o == old(next) && allgc == [o] + old(allgc)
      ensures var th := old(heap)[running]; heap == old(heap)[o := ob][running := th.(refs := th.refs + [o])]
    {
      assert running in Roots();
      o := next;
      AddObject(ob);
      ReachedFromRoots();
      PushNew(o);
    }

    method AddObject(ob: Object)
      requires Valid() && WellTyped(ob) && ob.mark == White(currentwhite)
      requires forall r: Obj {:trigger Refers(cells, ob, r)} :: Refers(cells, ob, r) ==> CanReach(r)
      modifies `heap, `allgc, `next
      ensures Valid() && heap == old(heap)[old(next) := ob] && allgc == [old(next)] + old(allgc) && next == old(next) + 1
      ensures old(next) !in lost && old(next) !in old(heap)
    {
      SafeObject(ob);
      CommonNew(heap, cells, currentwhite, allgc, mainthread, next, running, Roots(), ob, Lost());
      if gcstate.Propagate? || gcstate.AtomicStart? {
        MarkNew(heap, cells, currentwhite, L(grayagain), next, ob, lost);
      } else {
        SweepNew(heap, cells, currentwhite, allgc, sweepleft, Roots(), garbage, next, ob);
      }
      heap := heap[next := ob];
      allgc := [next] + allgc;
      next := next + 1;
    }

    lemma ReachedFromRoots()
      ensures forall o: Obj :: o in Roots() ==> CanReach(o)
    {
      forall o: Obj | o in Roots() ensures CanReach(o) {
        var p := [o];
        assert p[0] in Roots() && p[|p| - 1] == o && Path(heap, cells, p);
      }
    }

    // The new object itself is not reachable before it is on the stack.
    method PushNew(o: Obj)
      requires Valid() && CanReach(running) && o in heap && heap[o].mark == White(currentwhite) && o !in lost
      modifies `heap
      ensures Valid() && heap == old(heap)[running := old(heap)[running].(refs := old(heap)[running].refs + [o])]
    {
      var ob := heap[running].(refs := heap[running].refs + [o]);
      forall r: Obj | Refers(cells, ob, r) ensures r in heap && !Dead(heap, currentwhite, r) && r !in Lost() {
        if r != o { ReachesOn(heap, cells, Roots(), running, r); Safe(r); }
      }
      Safe(running);
      Put(running, ob);
    }

    // The registry or a basic type's metatable replaced: no barrier, the atomic phase looks again.
    method SetRegistry(refs: seq<Obj>)
      requires Valid() && forall r: Obj :: r in refs ==> CanReach(r)
      modifies `registry
      ensures Valid() && registry == refs
    {
      forall r: Obj | r in refs ensures r in heap && !Dead(heap, currentwhite, r) && r !in Lost() { Safe(r); }
      registry := refs;
    }

    method Resume(th: Obj)
      requires Valid() && CanReach(th) && th in heap && heap[th].kind.Thread?
      modifies `running
      ensures Valid() && running == th
    {
      Safe(th);
      running := th;
    }
  }

  // What an object holds: its metatable, its references and what its upvalues hold.
  predicate HoldsIn(h: Heap, cells: Cells, o: Obj, s: set<Obj>)
    requires o in h
  {
    && (h[o].meta.Some? ==> h[o].meta.value in s)
    && (forall r <- h[o].refs :: r in s)
    && (forall c <- h[o].upvals :: c in cells ==> cells[c] in s)
  }

  // The main and the running thread, the registry, and with every object what it holds.
  ghost predicate Live(h: Heap, cells: Cells, main: Obj, running: Obj, registry: seq<Obj>, s: set<Obj>) {
    main in s && running in s && (forall r <- registry :: r in s) && forall o :: o in h && o in s ==> HoldsIn(h, cells, o, s)
  }

  lemma ReachIsLive(h: Heap, cells: Cells, main: Obj, running: Obj, registry: seq<Obj>, k: set<Obj>)
    requires var roots := {main, running} + set r <- registry;
      IsReach(h, cells, roots, k) && forall o: Obj {:trigger Reaches(h, cells, roots, o)} :: Reaches(h, cells, roots, o) ==> o in h
    ensures Live(h, cells, main, running, registry, k)
  {
    var roots := {main, running} + set r <- registry;
    forall o: Obj | o in roots ensures o in k { InReach(h, cells, roots, o); }
    forall o: Obj | o in h && o in k ensures HoldsIn(h, cells, o, k) {
      forall r: Obj | Refers(cells, h[o], r) ensures r in k { ReachesOn(h, cells, roots, o, r); }
    }
  }

  lemma LiveIsClosed(h: Heap, cells: Cells, main: Obj, running: Obj, registry: seq<Obj>, k: set<Obj>, s: set<Obj>)
    requires var roots := {main, running} + set r <- registry; IsReach(h, cells, roots, k)
    requires Live(h, cells, main, running, registry, s)
    ensures k <= s
  {
    var roots := {main, running} + set r <- registry;
    forall o: Obj, r: Obj | o in s && o in h && Refers(cells, h[o], r) ensures r in s { assert HoldsIn(h, cells, o, s); }
    InClosed(h, cells, roots, s);
    forall o: Obj | o in k ensures o in s { assert Reaches(h, cells, roots, o); }
  }

  // A full collection, told by what objects hold: what it leaves is the least set that holds the
  // roots and with every object all that it holds, and it alters no object left.
  method CollectAll(gc: Gc, sweepmax: nat)
    requires gc.Valid() && sweepmax > 0
    modifies gc
    ensures gc.Valid() && gc.gcstate.Pause?
    ensures Live(old(gc.heap), old(gc.cells), gc.mainthread, old(gc.running), old(gc.registry), gc.heap.Keys)
    ensures forall s: set<Obj> :: Live(old(gc.heap), old(gc.cells), gc.mainthread, old(gc.running), old(gc.registry), s) ==> gc.heap.Keys <= s
    ensures forall o: Obj :: o in gc.heap ==> o in old(gc.heap) && SameShape(old(gc.heap)[o], gc.heap[o])
  {
    ghost var h, cells, main, running, registry := gc.heap, gc.cells, gc.mainthread, gc.running, gc.registry;
    AllSafe(gc);
    gc.FullGc(sweepmax);
    ReachIsLive(h, cells, main, running, registry, gc.heap.Keys);
    forall s: set<Obj> | Live(h, cells, main, running, registry, s) ensures gc.heap.Keys <= s {
      LiveIsClosed(h, cells, main, running, registry, gc.heap.Keys, s);
    }
  }

  lemma AllSafe(gc: Gc)
    requires gc.Valid()
    ensures forall o: Obj {:trigger Reaches(gc.heap, gc.cells, gc.Roots(), o)} :: Reaches(gc.heap, gc.cells, gc.Roots(), o) ==> o in gc.heap
  {
    forall o: Obj | Reaches(gc.heap, gc.cells, gc.Roots(), o) ensures o in gc.heap { gc.Safe(o); }
  }

  // Only the main thread, with a table and a closure on its stack; the closure has one upvalue.
  ghost predicate OnStack(gc: Gc, o: Obj, c: Obj)
    reads gc
  {
    && gc.Roots() == {gc.mainthread} && gc.running == gc.mainthread && gc.mainthread in gc.heap && c in gc.heap
    && o != gc.mainthread && gc.heap[gc.mainthread] == Object(Thread, gc.heap[gc.mainthread].mark, None, [o, c], [])
    && gc.heap[c] == Object(Closure, gc.heap[c].mark, None, [], [0])
  }

  method WithTable() returns (gc: Gc, o: Obj, c: Obj)
    ensures fresh(gc) && gc.Valid() && gc.gcstate.Pause? && OnStack(gc, o, c)
  {
    gc := new Gc();
    o := gc.NewObject(Object(Table, White(gc.currentwhite), None, [], []));
    assert gc.mainthread in gc.heap && o in gc.heap;
    assert gc.mainthread < gc.next && o < gc.next;
    c := gc.NewObject(Object(Closure, White(gc.currentwhite), None, [], [0]));
  }

  lemma StackInReach(gc: Gc, o: Obj, c: Obj)
    requires OnStack(gc, o, c)
    ensures gc.CanReach(gc.mainthread) && gc.CanReach(o) && gc.CanReach(c)
  {
    gc.ReachedFromRoots();
    assert Refers(gc.cells, gc.heap[gc.mainthread], o) && Refers(gc.cells, gc.heap[gc.mainthread], c);
    ReachesOn(gc.heap, gc.cells, gc.Roots(), gc.mainthread, o);
    ReachesOn(gc.heap, gc.cells, gc.Roots(), gc.mainthread, c);
  }

  method BeginCycle(gc: Gc, ghost o: Obj, ghost c: Obj)
    requires gc.Valid() && gc.gcstate.Pause? && OnStack(gc, o, c)
    modifies gc
    ensures gc.Valid() && gc.gcstate.Propagate? && OnStack(gc, o, c)
  {
    StackInReach(gc, o, c);
    gc.SingleStep(1);
  }

  // The table is marked by the barrier of an assignment, then dropped; the atomic phase begins.
  method DropMarked(gc: Gc, o: Obj, c: Obj)
    requires gc.Valid() && gc.gcstate.Propagate? && OnStack(gc, o, c)
    modifies gc
    ensures gc.Valid() && gc.gcstate.AtomicStart? && o in NonWhite(gc.heap) && !gc.CanReach(o)
  {
    AssignUpvalue(gc, o, c);
    StackInReach(gc, o, c);
    gc.SetStack(gc.mainthread, []);
    ghost var h := gc.heap;
    gc.PropagateToAtomic();
    assert DarkerObject(h[o], gc.heap[o]) && DarkerObject(h[gc.mainthread], gc.heap[gc.mainthread]);
    Dropped(gc.heap, gc.cells, gc.mainthread);
  }

  // The closure assigns the table to its upvalue.
  method AssignUpvalue(gc: Gc, o: Obj, c: Obj)
    requires gc.Valid() && gc.gcstate.Propagate? && OnStack(gc, o, c)
    modifies gc`heap, gc`gray, gc`cells
    ensures gc.Valid() && OnStack(gc, o, c) && o in NonWhite(gc.heap)
  {
    StackInReach(gc, o, c);
    ghost var h := gc.heap;
    gc.SetUpvalue(gc.heap[c].upvals[0], o);
    assert DarkerObject(h[gc.mainthread], gc.heap[gc.mainthread]) && DarkerObject(h[c], gc.heap[c]);
  }

  // What a program drops after the collector marked it is not freed in this cycle: the table is
  // dropped with the closure before the atomic phase, and still there when the sweep is over.
  method FloatingGarbage() returns (gc: Gc, o: Obj)
    ensures fresh(gc) && gc.Valid() && gc.gcstate.CallFin? && o in gc.heap && !gc.CanReach(o)
  {
    var c;
    gc, o, c := WithTable();
    BeginCycle(gc, o, c);
    DropMarked(gc, o, c);
    ghost var h := gc.heap;
    gc.FinishCycle(1);
    InReach(h, gc.cells, gc.Roots() + NonWhite(h), o);
    SameReach(h, gc.heap, gc.cells, gc.Roots());
  }

  lemma Dropped(h: Heap, cells: Cells, main: Obj)
    requires main in h && h[main].meta.None? && h[main].refs == [] && h[main].upvals == []
    ensures forall o: Obj {:trigger Reaches(h, cells, {main}, o)} :: Reaches(h, cells, {main}, o) ==> o == main
  {
    InClosed(h, cells, {main}, {main});
  }

  lemma InReach(h: Heap, cells: Cells, from: set<Obj>, o: Obj)
    requires o in from
    ensures Reaches(h, cells, from, o)
  {
    var p := [o];
    assert p[0] in from && p[|p| - 1] == o && Path(h, cells, p);
  }

  lemma BarrierDone(was: Heap, mid: Heap, h: Heap, cells: Cells, cw: bool, l: Lists, l0: Lists, o: Obj, ob: Object, v: Obj)
    requires TriColor(was, cells, cw, l0, {}) && o in was && was[o].mark.Black? && mid == was[o := ob] && ob.mark.Black?
    requires forall r: Obj {:trigger Refers(cells, ob, r)} :: Refers(cells, ob, r) ==> Refers(cells, was[o], r) || r == v
    requires Marked(mid, h) && v in h && !h[v].mark.White? && TriColor(h, cells, cw, l, {o})
    ensures TriColor(h, cells, cw, l, {})
  {
    assert ObjOk(was, cells, cw, l0, {}, o);
    assert MarkedObject(mid[o], h[o]);
    RefersSame(cells, ob, h[o]);
    forall r: Obj | Refers(cells, h[o], r) ensures r in h && !h[r].mark.White? {
      if r != v { assert r in was && !was[r].mark.White?; assert MarkedObject(mid[r], h[r]); }
    }
    assert {} + {o} == {o};
    DoneWith(h, cells, cw, l, {}, o);
  }

  function Rank(s: GcState): nat {
    match s
    case Propagate => 0
    case AtomicStart => 1
    case InsideAtomic => 1
    case SwpAllGc => 2
    case SwpFinObj => 3
    case SwpToBeFnz => 4
    case SwpEnd => 5
    case CallFin => 6
    case Pause => 7
  }

  predicate Sweeps(s: GcState) { s.SwpAllGc? || s.SwpFinObj? || s.SwpToBeFnz? || s.SwpEnd? || s.CallFin? }

  // How many phases ahead the target is.
  function Distance(s: GcState, target: GcState): nat {
    if Rank(s) <= Rank(target) then Rank(target) - Rank(s) else Rank(target) + 8 - Rank(s)
  }

  lemma Nearer(s: GcState, target: GcState)
    requires s != target && !s.InsideAtomic? && !target.InsideAtomic?
    ensures Distance(After(s), target) < Distance(s, target)
  {
  }

  lemma Undone(h: Heap, cells: Cells, cw: bool, l: Lists, allgc: seq<Obj>, main: Obj, next: Obj, running: Obj, roots: set<Obj>)
    requires Common(h, cells, cw, allgc, main, next, running, roots) && TriColor(h, cells, cw, l, {})
    ensures Sweeping(h, cells, cw, allgc, |allgc|, roots, {})
  {
    CommonMarked(h, h, cells, cw, l, allgc, main, next, running, roots);
    forall o: Obj | o in h ensures !Dead(h, cw, o) { assert o in Living(h, cw); }
  }

  // The order of the phases.
  function After(s: GcState): GcState {
    match s
    case Pause => Propagate
    case Propagate => AtomicStart
    case AtomicStart => SwpAllGc
    case SwpAllGc => SwpFinObj
    case SwpFinObj => SwpToBeFnz
    case SwpToBeFnz => SwpEnd
    case SwpEnd => CallFin
    case CallFin => Pause
    case InsideAtomic => SwpAllGc
  }

  lemma ChildOf(h: Heap, cells: Cells, cw: bool, l: Lists, busy: set<Obj>, bound: set<Obj>, o: Obj, r: Obj)
    requires TriColor(h, cells, cw, l, busy) && Within(h, cells, bound) && o in h && o in bound && Refers(cells, h[o], r)
    ensures r in h && r in bound
  {
    assert ObjOk(h, cells, cw, l, busy, o);
  }

  lemma UserdataDone(h: Heap, h': Heap, cells: Cells, o: Obj, l: Lists, busy: set<Obj>, cw: bool)
    requires Marked(h, h') && o in h && TriColor(h', cells, cw, l, busy + {o}) && h'[o].kind.Userdata?
    requires h[o].meta.Some? ==> h[o].meta.value in h && !h[h[o].meta.value].mark.White?
    requires h'[o].refs != [] ==> h'[o].refs[0] in h' && !h'[h'[o].refs[0]].mark.White?
    ensures NoWhite(h', cells, h'[o])
  {
    assert ObjOk(h', cells, cw, l, busy + {o}, o);
    assert MarkedObject(h[o], h'[o]);
  }

  lemma FewerWhites(h: Heap, h': Heap, o: Obj)
    requires Marked(h, h') && o in h && h[o].mark.White? && !h'[o].mark.White?
    ensures Whites(h') < Whites(h)
  {
    assert o in Whites(h) && o !in Whites(h');
  }
}
