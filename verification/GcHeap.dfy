/**
 The heap as the collector sees it: objects with a colour and references, closed upvalues
 shared between closures, and what can be reached.
 */
module GcHeap {
  import opened Basics

  type Obj = nat
  type Cell = nat    // a closed upvalue

  datatype Kind = Str | Userdata | Table | Closure | Proto | Thread

  // Of the two whites one is current; an object with the other white is dead.
  datatype Mark = White(which: bool) | Gray | Black

  datatype Object = Object(kind: Kind, mark: Mark, meta: Option<Obj>, refs: seq<Obj>, upvals: seq<Cell>)

  type Heap = map<Obj, Object>
  type Cells = map<Cell, Obj>

  predicate Refers(cells: Cells, ob: Object, r: Obj) {
    ob.meta == Some(r) || r in ob.refs || exists c <- ob.upvals :: c in cells && cells[c] == r
  }

  // ---- reachability ----

  predicate LinkAt(h: Heap, cells: Cells, p: seq<Obj>, i: nat) {
    i + 1 < |p| ==> p[i] in h && Refers(cells, h[p[i]], p[i + 1])
  }

  ghost predicate Path(h: Heap, cells: Cells, p: seq<Obj>) { forall i: nat :: LinkAt(h, cells, p, i) }

  ghost predicate Reaches(h: Heap, cells: Cells, from: set<Obj>, o: Obj) {
    exists p: seq<Obj> :: |p| > 0 && p[0] in from && p[|p| - 1] == o && Path(h, cells, p)
  }

  ghost predicate ClosedUnder(h: Heap, cells: Cells, s: set<Obj>) {
    forall o: Obj, r: Obj {:trigger Refers(cells, h[o], r)} :: o in s && o in h && Refers(cells, h[o], r) ==> r in s
  }

  lemma {:induction false} PathInClosed(h: Heap, cells: Cells, s: set<Obj>, p: seq<Obj>)
    requires ClosedUnder(h, cells, s) && Path(h, cells, p) && |p| > 0 && p[0] in s
    ensures p[|p| - 1] in s
    decreases |p|
  {
    if |p| > 1 {
      assert LinkAt(h, cells, p, 0);
      forall i: nat ensures LinkAt(h, cells, p[1..], i) { assert LinkAt(h, cells, p, i + 1); }
      PathInClosed(h, cells, s, p[1..]);
    }
  }

  // A closed set that holds the start holds everything reached from it.
  lemma InClosed(h: Heap, cells: Cells, from: set<Obj>, s: set<Obj>)
    requires ClosedUnder(h, cells, s) && from <= s
    ensures forall o: Obj {:trigger Reaches(h, cells, from, o)} :: Reaches(h, cells, from, o) ==> o in s
  {
    forall o: Obj | Reaches(h, cells, from, o) ensures o in s {
      var p: seq<Obj> :| |p| > 0 && p[0] in from && p[|p| - 1] == o && Path(h, cells, p);
      PathInClosed(h, cells, s, p);
    }
  }

  lemma ReachesOn(h: Heap, cells: Cells, from: set<Obj>, o: Obj, r: Obj)
    requires Reaches(h, cells, from, o) && o in h && Refers(cells, h[o], r)
    ensures Reaches(h, cells, from, r)
  {
    var p: seq<Obj> :| |p| > 0 && p[0] in from && p[|p| - 1] == o && Path(h, cells, p);
    var q := p + [r];
    forall i: nat ensures LinkAt(h, cells, q, i) { assert LinkAt(h, cells, p, i); }
    assert q[0] in from && q[|q| - 1] == r && Path(h, cells, q);
  }

  // s is the set of objects reached from `from`.
  ghost predicate IsReach(h: Heap, cells: Cells, from: set<Obj>, s: set<Obj>) {
    s <= h.Keys && forall o: Obj {:trigger Reaches(h, cells, from, o)} :: o in h ==> (o in s <==> Reaches(h, cells, from, o))
  }

  lemma ReachSet(h: Heap, cells: Cells, from: set<Obj>) returns (s: set<Obj>)
    requires forall o: Obj, r: Obj {:trigger Refers(cells, h[o], r)} :: o in h && Refers(cells, h[o], r) ==> r in h
    requires from <= h.Keys
    ensures IsReach(h, cells, from, s) && ClosedUnder(h, cells, s) && from <= s
  {
    s := set o: Obj | o in h && Reaches(h, cells, from, o);
    forall o: Obj, r: Obj | o in s && o in h && Refers(cells, h[o], r) ensures r in s {
      ReachesOn(h, cells, from, o, r);
    }
    forall o: Obj | o in from ensures o in s {
      var p := [o];
      assert p[0] in from && p[|p| - 1] == o && Path(h, cells, p);
    }
  }

  // Nothing that could be reached has gone, and nothing else has come.
  ghost predicate KeepsReachable(h: Heap, h': Heap, cells: Cells, from: set<Obj>) {
    && (forall o: Obj :: o in h' ==> o in h && SameShape(h[o], h'[o]))
    && (forall o: Obj {:trigger Reaches(h, cells, from, o)} :: o in h && Reaches(h, cells, from, o) ==> o in h')
  }

  lemma {:induction false} PathKept(h: Heap, h': Heap, cells: Cells, from: set<Obj>, p: seq<Obj>, i: nat)
    requires KeepsReachable(h, h', cells, from) && Path(h, cells, p) && |p| > 0 && p[0] in from && i < |p| - 1
    ensures p[i] in h' && Refers(cells, h'[p[i]], p[i + 1])
  {
    var q := p[..i + 1];
    forall j: nat ensures LinkAt(h, cells, q, j) { assert LinkAt(h, cells, p, j); }
    assert LinkAt(h, cells, p, i);
    assert q[0] in from && q[|q| - 1] == p[i] && Path(h, cells, q);
    assert Reaches(h, cells, from, p[i]);
    assert Refers(cells, h[p[i]], p[i + 1]);
    RefersSame(cells, h[p[i]], h'[p[i]]);
  }

  lemma SameReach(h: Heap, h': Heap, cells: Cells, from: set<Obj>)
    requires KeepsReachable(h, h', cells, from)
    ensures forall o: Obj :: Reaches(h, cells, from, o) <==> Reaches(h', cells, from, o)
  {
    forall o: Obj | Reaches(h, cells, from, o) ensures Reaches(h', cells, from, o) {
      var p: seq<Obj> :| |p| > 0 && p[0] in from && p[|p| - 1] == o && Path(h, cells, p);
      forall i: nat ensures LinkAt(h', cells, p, i) { if i + 1 < |p| { PathKept(h, h', cells, from, p, i); } }
      assert Path(h', cells, p);
    }
    forall o: Obj | Reaches(h', cells, from, o) ensures Reaches(h, cells, from, o) {
      var p: seq<Obj> :| |p| > 0 && p[0] in from && p[|p| - 1] == o && Path(h', cells, p);
      forall i: nat ensures LinkAt(h, cells, p, i) {
        assert LinkAt(h', cells, p, i);
        if i + 1 < |p| { RefersSame(cells, h[p[i]], h'[p[i]]); }
      }
      assert Path(h, cells, p);
    }
  }

  lemma KeepsTwice(h: Heap, h1: Heap, h2: Heap, cells: Cells, from: set<Obj>)
    requires KeepsReachable(h, h1, cells, from) && KeepsReachable(h1, h2, cells, from)
    ensures KeepsReachable(h, h2, cells, from)
  {
    SameReach(h, h1, cells, from);
  }

  // ---- colours ----

  predicate SameShape(a: Object, b: Object) { a.(mark := b.mark) == b }

  // Only white objects change colour.
  predicate MarkedObject(a: Object, b: Object) { SameShape(a, b) && (a.mark == b.mark || (a.mark.White? && !b.mark.White?)) }

  predicate Marked(h: Heap, h': Heap) {
    h'.Keys == h.Keys && forall o: Obj {:trigger h'[o]} :: o in h ==> MarkedObject(h[o], h'[o])
  }

  // Objects only get darker.
  predicate DarkerObject(a: Object, b: Object) { SameShape(a, b) && (b.mark.White? ==> a.mark == b.mark) }

  predicate Darker(h: Heap, h': Heap) {
    h'.Keys == h.Keys && forall o: Obj {:trigger h'[o]} :: o in h ==> DarkerObject(h[o], h'[o])
  }

  function Whites(h: Heap): set<Obj> { set o: Obj | o in h && h[o].mark.White? }

  ghost predicate NoWhite(h: Heap, cells: Cells, ob: Object) {
    forall r: Obj {:trigger Refers(cells, ob, r)} :: Refers(cells, ob, r) ==> r in h && !h[r].mark.White?
  }

  // Objects that wait on a list to be traversed, and turn black then; strings and userdata
  // are blackened at once.
  predicate Traversed(k: Kind) { !k.Str? && !k.Userdata? }

  predicate WellTyped(ob: Object) {
    && (ob.kind.Str? ==> ob.meta.None? && ob.refs == [] && ob.upvals == [])
    && (ob.kind.Userdata? ==> |ob.refs| <= 1 && ob.upvals == [])
  }

  // The gray list, the objects to be traversed later, and whether the atomic phase has begun,
  // when a thread once traversed is done.
  datatype Lists = Lists(gray: seq<Obj>, later: seq<Obj>, finishing: bool)

  ghost predicate ObjOk(h: Heap, cells: Cells, cw: bool, l: Lists, busy: set<Obj>, o: Obj)
    requires o in h
  {
    var ob := h[o];
    && WellTyped(ob)
    && ob.mark != White(!cw)
    && (forall r: Obj {:trigger Refers(cells, ob, r)} :: Refers(cells, ob, r) ==> r in h)
    && (o in l.gray || o in l.later ==> ob.mark.Gray? && Traversed(ob.kind))
    && (ob.kind.Thread? ==> !ob.mark.Black?)
    && (o !in busy && ob.mark.Black? ==> NoWhite(h, cells, ob))
    && (o !in busy && ob.mark.Gray? ==>
          o in l.gray || o in l.later || (l.finishing && ob.kind.Thread? && NoWhite(h, cells, ob)))
  }

  // No object twice, by places.  Naming the places by a function keeps this out of proofs that
  // do not ask for it.
  ghost predicate Distinct(s: seq<Obj>) {
    forall i: nat, j: nat {:trigger At(s, i), At(s, j)} :: i < j < |s| ==> At(s, i) != At(s, j)
  }

  function At(s: seq<Obj>, i: nat): Obj
    requires i < |s|
  {
    s[i]
  }

  // What is in one list at most at the places of another is as distinct.
  lemma Placed(s: seq<Obj>, t: seq<Obj>, f: seq<nat>)
    requires Distinct(s) && |f| == |t| && forall i: nat {:trigger f[i]} :: i < |t| ==> f[i] < |s| && t[i] == s[f[i]]
    requires forall i: nat, j: nat {:trigger f[i], f[j]} :: i < j < |t| ==> f[i] != f[j]
    ensures Distinct(t)
  {
    forall i: nat, j: nat | i < j < |t| ensures At(t, i) != At(t, j) {
      var a, b := f[i], f[j];
      assert At(s, a) == t[i] && At(s, b) == t[j];
    }
  }

  // No black object points to a white one and every gray object is on a list, but for the
  // objects the collector is busy with.
  ghost predicate TriColor(h: Heap, cells: Cells, cw: bool, l: Lists, busy: set<Obj>) {
    && Distinct(l.gray + l.later)
    && (forall o: Obj :: o in l.gray || o in l.later ==> o in h)
    && forall o: Obj {:trigger ObjOk(h, cells, cw, l, busy, o)} :: o in h ==> ObjOk(h, cells, cw, l, busy, o)
  }

  // What is marked lies in a closed set.
  ghost predicate Within(h: Heap, cells: Cells, bound: set<Obj>) {
    ClosedUnder(h, cells, bound) && forall o: Obj :: o in h && !h[o].mark.White? ==> o in bound
  }

  lemma RefersSame(cells: Cells, a: Object, b: Object)
    requires SameShape(a, b)
    ensures forall r: Obj :: Refers(cells, a, r) <==> Refers(cells, b, r)
  {
  }

  // A white object turns gray and goes on the gray list.
  lemma Graying(h: Heap, cells: Cells, cw: bool, l: Lists, busy: set<Obj>, o: Obj)
    requires TriColor(h, cells, cw, l, busy) && o in h && h[o].mark.White? && Traversed(h[o].kind)
    ensures TriColor(h[o := h[o].(mark := Gray)], cells, cw, l.(gray := [o] + l.gray), busy)
  {
    var all := l.gray + l.later;
    assert [] + all == all && [] + ([o] + all) == ([o] + l.gray) + l.later;
    assert ObjOk(h, cells, cw, l, busy, o);
    assert o !in l.gray && o !in l.later;
    InsertDistinct([], all, o);
    var h', l' := h[o := h[o].(mark := Gray)], l.(gray := [o] + l.gray);
    forall x: Obj | x in h' ensures ObjOk(h', cells, cw, l', busy, x) {
      assert ObjOk(h, cells, cw, l, busy, x);
      RefersSame(cells, h[x], h'[x]);
    }
  }

  // A white string or userdata is taken up; or one taken up changes from gray to black.
  lemma TakingUp(h: Heap, cells: Cells, cw: bool, l: Lists, busy: set<Obj>, o: Obj, m: Mark)
    requires TriColor(h, cells, cw, l, busy) && o in h && !m.White? && (h[o].mark.White? || o in busy)
    requires !Traversed(h[o].kind)
    ensures TriColor(h[o := h[o].(mark := m)], cells, cw, l, busy + {o})
  {
    var h' := h[o := h[o].(mark := m)];
    forall x: Obj | x in h' ensures ObjOk(h', cells, cw, l, busy + {o}, x) {
      assert ObjOk(h, cells, cw, l, busy, x);
      RefersSame(cells, h[x], h'[x]);
    }
  }

  // The collector is done with an object.
  lemma DoneWith(h: Heap, cells: Cells, cw: bool, l: Lists, busy: set<Obj>, o: Obj)
    requires TriColor(h, cells, cw, l, busy + {o}) && o in h && NoWhite(h, cells, h[o])
    requires h[o].mark.Black? || (h[o].kind.Thread? && (l.finishing || o in l.later)) || o in busy
    ensures TriColor(h, cells, cw, l, busy)
  {
    forall x: Obj | x in h ensures ObjOk(h, cells, cw, l, busy, x) {
      assert ObjOk(h, cells, cw, l, busy + {o}, x);
    }
  }

  // Taking the first gray object off its list: black, or a thread that stays gray.
  lemma Popping(h: Heap, cells: Cells, cw: bool, l: Lists, l': Lists, h': Heap)
    requires TriColor(h, cells, cw, l, {}) && l.gray != [] && l.gray[0] in h
    requires var o := l.gray[0];
      if h[o].kind.Thread? then h' == h && l' == l.(gray := l.gray[1..], later := if l.finishing then l.later else [o] + l.later)
      else h' == h[o := h[o].(mark := Black)] && l' == l.(gray := l.gray[1..])
    ensures TriColor(h', cells, cw, l', {l.gray[0]})
  {
    var o := l.gray[0];
    FirstIsAlone(l.gray, l.later);
    DistinctPop(l.gray, l.later);
    forall x: Obj | x in h' ensures ObjOk(h', cells, cw, l', {o}, x) {
      assert ObjOk(h, cells, cw, l, {}, x);
      RefersSame(cells, h[x], h'[x]);
    }
  }

  lemma FirstIsAlone(a: seq<Obj>, b: seq<Obj>)
    requires a != [] && Distinct(a + b)
    ensures a[0] !in a[1..] && a[0] !in b && a == [a[0]] + a[1..]
  {
    var all := a + b;
    assert At(all, 0) == a[0];
    forall i: nat | i < |b| ensures b[i] != a[0] { assert At(all, |a| + i) == b[i]; }
    forall i: nat | i < |a| - 1 ensures a[1..][i] != a[0] { assert At(all, 1 + i) == a[1..][i]; }
  }

  lemma DistinctPop(a: seq<Obj>, b: seq<Obj>)
    requires a != [] && Distinct(a + b)
    ensures Distinct(a[1..] + b) && Distinct(a[1..] + ([a[0]] + b))
  {
    var s, n := a + b, |a| + |b|;
    Placed(s, a[1..] + b, seq(n - 1, k requires 0 <= k => k + 1));
    Placed(s, a[1..] + ([a[0]] + b), seq(n, k requires 0 <= k => if k < |a| - 1 then k + 1 else if k == |a| - 1 then 0 else k));
  }

  lemma WithinMarked(h: Heap, cells: Cells, bound: set<Obj>, o: Obj, m: Mark)
    requires Within(h, cells, bound) && o in h && o in bound
    ensures Within(h[o := h[o].(mark := m)], cells, bound)
  {
    var h' := h[o := h[o].(mark := m)];
    forall x: Obj, r: Obj | x in bound && x in h' && Refers(cells, h'[x], r) ensures r in bound {
      RefersSame(cells, h[x], h'[x]);
      assert Refers(cells, h[x], r);
    }
  }

  // ---- life ----

  predicate Dead(h: Heap, cw: bool, o: Obj)
    requires o in h
  {
    h[o].mark == White(!cw)
  }

  function Living(h: Heap, cw: bool): set<Obj> { set o: Obj | o in h && !Dead(h, cw, o) }

  // What lives refers only to what lives.
  ghost predicate LifeClosed(h: Heap, cells: Cells, cw: bool) { ClosedUnder(h, cells, Living(h, cw)) }

  // So only the dead may be freed.
  lemma ReachedLives(h: Heap, cells: Cells, cw: bool, from: set<Obj>)
    requires LifeClosed(h, cells, cw) && from <= Living(h, cw)
    ensures forall o: Obj {:trigger Reaches(h, cells, from, o)} :: Reaches(h, cells, from, o) ==> o in h && !Dead(h, cw, o)
  {
    InClosed(h, cells, from, Living(h, cw));
  }

  function NonWhite(h: Heap): set<Obj> { set o: Obj | o in h && !h[o].mark.White? }

  // With the gray lists empty, what is marked is closed: nothing white is left to mark.
  lemma AllMarked(h: Heap, cells: Cells, cw: bool)
    requires TriColor(h, cells, cw, Lists([], [], true), {})
    ensures ClosedUnder(h, cells, NonWhite(h))
  {
    forall o: Obj, r: Obj | o in NonWhite(h) && o in h && Refers(cells, h[o], r) ensures r in NonWhite(h) {
      assert ObjOk(h, cells, cw, Lists([], [], true), {}, o);
    }
  }

  // Marking to the end marks exactly what is reached from where it started.
  lemma MarkedIsReached(h: Heap, h': Heap, cells: Cells, cw: bool, from: set<Obj>, bound: set<Obj>)
    requires Darker(h, h') && TriColor(h', cells, cw, Lists([], [], true), {})
    requires from <= NonWhite(h') && IsReach(h, cells, from, bound) && Within(h', cells, bound)
    ensures NonWhite(h') == bound
  {
    AllMarked(h', cells, cw);
    forall o: Obj, r: Obj | o in NonWhite(h') && o in h && Refers(cells, h[o], r) ensures r in NonWhite(h') {
      assert DarkerObject(h[o], h'[o]);
      RefersSame(cells, h[o], h'[o]);
      assert Refers(cells, h'[o], r);
    }
    InClosed(h, cells, from, NonWhite(h'));
    forall o: Obj | o in bound ensures o in NonWhite(h') {
      assert Reaches(h, cells, from, o);
    }
  }

  // ---- sweeping ----

  // The list of all objects, and the main thread beside it.
  ghost predicate Inventory(h: Heap, allgc: seq<Obj>, main: Obj, next: Obj) {
    && Distinct(allgc) && main !in allgc
    && (forall o: Obj :: o in h <==> o == main || o in allgc)
    && h[main].kind.Thread?
    && (forall o: Obj :: o in h ==> o < next && WellTyped(h[o]) && (h[o].kind.Thread? ==> !h[o].mark.Black?))
  }

  // The last `left` objects are still to be swept, the others have the current white; the
  // dead ones are the garbage.
  ghost predicate Sweeping(h: Heap, cells: Cells, cw: bool, allgc: seq<Obj>, left: nat, roots: set<Obj>, garbage: set<Obj>) {
    && LifeClosed(h, cells, cw) && roots <= Living(h, cw)
    && left <= |allgc| && (forall i :: 0 <= i < |allgc| - left ==> allgc[i] in h && h[allgc[i]].mark == White(cw))
    && (forall o: Obj :: o in h ==> (Dead(h, cw, o) <==> o in garbage))
  }

  // What a sweep may do: drop the dead, whiten the living.
  predicate SweptTo(h: Heap, h': Heap, cw: bool) {
    && (forall o: Obj :: o in h' ==> o in h && SameShape(h[o], h'[o]) && (Dead(h', cw, o) <==> Dead(h, cw, o)))
    && (forall o: Obj :: o in h && !Dead(h, cw, o) ==> o in h')
  }

  lemma SweptKeeps(h: Heap, h': Heap, cells: Cells, cw: bool, from: set<Obj>)
    requires SweptTo(h, h', cw) && LifeClosed(h, cells, cw) && from <= Living(h, cw)
    ensures KeepsReachable(h, h', cells, from) && LifeClosed(h', cells, cw) && from <= Living(h', cw)
  {
    ReachedLives(h, cells, cw, from);
    forall o: Obj, r: Obj | o in Living(h', cw) && o in h' && Refers(cells, h'[o], r) ensures r in Living(h', cw) {
      RefersSame(cells, h[o], h'[o]);
      assert Refers(cells, h[o], r);
      assert o in Living(h, cw);
    }
  }

  lemma Without(s: seq<Obj>, i: nat)
    requires Distinct(s) && i < |s|
    ensures var t := s[..i] + s[i + 1..];
      Distinct(t) && forall x: Obj :: x in t <==> x in s && x != s[i]
  {
    var t := s[..i] + s[i + 1..];
    assert s == s[..i] + [s[i]] + s[i + 1..];
    Placed(s, t, seq(|s| - 1, k requires 0 <= k => if k < i then k else k + 1));
    forall k: nat | k < |t| ensures t[k] != s[i] {
      assert At(s, if k < i then k else k + 1) == t[k] && At(s, i) == s[i];
    }
  }

  lemma FreeOne(h: Heap, cells: Cells, cw: bool, allgc: seq<Obj>, left: nat, roots: set<Obj>, garbage: set<Obj>, main: Obj, next: Obj)
    requires Inventory(h, allgc, main, next) && Sweeping(h, cells, cw, allgc, left, roots, garbage) && left > 0
    requires var o := allgc[|allgc| - left]; Dead(h, cw, o)
    ensures var i := |allgc| - left;
      Inventory(h - {allgc[i]}, allgc[..i] + allgc[i + 1..], main, next)
      && Sweeping(h - {allgc[i]}, cells, cw, allgc[..i] + allgc[i + 1..], left - 1, roots, garbage)
      && SweptTo(h, h - {allgc[i]}, cw)
  {
    var i := |allgc| - left;
    var o := allgc[i];
    var h', all' := h - {o}, allgc[..i] + allgc[i + 1..];
    Without(allgc, i);
    assert SweptTo(h, h', cw);
    SweptKeeps(h, h', cells, cw, roots);
  }

  lemma WhitenOne(h: Heap, cells: Cells, cw: bool, allgc: seq<Obj>, left: nat, roots: set<Obj>, garbage: set<Obj>, main: Obj, next: Obj)
    requires Inventory(h, allgc, main, next) && Sweeping(h, cells, cw, allgc, left, roots, garbage) && left > 0
    requires var o := allgc[|allgc| - left]; !Dead(h, cw, o)
    ensures var o := allgc[|allgc| - left]; var h' := h[o := h[o].(mark := White(cw))];
      Inventory(h', allgc, main, next) && Sweeping(h', cells, cw, allgc, left - 1, roots, garbage) && SweptTo(h, h', cw)
  {
    var o := allgc[|allgc| - left];
    SweptKeeps(h, h[o := h[o].(mark := White(cw))], cells, cw, roots);
  }

  // While marking nothing is dead.
  lemma MarkingLives(h: Heap, h': Heap, cells: Cells, cw: bool, l: Lists, allgc: seq<Obj>, main: Obj, next: Obj)
    requires Inventory(h, allgc, main, next) && Darker(h, h') && TriColor(h', cells, cw, l, {})
    ensures Inventory(h', allgc, main, next) && LifeClosed(h', cells, cw) && Living(h', cw) == h'.Keys
  {
    forall o: Obj | o in h' ensures o < next && WellTyped(h'[o]) && (h'[o].kind.Thread? ==> !h'[o].mark.Black?) && !Dead(h', cw, o) {
      assert ObjOk(h', cells, cw, l, {}, o);
    }
    assert DarkerObject(h[main], h'[main]);
    forall o: Obj, r: Obj | o in Living(h', cw) && o in h' && Refers(cells, h'[o], r) ensures r in Living(h', cw) {
      assert ObjOk(h', cells, cw, l, {}, o);
    }
  }

  // Entering the atomic phase nothing changes but what counts as done.
  lemma Finishing(h: Heap, cells: Cells, cw: bool, l: Lists)
    requires TriColor(h, cells, cw, l, {})
    ensures TriColor(h, cells, cw, l.(finishing := true), {})
  {
    forall o: Obj | o in h ensures ObjOk(h, cells, cw, l.(finishing := true), {}, o) { assert ObjOk(h, cells, cw, l, {}, o); }
  }

  // The gray list used up, the later one takes its place.
  lemma Promoted(h: Heap, cells: Cells, cw: bool, later: seq<Obj>)
    requires TriColor(h, cells, cw, Lists([], later, true), {})
    ensures TriColor(h, cells, cw, Lists(later, [], true), {})
  {
    assert later + [] == later && [] + later == later;
    forall o: Obj | o in h ensures ObjOk(h, cells, cw, Lists(later, [], true), {}, o) {
      assert ObjOk(h, cells, cw, Lists([], later, true), {}, o);
    }
  }

  // ---- what holds between steps ----

  ghost predicate Common(h: Heap, cells: Cells, cw: bool, allgc: seq<Obj>, main: Obj, next: Obj, running: Obj, roots: set<Obj>) {
    && Inventory(h, allgc, main, next)
    && LifeClosed(h, cells, cw) && roots <= Living(h, cw)
    && running in h && h[running].kind.Thread?
  }

  // The last step of a sweep makes the main thread white again.
  lemma MainWhitened(h: Heap, cells: Cells, cw: bool, allgc: seq<Obj>, main: Obj, next: Obj, running: Obj, roots: set<Obj>, garbage: set<Obj>)
    requires Common(h, cells, cw, allgc, main, next, running, roots) && Sweeping(h, cells, cw, allgc, 0, roots, garbage) && main in roots
    ensures var h' := h[main := h[main].(mark := White(cw))];
      && Common(h', cells, cw, allgc, main, next, running, roots) && Sweeping(h', cells, cw, allgc, 0, roots, garbage)
      && KeepsReachable(h, h', cells, roots)
  {
    assert main in Living(h, cw);
    SweptKeeps(h, h[main := h[main].(mark := White(cw))], cells, cw, roots);
  }

  // While marking: what was out of reach when the cycle started is still white and out of reach.
  ghost predicate MarkPhase(h: Heap, cells: Cells, cw: bool, l: Lists, main: Obj, roots: set<Obj>, lost: set<Obj>) {
    && TriColor(h, cells, cw, l, {})
    && Within(h, cells, h.Keys - lost) && roots !! lost
    && main in h && !h[main].mark.White?
  }

  lemma CommonMarked(h: Heap, h': Heap, cells: Cells, cw: bool, l: Lists, allgc: seq<Obj>, main: Obj, next: Obj, running: Obj, roots: set<Obj>)
    requires Common(h, cells, cw, allgc, main, next, running, roots) && Darker(h, h') && TriColor(h', cells, cw, l, {})
    ensures Common(h', cells, cw, allgc, main, next, running, roots) && Living(h', cw) == h'.Keys
  {
    MarkingLives(h, h', cells, cw, l, allgc, main, next);
    assert DarkerObject(h[running], h'[running]);
  }

  // The start of a cycle: everything reachable is the bound of what will be marked.
  lemma CycleStart(h: Heap, cells: Cells, cw: bool, allgc: seq<Obj>, main: Obj, next: Obj, running: Obj, roots: set<Obj>, garbage: set<Obj>)
      returns (bound: set<Obj>)
    requires Common(h, cells, cw, allgc, main, next, running, roots)
    requires Sweeping(h, cells, cw, allgc, 0, roots, garbage) && h[main].mark == White(cw)
    ensures TriColor(h, cells, cw, Lists([], [], false), {})
    ensures Within(h, cells, bound) && roots <= bound && IsReach(h, cells, roots, bound)
  {
    bound := ReachSet(h, cells, roots);
  }

  // Marking keeps what holds between steps.
  lemma PhaseMarked(h: Heap, h': Heap, cells: Cells, cw: bool, l: Lists, allgc: seq<Obj>, main: Obj, next: Obj, running: Obj,
      roots: set<Obj>, lost: set<Obj>)
    requires Common(h, cells, cw, allgc, main, next, running, roots) && Darker(h, h')
    requires TriColor(h', cells, cw, l, {}) && Within(h', cells, h.Keys - lost) && roots !! lost && !h'[main].mark.White?
    ensures Common(h', cells, cw, allgc, main, next, running, roots) && MarkPhase(h', cells, cw, l, main, roots, lost)
  {
    CommonMarked(h, h', cells, cw, l, allgc, main, next, running, roots);
  }

  lemma DarkerTwice(h: Heap, h1: Heap, h2: Heap)
    requires Darker(h, h1) && Darker(h1, h2)
    ensures Darker(h, h2)
  {
    forall o: Obj | o in h ensures DarkerObject(h[o], h2[o]) {
      assert DarkerObject(h[o], h1[o]) && DarkerObject(h1[o], h2[o]);
    }
  }

  lemma DarkerKeeps(h: Heap, h': Heap, cells: Cells, from: set<Obj>)
    requires Darker(h, h')
    ensures KeepsReachable(h, h', cells, from)
  {
    forall o: Obj | o in h' ensures o in h && SameShape(h[o], h'[o]) { assert DarkerObject(h[o], h'[o]); }
  }

  // Nothing lost has been marked, nor will be.
  lemma LostStaysLost(h: Heap, cells: Cells, from: set<Obj>, bound: set<Obj>, lost: set<Obj>)
    requires IsReach(h, cells, from, bound) && ClosedUnder(h, cells, h.Keys - lost) && from <= h.Keys - lost
    ensures bound !! lost
  {
    InClosed(h, cells, from, h.Keys - lost);
    forall o: Obj | o in bound ensures o !in lost { assert Reaches(h, cells, from, o); }
  }

  // The whites exchanged: what was not marked is dead.
  lemma Flipped(h0: Heap, h: Heap, cells: Cells, cw: bool, allgc: seq<Obj>, main: Obj, next: Obj, running: Obj, roots: set<Obj>)
    requires Common(h0, cells, cw, allgc, main, next, running, roots) && Darker(h0, h)
    requires TriColor(h, cells, cw, Lists([], [], true), {}) && roots <= NonWhite(h)
    ensures Common(h, cells, !cw, allgc, main, next, running, roots)
    ensures Sweeping(h, cells, !cw, allgc, |allgc|, roots, Whites(h))
  {
    CommonMarked(h0, h, cells, cw, Lists([], [], true), allgc, main, next, running, roots);
    AllMarked(h, cells, cw);
    assert Living(h, cw) == h.Keys;
    assert Living(h, !cw) == NonWhite(h) by {
      forall o: Obj | o in h ensures Dead(h, !cw, o) <==> h[o].mark.White? { assert o in Living(h, cw); }
    }
  }

  lemma CommonSwept(h: Heap, h': Heap, cells: Cells, cw: bool, allgc: seq<Obj>, allgc': seq<Obj>, main: Obj, next: Obj, running: Obj, roots: set<Obj>)
    requires Common(h, cells, cw, allgc, main, next, running, roots) && SweptTo(h, h', cw) && running in roots
    requires Inventory(h', allgc', main, next)
    ensures Common(h', cells, cw, allgc', main, next, running, roots)
  {
    SweptKeeps(h, h', cells, cw, roots);
    assert running in Living(h, cw);
  }

  // One object swept: what heap and list become.
  function SweptHeap(h: Heap, cw: bool, allgc: seq<Obj>, left: nat): Heap
    requires 0 < left <= |allgc| && allgc[|allgc| - left] in h
  {
    var o := allgc[|allgc| - left];
    if Dead(h, cw, o) then h - {o} else h[o := h[o].(mark := White(cw))]
  }

  function SweptList(h: Heap, cw: bool, allgc: seq<Obj>, left: nat): seq<Obj>
    requires 0 < left <= |allgc| && allgc[|allgc| - left] in h
  {
    var i := |allgc| - left;
    if Dead(h, cw, allgc[i]) then allgc[..i] + allgc[i + 1..] else allgc
  }

  lemma SweptOne(h: Heap, cells: Cells, cw: bool, allgc: seq<Obj>, left: nat, roots: set<Obj>, garbage: set<Obj>, main: Obj, next: Obj, running: Obj)
    requires Common(h, cells, cw, allgc, main, next, running, roots) && running in roots
    requires Sweeping(h, cells, cw, allgc, left, roots, garbage) && left > 0
    ensures var h', all' := SweptHeap(h, cw, allgc, left), SweptList(h, cw, allgc, left);
      Common(h', cells, cw, all', main, next, running, roots) && Sweeping(h', cells, cw, all', left - 1, roots, garbage) && SweptTo(h, h', cw)
  {
    var o := allgc[|allgc| - left];
    if Dead(h, cw, o) { FreeOne(h, cells, cw, allgc, left, roots, garbage, main, next); }
    else { WhitenOne(h, cells, cw, allgc, left, roots, garbage, main, next); }
    CommonSwept(h, SweptHeap(h, cw, allgc, left), cells, cw, allgc, SweptList(h, cw, allgc, left), main, next, running, roots);
  }

  // The end of a cycle: what is left is what was reachable when it started.
  lemma CycleEnd(h1: Heap, h2: Heap, h3: Heap, cells: Cells, roots: set<Obj>, bound: set<Obj>)
    requires IsReach(h1, cells, roots, bound) && h2.Keys <= bound
    requires KeepsReachable(h1, h2, cells, roots) && KeepsReachable(h2, h3, cells, roots)
    ensures IsReach(h1, cells, roots, h3.Keys) && KeepsReachable(h1, h3, cells, roots)
  {
    KeepsTwice(h1, h2, h3, cells, roots);
    forall o: Obj | o in h3 ensures Reaches(h1, cells, roots, o) { assert o in h2 && o in bound; }
  }

  lemma ReachBefore(h0: Heap, h1: Heap, h3: Heap, cells: Cells, roots: set<Obj>)
    requires KeepsReachable(h0, h1, cells, roots) && KeepsReachable(h1, h3, cells, roots) && IsReach(h1, cells, roots, h3.Keys)
    ensures IsReach(h0, cells, roots, h3.Keys) && KeepsReachable(h0, h3, cells, roots)
  {
    SameReach(h0, h1, cells, roots);
    KeepsTwice(h0, h1, h3, cells, roots);
    forall o: Obj | o in h3 ensures Reaches(h0, cells, roots, o) { assert Reaches(h1, cells, roots, o); }
  }

  // ---- what Lua code may do between steps ----

  // A program only gets at what it can reach; that lives, and was not out of reach earlier.
  lemma ReachedIsSafe(h: Heap, cells: Cells, cw: bool, allgc: seq<Obj>, main: Obj, next: Obj, running: Obj, roots: set<Obj>, o: Obj)
    requires Common(h, cells, cw, allgc, main, next, running, roots) && Reaches(h, cells, roots, o)
    ensures o in h && !Dead(h, cw, o)
  {
    ReachedLives(h, cells, cw, roots);
  }

  lemma ReachedIsNotLost(h: Heap, cells: Cells, cw: bool, l: Lists, main: Obj, roots: set<Obj>, lost: set<Obj>, o: Obj)
    requires MarkPhase(h, cells, cw, l, main, roots, lost) && Reaches(h, cells, roots, o) && roots <= h.Keys
    ensures o !in lost
  {
    InClosed(h, cells, roots, h.Keys - lost);
  }

  // What a store may put into an object: living references, none of them lost.
  ghost predicate Storable(h: Heap, cells: Cells, cw: bool, ob: Object, lost: set<Obj>) {
    WellTyped(ob) && forall r: Obj {:trigger Refers(cells, ob, r)} :: Refers(cells, ob, r) ==> r in h && !Dead(h, cw, r) && r !in lost
  }

  lemma CommonStore(h: Heap, cells: Cells, cw: bool, allgc: seq<Obj>, main: Obj, next: Obj, running: Obj, roots: set<Obj>, o: Obj, ob: Object,
      lost: set<Obj>)
    requires Common(h, cells, cw, allgc, main, next, running, roots) && o in h && ob.kind == h[o].kind
    requires Storable(h, cells, cw, ob, lost) && (ob.mark == White(!cw) ==> h[o].mark == ob.mark) && (ob.kind.Thread? ==> !ob.mark.Black?)
    ensures Common(h[o := ob], cells, cw, allgc, main, next, running, roots)
  {
    var h' := h[o := ob];
    forall x: Obj, r: Obj | x in Living(h', cw) && x in h' && Refers(cells, h'[x], r) ensures r in Living(h', cw) {
      if x != o { assert x in Living(h, cw); assert r in Living(h, cw); }
    }
  }

  lemma SweepStore(h: Heap, cells: Cells, cw: bool, allgc: seq<Obj>, left: nat, roots: set<Obj>, garbage: set<Obj>, o: Obj, ob: Object)
    requires Sweeping(h, cells, cw, allgc, left, roots, garbage) && o in h && !Dead(h, cw, o)
    requires Storable(h, cells, cw, ob, {}) && ob.mark != White(!cw) && (h[o].mark.White? ==> ob.mark == h[o].mark)
    ensures Sweeping(h[o := ob], cells, cw, allgc, left, roots, garbage)
  {
    var h' := h[o := ob];
    forall x: Obj, r: Obj | x in Living(h', cw) && x in h' && Refers(cells, h'[x], r) ensures r in Living(h', cw) {
      if x != o { assert x in Living(h, cw); assert r in Living(h, cw); }
    }
  }

  // While marking a store may leave a black object pointing to a white one.
  lemma MarkStore(h: Heap, cells: Cells, cw: bool, l: Lists, o: Obj, ob: Object, lost: set<Obj>)
    requires TriColor(h, cells, cw, l, {}) && !l.finishing && o in h && o !in lost && Within(h, cells, h.Keys - lost)
    requires Storable(h, cells, cw, ob, lost) && ob.mark == h[o].mark && ob.kind == h[o].kind
    ensures TriColor(h[o := ob], cells, cw, l, {o}) && Within(h[o := ob], cells, h.Keys - lost)
    ensures (ob.mark.Black? ==> NoWhite(h, cells, ob)) ==> TriColor(h[o := ob], cells, cw, l, {})
  {
    var h' := h[o := ob];
    forall x: Obj | x in h' ensures ObjOk(h', cells, cw, l, {o}, x) && (x != o ==> ObjOk(h', cells, cw, l, {}, x)) {
      assert ObjOk(h, cells, cw, l, {}, x);
    }
    if ob.mark.Black? ==> NoWhite(h, cells, ob) {
      forall x: Obj | x in h' ensures ObjOk(h', cells, cw, l, {}, x) { assert ObjOk(h, cells, cw, l, {}, x); }
    }
    forall x: Obj, r: Obj | x in h'.Keys - lost && x in h' && Refers(cells, h'[x], r) ensures r in h'.Keys - lost {
      if x != o { assert Refers(cells, h[x], r); }
    }
  }

  // The barrier that moves the collector back: the black object is gray again.
  lemma BackAgain(h: Heap, cells: Cells, cw: bool, l: Lists, o: Obj)
    requires TriColor(h, cells, cw, l, {o}) && o in h && h[o].mark.Black? && Traversed(h[o].kind)
    ensures TriColor(h[o := h[o].(mark := Gray)], cells, cw, l.(later := [o] + l.later), {})
  {
    var h', l' := h[o := h[o].(mark := Gray)], l.(later := [o] + l.later);
    assert ObjOk(h, cells, cw, l, {o}, o);
    InsertDistinct(l.gray, l.later, o);
    forall x: Obj | x in h' ensures ObjOk(h', cells, cw, l', {}, x) {
      assert ObjOk(h, cells, cw, l, {o}, x);
      RefersSame(cells, h[x], h'[x]);
    }
  }

  lemma InsertDistinct(a: seq<Obj>, b: seq<Obj>, o: Obj)
    requires Distinct(a + b) && o !in a && o !in b
    ensures Distinct(a + ([o] + b))
  {
    var s, t := a + b, a + ([o] + b);
    forall i: nat, j: nat | i < j < |t| ensures At(t, i) != At(t, j) {
      if i != |a| && j != |a| {
        assert At(s, if i < |a| then i else i - 1) == t[i] && At(s, if j < |a| then j else j - 1) == t[j];
      } else if i == |a| { assert t[j] == b[j - |a| - 1]; } else { assert t[i] == a[i]; }
    }
  }

  lemma InventoryNew(h: Heap, allgc: seq<Obj>, main: Obj, next: Obj, ob: Object)
    requires Inventory(h, allgc, main, next) && WellTyped(ob) && ob.mark.White?
    ensures Inventory(h[next := ob], [next] + allgc, main, next + 1)
  {
    assert [] + allgc == allgc && [] + ([next] + allgc) == [next] + allgc;
    assert next !in allgc && next !in h;
    InsertDistinct([], allgc, next);
    assert next !in allgc && next !in h;
  }

  // A new object, which nothing refers to yet.
  lemma CommonNew(h: Heap, cells: Cells, cw: bool, allgc: seq<Obj>, main: Obj, next: Obj, running: Obj, roots: set<Obj>, ob: Object, lost: set<Obj>)
    requires Common(h, cells, cw, allgc, main, next, running, roots) && ob.mark == White(cw) && Storable(h, cells, cw, ob, lost)
    ensures Common(h[next := ob], cells, cw, [next] + allgc, main, next + 1, running, roots)
  {
    var h' := h[next := ob];
    InventoryNew(h, allgc, main, next, ob);
    forall x: Obj, r: Obj | x in Living(h', cw) && x in h' && Refers(cells, h'[x], r) ensures r in Living(h', cw) {
      if x != next { assert x in Living(h, cw); assert r in Living(h, cw); }
    }
  }

  lemma SweepNew(h: Heap, cells: Cells, cw: bool, allgc: seq<Obj>, left: nat, roots: set<Obj>, garbage: set<Obj>, x: Obj, ob: Object)
    requires Sweeping(h, cells, cw, allgc, left, roots, garbage) && x !in h && x !in garbage && x !in allgc
    requires ob.mark == White(cw) && Storable(h, cells, cw, ob, {})
    ensures Sweeping(h[x := ob], cells, cw, [x] + allgc, left, roots, garbage)
  {
    var h', all' := h[x := ob], [x] + allgc;
    forall y: Obj, r: Obj | y in Living(h', cw) && y in h' && Refers(cells, h'[y], r) ensures r in Living(h', cw) {
      if y != x { assert y in Living(h, cw); assert r in Living(h, cw); }
    }
    forall i | 0 <= i < |all'| - left ensures all'[i] in h' && h'[all'[i]].mark == White(cw) {
      if i > 0 { assert all'[i] == allgc[i - 1]; }
    }
  }

  lemma MarkNew(h: Heap, cells: Cells, cw: bool, l: Lists, x: Obj, ob: Object, lost: set<Obj>)
    requires TriColor(h, cells, cw, l, {}) && x !in h && x !in lost && Within(h, cells, h.Keys - lost)
    requires ob.mark == White(cw) && Storable(h, cells, cw, ob, lost)
    ensures TriColor(h[x := ob], cells, cw, l, {}) && Within(h[x := ob], cells, h.Keys + {x} - lost)
  {
    var h' := h[x := ob];
    forall y: Obj | y in h' ensures ObjOk(h', cells, cw, l, {}, y) {
      if y != x { assert ObjOk(h, cells, cw, l, {}, y); }
    }
    forall y: Obj, r: Obj | y in h.Keys + {x} - lost && y in h' && Refers(cells, h'[y], r) ensures r in h.Keys + {x} - lost {
      if y != x { assert Refers(cells, h[y], r); }
    }
  }

  // A closed upvalue gets a value.
  lemma NewCell(cells: Cells, c: Cell, v: Obj, ob: Object)
    ensures forall r: Obj {:trigger Refers(cells[c := v], ob, r)} :: Refers(cells[c := v], ob, r) ==> Refers(cells, ob, r) || r == v
  {
  }

  lemma MarkCell(h: Heap, cells: Cells, cw: bool, l: Lists, c: Cell, v: Obj, lost: set<Obj>)
    requires TriColor(h, cells, cw, l, {}) && v in h && !h[v].mark.White? && v !in lost && Within(h, cells, h.Keys - lost)
    ensures TriColor(h, cells[c := v], cw, l, {}) && Within(h, cells[c := v], h.Keys - lost)
  {
    forall x: Obj | x in h ensures ObjOk(h, cells[c := v], cw, l, {}, x) {
      assert ObjOk(h, cells, cw, l, {}, x);
      NewCell(cells, c, v, h[x]);
    }
    forall x: Obj, r: Obj | x in h.Keys - lost && x in h && Refers(cells[c := v], h[x], r) ensures r in h.Keys - lost {
      NewCell(cells, c, v, h[x]);
    }
  }

  lemma LifeCell(h: Heap, cells: Cells, cw: bool, c: Cell, v: Obj)
    requires LifeClosed(h, cells, cw) && v in h && !Dead(h, cw, v)
    ensures LifeClosed(h, cells[c := v], cw)
  {
    forall x: Obj, r: Obj | x in Living(h, cw) && x in h && Refers(cells[c := v], h[x], r) ensures r in Living(h, cw) {
      NewCell(cells, c, v, h[x]);
    }
  }

  // A store behind a backward barrier.
  lemma StoreBack(h: Heap, cells: Cells, cw: bool, l: Lists, main: Obj, roots: set<Obj>, lost: set<Obj>, t: Obj, ob: Object)
    requires MarkPhase(h, cells, cw, l, main, roots, lost) && !l.finishing && t in h && t !in lost && h[t].mark.Black?
    requires ob.mark.Black? && ob.kind == h[t].kind && Traversed(ob.kind) && Storable(h, cells, cw, ob, lost)
    ensures MarkPhase(h[t := ob.(mark := Gray)], cells, cw, l.(later := [t] + l.later), main, roots, lost)
  {
    var h1 := h[t := ob];
    MarkStore(h, cells, cw, l, t, ob, lost);
    BackAgain(h1, cells, cw, l, t);
    WithinMarked(h1, cells, h.Keys - lost, t, Gray);
    assert h1[t := h1[t].(mark := Gray)] == h[t := ob.(mark := Gray)];
  }

  // A store that a forward barrier is to follow.
  lemma StoreAhead(h: Heap, cells: Cells, cw: bool, l: Lists, allgc: seq<Obj>, main: Obj, next: Obj, running: Obj, roots: set<Obj>, lost: set<Obj>,
      o: Obj, ob: Object)
    requires Common(h, cells, cw, allgc, main, next, running, roots) && MarkPhase(h, cells, cw, l, main, roots, lost) && !l.finishing
    requires o in h && o !in lost && ob.mark == h[o].mark && ob.kind == h[o].kind && Storable(h, cells, cw, ob, lost)
    ensures Common(h[o := ob], cells, cw, allgc, main, next, running, roots) && TriColor(h[o := ob], cells, cw, l, {o})
    ensures Within(h[o := ob], cells, h.Keys - lost) && !h[o := ob][main].mark.White?
  {
    assert ObjOk(h, cells, cw, l, {}, o);
    CommonStore(h, cells, cw, allgc, main, next, running, roots, o, ob, lost);
    MarkStore(h, cells, cw, l, o, ob, lost);
  }

  // A finished marking step keeps the phase.
  lemma PhaseStored(h: Heap, h': Heap, cells: Cells, cw: bool, l: Lists, allgc: seq<Obj>, main: Obj, next: Obj, running: Obj,
      roots: set<Obj>, lost: set<Obj>)
    requires Common(h, cells, cw, allgc, main, next, running, roots) && Darker(h, h') && main in h && !h[main].mark.White?
    requires TriColor(h', cells, cw, l, {}) && Within(h', cells, h.Keys - lost) && roots !! lost
    ensures Common(h', cells, cw, allgc, main, next, running, roots) && MarkPhase(h', cells, cw, l, main, roots, lost)
  {
    assert DarkerObject(h[main], h'[main]);
    PhaseMarked(h, h', cells, cw, l, allgc, main, next, running, roots, lost);
  }
}
