/**
 Sessions of a Lua context: coroutines and callbacks that wait for an answer, kept in a table
 under numbers counted down from INT_MAX.  A ref_sessions_t object holds the sessions that
 wait for one thing: a queue of blocked coroutines and at most one callback.  A manager maps
 keys to such objects and pools those that have become empty.  Whom a wake-up resumes is
 logged, and what a resumed coroutine does before it yields again is an arbitrary list of
 new waits.
 */
module RefSessions {
  import opened Basics

  const INT_MAX := 0x7fff_ffff
  const REFNIL := -1
  const REF_SESSIONS_CACHE_MAX := 128

  type Id = int
  type Obj = nat

  // Where a session is waiting: in an object's queue or callback slot, or for itself alone.
  datatype Owner = Plain | Queue(o: Obj) | Slot(o: Obj)

  datatype Entry = Entry(thread: bool, owner: Owner)

  datatype Sessions = Sessions(blocking: seq<Id>, slot: Id) {
    predicate Empty() { slot == REFNIL && blocking == [] }
  }

  type Table = map<Id, Entry>

  const NoSessions := Sessions([], REFNIL)

  // Every queued id is a live coroutine of this queue (or one for which no number was left),
  // none twice; the callback's id is a live callback.
  predicate ObjOk(t: Table, o: Obj, s: Sessions) {
    && (forall i :: 0 <= i < |s.blocking| ==>
          s.blocking[i] == REFNIL || (s.blocking[i] in t && t[s.blocking[i]] == Entry(true, Queue(o))))
    && (forall i, j :: 0 <= i < j < |s.blocking| && s.blocking[i] != REFNIL ==> s.blocking[i] != s.blocking[j])
    && (s.slot == REFNIL || (s.slot in t && t[s.slot] == Entry(false, Slot(o))))
  }

  predicate EntryOk(objs: map<Obj, Sessions>, id: Id, e: Entry) {
    && 1 <= id <= INT_MAX
    && match e.owner
       case Plain => true
       case Queue(o) => e.thread && o in objs && id in objs[o].blocking
       case Slot(o) => !e.thread && o in objs && objs[o].slot == id
  }

  ghost predicate Accounts(t: Table, objs: map<Obj, Sessions>) {
    && (forall o {:trigger ObjOk(t, o, objs[o])} :: o in objs ==> ObjOk(t, o, objs[o]))
    && (forall id {:trigger EntryOk(objs, id, t[id])} :: id in t ==> EntryOk(objs, id, t[id]))
  }

  // Objects in the manager's map and in its pool are apart; pooled ones are empty.
  ghost predicate Managed(objs: map<Obj, Sessions>, mgr: map<nat, Obj>, pool: seq<Obj>) {
    && (forall k :: k in mgr ==> mgr[k] in objs && mgr[k] !in pool)
    && (forall j, k :: j in mgr && k in mgr && j != k ==> mgr[j] != mgr[k])
    && Distinct(pool) && (forall o :: o in pool ==> o in objs && objs[o].Empty())
  }

  // ----- taking and giving back numbers

  lemma Taken(t: Table, objs: map<Obj, Sessions>, id: Id, e: Entry)
    requires Accounts(t, objs) && id !in t && EntryOk(objs, id, e)
    ensures Accounts(t[id := e], objs) && |t[id := e]| == |t| + 1
  {
    var t' := t[id := e];
    forall o | o in objs ensures ObjOk(t', o, objs[o]) { assert ObjOk(t, o, objs[o]); }
    forall k | k in t' ensures EntryOk(objs, k, t'[k]) { if k != id { assert EntryOk(objs, k, t[k]); } }
    assert t[id := e].Keys == t.Keys + {id};
    assert |t[id := e]| == |t[id := e].Keys| && |t| == |t.Keys|;
  }

  lemma NilNotIn(t: Table, objs: map<Obj, Sessions>)
    requires Accounts(t, objs)
    ensures REFNIL !in t && t - {REFNIL} == t
  {
    assert REFNIL in t ==> EntryOk(objs, REFNIL, t[REFNIL]);
  }

  lemma QueuePushed(t: Table, objs: map<Obj, Sessions>, o: Obj, id: Id)
    requires Accounts(t, objs) && o in objs && (id == REFNIL || (id !in t && 1 <= id <= INT_MAX))
    ensures var objs' := objs[o := objs[o].(blocking := objs[o].blocking + [id])];
      Accounts(if id == REFNIL then t else t[id := Entry(true, Queue(o))], objs')
  {
    var s := objs[o];
    var objs' := objs[o := s.(blocking := s.blocking + [id])];
    var t' := if id == REFNIL then t else t[id := Entry(true, Queue(o))];
    forall x | x in objs' ensures ObjOk(t', x, objs'[x]) {
      assert ObjOk(t, x, objs[x]);
    }
    forall k | k in t' ensures EntryOk(objs', k, t'[k]) {
      if k in t { assert EntryOk(objs, k, t[k]); }
    }
  }

  lemma SlotSet(t: Table, objs: map<Obj, Sessions>, o: Obj, id: Id)
    requires Accounts(t, objs) && o in objs && objs[o].slot == REFNIL && (id == REFNIL || (id !in t && 1 <= id <= INT_MAX))
    ensures var objs' := objs[o := objs[o].(slot := id)];
      Accounts(if id == REFNIL then t else t[id := Entry(false, Slot(o))], objs')
  {
    var objs' := objs[o := objs[o].(slot := id)];
    var t' := if id == REFNIL then t else t[id := Entry(false, Slot(o))];
    forall x | x in objs' ensures ObjOk(t', x, objs'[x]) { assert ObjOk(t, x, objs[x]); }
    forall k | k in t' ensures EntryOk(objs', k, t'[k]) {
      if k in t { assert EntryOk(objs, k, t[k]); }
    }
  }

  // The id at place i leaves the queue, and the table if it was in it.
  lemma QueueDropped(t: Table, objs: map<Obj, Sessions>, o: Obj, i: nat)
    requires Accounts(t, objs) && o in objs && i < |objs[o].blocking|
    ensures var q := objs[o].blocking;
      Accounts(t - {q[i]}, objs[o := objs[o].(blocking := q[..i] + q[i + 1..])])
  {
    var q := objs[o].blocking;
    var id, q' := q[i], q[..i] + q[i + 1..];
    var t', objs' := t - {id}, objs[o := objs[o].(blocking := q')];
    assert ObjOk(t, o, objs[o]);
    forall x | x in objs' ensures ObjOk(t', x, objs'[x]) {
      assert ObjOk(t, x, objs[x]);
    }
    forall k | k in t' ensures EntryOk(objs', k, t'[k]) {
      assert EntryOk(objs, k, t[k]);
    }
  }

  lemma Erased(t: Table, objs: map<Obj, Sessions>, o: Obj, i: nat)
    requires Accounts(t, objs) && o in objs && i < |objs[o].blocking|
    ensures var q := objs[o].blocking;
      (q[i] == REFNIL || q[i] in t) && Accounts(t - {q[i]}, objs[o := objs[o].(blocking := q[..i] + q[i + 1..])])
  {
    assert ObjOk(t, o, objs[o]);
    QueueDropped(t, objs, o, i);
  }

  lemma FrontErased(t: Table, objs: map<Obj, Sessions>, o: Obj)
    requires Accounts(t, objs) && o in objs && objs[o].blocking != []
    ensures var q := objs[o].blocking;
      (q[0] == REFNIL || q[0] in t) && Accounts(t - {q[0]}, WithoutFront(objs, o))
  {
    Erased(t, objs, o, 0);
    var q := objs[o].blocking;
    assert q[..0] + q[1..] == q[1..];
  }

  lemma SlotCleared(t: Table, objs: map<Obj, Sessions>, o: Obj)
    requires Accounts(t, objs) && o in objs
    ensures Accounts(t - {objs[o].slot}, objs[o := objs[o].(slot := REFNIL)])
  {
    var id := objs[o].slot;
    var t', objs' := t - {id}, objs[o := objs[o].(slot := REFNIL)];
    assert ObjOk(t, o, objs[o]);
    forall x | x in objs' ensures ObjOk(t', x, objs'[x]) { assert ObjOk(t, x, objs[x]); }
    forall k | k in t' ensures EntryOk(objs', k, t'[k]) { assert EntryOk(objs, k, t[k]); }
  }

  // ----- the number of numbers

  function UpTo(n: nat): (r: set<int>)
    ensures forall k :: k in r <==> 1 <= k <= n
  {
    if n == 0 then {} else UpTo(n - 1) + {n as int}
  }

  lemma {:induction false} UpToSize(n: nat)
    ensures |UpTo(n)| == n
  {
    if n > 0 { UpToSize(n - 1); }
  }

  // lua_ref_session looks at every number but the one above where it starts.
  predicate NoneFound(t: Table, base: int) { forall k: Id :: 1 <= k <= INT_MAX && k != base + 1 ==> k in t }

  // A table that holds every number but one is nearly full.
  lemma NearlyFull(t: Table, n: nat, but: int)
    requires forall k :: 1 <= k <= n && k != but ==> k in t
    ensures |t| >= n - 1
  {
    var all := UpTo(n);
    UpToSize(n);
    var some := all - {but};
    Fewer(some, t.Keys);
    if but in all { assert all == some + {but}; } else { assert some == all; }
    assert |t| == |t.Keys|;
  }

  // One number is free, and it is the one not looked at.
  lemma OneFreeNotFound() returns (t: Table, base: int, free: Id)
    ensures Accounts(t, map[]) && 0 <= base <= INT_MAX && 1 <= free <= INT_MAX && free !in t && NoneFound(t, base)
  {
    base, free := 4, 5;
    t := map k: Id | k in UpTo(INT_MAX) && k != free :: Entry(true, Plain);
  }

  lemma Fewer(a: set<int>, b: set<int>)
    requires a <= b
    ensures |a| <= |b|
  {
    assert b == a + (b - a);
  }

  // Queues got longer, callbacks stayed, fixed objects stayed as they were.
  ghost predicate Changed(objs: map<Obj, Sessions>, objs': map<Obj, Sessions>, fixed: set<Obj>) {
    && objs'.Keys == objs.Keys
    && forall o :: o in objs ==>
         && objs[o].blocking <= objs'[o].blocking
         && (objs[o].slot != REFNIL ==> objs'[o].slot == objs[o].slot)
         && (o in fixed ==> objs'[o] == objs[o])
  }

  // And no session ended.
  ghost predicate Grows(t: Table, objs: map<Obj, Sessions>, t': Table, objs': map<Obj, Sessions>, fixed: set<Obj>) {
    Changed(objs, objs', fixed) && forall id :: id in t ==> id in t' && t'[id] == t[id]
  }

  // The first i of a queue are gone.
  ghost predicate Tail(o0: map<Obj, Sessions>, o1: map<Obj, Sessions>, o: Obj, i: nat, fixed: set<Obj>) {
    o in o0 && i <= |o0[o].blocking| && Changed(o0[o := o0[o].(blocking := o0[o].blocking[i..])], o1, fixed)
  }

  lemma TailStep(o0: map<Obj, Sessions>, o1: map<Obj, Sessions>, o2: map<Obj, Sessions>, o: Obj, i: nat, fixed: set<Obj>)
    requires Tail(o0, o1, o, i, fixed) && i < |o0[o].blocking| && o in o1 && o1[o].blocking != []
    requires Changed(o1[o := o1[o].(blocking := o1[o].blocking[1..])], o2, fixed)
    ensures Tail(o0, o2, o, i + 1, fixed)
  {
    var q := o0[o].blocking;
    var a := o0[o := o0[o].(blocking := q[i..])];
    assert q[i..][1..] == q[i + 1..];
    assert a[o := a[o].(blocking := q[i + 1..])] == o0[o := o0[o].(blocking := q[i + 1..])];
  }

  // What a resumed coroutine does before it yields again.
  datatype Act = Ask | PushBlocking(o: Obj) | MakeCallback(o: Obj)

  // A resumed coroutine does not come back to the manager while a wakeup is under way.
  predicate Allowed(acts: seq<Act>, known: set<Obj>, fixed: set<Obj>) {
    forall a <- acts :: !a.Ask? ==> a.o in known && a.o !in fixed
  }

  // The numbers among the first n of a queue, in order; REFNIL is none.
  function Numbers(q: seq<Id>, n: nat): (r: seq<Id>)
    requires n <= |q|
    ensures |r| <= n
  {
    if n == 0 then [] else Numbers(q, n - 1) + if q[n - 1] == REFNIL then [] else [q[n - 1]]
  }

  function WithoutFront(objs: map<Obj, Sessions>, o: Obj): map<Obj, Sessions>
    requires o in objs && objs[o].blocking != []
  {
    objs[o := objs[o].(blocking := objs[o].blocking[1..])]
  }

  // The callback's object when it is woken.
  function Called(objs: map<Obj, Sessions>, o: Obj, free: bool): map<Obj, Sessions>
    requires o in objs
  {
    if free then objs[o := objs[o].(slot := REFNIL)] else objs
  }

  // A queue without its first occurrence of a number.
  function Without(q: seq<Id>, id: Id): seq<Id> {
    if q == [] then [] else if q[0] == id then q[1..] else [q[0]] + Without(q[1..], id)
  }

  lemma {:induction false} WithoutAt(q: seq<Id>, i: nat)
    requires i < |q| && forall j :: 0 <= j < i ==> q[j] != q[i]
    ensures Without(q, q[i]) == q[..i] + q[i + 1..]
  {
    if i > 0 {
      WithoutAt(q[1..], i - 1);
      var a, b := q[1..][..i - 1], q[i + 1..];
      assert q[1..][i..] == b && [q[0]] + a == q[..i];
      assert [q[0]] + (a + b) == ([q[0]] + a) + b;
    }
  }

  // Numbers above the countdown are not given out again in its turn: in the table they can only be old.
  ghost predicate Later(t0: Table, b0: int, n0: nat, t: Table, b: int, n: nat) {
    n >= n0 && (n == n0 ==> b <= b0 && forall k :: k in t && k > b0 ==> k in t0)
  }

  // Nor are they resumed unless they were in the table.
  ghost predicate Logged(t0: Table, b0: int, n0: nat, r0: seq<Id>, n: nat, r: seq<Id>) {
    r0 <= r && (n == n0 ==> forall i :: |r0| <= i < |r| && r[i] > b0 ==> r[i] in t0)
  }

  // How a context stood at some moment.
  datatype Mark = Mark(table: Table, base: int, turn: nat, resumed: seq<Id>)

  // Until the countdown begins again, a session that waits for its own answer is in the table
  // exactly as long as it has not been resumed.
  ghost predicate Settled(m: Mark, t: Table, n: nat, r: seq<Id>) {
    m.resumed <= r && (n == m.turn ==> forall k :: k in m.table && m.table[k].owner.Plain? && k > m.base ==>
      if k in r[|m.resumed|..] then k !in t else k in t && t[k] == m.table[k])
  }

  lemma OneMore(r0: seq<Id>, r: seq<Id>, id: Id)
    requires r0 <= r
    ensures (r + [id])[|r0|..] == r[|r0|..] + [id]
  {
  }

  // What remains, but for empty objects, after an object was looked at to be pooled.
  ghost predicate Survives(t: Table, objs: map<Obj, Sessions>, t': Table, objs': map<Obj, Sessions>) {
    && (forall id :: id in t ==> id in t' && t'[id] == t[id])
    && forall o :: o in objs && !objs[o].Empty() ==> o in objs' && objs[o].blocking <= objs'[o].blocking
  }

  lemma GrownSurvives(t: Table, o1: map<Obj, Sessions>, t': Table, o2: map<Obj, Sessions>, o3: map<Obj, Sessions>, fixed: set<Obj>)
    requires Grows(t, o1, t', o2, fixed) && forall x :: x in o2 && !o2[x].Empty() ==> x in o3 && o3[x] == o2[x]
    ensures Survives(t, o1, t', o3)
  {
    forall x | x in o1 && !o1[x].Empty() ensures x in o3 && o1[x].blocking <= o3[x].blocking {
      assert o1[x].blocking <= o2[x].blocking;
    }
  }

  // What is asked of a context, from outside or by its own coroutines.
  datatype Call =
    | AskSomebody
    | Receive(k: nat) | Listen(k: nat) | Unlisten(k: nat)       // a manager's keyed sessions
    | Reply(id: Id, acts: seq<Act>)
    | Query(source: nat, session: Id, acts: seq<Act>)
    | WakeFixed(k: nat, session: Id, free: bool, acts: seq<Act>)
    | WakeAll(k: nat, free: bool, each: seq<seq<Act>>, acts: seq<Act>)

  class Context {
    var table: Table
    var base: int                  // m_ref_session_base
    var count: int                 // m_ref_session_count
    var objs: map<Obj, Sessions>   // every ref_sessions_t object
    var mgr: map<nat, Obj>         // m_sessions_map
    var pool: seq<Obj>             // m_cached_sessions
    var next: Obj
    ghost var failed: nat          // sessions for which no number was left
    ghost var turn: nat            // how often the countdown has begun again
    ghost var resumed: seq<Id>     // whom wakeup_ref_session resumed, in order
    ghost var mark: Mark           // some earlier moment

    ghost predicate Valid()
      reads this
    {
      && Accounts(table, objs) && Managed(objs, mgr, pool)
      && count == |table| + failed && 0 <= base <= INT_MAX
      && (forall o :: o in objs ==> o < next)
      && Later(mark.table, mark.base, mark.turn, table, base, turn)
      && Logged(mark.table, mark.base, mark.turn, mark.resumed, turn, resumed)
      && Settled(mark, table, turn, resumed)
    }

    constructor ()
      ensures Valid() && table == map[] && count == 0
    {
      table, base, count, objs, mgr, pool, next := map[], INT_MAX, 0, map[], map[], [], 0;
      failed, turn, resumed, mark := 0, 0, [], Mark(map[], INT_MAX, 0, []);
    }

    // lua_ref_session: the next free number downwards, around once at most.
    method FindId() returns (id: Id)
      requires Valid()
      modifies `base, `turn
      ensures 0 <= base <= INT_MAX && turn >= old(turn)
      ensures id == REFNIL <==> NoneFound(table, old(base))
      ensures id != REFNIL ==> 1 <= id <= INT_MAX && id !in table && base == id - 1
      ensures turn == old(turn) ==> base <= old(base) && (id != REFNIL ==> id <= old(base))
      ensures |table| < INT_MAX - 1 ==> id != REFNIL
    {
      ghost var b0, n0 := base, turn;
      var i := 0;
      while i < INT_MAX
        invariant 0 <= i <= INT_MAX && 0 <= base <= INT_MAX && n0 <= turn <= n0 + 1
        invariant turn == n0 ==> base == b0 - i && forall k :: base < k <= b0 ==> k in table
        invariant turn > n0 ==> i == b0 + 1 + (INT_MAX - base)
        invariant turn > n0 ==> forall k :: (1 <= k <= b0 || base < k <= INT_MAX) ==> k in table
      {
        if base > 0 {
          if base !in table {
            id := base;
            base := base - 1;
            return id;
          }
          base := base - 1;
        } else {
          base := INT_MAX;
          turn := turn + 1;
        }
        i := i + 1;
      }
      NearlyFull(table, INT_MAX, b0 + 1);
      return REFNIL;
    }

    ghost predicate Onward(t0: Table, b0: int, n0: nat)
      reads `table, `base, `turn
    {
      Later(t0, b0, n0, table, base, turn)
    }

    // ----- a session begins

    // A coroutine that waits for its own answer: its number, REFNIL if none was left.
    method RefYieldCoroutine() returns (id: Id)
      requires Valid()
      modifies `table, `base, `count, `failed, `turn
      ensures Valid() && count == old(count) + 1 && Onward(old(table), old(base), old(turn))
      ensures id == REFNIL <==> NoneFound(old(table), old(base))
      ensures if id == REFNIL then table == old(table) else id !in old(table) && table == old(table)[id := Entry(true, Plain)]
      ensures id != REFNIL ==> base < id && (turn == old(turn) ==> id <= old(base))
    {
      id := FindId();
      if id != REFNIL {
        Taken(table, objs, id, Entry(true, Plain));
        table := table[id := Entry(true, Plain)];
      } else {
        failed := failed + 1;
      }
      count := count + 1;
    }

    // A number entered in the table, if there was one, and the object that waits for it.
    method Enter(id: Id, e: Entry, o: Obj, s: Sessions)
      requires id == REFNIL || id !in table
      requires o in objs && o !in pool && Managed(objs, mgr, pool) && count == |table| + failed && 0 <= base <= INT_MAX
      requires (forall x :: x in objs ==> x < next) && Logged(mark.table, mark.base, mark.turn, mark.resumed, turn, resumed)
      requires Later(mark.table, mark.base, mark.turn, if id == REFNIL then table else table[id := e], base, turn)
      requires Accounts(if id == REFNIL then table else table[id := e], objs[o := s])
      requires Settled(mark, table, turn, resumed) && (id != REFNIL && turn == mark.turn ==> id <= mark.base)
      modifies `table, `count, `objs, `failed
      ensures Valid() && count == old(count) + 1 && objs == old(objs)[o := s]
      ensures table == if id == REFNIL then old(table) else old(table)[id := e]
    {
      if id != REFNIL {
        table := table[id := e];
      } else {
        failed := failed + 1;
      }
      count := count + 1;
      objs := objs[o := s];
    }

    // push_blocking
    method Push(o: Obj) returns (id: Id)
      requires Valid() && o in objs && o !in pool
      modifies `table, `base, `count, `objs, `failed, `turn
      ensures Valid() && count == old(count) + 1 && Onward(old(table), old(base), old(turn))
      ensures objs == old(objs)[o := old(objs)[o].(blocking := old(objs)[o].blocking + [id])]
      ensures if id == REFNIL then table == old(table) else id !in old(table) && table == old(table)[id := Entry(true, Queue(o))]
      ensures id != REFNIL ==> base < id
    {
      id := FindId();
      QueuePushed(table, objs, o, id);
      Enter(id, Entry(true, Queue(o)), o, objs[o].(blocking := objs[o].blocking + [id]));
    }

    // make_nonblocking_callback: a new callback, or the old one's number kept for it.
    method MakeNonblocking(o: Obj) returns (isNew: bool)
      requires Valid() && o in objs && o !in pool
      modifies `table, `base, `count, `objs, `failed, `turn
      ensures Valid() && isNew == (old(objs)[o].slot == REFNIL) && count == old(count) + (if isNew then 1 else 0)
      ensures o in objs && objs == old(objs)[o := old(objs)[o].(slot := objs[o].slot)]
      ensures !isNew ==> objs == old(objs) && table == old(table)
      ensures isNew ==> var id := objs[o].slot;
        if id == REFNIL then table == old(table) else id !in old(table) && table == old(table)[id := Entry(false, Slot(o))]
      ensures Onward(old(table), old(base), old(turn))
    {
      isNew := objs[o].slot == REFNIL;
      if isNew {
        var id := FindId();
        SlotSet(table, objs, o, id);
        Enter(id, Entry(false, Slot(o)), o, objs[o].(slot := id));
      } else {
        assert objs == objs[o := objs[o].(slot := objs[o].slot)];
      }
    }

    // ----- a session ends

    // lua_free_ref_session
    method Free(id: Id)
      requires id == REFNIL || id in table
      requires count == |table| + failed
      modifies `table, `count
      ensures count == |table| + failed && table == old(table) - {id}
    {
      if id in table {
        table := table - {id};
        count := count - 1;
      } else {
        assert table - {id} == table;
      }
    }

    // A session ended, and the object that waited for it.
    method Leave(id: Id, o: Obj, s: Sessions)
      requires Valid() && (id == REFNIL || (id in table && !table[id].owner.Plain?)) && o in objs && (o in pool ==> s.Empty())
      requires Accounts(table - {id}, objs[o := s])
      modifies `table, `count, `objs
      ensures Valid() && objs == old(objs)[o := s] && table == old(table) - {id}
      ensures id == REFNIL ==> count == old(count) && table == old(table)
    {
      NilNotIn(table, objs);
      objs := objs[o := s];
      Free(id);
    }

    // The objects in the manager's map and pool.
    function Fixed(): set<Obj>
      reads `mgr, `pool
    {
      mgr.Values + set o <- pool
    }

    // Since the table was t0 and the objects o0 nothing happened but what resumed coroutines do.
    ghost predicate Went(t0: Table, o0: map<Obj, Sessions>, b0: int, n0: nat)
      reads this
    {
      Grows(t0, o0, table, objs, Fixed()) && Onward(t0, b0, n0)
    }

    method Perform(a: Act)
      requires Valid() && (!a.Ask? ==> a.o in objs && a.o !in Fixed())
      modifies `table, `base, `count, `objs, `failed, `turn
      ensures Valid() && Went(old(table), old(objs), old(base), old(turn))
    {
      match a {
        case Ask => var id := RefYieldCoroutine();
        case PushBlocking(o) => var id := Push(o);
        case MakeCallback(o) => var isNew := MakeNonblocking(o);
      }
    }

    // A session of an object, then or now in the table.
    ghost predicate Callable(id: Id)
      reads `table, `turn, `mark
    {
      turn == mark.turn && id > mark.base ==> id in mark.table && !mark.table[id].owner.Plain?
    }

    // wakeup_ref_session for the session of an object.
    method Resume(id: Id, acts: seq<Act>)
      requires Valid() && Allowed(acts, objs.Keys, Fixed()) && Callable(id)
      modifies `table, `base, `count, `objs, `failed, `turn, `resumed
      ensures Valid() && Went(old(table), old(objs), old(base), old(turn)) && resumed == old(resumed) + [id]
    {
      OneMore(mark.resumed, resumed, id);
      resumed := resumed + [id];
      GoOn(acts);
    }

    // What a resumed coroutine does: it may wait anew.
    method GoOn(acts: seq<Act>)
      requires Valid() && Allowed(acts, objs.Keys, Fixed())
      modifies `table, `base, `count, `objs, `failed, `turn
      ensures Valid() && Went(old(table), old(objs), old(base), old(turn))
    {
      for i := 0 to |acts|
        invariant Valid() && Went(old(table), old(objs), old(base), old(turn))
      {
        assert acts[i] in acts;
        Perform(acts[i]);
      }
    }

    // wakeup_ref_session for a session that waits for its own answer: once it is answered, a
    // late answer wakes nothing.
    method WakeupPlain(id: Id, acts: seq<Act>) returns (woken: bool)
      requires Valid() && Allowed(acts, objs.Keys, Fixed()) && (id in table ==> table[id].owner.Plain?)
      modifies `table, `base, `count, `objs, `failed, `turn, `resumed
      ensures Valid() && woken == (id != REFNIL && id in old(table))
      ensures woken ==> Went(old(table) - {id}, old(objs), old(base), old(turn)) && resumed == old(resumed) + [id]
      ensures !woken ==> table == old(table) && objs == old(objs) && count == old(count)
      ensures !woken ==> base == old(base) && turn == old(turn) && resumed == old(resumed)
    {
      if id == REFNIL || id !in table { return false; }
      PlainDropped(table, objs, id);
      OneMore(mark.resumed, resumed, id);
      resumed := resumed + [id];
      Free(id);
      GoOn(acts);
      return true;
    }

    // The first of a queue taken off, its session ended.
    method PopFront(o: Obj) returns (id: Id)
      requires Valid() && o in objs && objs[o].blocking != []
      modifies `table, `count, `objs
      ensures Valid() && id == old(objs)[o].blocking[0] && (id == REFNIL || id in old(table))
      ensures objs == WithoutFront(old(objs), o) && table == old(table) - {id}
      ensures id != REFNIL ==> Callable(id)
    {
      id := objs[o].blocking[0];
      FrontErased(table, objs, o);
      assert ObjOk(table, o, objs[o]);
      Leave(id, o, objs[o].(blocking := objs[o].blocking[1..]));
    }

    // wakeup_one_fixed: the coroutine with that number, or the callback if it has it.
    method WakeupOneFixed(o: Obj, session: Id, free: bool, acts: seq<Act>) returns (woken: bool)
      requires Valid() && Allowed(acts, objs.Keys, Fixed()) && o in objs && o !in pool
      modifies `table, `base, `count, `objs, `failed, `turn, `resumed
      ensures Valid() && woken == (session != REFNIL && (session == old(objs)[o].slot || session in old(objs)[o].blocking))
      ensures woken ==> session in old(table) && resumed == old(resumed) + [session]
      ensures woken && session == old(objs)[o].slot ==>
        Went(if free then old(table) - {session} else old(table), Called(old(objs), o, free), old(base), old(turn))
      ensures woken && session != old(objs)[o].slot ==>
        Went(old(table) - {session}, old(objs)[o := old(objs)[o].(blocking := Without(old(objs)[o].blocking, session))], old(base), old(turn))
      ensures !woken ==> table == old(table) && count == old(count) && base == old(base) && turn == old(turn) && resumed == old(resumed)
      ensures !woken && session != REFNIL ==> objs == old(objs)
    {
      if session == objs[o].slot {
        woken := WakeupNonblocking(o, free, acts);
        return;
      }
      var q := objs[o].blocking;
      for i := 0 to |q|
        invariant forall j :: 0 <= j < i ==> q[j] != session
      {
        if q[i] == session {
          assert ObjOk(table, o, objs[o]);
          Erased(table, objs, o, i);
          WithoutAt(q, i);
          assert session != REFNIL ==> Callable(session);
          Leave(session, o, objs[o].(blocking := q[..i] + q[i + 1..]));
          woken := session != REFNIL;
          if woken { Resume(session, acts); }
          return;
        }
      }
      woken := false;
    }

    // The first coroutine of a queue.
    method WakeupOneBlocking(o: Obj, acts: seq<Act>) returns (woken: bool)
      requires Valid() && Allowed(acts, objs.Keys, Fixed()) && o in objs && o !in pool
      modifies `table, `base, `count, `objs, `failed, `turn, `resumed
      ensures Valid() && woken == (old(objs)[o].blocking != [] && old(objs)[o].blocking[0] != REFNIL)
      ensures woken ==> var id := old(objs)[o].blocking[0];
        id in old(table) && resumed == old(resumed) + [id] && Went(old(table) - {id}, WithoutFront(old(objs), o), old(base), old(turn))
      ensures !woken ==> table == old(table) && base == old(base) && turn == old(turn) && resumed == old(resumed)
      ensures !woken ==> objs == if old(objs)[o].blocking == [] then old(objs) else WithoutFront(old(objs), o)
    {
      if objs[o].blocking == [] { return false; }
      NilNotIn(table, objs);
      var id := PopFront(o);
      woken := id != REFNIL;
      if woken { Resume(id, acts); }
    }

    // The next of the coroutines that were in the queue.
    method WakeNext(o: Obj, acts: seq<Act>, ghost o0: map<Obj, Sessions>, ghost r0: seq<Id>, ghost i: nat) returns (woken: nat)
      requires Valid() && Allowed(acts, objs.Keys, Fixed()) && o !in pool
      requires Tail(o0, objs, o, i, Fixed()) && i < |o0[o].blocking| && resumed == r0 + Numbers(o0[o].blocking, i)
      modifies `table, `base, `count, `objs, `failed, `turn, `resumed
      ensures Valid() && Tail(o0, objs, o, i + 1, Fixed())
      ensures resumed == r0 + Numbers(o0[o].blocking, i + 1)
      ensures |Numbers(o0[o].blocking, i + 1)| == |Numbers(o0[o].blocking, i)| + woken
    {
      ghost var o1, more := objs, if o0[o].blocking[i] == REFNIL then [] else [o0[o].blocking[i]];
      TailFront(o0, o1, o, i, Fixed());
      var one := WakeupOneBlocking(o, acts);
      TailStep(o0, o1, objs, o, i, Fixed());
      Regroup(r0, Numbers(o0[o].blocking, i), more);
      assert old(resumed) + [] == old(resumed);
      woken := if one then 1 else 0;
    }

    // Every coroutine that was in the queue, in order; those that come back while the others
    // are woken are not woken again.
    method WakeupAllBlocking(o: Obj, acts: seq<seq<Act>>) returns (woken: nat)
      requires Valid() && o in objs && o !in pool && forall a <- acts :: Allowed(a, objs.Keys, Fixed())
      modifies `table, `base, `count, `objs, `failed, `turn, `resumed
      ensures Valid() && var who := Numbers(old(objs)[o].blocking, |old(objs)[o].blocking|); woken == |who| && resumed == old(resumed) + who
      ensures Changed(old(objs)[o := old(objs)[o].(blocking := [])], objs, Fixed())
    {
      ghost var o0, fixed := objs, Fixed();
      ghost var r0, q := resumed, objs[o].blocking;
      var size := |objs[o].blocking|;
      woken := 0;
      for i := 0 to size
        invariant Valid() && Fixed() == fixed && Tail(o0, objs, o, i, fixed)
        invariant objs.Keys == o0.Keys && forall a <- acts :: Allowed(a, objs.Keys, fixed)
        invariant woken == |Numbers(q, i)| && resumed == r0 + Numbers(q, i)
      {
        var one := WakeNext(o, if i < |acts| then acts[i] else [], o0, r0, i);
        woken := woken + one;
      }
      TailDone(o0, objs, o, fixed);
    }

    // The callback, which goes if `free`.
    method WakeupNonblocking(o: Obj, free: bool, acts: seq<Act>) returns (woken: bool)
      requires Valid() && Allowed(acts, objs.Keys, Fixed()) && o in objs && o !in pool
      modifies `table, `base, `count, `objs, `failed, `turn, `resumed
      ensures Valid() && woken == (old(objs)[o].slot != REFNIL)
      ensures woken ==> old(objs)[o].slot in old(table) && resumed == old(resumed) + [old(objs)[o].slot]
      ensures woken ==>
        Went(if free then old(table) - {old(objs)[o].slot} else old(table), Called(old(objs), o, free), old(base), old(turn))
      ensures !woken ==> table == old(table) && objs == old(objs) && count == old(count)
      ensures !woken ==> base == old(base) && turn == old(turn) && resumed == old(resumed)
    {
      var id := objs[o].slot;
      assert ObjOk(table, o, objs[o]);
      woken := id != REFNIL;
      assert woken ==> Callable(id);
      if free { FreeSlot(o); }
      if woken { Resume(id, acts); }
      else { assert objs == old(objs); }
    }

    // free_nonblocking_callback
    method FreeSlot(o: Obj)
      requires Valid() && o in objs
      modifies `table, `count, `objs
      ensures Valid() && objs == old(objs)[o := old(objs)[o].(slot := REFNIL)] && table == old(table) - {old(objs)[o].slot}
      ensures old(objs)[o].slot == REFNIL ==> table == old(table) && count == old(count)
    {
      var id := objs[o].slot;
      assert ObjOk(table, o, objs[o]);
      SlotCleared(table, objs, o);
      NilNotIn(table, objs);
      Leave(id, o, objs[o].(slot := REFNIL));
    }

    // wakeup_once: the first coroutine, else the callback.
    method WakeupOnce(o: Obj, free: bool, acts: seq<Act>) returns (woken: bool)
      requires Valid() && Allowed(acts, objs.Keys, Fixed()) && o in objs && o !in pool
      modifies `table, `base, `count, `objs, `failed, `turn, `resumed
      ensures Valid() && woken == Waits(old(objs)[o])
      ensures woken ==> Receiver(old(objs)[o]) in old(table) && resumed == old(resumed) + [Receiver(old(objs)[o])]
      ensures woken ==> Went(AfterOnce(old(table), old(objs)[o], free), Once(old(objs), o, free), old(base), old(turn))
      ensures !woken ==> table == old(table) && base == old(base) && turn == old(turn) && resumed == old(resumed)
      ensures !woken ==> objs == if old(objs)[o].blocking == [] then old(objs) else WithoutFront(old(objs), o)
    {
      woken := WakeupOneBlocking(o, acts);
      if !woken { woken := WakeupNonblocking(o, free, acts); }
    }

    // ----- the manager

    // make_sessions: the object for a key, from the pool or new.
    method MakeSessions(k: nat) returns (o: Obj)
      requires Valid()
      modifies `objs, `mgr, `pool, `next
      ensures Valid() && k in mgr && mgr[k] == o && o in objs && o !in pool && table == old(table)
      ensures k in old(mgr) ==> o == old(mgr)[k] && objs == old(objs) && mgr == old(mgr)
      ensures k !in old(mgr) ==> mgr == old(mgr)[k := o] && objs[o] == NoSessions && (forall x :: x in old(objs) ==> x in objs && objs[x] == old(objs)[x])
    {
      if k in mgr { return mgr[k]; }
      if pool != [] {
        o := pool[|pool| - 1];
        assert o in pool;
        PoolShrinks(pool);
        pool := pool[..|pool| - 1];
      } else {
        o := next;
        AccountsNew(table, objs, o);
        objs := objs[o := NoSessions];
        next := next + 1;
      }
      mgr := mgr[k := o];
    }

    // check_sessions: an object that has become empty goes back to the pool.
    method CheckSessions(k: nat)
      requires Valid() && k in mgr
      modifies `objs, `mgr, `pool
      ensures Valid() && mgr == if old(objs)[old(mgr)[k]].Empty() then old(mgr) - {k} else old(mgr)
      ensures table == old(table) && forall x :: x in old(objs) && !old(objs)[x].Empty() ==> x in objs && objs[x] == old(objs)[x]
    {
      var o := mgr[k];
      if !objs[o].Empty() { return; }
      mgr := mgr - {k};
      if |pool| >= REF_SESSIONS_CACHE_MAX { DropLast(); }
      PoolGrows(pool, o);
      pool := pool + [o];
    }

    method DropLast()
      requires Accounts(table, objs) && Managed(objs, mgr, pool) && pool != []
      modifies `objs, `pool
      ensures Accounts(table, objs) && Managed(objs, mgr, pool) && pool == old(pool)[..|old(pool)| - 1]
      ensures objs == old(objs) - {old(pool)[|old(pool)| - 1]}
    {
      var last := pool[|pool| - 1];
      assert last in pool;
      PoolShrinks(pool);
      EmptyDropped(table, objs, last);
      objs := objs - {last};
      pool := pool[..|pool| - 1];
    }

    method PushKeyed(k: nat) returns (id: Id)
      requires Valid()
      modifies `table, `base, `count, `objs, `mgr, `pool, `next, `failed, `turn
      ensures Valid() && count == old(count) + 1 && k in mgr && mgr[k] in objs
      ensures objs[mgr[k]].blocking == (if k in old(mgr) then old(objs)[old(mgr)[k]].blocking else []) + [id]
      ensures Onward(old(table), old(base), old(turn))
    {
      var o := MakeSessions(k);
      id := Push(o);
    }

    // wakeup_once of the manager: the first coroutine of the key, else its callback.
    method WakeupOnceKeyed(k: nat, free: bool, acts: seq<Act>) returns (woken: bool)
      requires Valid() && Allowed(acts, objs.Keys, Fixed())
      modifies `table, `base, `count, `objs, `mgr, `pool, `failed, `turn, `resumed
      ensures Valid() && woken == Receives(old(mgr), old(objs), k)
      ensures woken ==> var s := old(objs)[old(mgr)[k]];
        && Receiver(s) in old(table) && resumed == old(resumed) + [Receiver(s)]
        && Survives(AfterOnce(old(table), s, free), Once(old(objs), old(mgr)[k], free), table, objs)
        && Onward(AfterOnce(old(table), s, free), old(base), old(turn))
      ensures !woken ==> mgr == old(mgr) && pool == old(pool)
      ensures !woken ==> table == old(table) && base == old(base) && turn == old(turn) && resumed == old(resumed)
      ensures !woken ==> objs == if k !in mgr || old(objs)[mgr[k]].blocking == [] then old(objs) else WithoutFront(old(objs), mgr[k])
    {
      if k !in mgr { return false; }
      ghost var t0, s0, left := table, objs[mgr[k]], Once(objs, mgr[k], free);
      woken := WakeupOnce(mgr[k], free, acts);
      if woken { CheckGrown(k, AfterOnce(t0, s0, free), left); }
    }

    // An object that has become empty goes; the others are as they were.
    method CheckGrown(k: nat, ghost t1: Table, ghost o1: map<Obj, Sessions>)
      requires Valid() && k in mgr && Grows(t1, o1, table, objs, Fixed())
      modifies `objs, `mgr, `pool
      ensures Valid() && table == old(table) && Survives(t1, o1, table, objs)
    {
      ghost var o2, fixed := objs, Fixed();
      CheckSessions(k);
      GrownSurvives(t1, o1, table, o2, objs, fixed);
    }

    // response_context_query: a query goes to whoever receives from its sender, else to
    // whoever receives from anyone (key 0); else its sender is answered.
    method ResponseContextQuery(source: nat, session: Id, acts: seq<Act>) returns (handed: bool, noReply: bool)
      requires Valid() && Allowed(acts, objs.Keys, Fixed())
      modifies `table, `base, `count, `objs, `mgr, `pool, `failed, `turn, `resumed
      ensures Valid()
      ensures handed == (source != 0 && (Receives(old(mgr), old(objs), source) || Receives(old(mgr), old(objs), 0)))
      ensures noReply == (source != 0 && !handed && session != REFNIL)
      ensures handed ==> var s := old(objs)[old(mgr)[if Receives(old(mgr), old(objs), source) then source else 0]];
        && Receiver(s) in old(table) && resumed == old(resumed) + [Receiver(s)]
        && Onward(AfterOnce(old(table), s, false), old(base), old(turn))
        && forall id :: id in AfterOnce(old(table), s, false) ==> id in table && table[id] == old(table)[id]
      ensures !handed ==> table == old(table) && base == old(base) && turn == old(turn) && resumed == old(resumed)
    {
      if source == 0 { return false, false; }
      handed := WakeupOnceKeyed(source, false, acts);
      if !handed {
        handed := WakeupOnceKeyed(0, false, acts);
      }
      noReply := !handed && session != REFNIL;
    }

    // ----- any calls

    predicate CanTake(c: Call)
      reads this
    {
      match c
      case Reply(id, acts) => Allowed(acts, objs.Keys, Fixed()) && (id in table ==> table[id].owner.Plain?)
      case Query(_, _, acts) => Allowed(acts, objs.Keys, Fixed())
      case WakeFixed(_, _, _, acts) => Allowed(acts, objs.Keys, Fixed())
      case WakeAll(_, _, each, acts) => Allowed(acts, objs.Keys, Fixed()) && forall a <- each :: Allowed(a, objs.Keys, Fixed())
      case _ => true
    }

    method Take(c: Call)
      requires Valid() && CanTake(c)
      modifies `table, `base, `count, `objs, `mgr, `pool, `next, `failed, `turn, `resumed
      ensures Valid()
    {
      match c {
        case AskSomebody => var id := RefYieldCoroutine();
        case Receive(k) => var id := PushKeyed(k);
        case Listen(k) => var o := MakeSessions(k); var isNew := MakeNonblocking(o);
        case Unlisten(k) => if k in mgr { FreeSlot(mgr[k]); CheckSessions(k); }
        case Reply(id, acts) => var woken := WakeupPlain(id, acts);
        case Query(source, session, acts) => var handed, noReply := ResponseContextQuery(source, session, acts);
        case WakeFixed(k, session, free, acts) => WakeFixedKeyed(k, session, free, acts);
        case WakeAll(k, free, each, acts) => WakeAllKeyed(k, free, each, acts);
      }
    }

    method WakeFixedKeyed(k: nat, session: Id, free: bool, acts: seq<Act>)
      requires Valid() && Allowed(acts, objs.Keys, Fixed())
      modifies `table, `base, `count, `objs, `mgr, `pool, `failed, `turn, `resumed
      ensures Valid()
    {
      if k !in mgr { return; }
      var woken := WakeupOneFixed(mgr[k], session, free, acts);
      CheckSessions(k);
    }

    // wakeup_all of the manager
    method WakeAllKeyed(k: nat, free: bool, each: seq<seq<Act>>, acts: seq<Act>)
      requires Valid() && Allowed(acts, objs.Keys, Fixed()) && forall a <- each :: Allowed(a, objs.Keys, Fixed())
      modifies `table, `base, `count, `objs, `mgr, `pool, `failed, `turn, `resumed
      ensures Valid()
    {
      if k !in mgr { return; }
      var n := WakeupAllBlocking(mgr[k], each);
      var woken := WakeupNonblocking(mgr[k], free, acts);
      CheckSessions(k);
    }

    // Whatever is asked of the context, in whatever order: until the countdown begins again, a
    // number above it that is in no entry, such as that of a session that has ended, is not
    // given out and wakes nobody.
    method TakeAll(cs: seq<Call>)
      requires Valid()
      modifies this
      ensures Valid() && turn >= old(turn) && old(resumed) <= resumed
      ensures turn == old(turn) ==> base <= old(base)
      ensures turn == old(turn) ==> forall k :: k > old(base) && k !in old(table) ==>
        k > base && k !in table && k !in resumed[|old(resumed)|..]
      ensures turn == old(turn) ==> forall k :: k in old(table) && old(table)[k].owner.Plain? && k > old(base) ==>
        if k in resumed[|old(resumed)|..] then k !in table else k in table && table[k] == old(table)[k]
    {
      mark := Mark(table, base, turn, resumed);
      for i := 0 to |cs|
        invariant Valid() && mark == Mark(old(table), old(base), old(turn), old(resumed))
      {
        if CanTake(cs[i]) { Take(cs[i]); }
      }
    }

    // Any calls, and then an answer to session id.
    method AnswerAfter(cs: seq<Call>, id: Id) returns (woken: bool, ghost more: seq<Id>)
      requires Valid()
      modifies this
      ensures Valid() && turn >= old(turn) && (turn == old(turn) ==> base <= old(base))
      ensures resumed == old(resumed) + more + if woken then [id] else []
      ensures turn == old(turn) && id > old(base) && id != REFNIL && (id in old(table) ==> old(table)[id].owner.Plain?) ==>
        id !in table && if id in old(table) then woken <==> id !in more else !woken && id !in more
    {
      TakeAll(cs);
      more := resumed[|old(resumed)|..];
      assert resumed == old(resumed) + more + [];
      woken := false;
      if CanTake(Reply(id, [])) { woken := WakeupPlain(id, []); }
    }

    // A session asked for and, after any calls in the same turn, answered: the answer wakes it
    // unless one of those calls has already done so.  Another answer, after more calls, does not.
    method LateReply(before: seq<Call>, after: seq<Call>)
        returns (id: Id, first: bool, second: bool, ghost early: seq<Id>, ghost late: seq<Id>)
      requires Valid()
      modifies this
      ensures Valid() && resumed == old(resumed) + early + (if first then [id] else []) + late + (if second then [id] else [])
      ensures turn == old(turn) && id != REFNIL ==> (first <==> id !in early) && id !in late && !second
    {
      id := RefYieldCoroutine();
      first, early := AnswerAfter(before, id);
      second, late := AnswerAfter(after, id);
    }
  }

  // Whom wakeup_once wakes, and what goes with him.
  function Receiver(s: Sessions): Id { if s.blocking != [] && s.blocking[0] != REFNIL then s.blocking[0] else s.slot }

  function AfterOnce(t: Table, s: Sessions, free: bool): Table {
    if (s.blocking != [] && s.blocking[0] != REFNIL) || free then t - {Receiver(s)} else t
  }

  function Once(objs: map<Obj, Sessions>, o: Obj, free: bool): map<Obj, Sessions>
    requires o in objs
  {
    var left := if objs[o].blocking == [] then objs else WithoutFront(objs, o);
    if objs[o].blocking != [] && objs[o].blocking[0] != REFNIL then left else Called(left, o, free)
  }

  lemma TailDone(o0: map<Obj, Sessions>, o1: map<Obj, Sessions>, o: Obj, fixed: set<Obj>)
    requires o in o0 && Tail(o0, o1, o, |o0[o].blocking|, fixed)
    ensures Changed(o0[o := o0[o].(blocking := [])], o1, fixed)
  {
    assert o0[o].blocking[|o0[o].blocking|..] == [];
  }

  lemma TailFront(o0: map<Obj, Sessions>, o1: map<Obj, Sessions>, o: Obj, i: nat, fixed: set<Obj>)
    requires Tail(o0, o1, o, i, fixed) && i < |o0[o].blocking|
    ensures o in o1 && o1[o].blocking != [] && o1[o].blocking[0] == o0[o].blocking[i]
  {
    assert o0[o].blocking[i..][0] == o0[o].blocking[i];
  }

  // A session that waits for itself alone has ended.
  lemma PlainDropped(t: Table, objs: map<Obj, Sessions>, id: Id)
    requires Accounts(t, objs) && id in t && t[id].owner.Plain?
    ensures Accounts(t - {id}, objs)
  {
    forall x | x in objs ensures ObjOk(t - {id}, x, objs[x]) { assert ObjOk(t, x, objs[x]); }
    forall k | k in t - {id} ensures EntryOk(objs, k, (t - {id})[k]) { assert EntryOk(objs, k, t[k]); }
  }

  // Somebody is there to be woken.
  predicate Waits(s: Sessions) { (s.blocking != [] && s.blocking[0] != REFNIL) || s.slot != REFNIL }

  predicate Receives(mgr: map<nat, Obj>, objs: map<Obj, Sessions>, k: nat) { k in mgr && mgr[k] in objs && Waits(objs[mgr[k]]) }

  lemma EmptyDropped(t: Table, objs: map<Obj, Sessions>, o: Obj)
    requires Accounts(t, objs) && o in objs && objs[o].Empty()
    ensures Accounts(t, objs - {o})
  {
    var objs' := objs - {o};
    forall x | x in objs' ensures ObjOk(t, x, objs'[x]) { assert ObjOk(t, x, objs[x]); }
    forall k | k in t ensures EntryOk(objs', k, t[k]) { assert EntryOk(objs, k, t[k]); }
  }

  lemma AccountsNew(t: Table, objs: map<Obj, Sessions>, o: Obj)
    requires Accounts(t, objs) && o !in objs
    ensures Accounts(t, objs[o := NoSessions])
  {
    var objs' := objs[o := NoSessions];
    forall x | x in objs' ensures ObjOk(t, x, objs'[x]) { if x != o { assert ObjOk(t, x, objs[x]); } }
    forall k | k in t ensures EntryOk(objs', k, t[k]) { assert EntryOk(objs, k, t[k]); }
  }

  lemma PoolShrinks(p: seq<Obj>)
    requires Distinct(p) && p != []
    ensures var q := p[..|p| - 1]; Distinct(q) && forall o :: o in q <==> o in p && o != p[|p| - 1]
  {
    assert p == p[..|p| - 1] + [p[|p| - 1]];
  }

  lemma PoolGrows(p: seq<Obj>, o: Obj)
    requires Distinct(p) && o !in p
    ensures Distinct(p + [o]) && forall x :: x in p + [o] <==> x in p || x == o
  {
  }
}
