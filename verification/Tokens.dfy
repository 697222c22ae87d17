/**
 Where the processing tokens of contexts are.  A slot is a place that holds tokens in
 order: the hand of a sender or creator, the run list of a worker, the segment a thief
 has cut out, the desk of the worker that runs the context.  `at` is a history variable,
 the inverse of the slots.
 */
module Tokens {
  import opened Basics
  import opened RunQueue

  type CtxId = nat
  datatype Place = Hand(agent: nat) | Listed(worker: nat) | Segment(worker: nat) | Desk(worker: nat)

  datatype Tokens = Tokens(slots: map<Place, seq<CtxId>>, at: map<CtxId, Place>) {
    function Slot(p: Place): seq<CtxId> { if p in slots then slots[p] else [] }

    // Every token is in exactly the place `at` names, and there only once.
    ghost predicate Valid() {
      && (forall p, c :: c in Slot(p) <==> c in at && at[c] == p)
      && (forall p :: Distinct(Slot(p)))
    }

    function Put(p: Place, c: CtxId): Tokens {
      Tokens(slots[p := Slot(p) + [c]], at[c := p])
    }

    function TakeFirst(p: Place): Tokens
      requires Slot(p) != []
    {
      Tokens(slots[p := Slot(p)[1..]], at - {Slot(p)[0]})
    }

    // The first `k` tokens of `p`, in order, to the end of `q`.
    function Move(p: Place, k: nat, q: Place): Tokens
      requires k <= |Slot(p)|
    {
      var moved := Slot(p)[..k];
      Tokens(slots[p := Slot(p)[k..]][q := Slot(q) + moved],
             map c | c in at :: if c in moved then q else at[c])
    }
  }

  lemma PutValid(t: Tokens, p: Place, c: CtxId)
    requires t.Valid() && c !in t.at
    ensures t.Put(p, c).Valid()
  {
    JoinDistinct(t.Slot(p), [c]);
    assert forall q :: q != p ==> t.Put(p, c).Slot(q) == t.Slot(q);
  }

  lemma TakeFirstValid(t: Tokens, p: Place)
    requires t.Valid() && t.Slot(p) != []
    ensures t.TakeFirst(p).Valid()
  {
    SplitDistinct(t.Slot(p), 1);
    var u, c := t.TakeFirst(p), t.Slot(p)[0];
    assert t.Slot(p)[..1] == [c] && u.Slot(p) == t.Slot(p)[1..];
    assert forall q :: q != p ==> u.Slot(q) == t.Slot(q);
    forall q, d ensures d in u.Slot(q) <==> d in u.at && u.at[d] == q {
      assert d in t.Slot(q) <==> d in t.at && t.at[d] == q;
      assert c in t.Slot(p);
      assert d in t.Slot(p) <==> d == c || d in t.Slot(p)[1..];
    }
  }

  lemma MoveValid(t: Tokens, p: Place, k: nat, q: Place)
    requires t.Valid() && k <= |t.Slot(p)| && p != q
    ensures t.Move(p, k, q).Valid()
    ensures t.Move(p, k, q).at.Keys == t.at.Keys
  {
    SplitDistinct(t.Slot(p), k);
    forall c ensures !(c in t.Slot(q) && c in t.Slot(p)[..k]) {
      assert c in t.Slot(p)[..k] ==> c in t.Slot(p);
      assert c in t.Slot(p) ==> t.at[c] == p;
      assert c in t.Slot(q) ==> t.at[c] == q;
    }
    JoinDistinct(t.Slot(q), t.Slot(p)[..k]);
    var u := t.Move(p, k, q);
    assert forall r :: r != p && r != q ==> u.Slot(r) == t.Slot(r);
    assert u.Slot(p) == t.Slot(p)[k..] && u.Slot(q) == t.Slot(q) + t.Slot(p)[..k];
  }

  // No two places, and no two positions of one place, hold the token of one context.
  lemma TokenIsUnique(t: Tokens, p: Place, i: nat, q: Place, j: nat)
    requires t.Valid() && i < |t.Slot(p)| && j < |t.Slot(q)| && t.Slot(p)[i] == t.Slot(q)[j]
    ensures p == q && i == j
  {
    var c := t.Slot(p)[i];
    assert c in t.Slot(p) && c in t.Slot(q);
    assert t.at[c] == p && t.at[c] == q;
    assert Distinct(t.Slot(p));
  }
}
