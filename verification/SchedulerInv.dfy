/** What every step of the scheduler keeps. */
module SchedulerInv {
  import opened Basics
  import opened RunQueue
  import opened Tokens
  import opened Scheduler

  // What a place may hold: its thread is live, and the program counter says whether it is full.
  ghost predicate Fits(ts: Tokens, ws: seq<Worker>, agents: map<AgentId, Agent>, p: Place) {
    match p
    case Listed(w) => ts.Slot(p) != [] ==> w < |ws|
    case Segment(w) => ts.Slot(p) != [] <==> w < |ws| && ws[w].pc.Stolen?
    case Desk(w) => |ts.Slot(p)| == if w < |ws| && OnDesk(ws[w].pc) then 1 else 0
    case Hand(a) =>
      && (ts.Slot(p) != [] ==> a in agents && ts.Slot(p) == [agents[a].c])
      && (a in agents && (agents[a].counted || agents[a].creating) ==> ts.Slot(p) != [])
      && (a in agents ==> !(agents[a].counted && agents[a].creating))
  }

  ghost predicate ShapeInv(ts: Tokens, ws: seq<Worker>, agents: map<AgentId, Agent>) { forall p :: Fits(ts, ws, agents, p) }

  ghost predicate Known(ctxs: map<CtxId, Ctx>, agents: map<AgentId, Agent>, ws: seq<Worker>) {
    && (forall a :: a in agents ==> agents[a].c in ctxs)
    && (forall w :: 0 <= w < |ws| && ws[w].pc.Leaving? ==> ws[w].pc.c in ctxs)
  }

  // The token of a context exists exactly while `processing` is set, except that a
  // context whose `init` failed keeps the bit and has no token.
  ghost predicate ProcInv(ctxs: map<CtxId, Ctx>, ts: Tokens) {
    && (forall c :: c in ts.at ==> c in ctxs)
    && (forall c :: c in ctxs ==> (c in ts.at <==> ctxs[c].processing && !ctxs[c].failed))
    && (forall c :: c in ctxs && ctxs[c].failed ==> ctxs[c].processing && !ctxs[c].registered)
  }

  // A worker that saw its list empty and has not yet come back from the semaphore
  // cannot sleep through a non-empty list.
  ghost predicate WakeInv(ts: Tokens, ws: seq<Worker>, posts: multiset<nat>) {
    && ws != []
    && (forall w :: w in posts ==> w < |ws|)
    && (forall w :: 0 <= w < |ws| && (ws[w].pc.Stealing? || ws[w].pc.Waiting?) && ts.Slot(Listed(w)) != []
          ==> ws[w].sem > 0 || w in posts)
  }

  ghost predicate Core(s: State) {
    && ShapeInv(s.tokens, s.workers, s.agents)
    && Known(s.ctxs, s.agents, s.workers)
    && ProcInv(s.ctxs, s.tokens)
    && WakeInv(s.tokens, s.workers, s.posts)
  }

  // The queries among some messages whose senders wait, in order.
  function Asking(ms: seq<Message>): seq<Message> {
    if ms == [] then [] else Asking(ms[..|ms| - 1]) + if Asks(ms[|ms| - 1]) then [ms[|ms| - 1]] else []
  }

  // What holds of each context by itself.  Before it is inited it can hold nothing but the
  // message to itself, and if its `init` failed not even that.
  ghost predicate MailOk(x: Ctx) {
    && (!x.processing ==> x.mailbox == [])
    && x.accepted == x.received + x.dropped + x.mailbox
    && (x.dropped != [] ==> !x.registered) && x.answered == Asking(x.dropped)
    && (!x.inited ==> x.received == [] && x.dropped == [] && (x.mailbox != [] ==> x.registered))
    && (x.failed ==> !x.inited && x.mailbox == [])
  }

  ghost predicate AllMailOk(ctxs: map<CtxId, Ctx>) { forall c {:trigger MailOk(ctxs[c])} :: c in ctxs ==> MailOk(ctxs[c]) }

  ghost predicate MailInv(s: State) { AllMailOk(s.ctxs) }

  lemma MailSet(ctxs: map<CtxId, Ctx>, c: CtxId, y: Ctx)
    requires AllMailOk(ctxs) && (c in ctxs && MailOk(ctxs[c]) ==> MailOk(y)) && (c !in ctxs ==> MailOk(y))
    ensures AllMailOk(ctxs[c := y])
  {
    assert c in ctxs ==> MailOk(ctxs[c]);
    var ctxs' := ctxs[c := y];
    forall d | d in ctxs' ensures MailOk(ctxs'[d]) { if d != c { assert MailOk(ctxs[d]); } }
  }

  // A context is not inited while a thread creates it; until it is, that thread has its token.
  ghost predicate BornInv(ctxs: map<CtxId, Ctx>, ts: Tokens, agents: map<AgentId, Agent>) {
    && (forall a :: a in agents && agents[a].creating && agents[a].c in ctxs ==> !ctxs[agents[a].c].inited)
    && (forall c :: c in ts.at && c in ctxs && !ctxs[c].inited ==>
          ts.at[c].Hand? && ts.at[c].agent in agents && agents[ts.at[c].agent].creating)
  }

  // The threads that own a reference through grab_context or `new`.
  function Owners(agents: map<AgentId, Agent>, c: CtxId): set<AgentId> { set a | a in agents && agents[a].c == c }

  // The workers that have given the token back but not yet their run reference.
  function Leavers(ws: seq<Worker>, c: CtxId): set<nat> { set w: nat | w < |ws| && ws[w].pc == Leaving(c) }

  // push_context has made its grab for the token of c.
  predicate TokenCounted(ts: Tokens, agents: map<AgentId, Agent>, c: CtxId) {
    c in ts.at && (ts.at[c].Hand? ==> ts.at[c].agent in agents && agents[ts.at[c].agent].counted)
  }

  function One(b: bool): nat { if b then 1 else 0 }

  ghost predicate RefOk(x: Ctx, claims: nat) {
    && x.ref == One(x.registered) + claims
    && x.deletes == One(x.ref == 0)
  }

  function Claims(s: State, c: CtxId): nat {
    One(TokenCounted(s.tokens, s.agents, c)) + |Owners(s.agents, c)| + |Leavers(s.workers, c)|
  }

  ghost predicate RefInv(s: State) { forall c :: c in s.ctxs ==> RefOk(s.ctxs[c], Claims(s, c)) }

  ghost predicate Base(s: State) { s.tokens.Valid() && Core(s) && MailInv(s) && RefInv(s) }

  ghost predicate Inv(s: State) { Base(s) && BornInv(s.ctxs, s.tokens, s.agents) }

  lemma OwnersSet(agents: map<AgentId, Agent>, a: AgentId, x: Agent, c: CtxId)
    ensures |Owners(agents[a := x], c)| == |Owners(agents, c)| - One(a in agents && agents[a].c == c) + One(x.c == c)
  {
    Resized(Owners(agents, c), Owners(agents[a := x], c), a);
  }

  lemma OwnersDrop(agents: map<AgentId, Agent>, a: AgentId, c: CtxId)
    requires a in agents
    ensures |Owners(agents - {a}, c)| == |Owners(agents, c)| - One(agents[a].c == c)
  {
    assert Owners(agents - {a}, c) == Owners(agents, c) - {a};
    assert a in Owners(agents, c) <==> agents[a].c == c;
  }

  lemma OwnerCounts(agents: map<AgentId, Agent>, a: AgentId)
    requires a in agents
    ensures |Owners(agents, agents[a].c)| > 0
  {
    assert a in Owners(agents, agents[a].c);
  }

  lemma LeaversSet(ws: seq<Worker>, w: nat, x: Worker, c: CtxId)
    requires w < |ws|
    ensures |Leavers(ws[w := x], c)| == |Leavers(ws, c)| - One(ws[w].pc == Leaving(c)) + One(x.pc == Leaving(c))
  {
    Resized(Leavers(ws, c), Leavers(ws[w := x], c), w);
  }
}
