/**
 Every step of the scheduler keeps its invariant.  A step's lemmas come in pairs: one for where
 the tokens are, what the program counters say of the places, the mailboxes and the semaphores;
 the other for the reference counts, which are compared with the threads that own a reference,
 the workers that leave and the token itself.  A third kind, in groups of steps, says that a
 context nobody has inited stays in the hand of the thread that creates it.  The lemmas take
 only the parts of the invariant they need, since each is about two whole states; the groups
 at the end put the parts together again for the events that cause the steps.
 */
module SchedulerSteps {
  import opened Basics
  import opened RunQueue
  import opened Tokens
  import opened Scheduler
  import opened SchedulerInv

  // For each step two lemmas: the tokens, mailboxes and semaphores; then the references.

  lemma ConstructCore(s: State, a: AgentId, c: CtxId)
    requires Core(s) && MailInv(s)
    requires a !in s.agents && c !in s.ctxs
    ensures Core(Construct(s, a, c)) && MailInv(Construct(s, a, c))
  {
    var t := Construct(s, a, c);
    MailSet(s.ctxs, c, t.ctxs[c]);
    assert Fits(s.tokens, s.workers, s.agents, Hand(a));
    forall p ensures Fits(t.tokens, t.workers, t.agents, p) { assert Fits(s.tokens, s.workers, s.agents, p); }
  }

  lemma ConstructRefs(s: State, a: AgentId, c: CtxId)
    requires s.tokens.Valid() && Core(s) && RefInv(s)
    requires a !in s.agents && c !in s.ctxs
    ensures Construct(s, a, c).tokens.Valid() && RefInv(Construct(s, a, c))
  {
    var t := Construct(s, a, c);
    PutValid(s.tokens, Hand(a), c);
    forall d | d in t.ctxs ensures RefOk(t.ctxs[d], Claims(t, d)) {
      OwnersSet(s.agents, a, t.agents[a], d);
    }
  }

  lemma RegisterCore(s: State, a: AgentId)
    requires Core(s) && MailInv(s) && s.tokens.Valid() && BornInv(s.ctxs, s.tokens, s.agents)
    requires Creating(s, a) && !s.ctxs[s.agents[a].c].registered
    ensures Core(Register(s, a)) && MailInv(Register(s, a))
  {
    var t := Register(s, a);
    MailSet(s.ctxs, s.agents[a].c, t.ctxs[s.agents[a].c]);
    assert Fits(s.tokens, s.workers, s.agents, Hand(a));
    assert HandFull(s, a) ==> s.agents[a].c in s.tokens.Slot(Hand(a));
  }

  lemma RegisterRefs(s: State, a: AgentId)
    requires s.tokens.Valid() && Fits(s.tokens, s.workers, s.agents, Hand(a)) && RefInv(s)
    requires Creating(s, a) && !s.ctxs[s.agents[a].c].registered
    ensures Register(s, a).tokens.Valid() && RefInv(Register(s, a))
  {
    var t := Register(s, a);
    forall d | d in t.ctxs ensures RefOk(t.ctxs[d], Claims(t, d)) {
      OwnerCounts(s.agents, a);
      assert d in s.tokens.at ==> d in s.tokens.Slot(s.tokens.at[d]);
    }
  }

  lemma InitSendCore(s: State, a: AgentId, m: Message)
    requires Core(s) && MailInv(s) && s.tokens.Valid()
    requires Creating(s, a) && s.ctxs[s.agents[a].c].registered
    ensures Core(InitSend(s, a, m)) && MailInv(InitSend(s, a, m))
  {
    var t := InitSend(s, a, m);
    MailSet(s.ctxs, s.agents[a].c, t.ctxs[s.agents[a].c]);
    assert Fits(s.tokens, s.workers, s.agents, Hand(a));
    assert HandFull(s, a) ==> s.agents[a].c in s.tokens.Slot(Hand(a));
  }

  lemma InitSendRefs(s: State, a: AgentId, m: Message)
    requires s.tokens.Valid() && Fits(s.tokens, s.workers, s.agents, Hand(a)) && RefInv(s)
    requires Creating(s, a) && s.ctxs[s.agents[a].c].registered
    ensures InitSend(s, a, m).tokens.Valid() && RefInv(InitSend(s, a, m))
  {
  }

  lemma InitDoneCore(s: State, a: AgentId)
    requires Core(s) && MailInv(s) && s.tokens.Valid() && BornInv(s.ctxs, s.tokens, s.agents)
    requires Creating(s, a) && s.ctxs[s.agents[a].c].registered
    ensures Core(InitDone(s, a)) && MailInv(InitDone(s, a))
  {
    var t := InitDone(s, a);
    MailSet(s.ctxs, s.agents[a].c, t.ctxs[s.agents[a].c]);
    assert Fits(s.tokens, s.workers, s.agents, Hand(a));
    assert HandFull(s, a) ==> s.agents[a].c in s.tokens.Slot(Hand(a));
    forall p ensures Fits(t.tokens, t.workers, t.agents, p) { assert Fits(s.tokens, s.workers, s.agents, p); }
  }

  lemma InitDoneRefs(s: State, a: AgentId)
    requires s.tokens.Valid() && Fits(s.tokens, s.workers, s.agents, Hand(a)) && RefInv(s)
    requires Creating(s, a) && s.ctxs[s.agents[a].c].registered
    ensures InitDone(s, a).tokens.Valid() && RefInv(InitDone(s, a))
  {
    var t := InitDone(s, a);
    forall d | d in t.ctxs ensures RefOk(t.ctxs[d], Claims(t, d)) {
      OwnersSet(s.agents, a, t.agents[a], d);
    }
  }

  lemma InitFailCore(s: State, a: AgentId)
    requires Core(s) && MailInv(s) && s.tokens.Valid() && BornInv(s.ctxs, s.tokens, s.agents)
    requires Creating(s, a) && HandFull(s, a) && s.ctxs[s.agents[a].c].mailbox == []
    ensures Core(InitFail(s, a)) && MailInv(InitFail(s, a))
  {
    var t := InitFail(s, a);
    MailSet(s.ctxs, s.agents[a].c, t.ctxs[s.agents[a].c]);
    assert Fits(s.tokens, s.workers, s.agents, Hand(a));
    assert HandFull(s, a) ==> s.agents[a].c in s.tokens.Slot(Hand(a));
    forall p ensures Fits(t.tokens, t.workers, t.agents, p) { assert Fits(s.tokens, s.workers, s.agents, p); }
  }

  lemma InitFailRefs(s: State, a: AgentId)
    requires s.tokens.Valid() && Fits(s.tokens, s.workers, s.agents, Hand(a)) && RefInv(s)
    requires Creating(s, a) && HandFull(s, a) && s.ctxs[s.agents[a].c].mailbox == []
    ensures InitFail(s, a).tokens.Valid() && RefInv(InitFail(s, a))
  {
    var t := InitFail(s, a);
    assert t.tokens.Valid() by { TakeFirstValid(s.tokens, Hand(a)); }
    forall d | d in t.ctxs ensures RefOk(t.ctxs[d], Claims(t, d)) {
      OwnerCounts(s.agents, a);
      assert d in s.tokens.at ==> d in s.tokens.Slot(s.tokens.at[d]);
      OwnersSet(s.agents, a, t.agents[a], d);
    }
  }

  lemma LookupCore(s: State, a: AgentId, c: CtxId)
    requires Core(s) && MailInv(s)
    requires a !in s.agents && c in s.ctxs && s.ctxs[c].registered
    ensures Core(Lookup(s, a, c)) && MailInv(Lookup(s, a, c))
  {
    var t := Lookup(s, a, c);
    MailSet(s.ctxs, c, t.ctxs[c]);
    assert Fits(s.tokens, s.workers, s.agents, Hand(a));
    forall p ensures Fits(t.tokens, t.workers, t.agents, p) { assert Fits(s.tokens, s.workers, s.agents, p); }
  }

  lemma LookupRefs(s: State, a: AgentId, c: CtxId)
    requires s.tokens.Valid() && Fits(s.tokens, s.workers, s.agents, Hand(a)) && RefInv(s)
    requires a !in s.agents && c in s.ctxs && s.ctxs[c].registered
    ensures Lookup(s, a, c).tokens.Valid() && RefInv(Lookup(s, a, c))
  {
    var t := Lookup(s, a, c);
    forall d | d in t.ctxs ensures RefOk(t.ctxs[d], Claims(t, d)) {
      OwnersSet(s.agents, a, t.agents[a], d);
    }
  }

  lemma SendCore(s: State, a: AgentId, m: Message)
    requires Core(s) && MailInv(s)
    requires EmptyHanded(s, a) && s.ctxs[s.agents[a].c].inited
    ensures Core(Send(s, a, m)) && MailInv(Send(s, a, m))
  {
    var t := Send(s, a, m);
    MailSet(s.ctxs, s.agents[a].c, t.ctxs[s.agents[a].c]);
    assert Fits(s.tokens, s.workers, s.agents, Hand(a));
    forall p ensures Fits(t.tokens, t.workers, t.agents, p) { assert Fits(s.tokens, s.workers, s.agents, p); }
  }

  lemma SendRefs(s: State, a: AgentId, m: Message)
    requires s.tokens.Valid() && Core(s) && RefInv(s)
    requires EmptyHanded(s, a) && s.ctxs[s.agents[a].c].inited
    ensures Send(s, a, m).tokens.Valid() && RefInv(Send(s, a, m))
  {
    var t := Send(s, a, m);
    if !s.ctxs[s.agents[a].c].processing { PutValid(s.tokens, Hand(a), s.agents[a].c); }
    forall d | d in t.ctxs ensures RefOk(t.ctxs[d], Claims(t, d)) {
      assert Fits(s.tokens, s.workers, s.agents, Hand(a));
    }
  }

  lemma CountTokenCore(s: State, a: AgentId)
    requires Core(s) && MailInv(s)
    requires Pushing(s, a) && !s.agents[a].counted
    ensures Core(CountToken(s, a)) && MailInv(CountToken(s, a))
  {
    var t := CountToken(s, a);
    MailSet(s.ctxs, s.agents[a].c, t.ctxs[s.agents[a].c]);
    assert Fits(s.tokens, s.workers, s.agents, Hand(a));
    forall p ensures Fits(t.tokens, t.workers, t.agents, p) { assert Fits(s.tokens, s.workers, s.agents, p); }
  }

  lemma CountTokenRefs(s: State, a: AgentId)
    requires s.tokens.Valid() && Fits(s.tokens, s.workers, s.agents, Hand(a)) && RefInv(s)
    requires Pushing(s, a) && !s.agents[a].counted
    ensures CountToken(s, a).tokens.Valid() && RefInv(CountToken(s, a))
  {
    var t := CountToken(s, a);
    forall d | d in t.ctxs ensures RefOk(t.ctxs[d], Claims(t, d)) {
      OwnerCounts(s.agents, a);
      assert d in s.tokens.at ==> d in s.tokens.Slot(s.tokens.at[d]);
      OwnersSet(s.agents, a, t.agents[a], d);
    }
  }

  lemma EnqueueCore(s: State, a: AgentId, target: nat)
    requires Core(s) && MailInv(s)
    requires Pushing(s, a) && s.agents[a].counted && target < |s.workers|
    ensures Core(Enqueue(s, a, target)) && MailInv(Enqueue(s, a, target))
  {
    var t := Enqueue(s, a, target);
    assert Fits(s.tokens, s.workers, s.agents, Hand(a));
    forall p ensures Fits(t.tokens, t.workers, t.agents, p) { assert Fits(s.tokens, s.workers, s.agents, p); }
  }

  lemma EnqueueRefs(s: State, a: AgentId, target: nat)
    requires s.tokens.Valid() && Fits(s.tokens, s.workers, s.agents, Hand(a)) && RefInv(s)
    requires Pushing(s, a) && s.agents[a].counted && target < |s.workers|
    ensures Enqueue(s, a, target).tokens.Valid() && RefInv(Enqueue(s, a, target))
  {
    var t := Enqueue(s, a, target);
    assert t.tokens.Valid() by { MoveValid(s.tokens, Hand(a), 1, Listed(target)); }
    forall d | d in t.ctxs ensures RefOk(t.ctxs[d], Claims(t, d)) {
      OwnersSet(s.agents, a, t.agents[a], d);
    }
  }

  lemma ReleaseCore(s: State, a: AgentId)
    requires Core(s) && MailInv(s)
    requires EmptyHanded(s, a)
    ensures Core(Release(s, a)) && MailInv(Release(s, a))
  {
    var t := Release(s, a);
    MailSet(s.ctxs, s.agents[a].c, t.ctxs[s.agents[a].c]);
    assert Fits(s.tokens, s.workers, s.agents, Hand(a));
    forall p ensures Fits(t.tokens, t.workers, t.agents, p) { assert Fits(s.tokens, s.workers, s.agents, p); }
  }

  lemma ReleaseRefs(s: State, a: AgentId)
    requires s.tokens.Valid() && Fits(s.tokens, s.workers, s.agents, Hand(a)) && RefInv(s)
    requires EmptyHanded(s, a)
    ensures Release(s, a).tokens.Valid() && RefInv(Release(s, a))
  {
    var t := Release(s, a);
    forall d | d in t.ctxs ensures RefOk(t.ctxs[d], Claims(t, d)) {
      OwnerCounts(s.agents, a);
      assert d in s.tokens.at ==> d in s.tokens.Slot(s.tokens.at[d]);
      OwnersDrop(s.agents, a, d);
    }
  }

  lemma PostCore(s: State, w: nat)
    requires Core(s) && MailInv(s)
    requires w < |s.workers| && w in s.posts
    ensures Core(Post(s, w)) && MailInv(Post(s, w))
  {
    var t := Post(s, w);
    assert Fits(s.tokens, s.workers, s.agents, Desk(w)) && Fits(s.tokens, s.workers, s.agents, Segment(w));
    forall p ensures Fits(t.tokens, t.workers, t.agents, p) { assert Fits(s.tokens, s.workers, s.agents, p); }
  }

  lemma PostRefs(s: State, w: nat)
    requires s.tokens.Valid() && RefInv(s)
    requires w < |s.workers| && w in s.posts
    ensures Post(s, w).tokens.Valid() && RefInv(Post(s, w))
  {
    var t := Post(s, w);
    forall d | d in t.ctxs ensures RefOk(t.ctxs[d], Claims(t, d)) {
      LeaversSet(s.workers, w, t.workers[w], d);
    }
  }

  lemma PopOwnCore(s: State, w: nat)
    requires Core(s) && MailInv(s)
    requires AtPc(s, w, Looking) && List(s, w) != []
    ensures Core(PopOwn(s, w)) && MailInv(PopOwn(s, w))
  {
    var t := PopOwn(s, w);
    assert Fits(s.tokens, s.workers, s.agents, Desk(w)) && Fits(s.tokens, s.workers, s.agents, Segment(w));
    forall p ensures Fits(t.tokens, t.workers, t.agents, p) { assert Fits(s.tokens, s.workers, s.agents, p); }
  }

  lemma PopOwnRefs(s: State, w: nat)
    requires s.tokens.Valid() && Fits(s.tokens, s.workers, s.agents, Desk(w)) && RefInv(s)
    requires AtPc(s, w, Looking) && List(s, w) != []
    ensures PopOwn(s, w).tokens.Valid() && RefInv(PopOwn(s, w))
  {
    var t := PopOwn(s, w);
    assert t.tokens.Valid() by { MoveValid(s.tokens, Listed(w), 1, Desk(w)); }
    forall d | d in t.ctxs ensures RefOk(t.ctxs[d], Claims(t, d)) {
      LeaversSet(s.workers, w, t.workers[w], d);
    }
  }

  lemma StealCore(s: State, w: nat, victim: nat)
    requires Core(s) && MailInv(s)
    requires AtPc(s, w, Stealing) && victim < |s.workers| && victim != w && Half(List(s, victim)) > 0
    ensures Core(Steal(s, w, victim)) && MailInv(Steal(s, w, victim))
  {
    var t := Steal(s, w, victim);
    assert Fits(s.tokens, s.workers, s.agents, Desk(w)) && Fits(s.tokens, s.workers, s.agents, Segment(w));
    forall p ensures Fits(t.tokens, t.workers, t.agents, p) { assert Fits(s.tokens, s.workers, s.agents, p); }
  }

  lemma StealRefs(s: State, w: nat, victim: nat)
    requires s.tokens.Valid() && Fits(s.tokens, s.workers, s.agents, Desk(w)) && Fits(s.tokens, s.workers, s.agents, Segment(w)) && RefInv(s)
    requires AtPc(s, w, Stealing) && victim < |s.workers| && victim != w && Half(List(s, victim)) > 0
    ensures Steal(s, w, victim).tokens.Valid() && RefInv(Steal(s, w, victim))
  {
    var t := Steal(s, w, victim);
    assert t.tokens.Valid() by { MoveValid(s.tokens, Listed(victim), Half(List(s, victim)), Segment(w)); }
    forall d | d in t.ctxs ensures RefOk(t.ctxs[d], Claims(t, d)) {
      LeaversSet(s.workers, w, t.workers[w], d);
    }
  }

  lemma WakeUpCore(s: State, w: nat)
    requires Core(s) && MailInv(s)
    requires AtPc(s, w, Waiting) && s.workers[w].sem > 0
    ensures Core(WakeUp(s, w)) && MailInv(WakeUp(s, w))
  {
    var t := WakeUp(s, w);
    assert Fits(s.tokens, s.workers, s.agents, Desk(w)) && Fits(s.tokens, s.workers, s.agents, Segment(w));
    forall p ensures Fits(t.tokens, t.workers, t.agents, p) { assert Fits(s.tokens, s.workers, s.agents, p); }
  }

  lemma WakeUpRefs(s: State, w: nat)
    requires s.tokens.Valid() && RefInv(s)
    requires AtPc(s, w, Waiting) && s.workers[w].sem > 0
    ensures WakeUp(s, w).tokens.Valid() && RefInv(WakeUp(s, w))
  {
    var t := WakeUp(s, w);
    forall d | d in t.ctxs ensures RefOk(t.ctxs[d], Claims(t, d)) {
      LeaversSet(s.workers, w, t.workers[w], d);
    }
  }

  lemma RunFirstShape(s: State, w: nat)
    requires ShapeInv(s.tokens, s.workers, s.agents)
    requires AtPc(s, w, Stolen) && s.tokens.Slot(Segment(w)) != []
    ensures ShapeInv(RunFirst(s, w).tokens, RunFirst(s, w).workers, RunFirst(s, w).agents)
  {
    var t := RunFirst(s, w);
    assert Fits(s.tokens, s.workers, s.agents, Desk(w)) && Fits(s.tokens, s.workers, s.agents, Segment(w));
    forall p ensures Fits(t.tokens, t.workers, t.agents, p) { assert Fits(s.tokens, s.workers, s.agents, p); }
  }

  lemma RunFirstCore(s: State, w: nat)
    requires Core(s) && MailInv(s)
    requires AtPc(s, w, Stolen) && s.tokens.Slot(Segment(w)) != []
    ensures Core(RunFirst(s, w)) && MailInv(RunFirst(s, w))
  {
    RunFirstShape(s, w);
  }

  lemma RunFirstRefs(s: State, w: nat)
    requires s.tokens.Valid() && Fits(s.tokens, s.workers, s.agents, Desk(w)) && Fits(s.tokens, s.workers, s.agents, Segment(w)) && RefInv(s)
    requires AtPc(s, w, Stolen) && s.tokens.Slot(Segment(w)) != []
    ensures RunFirst(s, w).tokens.Valid() && RefInv(RunFirst(s, w))
  {
    var t := RunFirst(s, w);
    MoveValid(s.tokens, Segment(w), 1, Desk(w));
    MoveValid(s.tokens.Move(Segment(w), 1, Desk(w)), Segment(w), |s.tokens.Slot(Segment(w))| - 1, Listed(w));
    forall d | d in t.ctxs ensures RefOk(t.ctxs[d], Claims(t, d)) {
      LeaversSet(s.workers, w, t.workers[w], d);
    }
  }

  // The worker goes on with the context it runs.
  lemma StaysAtDesk(ts: Tokens, ws: seq<Worker>, agents: map<AgentId, Agent>, w: nat, pc: Pc)
    requires ShapeInv(ts, ws, agents) && w < |ws| && OnDesk(ws[w].pc) && OnDesk(pc) && !pc.Stolen? && !pc.Leaving?
    ensures ShapeInv(ts, ws[w := ws[w].(pc := pc)], agents)
  {
    var ws' := ws[w := ws[w].(pc := pc)];
    forall p ensures Fits(ts, ws', agents, p) { assert Fits(ts, ws, agents, p); }
  }

  lemma HandledOk(x: Ctx)
    requires MailOk(x) && x.inited && x.mailbox != []
    ensures MailOk(Handle(x))
  {
    var rest := x.mailbox[1..];
    assert x.mailbox == [x.mailbox[0]] + rest;
    if x.registered { assert x.dropped == []; }
    var more := x.dropped + [x.mailbox[0]];
    assert more[..|more| - 1] == x.dropped;
  }

  lemma RunsInited(s: State, w: nat)
    requires s.tokens.Valid() && BornInv(s.ctxs, s.tokens, s.agents) && w < |s.workers| && RunsAt(s, w, s.workers[w].pc)
    ensures s.ctxs[Current(s, w)].inited
  {
    assert Current(s, w) in s.tokens.Slot(Desk(w));
  }

  lemma PopMessageCore(s: State, w: nat)
    requires Core(s) && MailInv(s) && s.tokens.Valid() && BornInv(s.ctxs, s.tokens, s.agents)
    requires RunsAt(s, w, Running) && s.ctxs[Current(s, w)].mailbox != []
    ensures Core(PopMessage(s, w)) && MailInv(PopMessage(s, w))
  {
    assert Fits(s.tokens, s.workers, s.agents, Desk(w)) && Current(s, w) in s.tokens.Slot(Desk(w));
    RunsInited(s, w);
    HandledOk(s.ctxs[Current(s, w)]);
    StaysAtDesk(s.tokens, s.workers, s.agents, w, Handling);
    MailSet(s.ctxs, Current(s, w), PopMessage(s, w).ctxs[Current(s, w)]);
  }

  lemma PopMessageRefs(s: State, w: nat)
    requires s.tokens.Valid() && Fits(s.tokens, s.workers, s.agents, Desk(w)) && RefInv(s)
    requires RunsAt(s, w, Running) && s.ctxs[Current(s, w)].mailbox != []
    ensures PopMessage(s, w).tokens.Valid() && RefInv(PopMessage(s, w))
  {
    var t := PopMessage(s, w);
    forall d | d in t.ctxs ensures RefOk(t.ctxs[d], Claims(t, d)) {
      LeaversSet(s.workers, w, t.workers[w], d);
    }
  }

  lemma SelfSendCore(s: State, w: nat, m: Message)
    requires Core(s) && MailInv(s) && s.tokens.Valid() && BornInv(s.ctxs, s.tokens, s.agents)
    requires RunsAt(s, w, Handling)
    ensures Core(SelfSend(s, w, m)) && MailInv(SelfSend(s, w, m))
  {
    var t := SelfSend(s, w, m);
    MailSet(s.ctxs, Current(s, w), t.ctxs[Current(s, w)]);
    RunsInited(s, w);
    assert Current(s, w) in s.tokens.Slot(Desk(w));
  }

  lemma SelfSendRefs(s: State, w: nat, m: Message)
    requires s.tokens.Valid() && Fits(s.tokens, s.workers, s.agents, Desk(w)) && RefInv(s)
    requires RunsAt(s, w, Handling)
    ensures SelfSend(s, w, m).tokens.Valid() && RefInv(SelfSend(s, w, m))
  {
  }

  lemma RetireCore(s: State, w: nat)
    requires Core(s) && MailInv(s) && s.tokens.Valid() && BornInv(s.ctxs, s.tokens, s.agents)
    requires RunsAt(s, w, Handling)
    ensures Core(Retire(s, w)) && MailInv(Retire(s, w))
  {
    var t := Retire(s, w);
    MailSet(s.ctxs, Current(s, w), t.ctxs[Current(s, w)]);
    RunsInited(s, w);
    assert Current(s, w) in s.tokens.Slot(Desk(w));
  }

  lemma RetireRefs(s: State, w: nat)
    requires s.tokens.Valid() && Fits(s.tokens, s.workers, s.agents, Desk(w)) && RefInv(s)
    requires RunsAt(s, w, Handling)
    ensures Retire(s, w).tokens.Valid() && RefInv(Retire(s, w))
  {
  }

  lemma FinishCore(s: State, w: nat)
    requires Core(s) && MailInv(s) && s.tokens.Valid()
    requires RunsAt(s, w, Handling)
    ensures Core(Finish(s, w)) && MailInv(Finish(s, w))
  {
    assert Fits(s.tokens, s.workers, s.agents, Desk(w)) && Current(s, w) in s.tokens.Slot(Desk(w));
    StaysAtDesk(s.tokens, s.workers, s.agents, w, Running);
  }

  lemma FinishRefs(s: State, w: nat)
    requires s.tokens.Valid() && Fits(s.tokens, s.workers, s.agents, Desk(w)) && RefInv(s)
    requires RunsAt(s, w, Handling)
    ensures Finish(s, w).tokens.Valid() && RefInv(Finish(s, w))
  {
    var t := Finish(s, w);
    forall d | d in t.ctxs ensures RefOk(t.ctxs[d], Claims(t, d)) {
      LeaversSet(s.workers, w, t.workers[w], d);
    }
  }

  lemma PopNoneShape(s: State, w: nat)
    requires ShapeInv(s.tokens, s.workers, s.agents)
    requires RunsAt(s, w, Running) && s.ctxs[Current(s, w)].mailbox == []
    ensures ShapeInv(PopNone(s, w).tokens, PopNone(s, w).workers, PopNone(s, w).agents)
  {
    var t := PopNone(s, w);
    assert Fits(s.tokens, s.workers, s.agents, Desk(w)) && Fits(s.tokens, s.workers, s.agents, Segment(w));
    forall p ensures Fits(t.tokens, t.workers, t.agents, p) { assert Fits(s.tokens, s.workers, s.agents, p); }
  }

  lemma PopNoneCore(s: State, w: nat)
    requires Core(s) && MailInv(s) && s.tokens.Valid()
    requires RunsAt(s, w, Running) && s.ctxs[Current(s, w)].mailbox == []
    ensures Core(PopNone(s, w)) && MailInv(PopNone(s, w))
  {
    assert Fits(s.tokens, s.workers, s.agents, Desk(w)) && Current(s, w) in s.tokens.Slot(Desk(w));
    PopNoneShape(s, w);
    MailSet(s.ctxs, Current(s, w), PopNone(s, w).ctxs[Current(s, w)]);
  }

  lemma PopNoneRefs(s: State, w: nat)
    requires s.tokens.Valid() && Fits(s.tokens, s.workers, s.agents, Desk(w)) && RefInv(s)
    requires RunsAt(s, w, Running) && s.ctxs[Current(s, w)].mailbox == []
    ensures PopNone(s, w).tokens.Valid() && RefInv(PopNone(s, w))
  {
    var t := PopNone(s, w);
    assert Current(s, w) in s.tokens.Slot(Desk(w));
    assert t.tokens.Valid() by { TakeFirstValid(s.tokens, Desk(w)); }
    forall d | d in t.ctxs ensures RefOk(t.ctxs[d], Claims(t, d)) {
      LeaversSet(s.workers, w, t.workers[w], d);
    }
  }

  lemma ReleaseRunCore(s: State, w: nat)
    requires Core(s) && MailInv(s)
    requires w < |s.workers| && s.workers[w].pc.Leaving? && s.workers[w].pc.c in s.ctxs
    ensures Core(ReleaseRun(s, w)) && MailInv(ReleaseRun(s, w))
  {
    var t := ReleaseRun(s, w);
    MailSet(s.ctxs, s.workers[w].pc.c, t.ctxs[s.workers[w].pc.c]);
    assert Fits(s.tokens, s.workers, s.agents, Desk(w)) && Fits(s.tokens, s.workers, s.agents, Segment(w));
    forall p ensures Fits(t.tokens, t.workers, t.agents, p) { assert Fits(s.tokens, s.workers, s.agents, p); }
  }

  lemma ReleaseRunRefs(s: State, w: nat)
    requires s.tokens.Valid() && Fits(s.tokens, s.workers, s.agents, Desk(w)) && RefInv(s)
    requires w < |s.workers| && s.workers[w].pc.Leaving? && s.workers[w].pc.c in s.ctxs
    ensures ReleaseRun(s, w).tokens.Valid() && RefInv(ReleaseRun(s, w))
  {
    var t := ReleaseRun(s, w);
    forall d | d in t.ctxs ensures RefOk(t.ctxs[d], Claims(t, d)) {
      LeaversSet(s.workers, w, t.workers[w], d);
    }
  }

  lemma RepushShape(s: State, w: nat, target: nat)
    requires ShapeInv(s.tokens, s.workers, s.agents)
    requires RunsAt(s, w, Repushing) && target < |s.workers|
    ensures ShapeInv(Repush(s, w, target).tokens, Repush(s, w, target).workers, Repush(s, w, target).agents)
  {
    var t := Repush(s, w, target);
    assert Fits(s.tokens, s.workers, s.agents, Desk(w)) && Fits(s.tokens, s.workers, s.agents, Segment(w));
    forall p ensures Fits(t.tokens, t.workers, t.agents, p) { assert Fits(s.tokens, s.workers, s.agents, p); }
  }

  lemma RepushCore(s: State, w: nat, target: nat)
    requires Core(s) && MailInv(s)
    requires RunsAt(s, w, Repushing) && target < |s.workers|
    ensures Core(Repush(s, w, target)) && MailInv(Repush(s, w, target))
  {
    RepushShape(s, w, target);
  }

  lemma RepushRefs(s: State, w: nat, target: nat)
    requires s.tokens.Valid() && Fits(s.tokens, s.workers, s.agents, Desk(w)) && RefInv(s)
    requires RunsAt(s, w, Repushing) && target < |s.workers|
    ensures Repush(s, w, target).tokens.Valid() && RefInv(Repush(s, w, target))
  {
    var t := Repush(s, w, target);
    assert Current(s, w) in s.tokens.Slot(Desk(w));
    assert t.tokens.Valid() by { MoveValid(s.tokens, Desk(w), 1, Listed(target)); }
    forall d | d in t.ctxs ensures RefOk(t.ctxs[d], Claims(t, d)) {
      LeaversSet(s.workers, w, t.workers[w], d);
    }
  }

  lemma SeeEmptyCore(s: State, w: nat)
    requires Core(s) && MailInv(s)
    requires AtPc(s, w, Looking) && List(s, w) == []
    ensures Core(SeeEmpty(s, w)) && MailInv(SeeEmpty(s, w))
  {
    var t := SeeEmpty(s, w);
    assert Fits(s.tokens, s.workers, s.agents, Desk(w)) && Fits(s.tokens, s.workers, s.agents, Segment(w));
    forall p ensures Fits(t.tokens, t.workers, t.agents, p) { assert Fits(s.tokens, s.workers, s.agents, p); }
  }

  lemma SeeEmptyRefs(s: State, w: nat)
    requires s.tokens.Valid() && RefInv(s)
    requires AtPc(s, w, Looking) && List(s, w) == []
    ensures SeeEmpty(s, w).tokens.Valid() && RefInv(SeeEmpty(s, w))
  {
    var t := SeeEmpty(s, w);
    forall d | d in t.ctxs ensures RefOk(t.ctxs[d], Claims(t, d)) {
      LeaversSet(s.workers, w, t.workers[w], d);
    }
  }

  lemma GiveUpCore(s: State, w: nat)
    requires Core(s) && MailInv(s)
    requires AtPc(s, w, Stealing)
    ensures Core(GiveUp(s, w)) && MailInv(GiveUp(s, w))
  {
    var t := GiveUp(s, w);
    assert Fits(s.tokens, s.workers, s.agents, Desk(w)) && Fits(s.tokens, s.workers, s.agents, Segment(w));
    forall p ensures Fits(t.tokens, t.workers, t.agents, p) { assert Fits(s.tokens, s.workers, s.agents, p); }
  }

  lemma GiveUpRefs(s: State, w: nat)
    requires s.tokens.Valid() && RefInv(s)
    requires AtPc(s, w, Stealing)
    ensures GiveUp(s, w).tokens.Valid() && RefInv(GiveUp(s, w))
  {
    var t := GiveUp(s, w);
    forall d | d in t.ctxs ensures RefOk(t.ctxs[d], Claims(t, d)) {
      LeaversSet(s.workers, w, t.workers[w], d);
    }
  }

  lemma EndBatchCore(s: State, w: nat)
    requires Core(s) && MailInv(s) && s.tokens.Valid()
    requires RunsAt(s, w, Running)
    ensures Core(EndBatch(s, w)) && MailInv(EndBatch(s, w))
  {
    assert Fits(s.tokens, s.workers, s.agents, Desk(w)) && Current(s, w) in s.tokens.Slot(Desk(w));
    StaysAtDesk(s.tokens, s.workers, s.agents, w, Repushing);
  }

  lemma EndBatchRefs(s: State, w: nat)
    requires s.tokens.Valid() && Fits(s.tokens, s.workers, s.agents, Desk(w)) && RefInv(s)
    requires RunsAt(s, w, Running)
    ensures EndBatch(s, w).tokens.Valid() && RefInv(EndBatch(s, w))
  {
    var t := EndBatch(s, w);
    forall d | d in t.ctxs ensures RefOk(t.ctxs[d], Claims(t, d)) {
      LeaversSet(s.workers, w, t.workers[w], d);
    }
  }

  lemma StartWorkerCore(s: State)
    requires Core(s) && MailInv(s)
    ensures Core(StartWorker(s)) && MailInv(StartWorker(s))
  {
    var t := StartWorker(s);
    forall p ensures Fits(t.tokens, t.workers, t.agents, p) { assert Fits(s.tokens, s.workers, s.agents, p); }
  }

  lemma StartWorkerRefs(s: State)
    requires s.tokens.Valid() && RefInv(s)
    ensures StartWorker(s).tokens.Valid() && RefInv(StartWorker(s))
  {
    var t := StartWorker(s);
    forall d | d in t.ctxs ensures RefOk(t.ctxs[d], Claims(t, d)) {
      assert Leavers(t.workers, d) == Leavers(s.workers, d);
    }
  }

  lemma CreatorStepKeeps(s: State, e: Event, t: State)
    requires Inv(s) && StepBy(s, e, t)
    requires e.EConstruct? || e.ERegister? || e.EInitSend? || e.EInitDone? || e.EInitFail?
    ensures Base(t)
  {
    match e
    case EConstruct(a, c) => ConstructCore(s, a, c); ConstructRefs(s, a, c);
    case ERegister(a) => RegisterCore(s, a); RegisterRefs(s, a);
    case EInitSend(a, m) => InitSendCore(s, a, m); InitSendRefs(s, a, m);
    case EInitDone(a) => InitDoneCore(s, a); InitDoneRefs(s, a);
    case EInitFail(a) => InitFailCore(s, a); InitFailRefs(s, a);
  }

  lemma SenderStepKeeps(s: State, e: Event, t: State)
    requires Inv(s) && StepBy(s, e, t)
    requires e.ELookup? || e.ESend? || e.ECountToken? || e.EEnqueue? || e.ERelease?
    ensures Base(t)
  {
    match e
    case ELookup(a, c) => LookupCore(s, a, c); LookupRefs(s, a, c);
    case ESend(a, m) => SendCore(s, a, m); SendRefs(s, a, m);
    case ECountToken(a) => CountTokenCore(s, a); CountTokenRefs(s, a);
    case EEnqueue(a, target) => EnqueueCore(s, a, target); EnqueueRefs(s, a, target);
    case ERelease(a) => ReleaseCore(s, a); ReleaseRefs(s, a);
  }

  lemma IdleStepKeeps(s: State, e: Event, t: State)
    requires Inv(s) && StepBy(s, e, t)
    requires e.EPost? || e.ESeeEmpty? || e.EGiveUp? || e.EWakeUp? || e.EStartWorker?
    ensures Base(t)
  {
    match e
    case EPost(w) => PostCore(s, w); PostRefs(s, w);
    case ESeeEmpty(w) => SeeEmptyCore(s, w); SeeEmptyRefs(s, w);
    case EGiveUp(w) => GiveUpCore(s, w); GiveUpRefs(s, w);
    case EWakeUp(w) => WakeUpCore(s, w); WakeUpRefs(s, w);
    case EStartWorker => StartWorkerCore(s); StartWorkerRefs(s);
  }

  lemma TakeStepKeeps(s: State, e: Event, t: State)
    requires Inv(s) && StepBy(s, e, t)
    requires e.EPopOwn? || e.ESteal? || e.ERunFirst?
    ensures Base(t)
  {
    match e
    case EPopOwn(w) => PopOwnCore(s, w); PopOwnRefs(s, w);
    case ESteal(w, victim) => StealCore(s, w, victim); StealRefs(s, w, victim);
    case ERunFirst(w) => RunFirstCore(s, w); RunFirstRefs(s, w);
  }

  lemma HandleStepKeeps(s: State, e: Event, t: State)
    requires Inv(s) && StepBy(s, e, t)
    requires e.EPopMessage? || e.EFinish?
    ensures Base(t)
  {
    match e
    case EPopMessage(w) => PopMessageCore(s, w); PopMessageRefs(s, w);
    case EFinish(w) => FinishCore(s, w); FinishRefs(s, w);
  }

  lemma RunStepKeeps(s: State, e: Event, t: State)
    requires Inv(s) && StepBy(s, e, t)
    requires e.ESelfSend? || e.ERetire?
    ensures Base(t)
  {
    match e
    case ESelfSend(w, m) => SelfSendCore(s, w, m); SelfSendRefs(s, w, m);
    case ERetire(w) => RetireCore(s, w); RetireRefs(s, w);
  }

  lemma RunEndKeeps(s: State, e: Event, t: State)
    requires Inv(s) && StepBy(s, e, t)
    requires e.EPopNone? || e.EReleaseRun? || e.ERepush? || e.EEndBatch?
    ensures Base(t)
  {
    match e
    case EPopNone(w) => PopNoneCore(s, w); PopNoneRefs(s, w);
    case EReleaseRun(w) => ReleaseRunCore(s, w); ReleaseRunRefs(s, w);
    case ERepush(w, target) => RepushCore(s, w, target); RepushRefs(s, w, target);
    case EEndBatch(w) => EndBatchCore(s, w); EndBatchRefs(s, w);
  }

  predicate SameCreators(agents: map<AgentId, Agent>, agents': map<AgentId, Agent>) {
    && (forall a :: a in agents && agents[a].creating ==> a in agents' && agents'[a] == agents[a])
    && (forall a :: a in agents' && agents'[a].creating ==> a in agents && agents'[a] == agents[a])
  }

  // BornInv needs of a step only that no context that is not inited moves, and that nobody
  // starts or ends creating one.
  lemma BornKept(s: State, t: State)
    requires BornInv(s.ctxs, s.tokens, s.agents)
    requires forall c :: c in t.ctxs ==> c in s.ctxs && t.ctxs[c].inited == s.ctxs[c].inited
    requires SameCreators(s.agents, t.agents)
    requires forall c :: c in t.tokens.at && c in s.ctxs && !s.ctxs[c].inited ==> c in s.tokens.at && t.tokens.at[c] == s.tokens.at[c]
    ensures BornInv(t.ctxs, t.tokens, t.agents)
  {
  }

  // What is anywhere but in the hand of its creator is inited.
  lemma InitedIn(s: State, p: Place)
    requires s.tokens.Valid() && BornInv(s.ctxs, s.tokens, s.agents) && (p.Hand? ==> p.agent in s.agents && !s.agents[p.agent].creating)
    ensures forall c :: c in s.tokens.Slot(p) && c in s.ctxs ==> s.ctxs[c].inited
  {
    forall c | c in s.tokens.Slot(p) && c in s.ctxs ensures s.ctxs[c].inited { assert s.tokens.at[c] == p; }
  }

  lemma MoveBorn(s: State, p: Place, k: nat, q: Place, t: State)
    requires s.tokens.Valid() && BornInv(s.ctxs, s.tokens, s.agents) && (p.Hand? ==> p.agent in s.agents && !s.agents[p.agent].creating)
    requires k <= |s.tokens.Slot(p)| && t.tokens == s.tokens.Move(p, k, q) && t.ctxs == s.ctxs
    requires SameCreators(s.agents, t.agents)
    ensures BornInv(t.ctxs, t.tokens, t.agents)
  {
    InitedIn(s, p);
    assert forall c :: c in s.tokens.Slot(p)[..k] ==> c in s.tokens.Slot(p);
    BornKept(s, t);
  }

  lemma RunFirstBorn(s: State, w: nat)
    requires s.tokens.Valid() && BornInv(s.ctxs, s.tokens, s.agents)
    requires AtPc(s, w, Stolen) && s.tokens.Slot(Segment(w)) != []
    ensures var t := RunFirst(s, w); BornInv(t.ctxs, t.tokens, t.agents)
  {
    var u := State(s.ctxs, s.tokens.Move(Segment(w), 1, Desk(w)), s.agents, s.workers, s.posts);
    MoveBorn(s, Segment(w), 1, Desk(w), u);
    MoveValid(s.tokens, Segment(w), 1, Desk(w));
    MoveBorn(u, Segment(w), |s.tokens.Slot(Segment(w))| - 1, Listed(w), RunFirst(s, w));
  }

  lemma EnqueueBorn(s: State, a: AgentId, target: nat)
    requires s.tokens.Valid() && BornInv(s.ctxs, s.tokens, s.agents)
    requires Pushing(s, a) && s.agents[a].counted && target < |s.workers|
    ensures var t := Enqueue(s, a, target); BornInv(t.ctxs, t.tokens, t.agents)
  {
    var b := Agent(s.agents[a].c, false, false);
    assert Enqueue(s, a, target).agents == s.agents[a := b];
    MoveBorn(s, Hand(a), 1, Listed(target), Enqueue(s, a, target));
  }

  lemma TakeBorn(s: State, e: Event, t: State)
    requires s.tokens.Valid() && BornInv(s.ctxs, s.tokens, s.agents) && StepBy(s, e, t)
    requires e.EPopOwn? || e.ESteal? || e.ERepush? || e.EEnqueue? || e.ERunFirst?
    ensures BornInv(t.ctxs, t.tokens, t.agents)
  {
    match e
    case EPopOwn(w) => MoveBorn(s, Listed(w), 1, Desk(w), t);
    case ESteal(w, victim) => MoveBorn(s, Listed(victim), Half(List(s, victim)), Segment(w), t);
    case ERepush(w, target) => MoveBorn(s, Desk(w), 1, Listed(target), t);
    case EEnqueue(a, target) => EnqueueBorn(s, a, target);
    case ERunFirst(w) => RunFirstBorn(s, w);
  }

  // The creator's own context is nobody else's to create.
  lemma CreatorsApart(s: State, a: AgentId, b: AgentId)
    requires s.tokens.Valid() && Fits(s.tokens, s.workers, s.agents, Hand(a)) && Fits(s.tokens, s.workers, s.agents, Hand(b))
    requires a in s.agents && b in s.agents && a != b && s.agents[b].creating && s.agents[a].creating
    ensures s.agents[a].c != s.agents[b].c
  {
    var c, d := s.agents[a].c, s.agents[b].c;
    assert s.tokens.Slot(Hand(a)) == [c] && s.tokens.Slot(Hand(b)) == [d];
    assert c in s.tokens.Slot(Hand(a)) && d in s.tokens.Slot(Hand(b));
    assert s.tokens.at[c] == Hand(a) && s.tokens.at[d] == Hand(b);
  }

  lemma InitDoneBorn(s: State, a: AgentId)
    requires s.tokens.Valid() && ShapeInv(s.tokens, s.workers, s.agents) && BornInv(s.ctxs, s.tokens, s.agents)
    requires Creating(s, a) && s.ctxs[s.agents[a].c].registered
    ensures var t := InitDone(s, a); BornInv(t.ctxs, t.tokens, t.agents)
  {
    forall b | b in s.agents && s.agents[b].creating && b != a ensures s.agents[b].c != s.agents[a].c {
      assert Fits(s.tokens, s.workers, s.agents, Hand(a)) && Fits(s.tokens, s.workers, s.agents, Hand(b));
      CreatorsApart(s, a, b);
    }
    assert Fits(s.tokens, s.workers, s.agents, Hand(a));
    assert forall c :: c in s.tokens.at ==> c in s.tokens.Slot(s.tokens.at[c]);
  }

  lemma InitFailBorn(s: State, a: AgentId)
    requires s.tokens.Valid() && ShapeInv(s.tokens, s.workers, s.agents) && BornInv(s.ctxs, s.tokens, s.agents)
    requires Creating(s, a) && HandFull(s, a) && s.ctxs[s.agents[a].c].mailbox == []
    ensures var t := InitFail(s, a); BornInv(t.ctxs, t.tokens, t.agents)
  {
    assert Fits(s.tokens, s.workers, s.agents, Hand(a));
    assert forall c :: c in s.tokens.at ==> c in s.tokens.Slot(s.tokens.at[c]);
  }

  lemma ConstructBorn(s: State, a: AgentId, c: CtxId)
    requires Known(s.ctxs, s.agents, s.workers) && BornInv(s.ctxs, s.tokens, s.agents)
    requires a !in s.agents && c !in s.ctxs
    ensures var t := Construct(s, a, c); BornInv(t.ctxs, t.tokens, t.agents)
  {
  }

  // A step that leaves every token where it is, or takes or gives one of an inited context.
  lemma OtherBorn(s: State, e: Event, t: State)
    requires s.tokens.Valid() && BornInv(s.ctxs, s.tokens, s.agents) && StepBy(s, e, t)
    requires e.ERegister? || e.EInitSend? || e.ELookup? || e.ESend? || e.ECountToken? || e.ERelease?
    ensures BornInv(t.ctxs, t.tokens, t.agents)
  {
    BornKept(s, t);
  }

  lemma IdleBorn(s: State, e: Event, t: State)
    requires BornInv(s.ctxs, s.tokens, s.agents) && StepBy(s, e, t)
    requires e.EPost? || e.EStartWorker? || e.ESeeEmpty? || e.EGiveUp? || e.EWakeUp? || e.EEndBatch? || e.EFinish?
    ensures BornInv(t.ctxs, t.tokens, t.agents)
  {
  }

  lemma WorkerBorn(s: State, e: Event, t: State)
    requires s.tokens.Valid() && BornInv(s.ctxs, s.tokens, s.agents) && StepBy(s, e, t)
    requires e.EPopMessage? || e.ESelfSend? || e.ERetire?
    ensures BornInv(t.ctxs, t.tokens, t.agents)
  {
    BornKept(s, t);
  }

  lemma CreatorBorn(s: State, e: Event, t: State)
    requires s.tokens.Valid() && Core(s) && BornInv(s.ctxs, s.tokens, s.agents) && StepBy(s, e, t)
    requires e.EConstruct? || e.EInitDone? || e.EInitFail?
    ensures BornInv(t.ctxs, t.tokens, t.agents)
  {
    match e
    case EConstruct(a, c) => ConstructBorn(s, a, c);
    case EInitDone(a) => InitDoneBorn(s, a);
    case EInitFail(a) => InitFailBorn(s, a);
  }

  lemma LeaveBorn(s: State, e: Event, t: State)
    requires s.tokens.Valid() && BornInv(s.ctxs, s.tokens, s.agents) && StepBy(s, e, t) && (e.EPopNone? || e.EReleaseRun?)
    ensures BornInv(t.ctxs, t.tokens, t.agents)
  {
    BornKept(s, t);
  }
}
