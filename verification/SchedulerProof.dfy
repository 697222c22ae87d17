/** What every step and so every run of the scheduler keeps, and what it says of every reachable state. */
module SchedulerProof {
  import opened Basics
  import opened RunQueue
  import opened Tokens
  import opened Scheduler
  import opened SchedulerInv
  import opened SchedulerSteps

  lemma BornStep(s: State, e: Event, t: State)
    requires s.tokens.Valid() && Core(s) && BornInv(s.ctxs, s.tokens, s.agents) && StepBy(s, e, t)
    ensures BornInv(t.ctxs, t.tokens, t.agents)
  {
    if e.EConstruct? || e.EInitDone? || e.EInitFail? { CreatorBorn(s, e, t); }
    else if e.EPopOwn? || e.ESteal? || e.ERepush? || e.EEnqueue? || e.ERunFirst? { TakeBorn(s, e, t); }
    else if e.ERegister? || e.EInitSend? || e.ELookup? || e.ESend? || e.ECountToken? || e.ERelease? { OtherBorn(s, e, t); }
    else if e.EPost? || e.EStartWorker? || e.ESeeEmpty? || e.EGiveUp? || e.EWakeUp? || e.EEndBatch? || e.EFinish? { IdleBorn(s, e, t); }
    else if e.EPopMessage? || e.ESelfSend? || e.ERetire? { WorkerBorn(s, e, t); }
    else { LeaveBorn(s, e, t); }
  }

  lemma StepKeepsInv(s: State, e: Event, t: State)
    requires Inv(s) && StepBy(s, e, t)
    ensures Inv(t)
  {
    BornStep(s, e, t);
    if e.EConstruct? || e.ERegister? || e.EInitSend? || e.EInitDone? || e.EInitFail? { CreatorStepKeeps(s, e, t); }
    else if e.ELookup? || e.ESend? || e.ECountToken? || e.EEnqueue? || e.ERelease? { SenderStepKeeps(s, e, t); }
    else if e.EPost? || e.ESeeEmpty? || e.EGiveUp? || e.EWakeUp? || e.EStartWorker? { IdleStepKeeps(s, e, t); }
    else if e.EPopOwn? || e.ESteal? || e.ERunFirst? { TakeStepKeeps(s, e, t); }
    else if e.EPopMessage? || e.EFinish? { HandleStepKeeps(s, e, t); }
    else if e.ESelfSend? || e.ERetire? { RunStepKeeps(s, e, t); }
    else { RunEndKeeps(s, e, t); }
  }

  lemma StepInv(s: State, t: State)
    requires Inv(s) && Step(s, t)
    ensures Inv(t)
  {
    var e :| StepBy(s, e, t);
    StepKeepsInv(s, e, t);
  }

  lemma {:induction false} RunKeepsInv(n: nat, s: State)
    requires ReachableIn(n, s)
    ensures Inv(s)
  {
    if n == 0 { InitInv(s); }
    else {
      var p :| ReachableIn(n - 1, p) && Step(p, s);
      RunKeepsInv(n - 1, p);
      StepInv(p, s);
    }
  }

  lemma InitInv(s: State)
    requires Init(s)
    ensures Inv(s)
  {
    assert forall p :: s.tokens.Slot(p) == [];
    assert forall p :: Fits(s.tokens, s.workers, s.agents, p);
  }

  lemma ReachableInv(s: State)
    requires Reachable(s)
    ensures Inv(s)
  {
    var n :| ReachableIn(n, s);
    RunKeepsInv(n, s);
  }

  // ----- what the invariant says

  ghost predicate HasToken(s: State, c: CtxId) { exists p :: c in s.tokens.Slot(p) }

  // The token of a context is in at most one list, segment, hand or desk, once; it exists
  // exactly while `processing` is set, unless the creator's init failed.
  lemma TokenInOnePlace(s: State, c: CtxId)
    requires Reachable(s) && c in s.ctxs
    ensures forall p, i, q, j :: 0 <= i < |s.tokens.Slot(p)| && 0 <= j < |s.tokens.Slot(q)| && s.tokens.Slot(p)[i] == c == s.tokens.Slot(q)[j]
              ==> p == q && i == j
    ensures HasToken(s, c) <==> s.ctxs[c].processing && !s.ctxs[c].failed
  {
    ReachableInv(s);
    forall p, i, q, j | 0 <= i < |s.tokens.Slot(p)| && 0 <= j < |s.tokens.Slot(q)| && s.tokens.Slot(p)[i] == c == s.tokens.Slot(q)[j]
      ensures p == q && i == j
    {
      TokenIsUnique(s.tokens, p, i, q, j);
    }
    if c in s.tokens.at { assert c in s.tokens.Slot(s.tokens.at[c]); }
  }

  lemma NoTwoWorkersRunOne(s: State, v: nat, w: nat)
    requires Reachable(s)
    requires v < |s.workers| && w < |s.workers| && OnDesk(s.workers[v].pc) && OnDesk(s.workers[w].pc)
    requires s.tokens.Slot(Desk(v)) != [] && s.tokens.Slot(Desk(w)) != [] && Current(s, v) == Current(s, w)
    ensures v == w
  {
    ReachableInv(s);
    TokenIsUnique(s.tokens, Desk(v), 0, Desk(w), 0);
  }

  // No lost wakeup: a context with mail has its token somewhere, and a worker about to
  // sleep or asleep with work in its list has a semaphore count or a post on the way.
  lemma NoLostWakeup(s: State)
    requires Reachable(s)
    ensures forall c :: c in s.ctxs && s.ctxs[c].mailbox != [] ==> HasToken(s, c)
    ensures forall w: nat :: w < |s.workers| && (s.workers[w].pc.Stealing? || s.workers[w].pc.Waiting?) && List(s, w) != []
              ==> s.workers[w].sem > 0 || w in s.posts
  {
    ReachableInv(s);
    forall c | c in s.ctxs && s.ctxs[c].mailbox != [] ensures HasToken(s, c) {
      assert MailOk(s.ctxs[c]);
      assert c in s.tokens.Slot(s.tokens.at[c]);
    }
  }

  // Every accepted message is received, dropped or in the mailbox, once and in order; messages
  // are dropped only after retirement, each dropped query whose sender waits is answered once,
  // and a context that never came to life was sent nothing.
  lemma MailboxIsFifo(s: State, c: CtxId)
    requires Reachable(s) && c in s.ctxs
    ensures s.ctxs[c].accepted == s.ctxs[c].received + s.ctxs[c].dropped + s.ctxs[c].mailbox
    ensures s.ctxs[c].dropped != [] ==> !s.ctxs[c].registered
    ensures s.ctxs[c].answered == Asking(s.ctxs[c].dropped)
    ensures s.ctxs[c].failed ==> s.ctxs[c].accepted == []
  {
    ReachableInv(s);
    assert MailOk(s.ctxs[c]);
  }

  predicate Retired(x: Ctx) { x.inited && !x.registered }

  predicate StaysRetired(x: Ctx, y: Ctx) { Retired(x) ==> Retired(y) && y.received == x.received }

  lemma CreatorLeavesRetired(s: State, e: Event, t: State, c: CtxId)
    requires BornInv(s.ctxs, s.tokens, s.agents) && StepBy(s, e, t) && c in s.ctxs
    requires e.EConstruct? || e.ERegister? || e.EInitSend? || e.EInitDone? || e.EInitFail?
    ensures c in t.ctxs && StaysRetired(s.ctxs[c], t.ctxs[c])
  {
  }

  lemma SenderLeavesRetired(s: State, e: Event, t: State, c: CtxId)
    requires StepBy(s, e, t) && c in s.ctxs
    requires e.ELookup? || e.ESend? || e.ECountToken? || e.EEnqueue? || e.ERelease?
    ensures c in t.ctxs && StaysRetired(s.ctxs[c], t.ctxs[c])
  {
  }

  lemma RunLeavesRetired(s: State, e: Event, t: State, c: CtxId)
    requires StepBy(s, e, t) && c in s.ctxs
    requires e.EPopMessage? || e.EPopNone? || e.ESelfSend? || e.ERetire? || e.EReleaseRun?
    ensures c in t.ctxs && StaysRetired(s.ctxs[c], t.ctxs[c])
  {
  }

  lemma IdleLeavesRetired(s: State, e: Event, t: State, c: CtxId)
    requires StepBy(s, e, t) && c in s.ctxs
    requires e.EPost? || e.EStartWorker? || e.EPopOwn? || e.ESeeEmpty? || e.EGiveUp? || e.ESteal? || e.EWakeUp? || e.ERunFirst?
      || e.EEndBatch? || e.EFinish? || e.ERepush?
    ensures t.ctxs == s.ctxs
  {
  }

  lemma RetiredStep(s: State, e: Event, t: State, c: CtxId)
    requires BornInv(s.ctxs, s.tokens, s.agents) && StepBy(s, e, t) && c in s.ctxs
    ensures c in t.ctxs && StaysRetired(s.ctxs[c], t.ctxs[c])
  {
    if e.EConstruct? || e.ERegister? || e.EInitSend? || e.EInitDone? || e.EInitFail? { CreatorLeavesRetired(s, e, t, c); }
    else if e.ELookup? || e.ESend? || e.ECountToken? || e.EEnqueue? || e.ERelease? { SenderLeavesRetired(s, e, t, c); }
    else if e.EPopMessage? || e.EPopNone? || e.ESelfSend? || e.ERetire? || e.EReleaseRun? { RunLeavesRetired(s, e, t, c); }
    else { IdleLeavesRetired(s, e, t, c); }
  }

  // n steps of a relation lead from s to t.
  ghost predicate Leads<T(!new)>(n: nat, rel: (T, T) -> bool, s: T, t: T) {
    if n == 0 then s == t else exists p :: Leads(n - 1, rel, s, p) && rel(p, t)
  }

  lemma {:induction false} Carried<T(!new)>(n: nat, rel: (T, T) -> bool, keeps: T -> bool, s: T, t: T)
    requires forall x, y :: keeps(x) && rel(x, y) ==> keeps(y)
    requires keeps(s) && Leads(n, rel, s, t)
    ensures keeps(t)
  {
    if n > 0 {
      var p :| Leads(n - 1, rel, s, p) && rel(p, t);
      Carried(n - 1, rel, keeps, s, p);
    }
  }

  ghost function Stepping(): (State, State) -> bool { (x, y) => Step(x, y) }

  ghost predicate LeftRetired(x: Ctx, c: CtxId, t: State) { Inv(t) && c in t.ctxs && StaysRetired(x, t.ctxs[c]) }

  lemma StepLeaves(x: Ctx, c: CtxId, s: State, t: State)
    requires LeftRetired(x, c, s) && Step(s, t)
    ensures LeftRetired(x, c, t)
  {
    var e :| StepBy(s, e, t);
    StepKeepsInv(s, e, t);
    RetiredStep(s, e, t, c);
  }

  lemma StepsLeave(n: nat, x: Ctx, c: CtxId, s: State, t: State)
    requires LeftRetired(x, c, s) && Leads(n, Stepping(), s, t)
    ensures LeftRetired(x, c, t)
  {
    var keeps := (y: State) => LeftRetired(x, c, y);
    forall p, q | keeps(p) && Stepping()(p, q) ensures keeps(q) { StepLeaves(x, c, p, q); }
    Carried(n, Stepping(), keeps, s, t);
  }

  // A retired context stays so and receives nothing more: what it is sent from then on is dropped
  // or stays in its mailbox.
  lemma NothingAfterRetirement(n: nat, s: State, t: State, c: CtxId)
    requires Reachable(s) && Leads(n, Stepping(), s, t) && c in s.ctxs && Retired(s.ctxs[c])
    ensures c in t.ctxs && Retired(t.ctxs[c]) && t.ctxs[c].received == s.ctxs[c].received
    ensures t.ctxs[c].accepted == s.ctxs[c].received + t.ctxs[c].dropped + t.ctxs[c].mailbox
  {
    ReachableInv(s);
    StepsLeave(n, s.ctxs[c], c, s, t);
    assert MailOk(t.ctxs[c]);
  }

  // The reference count is exactly the registration, the counted token, the owning threads
  // and the leaving workers; the context is deleted when, and only when, none is left.
  lemma ReferencesConserved(s: State, c: CtxId)
    requires Reachable(s) && c in s.ctxs
    ensures s.ctxs[c].ref == One(s.ctxs[c].registered) + One(TokenCounted(s.tokens, s.agents, c)) + |Owners(s.agents, c)| + |Leavers(s.workers, c)|
    ensures s.ctxs[c].deletes <= 1
    ensures s.ctxs[c].deletes == 1 <==>
              !s.ctxs[c].registered && !TokenCounted(s.tokens, s.agents, c) && Owners(s.agents, c) == {} && Leavers(s.workers, c) == {}
  {
    ReachableInv(s);
    assert RefOk(s.ctxs[c], Claims(s, c));
  }

  // The contexts a step may read or write: the agent's own, and those stored in some places.
  function TouchedPlaces(e: Event): set<Place> {
    match e
    case EEnqueue(_, target) => {Listed(target)}
    case EPopOwn(w) => {Listed(w)}
    case ESteal(_, victim) => {Listed(victim)}
    case ERunFirst(w) => {Segment(w), Listed(w)}
    case ERepush(w, target) => {Desk(w), Listed(target)}
    case EPopMessage(w) => {Desk(w)}
    case EPopNone(w) => {Desk(w)}
    case EEndBatch(w) => {Desk(w)}
    case ESelfSend(w, _) => {Desk(w)}
    case ERetire(w) => {Desk(w)}
    case EFinish(w) => {Desk(w)}
    case _ => {}
  }

  predicate IsAgentStep(e: Event) {
    e.ERegister? || e.EInitSend? || e.EInitDone? || e.EInitFail? || e.ESend? || e.ECountToken? || e.EEnqueue? || e.ERelease?
  }

  predicate Touches(s: State, e: Event, c: CtxId) {
    || (exists p :: p in TouchedPlaces(e) && c in s.tokens.Slot(p))
    || (IsAgentStep(e) && e.a in s.agents && s.agents[e.a].c == c)
    || (e.ELookup? && e.c == c)
    || (e.EReleaseRun? && e.w < |s.workers| && s.workers[e.w].pc == Leaving(c))
  }

  // A context that is registered, owned, stored in a place, or being left is not deleted.
  lemma ClaimedIsAlive(s: State, c: CtxId)
    requires Inv(s) && c in s.ctxs && (s.ctxs[c].registered || Claims(s, c) > 0)
    ensures s.ctxs[c].deletes == 0
  {
    assert RefOk(s.ctxs[c], Claims(s, c));
  }

  lemma StoredIsClaimed(s: State, p: Place, c: CtxId)
    requires Inv(s) && c in s.tokens.Slot(p)
    ensures c in s.ctxs && Claims(s, c) > 0
  {
    assert Fits(s.tokens, s.workers, s.agents, p);
    if p.Hand? { OwnerCounts(s.agents, p.agent); }
  }

  // No step touches a context that has been deleted.
  lemma NoUseAfterDelete(s: State, e: Event, t: State, c: CtxId)
    requires Reachable(s) && StepBy(s, e, t) && Touches(s, e, c)
    ensures c in s.ctxs && s.ctxs[c].deletes == 0
  {
    ReachableInv(s);
    if exists p :: p in TouchedPlaces(e) && c in s.tokens.Slot(p) {
      var p :| p in TouchedPlaces(e) && c in s.tokens.Slot(p);
      StoredIsClaimed(s, p, c);
    } else if e.EReleaseRun? {
      assert e.w in Leavers(s.workers, c);
    } else if e.ELookup? {
      assert s.ctxs[c].registered;
    } else {
      OwnerCounts(s.agents, e.a);
    }
    ClaimedIsAlive(s, c);
  }

  // The steps by which the holder of a token, or the pusher that owes its worker a post, goes on.
  predicate Drives(e: Event, p: Place) {
    match p
    case Hand(a) => e == EInitDone(a) || e == ECountToken(a) || (e.EEnqueue? && e.a == a)
    case Listed(w) => e == EPost(w) || WorkerOf(e, w)
    case Segment(w) => WorkerOf(e, w)
    case Desk(w) => WorkerOf(e, w)
  }

  predicate WorkerOf(e: Event, w: nat) {
    || e == EPopOwn(w) || e == EGiveUp(w) || e == EWakeUp(w) || e == ERunFirst(w) || e == EPopMessage(w) || e == EPopNone(w)
    || e == EFinish(w) || e == EReleaseRun(w) || (e.ERepush? && e.w == w)
  }

  // While a context has mail, whoever must act next for it can act: nothing is stuck.
  lemma MailCanProgress(s: State, c: CtxId) returns (e: Event, t: State)
    requires Reachable(s) && c in s.ctxs && s.ctxs[c].mailbox != []
    ensures c in s.tokens.at && StepBy(s, e, t) && Drives(e, s.tokens.at[c])
  {
    ReachableInv(s);
    assert MailOk(s.ctxs[c]);
    var p := s.tokens.at[c];
    assert c in s.tokens.Slot(p);
    assert Fits(s.tokens, s.workers, s.agents, p);
    match p
    case Hand(a) =>
      if s.agents[a].creating { e, t := EInitDone(a), InitDone(s, a); }
      else if s.agents[a].counted { e, t := EEnqueue(a, 0), Enqueue(s, a, 0); }
      else { e, t := ECountToken(a), CountToken(s, a); }
    case _ =>
      e, t := WorkerCanGoOn(s, p.worker, p);
  }

  lemma WorkerCanGoOn(s: State, w: nat, p: Place) returns (e: Event, t: State)
    requires Inv(s) && w < |s.workers| && (p == Listed(w) || p == Segment(w) || p == Desk(w)) && s.tokens.Slot(p) != []
    ensures StepBy(s, e, t) && Drives(e, p)
  {
    assert Fits(s.tokens, s.workers, s.agents, Desk(w)) && Fits(s.tokens, s.workers, s.agents, Segment(w));
    match s.workers[w].pc
    case Looking => e, t := EPopOwn(w), PopOwn(s, w);
    case Stealing => e, t := EGiveUp(w), GiveUp(s, w);
    case Waiting => e, t := SleeperCanGoOn(s, w, p);
    case Stolen => e, t := ERunFirst(w), RunFirst(s, w);
    case Leaving(_) => e, t := EReleaseRun(w), ReleaseRun(s, w);
    case _ => e, t := RunnerCanGoOn(s, w, p);
  }

  lemma SleeperCanGoOn(s: State, w: nat, p: Place) returns (e: Event, t: State)
    requires WakeInv(s.tokens, s.workers, s.posts) && AtPc(s, w, Waiting) && p == Listed(w) && s.tokens.Slot(p) != []
    ensures StepBy(s, e, t) && Drives(e, p)
  {
    if s.workers[w].sem > 0 { e, t := EWakeUp(w), WakeUp(s, w); } else { e, t := EPost(w), Post(s, w); }
  }

  lemma RunnerCanGoOn(s: State, w: nat, p: Place) returns (e: Event, t: State)
    requires Inv(s) && w < |s.workers| && (p == Listed(w) || p == Desk(w)) && OnDesk(s.workers[w].pc)
    ensures StepBy(s, e, t) && Drives(e, p)
  {
    assert Fits(s.tokens, s.workers, s.agents, Desk(w));
    assert s.tokens.Slot(Desk(w))[0] in s.tokens.Slot(Desk(w));
    match s.workers[w].pc
    case Running =>
      if s.ctxs[Current(s, w)].mailbox != [] { e, t := EPopMessage(w), PopMessage(s, w); }
      else { e, t := EPopNone(w), PopNone(s, w); }
    case Handling => e, t := EFinish(w), Finish(s, w);
    case Repushing => e, t := ERepush(w, 0), Repush(s, w, 0);
  }
}
