/** What a run of the scheduler, told by its events alone, does to a mailbox. */
module SchedulerRuns {
  import opened Basics
  import opened RunQueue
  import opened Tokens
  import opened Scheduler
  import opened SchedulerInv
  import opened SchedulerProof

  // The run of the events es passes through the states ss.
  ghost predicate Run(es: seq<Event>, ss: seq<State>) {
    |ss| == |es| + 1 &&
    if es == [] then Init(ss[0])
    else Run(es[..|es| - 1], ss[..|es|]) && StepBy(ss[|es| - 1], es[|es| - 1], ss[|es|])
  }

  // The context thread a creates or sends to: that of its last construction or lookup.
  function Target(es: seq<Event>, a: AgentId): CtxId {
    if es == [] then 0
    else match es[|es| - 1]
      case EConstruct(b, c) => if b == a then c else Target(es[..|es| - 1], a)
      case ELookup(b, c) => if b == a then c else Target(es[..|es| - 1], a)
      case _ => Target(es[..|es| - 1], a)
  }

  // Event e, after the events es and in state s, is about context c.
  predicate Concerns(es: seq<Event>, s: State, e: Event, c: CtxId) {
    match e
    case ESend(a, _) => Target(es, a) == c
    case EInitSend(a, _) => Target(es, a) == c
    case ERegister(a) => Target(es, a) == c
    case EInitFail(a) => Target(es, a) == c
    case ESelfSend(w, _) => s.tokens.Slot(Desk(w)) == [c]
    case ERetire(w) => s.tokens.Slot(Desk(w)) == [c]
    case _ => false
  }

  function Message1(e: Event): seq<Message> {
    match e case ESend(_, m) => [m] case EInitSend(_, m) => [m] case ESelfSend(_, m) => [m] case _ => []
  }

  // The messages the events of a run send to c, in order.
  function SentTo(es: seq<Event>, ss: seq<State>, c: CtxId): seq<Message>
    requires |ss| == |es| + 1
  {
    if es == [] then [] else
    var n := |es| - 1;
    SentTo(es[..n], ss[..n + 1], c) + if Concerns(es[..n], ss[n], es[n], c) then Message1(es[n]) else []
  }

  // Registered by the last event that says so.
  predicate Registered(es: seq<Event>, ss: seq<State>, c: CtxId)
    requires |ss| == |es| + 1
  {
    if es == [] then false else
    var n := |es| - 1;
    if Concerns(es[..n], ss[n], es[n], c) && Message1(es[n]) == [] then es[n].ERegister?
    else Registered(es[..n], ss[..n + 1], c)
  }

  ghost predicate Targeted(es: seq<Event>, s: State) { forall a :: a in s.agents ==> s.agents[a].c == Target(es, a) }

  function Flow(x: Ctx): seq<Message> { x.received + x.dropped + x.mailbox }

  function MailOf(s: State, c: CtxId): seq<Message> { if c in s.ctxs then Flow(s.ctxs[c]) else [] }

  predicate IsRegistered(s: State, c: CtxId) { c in s.ctxs && s.ctxs[c].registered }

  // What one event does to context c.
  predicate Does(es: seq<Event>, s: State, e: Event, t: State, c: CtxId) {
    && MailOf(t, c) == MailOf(s, c) + (if Concerns(es, s, e, c) then Message1(e) else [])
    && IsRegistered(t, c) ==
         if Concerns(es, s, e, c) && Message1(e) == [] then e.ERegister? else IsRegistered(s, c)
  }

  lemma TargetOn(es: seq<Event>, e: Event, s: State, t: State)
    requires Targeted(es, s) && StepBy(s, e, t)
    ensures Targeted(es + [e], t)
  {
    assert (es + [e])[..|es|] == es;
    if e.EConstruct? || e.EInitDone? || e.EInitFail? || e.ELookup? || e.ECountToken? || e.EEnqueue? || e.ERelease? {
      forall a | a in t.agents ensures t.agents[a].c == Target(es + [e], a) { ThreadKeeps(s, e, t, a); }
    } else {
      OthersKeep(s, e, t);
    }
  }

  // A thread keeps its context from its construction or lookup on.
  predicate KeepsContext(s: State, e: Event, t: State, a: AgentId) {
    a in t.agents ==>
      if (e.EConstruct? || e.ELookup?) && e.a == a then t.agents[a].c == e.c
      else a in s.agents && t.agents[a].c == s.agents[a].c
  }

  lemma ThreadKeeps(s: State, e: Event, t: State, a: AgentId)
    requires StepBy(s, e, t)
    requires e.EConstruct? || e.EInitDone? || e.EInitFail? || e.ELookup? || e.ECountToken? || e.EEnqueue? || e.ERelease?
    ensures KeepsContext(s, e, t, a)
  {
  }

  lemma OthersKeep(s: State, e: Event, t: State)
    requires StepBy(s, e, t)
    requires !(e.EConstruct? || e.EInitDone? || e.EInitFail? || e.ELookup? || e.ECountToken? || e.EEnqueue? || e.ERelease?)
    ensures t.agents == s.agents
  {
  }

  lemma CreatorDoes(es: seq<Event>, s: State, e: Event, t: State, c: CtxId)
    requires Known(s.ctxs, s.agents, s.workers) && Targeted(es, s) && StepBy(s, e, t)
    requires e.EConstruct? || e.ERegister? || e.EInitSend? || e.EInitDone? || e.EInitFail?
    ensures Does(es, s, e, t, c)
  {
  }

  lemma SenderDoes(es: seq<Event>, s: State, e: Event, t: State, c: CtxId)
    requires Targeted(es, s) && StepBy(s, e, t)
    requires e.ELookup? || e.ESend? || e.ECountToken? || e.EEnqueue? || e.ERelease?
    ensures Does(es, s, e, t, c)
  {
  }

  lemma RunnerDoes(es: seq<Event>, s: State, e: Event, t: State, c: CtxId)
    requires StepBy(s, e, t) && (e.EPopNone? || e.ESelfSend? || e.ERetire? || e.EReleaseRun?)
    ensures Does(es, s, e, t, c)
  {
  }

  lemma PopDoes(es: seq<Event>, s: State, w: nat, t: State, c: CtxId)
    requires MailInv(s) && StepBy(s, EPopMessage(w), t)
    ensures Does(es, s, EPopMessage(w), t, c)
  {
    var x := s.ctxs[Current(s, w)];
    assert MailOk(x);
    HandledFlow(x);
  }

  // Dropping begins when receiving has ended.
  lemma HandledFlow(x: Ctx)
    requires MailOk(x) && x.mailbox != []
    ensures Flow(Handle(x)) == Flow(x)
  {
    assert x.mailbox == [x.mailbox[0]] + x.mailbox[1..];
  }

  lemma IdleDoes(es: seq<Event>, s: State, e: Event, t: State, c: CtxId)
    requires StepBy(s, e, t)
    requires e.EPost? || e.EStartWorker? || e.EPopOwn? || e.ESeeEmpty? || e.EGiveUp? || e.ESteal? || e.EWakeUp? || e.ERunFirst?
      || e.EEndBatch? || e.EFinish? || e.ERepush?
    ensures Does(es, s, e, t, c)
  {
    assert t.ctxs == s.ctxs;
  }

  lemma EventDoes(es: seq<Event>, s: State, e: Event, t: State, c: CtxId)
    requires Core(s) && MailInv(s) && Targeted(es, s) && StepBy(s, e, t)
    ensures Does(es, s, e, t, c)
  {
    if e.EConstruct? || e.ERegister? || e.EInitSend? || e.EInitDone? || e.EInitFail? { CreatorDoes(es, s, e, t, c); }
    else if e.ELookup? || e.ESend? || e.ECountToken? || e.EEnqueue? || e.ERelease? { SenderDoes(es, s, e, t, c); }
    else if e.EPopMessage? { PopDoes(es, s, e.w, t, c); }
    else if e.EPopNone? || e.ESelfSend? || e.ERetire? || e.EReleaseRun? { RunnerDoes(es, s, e, t, c); }
    else { IdleDoes(es, s, e, t, c); }
  }

  // All that holds after the events es.
  ghost predicate Told(es: seq<Event>, ss: seq<State>, c: CtxId) {
    && |ss| == |es| + 1 && Inv(ss[|es|]) && Targeted(es, ss[|es|])
    && MailOf(ss[|es|], c) == SentTo(es, ss, c)
    && IsRegistered(ss[|es|], c) == Registered(es, ss, c)
  }

  lemma ToldNext(es: seq<Event>, ss: seq<State>, c: CtxId)
    requires |ss| == |es| + 1 > 1 && Told(es[..|es| - 1], ss[..|es|], c) && StepBy(ss[|es| - 1], es[|es| - 1], ss[|es|])
    ensures Told(es, ss, c)
  {
    var n := |es| - 1;
    assert ss[..n + 1][n] == ss[n] && es[..n] + [es[n]] == es;
    StepKeepsInv(ss[n], es[n], ss[n + 1]);
    StepTells(es[..n], ss[n], es[n], ss[n + 1], c);
  }

  lemma StepTells(es: seq<Event>, s: State, e: Event, t: State, c: CtxId)
    requires Inv(s) && Targeted(es, s) && StepBy(s, e, t)
    ensures Targeted(es + [e], t) && Does(es, s, e, t, c)
  {
    TargetOn(es, e, s, t);
    EventDoes(es, s, e, t, c);
  }

  lemma {:induction false} RunTells(es: seq<Event>, ss: seq<State>, c: CtxId)
    requires Run(es, ss)
    ensures Told(es, ss, c)
  {
    if es == [] { ToldFirst(ss, c); }
    else {
      RunTells(es[..|es| - 1], ss[..|es|], c);
      ToldNext(es, ss, c);
    }
  }

  lemma ToldFirst(ss: seq<State>, c: CtxId)
    requires |ss| == 1 && Init(ss[0])
    ensures Told([], ss, c)
  {
    InitInv(ss[0]);
  }

  // What c received, dropped and still has in its mailbox are, in order, exactly the messages the
  // events sent to it; it is registered by the events alone; and of the messages dropped exactly
  // the queries with a source and a session have been answered, each as often as it was dropped.
  lemma MailIsWhatWasSent(es: seq<Event>, ss: seq<State>, c: CtxId)
    requires Run(es, ss) && c in ss[|es|].ctxs
    ensures var x := ss[|es|].ctxs[c];
      && x.received + x.dropped + x.mailbox == SentTo(es, ss, c)
      && x.registered == Registered(es, ss, c)
      && forall m :: multiset(x.answered)[m] ==
           if m.kind == 2 && m.source != 0 && m.session != -1 then multiset(x.dropped)[m] else 0
  {
    RunTells(es, ss, c);
    var x := ss[|es|].ctxs[c];
    assert MailOk(x);
    forall m ensures multiset(x.answered)[m] ==
      if m.kind == 2 && m.source != 0 && m.session != -1 then multiset(x.dropped)[m] else 0
    {
      AnsweredQueries(x.dropped, m);
    }
  }

  lemma {:induction false} AnsweredQueries(ms: seq<Message>, m: Message)
    ensures multiset(Asking(ms))[m] == if m.kind == 2 && m.source != 0 && m.session != -1 then multiset(ms)[m] else 0
  {
    if ms != [] {
      AnsweredQueries(ms[..|ms| - 1], m);
      assert ms == ms[..|ms| - 1] + [ms[|ms| - 1]];
    }
  }
}
