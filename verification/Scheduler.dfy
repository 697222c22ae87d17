/**
 The work-stealing scheduler (worker_mgr, context_queue, context, node_lua) as a
 transition system.  One step is one lock-protected section or one atomic
 reference operation; reads made outside a lock (list lengths, handles, loop
 guards) are left open, so every choice they could make is a step.

 A context owns a mailbox and the bit `processing`.  That bit stands for a single
 token: the duty to run the context.
 */
module Scheduler {
  import opened RunQueue
  import opened Tokens

  type AgentId = nat
  const CONTEXT_QUERY := 2
  const REFNIL := -1

  datatype Message = Message(source: nat, session: int, kind: nat)

  datatype Ctx = Ctx(
    registered: bool,
    inited: bool,                // history: set_inited(true) was called
    failed: bool,                // history: `init` returned false
    processing: bool, ref: int,
    deletes: nat,                // history: how often `delete this` ran
    mailbox: seq<Message>,
    accepted: seq<Message>,      // history: every message accepted, in lock order
    received: seq<Message>,      // history: every message handed to on_received, in order
    dropped: seq<Message>,       // history: every message handed to on_dropped, in order
    answered: seq<Message>)      // history: the queries on_dropped answered with NL_ENOREPLY, in order

  // A thread inside context_create or context_send.  It owns one reference.
  // `counted`: the grab of push_context has been made for the token in its hand.
  datatype Agent = Agent(c: CtxId, creating: bool, counted: bool)

  datatype Pc =
    | Looking                    // top of the loop of worker_process
    | Stealing                   // own list seen empty
    | Waiting                    // blocked on the semaphore
    | Stolen                     // a segment is cut out
    | Running
    | Handling
    | Repushing
    | Leaving(c: CtxId)          // mailbox seen empty, run reference not yet released
  datatype Worker = Worker(sem: nat, pc: Pc)

  datatype State = State(
    ctxs: map<CtxId, Ctx>,
    tokens: Tokens,
    agents: map<AgentId, Agent>,
    workers: seq<Worker>,
    posts: multiset<nat>)        // semaphore posts owed by pushers past their unlock

  // ----- views and small updates

  function List(s: State, w: nat): seq<CtxId> { s.tokens.Slot(Listed(w)) }

  predicate AtPc(s: State, w: nat, pc: Pc) { w < |s.workers| && s.workers[w].pc == pc }

  predicate OnDesk(pc: Pc) { pc.Running? || pc.Handling? || pc.Repushing? }

  // Worker w is at pc with a context on its desk.
  predicate RunsAt(s: State, w: nat, pc: Pc) {
    AtPc(s, w, pc) && |s.tokens.Slot(Desk(w))| == 1 && s.tokens.Slot(Desk(w))[0] in s.ctxs
  }

  function Current(s: State, w: nat): CtxId
    requires s.tokens.Slot(Desk(w)) != []
  {
    s.tokens.Slot(Desk(w))[0]
  }

  predicate HandFull(s: State, a: AgentId) { |s.tokens.Slot(Hand(a))| == 1 }

  // Agent a is inside context_create, has a reference and nothing to push, or has a token to push.
  predicate Creating(s: State, a: AgentId) { a in s.agents && s.agents[a].c in s.ctxs && s.agents[a].creating }

  predicate EmptyHanded(s: State, a: AgentId) {
    a in s.agents && s.agents[a].c in s.ctxs && !s.agents[a].creating && !HandFull(s, a)
  }

  predicate Pushing(s: State, a: AgentId) {
    a in s.agents && s.agents[a].c in s.ctxs && !s.agents[a].creating && HandFull(s, a)
  }

  // A push that finds the list empty posts the semaphore after its unlock.
  function OwePost(s: State, w: nat): multiset<nat> {
    if NeedsPost(List(s, w)) then s.posts + multiset{w} else s.posts
  }

  function Ref(x: Ctx): Ctx { x.(ref := x.ref + 1) }

  function Unref(x: Ctx): Ctx { x.(ref := x.ref - 1, deletes := if x.ref == 1 then x.deletes + 1 else x.deletes) }

  function Unregister(x: Ctx): Ctx { if x.registered then Unref(x.(registered := false)) else x }

  function Accept(x: Ctx, m: Message): Ctx {
    x.(processing := true, mailbox := x.mailbox + [m], accepted := x.accepted + [m])
  }

  // ----- the steps of creators and senders

  // new type(): the constructor leaves one reference and `processing` set.
  function Construct(s: State, a: AgentId, c: CtxId): State
    requires a !in s.agents && c !in s.ctxs
  {
    State(s.ctxs[c := Ctx(false, false, false, true, 1, 0, [], [], [], [], [])], s.tokens.Put(Hand(a), c),
          s.agents[a := Agent(c, true, false)], s.workers, s.posts)
  }

  function Register(s: State, a: AgentId): State
    requires Creating(s, a) && !s.ctxs[s.agents[a].c].registered
  {
    var c := s.agents[a].c;
    State(s.ctxs[c := Ref(s.ctxs[c].(registered := true))], s.tokens, s.agents, s.workers, s.posts)
  }

  // A context under construction sends to itself (LUA_CTX_INIT).
  function InitSend(s: State, a: AgentId, m: Message): State
    requires Creating(s, a) && s.ctxs[s.agents[a].c].registered
  {
    var c := s.agents[a].c;
    State(s.ctxs[c := Accept(s.ctxs[c], m)], s.tokens, s.agents, s.workers, s.posts)
  }

  // init returned true: set_inited(true).
  function InitDone(s: State, a: AgentId): State
    requires Creating(s, a) && s.ctxs[s.agents[a].c].registered
  {
    var c := s.agents[a].c;
    State(s.ctxs[c := s.ctxs[c].(inited := true)], s.tokens, s.agents[a := Agent(c, false, false)], s.workers, s.posts)
  }

  // init returned false: retire; the token is never pushed.  The message to itself is the
  // last thing init does, and once it is accepted init has succeeded.
  function InitFail(s: State, a: AgentId): State
    requires Creating(s, a) && HandFull(s, a) && s.ctxs[s.agents[a].c].mailbox == []
  {
    var c := s.agents[a].c;
    State(s.ctxs[c := Unregister(s.ctxs[c]).(failed := true)], s.tokens.TakeFirst(Hand(a)),
          s.agents[a := Agent(c, false, false)], s.workers, s.posts)
  }

  // grab_context
  function Lookup(s: State, a: AgentId, c: CtxId): State
    requires a !in s.agents && c in s.ctxs && s.ctxs[c].registered
  {
    State(s.ctxs[c := Ref(s.ctxs[c])], s.tokens, s.agents[a := Agent(c, false, false)], s.workers, s.posts)
  }

  // push_message: the sender that finds `processing` clear gets the token.  Before that it
  // saw the context inited; the context may have died since.
  function Send(s: State, a: AgentId, m: Message): State
    requires EmptyHanded(s, a) && s.ctxs[s.agents[a].c].inited
  {
    var c := s.agents[a].c;
    State(s.ctxs[c := Accept(s.ctxs[c], m)], if s.ctxs[c].processing then s.tokens else s.tokens.Put(Hand(a), c),
          s.agents, s.workers, s.posts)
  }

  // push_context: grab, then push_one onto the list of some worker.
  function CountToken(s: State, a: AgentId): State
    requires Pushing(s, a) && !s.agents[a].counted
  {
    var c := s.agents[a].c;
    State(s.ctxs[c := Ref(s.ctxs[c])], s.tokens, s.agents[a := Agent(c, false, true)], s.workers, s.posts)
  }

  function Enqueue(s: State, a: AgentId, target: nat): State
    requires Pushing(s, a) && s.agents[a].counted && target < |s.workers|
  {
    State(s.ctxs, s.tokens.Move(Hand(a), 1, Listed(target)),
          s.agents[a := Agent(s.agents[a].c, false, false)], s.workers, OwePost(s, target))
  }

  function Release(s: State, a: AgentId): State
    requires EmptyHanded(s, a)
  {
    var c := s.agents[a].c;
    State(s.ctxs[c := Unref(s.ctxs[c])], s.tokens, s.agents - {a}, s.workers, s.posts)
  }

  function Post(s: State, w: nat): State
    requires w < |s.workers| && w in s.posts
  {
    State(s.ctxs, s.tokens, s.agents, s.workers[w := Worker(s.workers[w].sem + 1, s.workers[w].pc)], s.posts - multiset{w})
  }

  // ----- the steps of workers

  function At(s: State, w: nat, pc: Pc): seq<Worker>
    requires w < |s.workers|
  {
    s.workers[w := Worker(s.workers[w].sem, pc)]
  }

  function SetPc(s: State, w: nat, pc: Pc): State
    requires w < |s.workers|
  {
    State(s.ctxs, s.tokens, s.agents, At(s, w, pc), s.posts)
  }

  function StartWorker(s: State): State { State(s.ctxs, s.tokens, s.agents, s.workers + [Worker(0, Looking)], s.posts) }

  function PopOwn(s: State, w: nat): State
    requires AtPc(s, w, Looking) && List(s, w) != []
  {
    State(s.ctxs, s.tokens.Move(Listed(w), 1, Desk(w)), s.agents, At(s, w, Running), s.posts)
  }

  function Steal(s: State, w: nat, victim: nat): State
    requires AtPc(s, w, Stealing) && victim < |s.workers| && victim != w && Half(List(s, victim)) > 0
  {
    State(s.ctxs, s.tokens.Move(Listed(victim), Half(List(s, victim)), Segment(w)), s.agents, At(s, w, Stolen), s.posts)
  }

  function WakeUp(s: State, w: nat): State
    requires AtPc(s, w, Waiting) && s.workers[w].sem > 0
  {
    State(s.ctxs, s.tokens, s.agents, s.workers[w := Worker(s.workers[w].sem - 1, Looking)], s.posts)
  }

  // Run the head of the stolen segment; push_many puts the rest on the own list.
  function RunFirst(s: State, w: nat): State
    requires AtPc(s, w, Stolen) && s.tokens.Slot(Segment(w)) != []
  {
    var rest := |s.tokens.Slot(Segment(w))| - 1;
    State(s.ctxs, s.tokens.Move(Segment(w), 1, Desk(w)).Move(Segment(w), rest, Listed(w)), s.agents, At(s, w, Running),
          if rest > 0 then OwePost(s, w) else s.posts)
  }

  function PopMessage(s: State, w: nat): State
    requires RunsAt(s, w, Running) && s.ctxs[Current(s, w)].mailbox != []
  {
    State(s.ctxs[Current(s, w) := Handle(s.ctxs[Current(s, w)])], s.tokens, s.agents, At(s, w, Handling), s.posts)
  }

  // The next message goes to on_received of a valid context, else to on_dropped.
  function Handle(x: Ctx): Ctx
    requires x.mailbox != []
  {
    var m, y := x.mailbox[0], x.(mailbox := x.mailbox[1..]);
    if x.inited && x.registered then y.(received := x.received + [m])
    else y.(dropped := x.dropped + [m], answered := if Asks(m) then x.answered + [m] else x.answered)
  }

  // A query whose sender waits for the answer.
  predicate Asks(m: Message) { m.kind == CONTEXT_QUERY && m.source != 0 && m.session != REFNIL }

  // The running context sends to itself.
  function SelfSend(s: State, w: nat, m: Message): State
    requires RunsAt(s, w, Handling)
  {
    State(s.ctxs[Current(s, w) := Accept(s.ctxs[Current(s, w)], m)], s.tokens, s.agents, s.workers, s.posts)
  }

  // context_destroy on the running context, after deinit.
  function Retire(s: State, w: nat): State
    requires RunsAt(s, w, Handling)
  {
    State(s.ctxs[Current(s, w) := Unregister(s.ctxs[Current(s, w)])], s.tokens, s.agents, s.workers, s.posts)
  }

  // on_received or on_dropped has returned.
  function Finish(s: State, w: nat): State
    requires RunsAt(s, w, Handling)
  {
    SetPc(s, w, Running)
  }

  // pop_message on an empty mailbox clears `processing` under the same lock.
  function PopNone(s: State, w: nat): State
    requires RunsAt(s, w, Running) && s.ctxs[Current(s, w)].mailbox == []
  {
    var c := Current(s, w);
    State(s.ctxs[c := s.ctxs[c].(processing := false)], s.tokens.TakeFirst(Desk(w)), s.agents, At(s, w, Leaving(c)), s.posts)
  }

  function ReleaseRun(s: State, w: nat): State
    requires w < |s.workers| && s.workers[w].pc.Leaving? && s.workers[w].pc.c in s.ctxs
  {
    var c := s.workers[w].pc.c;
    State(s.ctxs[c := Unref(s.ctxs[c])], s.tokens, s.agents, At(s, w, Looking), s.posts)
  }

  function Repush(s: State, w: nat, target: nat): State
    requires RunsAt(s, w, Repushing) && target < |s.workers|
  {
    State(s.ctxs, s.tokens.Move(Desk(w), 1, Listed(target)), s.agents, At(s, w, Looking), OwePost(s, target))
  }

  // The loop looks at its list, gives up stealing, or ends a batch.
  function SeeEmpty(s: State, w: nat): State
    requires AtPc(s, w, Looking) && List(s, w) == []
  {
    SetPc(s, w, Stealing)
  }

  function GiveUp(s: State, w: nat): State
    requires AtPc(s, w, Stealing)
  {
    SetPc(s, w, Waiting)
  }

  function EndBatch(s: State, w: nat): State
    requires RunsAt(s, w, Running)
  {
    SetPc(s, w, Repushing)
  }

  // ----- the step relation

  datatype Event =
    | EConstruct(a: AgentId, c: CtxId) | ERegister(a: AgentId) | EInitSend(a: AgentId, m: Message)
    | EInitDone(a: AgentId) | EInitFail(a: AgentId) | ELookup(a: AgentId, c: CtxId)
    | ESend(a: AgentId, m: Message) | ECountToken(a: AgentId) | EEnqueue(a: AgentId, target: nat) | ERelease(a: AgentId)
    | EPost(w: nat) | EStartWorker | EPopOwn(w: nat) | ESeeEmpty(w: nat) | EGiveUp(w: nat)
    | ESteal(w: nat, victim: nat) | EWakeUp(w: nat) | ERunFirst(w: nat)
    | EPopMessage(w: nat) | EPopNone(w: nat) | EEndBatch(w: nat) | ESelfSend(w: nat, m: Message)
    | ERetire(w: nat) | EFinish(w: nat) | ERepush(w: nat, target: nat) | EReleaseRun(w: nat)

  // `t` is a state that event `e` can lead to from `s`.
  predicate StepBy(s: State, e: Event, t: State) {
    match e
    case EConstruct(a, c) => a !in s.agents && c !in s.ctxs && t == Construct(s, a, c)
    case ERegister(a) => Creating(s, a) && !s.ctxs[s.agents[a].c].registered && t == Register(s, a)
    case EInitSend(a, m) => Creating(s, a) && s.ctxs[s.agents[a].c].registered && t == InitSend(s, a, m)
    case EInitDone(a) => Creating(s, a) && s.ctxs[s.agents[a].c].registered && t == InitDone(s, a)
    case EInitFail(a) => Creating(s, a) && HandFull(s, a) && s.ctxs[s.agents[a].c].mailbox == [] && t == InitFail(s, a)
    case ELookup(a, c) => a !in s.agents && c in s.ctxs && s.ctxs[c].registered && t == Lookup(s, a, c)
    case ESend(a, m) => EmptyHanded(s, a) && s.ctxs[s.agents[a].c].inited && t == Send(s, a, m)
    case ECountToken(a) => Pushing(s, a) && !s.agents[a].counted && t == CountToken(s, a)
    case EEnqueue(a, target) => Pushing(s, a) && s.agents[a].counted && target < |s.workers| && t == Enqueue(s, a, target)
    case ERelease(a) => EmptyHanded(s, a) && t == Release(s, a)
    case EPost(w) => w < |s.workers| && w in s.posts && t == Post(s, w)
    case EPopOwn(w) => AtPc(s, w, Looking) && List(s, w) != [] && t == PopOwn(s, w)
    case ESteal(w, victim) => AtPc(s, w, Stealing) && victim < |s.workers| && victim != w && Half(List(s, victim)) > 0 && t == Steal(s, w, victim)
    case EWakeUp(w) => AtPc(s, w, Waiting) && s.workers[w].sem > 0 && t == WakeUp(s, w)
    case ERunFirst(w) => AtPc(s, w, Stolen) && s.tokens.Slot(Segment(w)) != [] && t == RunFirst(s, w)
    case EPopMessage(w) => RunsAt(s, w, Running) && s.ctxs[Current(s, w)].mailbox != [] && t == PopMessage(s, w)
    case EPopNone(w) => RunsAt(s, w, Running) && s.ctxs[Current(s, w)].mailbox == [] && t == PopNone(s, w)
    case ESelfSend(w, m) => RunsAt(s, w, Handling) && t == SelfSend(s, w, m)
    case ERetire(w) => RunsAt(s, w, Handling) && t == Retire(s, w)
    case EFinish(w) => RunsAt(s, w, Handling) && t == Finish(s, w)
    case EReleaseRun(w) => w < |s.workers| && s.workers[w].pc.Leaving? && s.workers[w].pc.c in s.ctxs && t == ReleaseRun(s, w)
    case ERepush(w, target) => RunsAt(s, w, Repushing) && target < |s.workers| && t == Repush(s, w, target)
    case ESeeEmpty(w) => AtPc(s, w, Looking) && List(s, w) == [] && t == SeeEmpty(s, w)
    case EGiveUp(w) => AtPc(s, w, Stealing) && t == GiveUp(s, w)
    case EEndBatch(w) => RunsAt(s, w, Running) && t == EndBatch(s, w)
    case EStartWorker => t == StartWorker(s)
  }

  ghost predicate Step(s: State, t: State) { exists e :: StepBy(s, e, t) }

  ghost predicate Init(s: State) {
    s == State(map[], Tokens(map[], map[]), map[], [Worker(0, Looking)], multiset{})
  }

  // `s` is reached after n steps, of any threads in any order.
  ghost predicate ReachableIn(n: nat, s: State) {
    if n == 0 then Init(s) else exists p :: ReachableIn(n - 1, p) && Step(p, s)
  }

  ghost predicate Reachable(s: State) { exists n :: ReachableIn(n, s) }
}
