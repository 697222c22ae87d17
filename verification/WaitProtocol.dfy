/** context.wait: one context learns that another has died, by WAIT, WAIT_CANCEL and WAKEUP. */
module WaitProtocol {
  // The waiter sends WAIT; the watched context keeps a set of waiters and sends each a WAKEUP while
  // it shuts down; a WAIT it never got to handle is dropped into a WAKEUP.  A waiter that no longer
  // cares sends WAIT_CANCEL.  Mailboxes are FIFO; each context runs one step at a time, and the
  // steps of different contexts interleave freely.  Handles are not reused.

  type Handle = nat

  datatype Msg = Wait(source: Handle) | Cancel(source: Handle) | Wakeup(source: Handle) | Other

  // Where a context is in its life.  `todo`: whom the loops of deinit have still to tell.
  datatype Phase = Live | Waking(todo: set<Handle>) | Cancelling(todo: set<Handle>) | Dead

  // What the context's thread is in the middle of.  A send looks its target up, then pushes.
  datatype Pc =
    | Idle
    | Asking(h: Handle, callback: bool)     // context_wait: before the lookup of h
    | PushWait(h: Handle, callback: bool)
    | Enlist(h: Handle, callback: bool)     // WAIT pushed, session not yet recorded
    | SelfWake(h: Handle)                   // callback form, h not found: wake oneself
    | Retract(h: Handle)                    // WAIT_CANCEL: before the lookup of h
    | PushCancel(h: Handle)
    | Notify(w: Handle)                     // WAKEUP: before the lookup of w
    | PushWakeup(w: Handle)

  // Lua code that runs inside the handling of a WAKEUP or of a timeout.
  datatype Frame = NoFrame | Resuming(h: Handle, left: nat) | TimedOut(h: Handle)

  datatype Ctx = Ctx(
    phase: Phase, mailbox: seq<Msg>,
    waiters: set<Handle>,          // m_context_wait_handles
    blocking: multiset<Handle>,    // blocked sessions, by the context waited for
    callbacks: set<Handle>,        // callback sessions, likewise
    frame: Frame, pc: Pc)

  datatype State = State(ctxs: map<Handle, Ctx>, guessed: set<Handle>)   // guessed: looked up before they existed

  datatype Action =
    | Create
    | Pop                                    // next message of a live context
    | Ask(h: Handle, callback: bool)         // context_wait
    | Record                                 // push_blocking / make_nonblocking_callback
    | DropCallback(h: Handle)                // context_wait(h, nil)
    | TimeoutBlocking(h: Handle) | TimeoutCallback(h: Handle) | TimeoutStale(h: Handle)
    | ResumeNext                             // wakeup_all: the next coroutine, at the end the callback
    | EndTimeout
    | BeginDeinit | NextWakeup | EndWakeups | NextCancel | Die
    | DropMessage                            // next message of a dead context
    | Look                                   // the lookup of a send
    | Push                                   // the push of a send

  predicate Accepts(s: State, h: Handle) { h in s.ctxs && !s.ctxs[h].phase.Dead? }

  predicate NoSession(c: Ctx, h: Handle) { h !in c.blocking && h !in c.callbacks }

  predicate Free(c: Ctx) { c.pc.Idle? && c.phase.Live? }

  predicate Can(s: State, x: Handle, a: Action) {
    if a.Create? then x !in s.ctxs else
    x in s.ctxs &&
    var c := s.ctxs[x];
    match a
    case Create => false
    case Pop => Free(c) && c.frame.NoFrame? && c.mailbox != []
    case Ask(h, _) => Free(c) && h != x
    case Record => c.pc.Enlist?
    case DropCallback(h) => Free(c) && !NoSession(c, h)
    case TimeoutBlocking(h) => Free(c) && c.frame.NoFrame? && h in c.blocking
    case TimeoutCallback(h) => Free(c) && c.frame.NoFrame? && h in c.callbacks
    case TimeoutStale(h) => Free(c) && c.frame.NoFrame? && !NoSession(c, h)
    case ResumeNext => Free(c) && c.frame.Resuming?
    case EndTimeout => Free(c) && c.frame.TimedOut?
    case BeginDeinit => Free(c) && c.frame.NoFrame?
    case NextWakeup => c.pc.Idle? && c.phase.Waking? && c.phase.todo != {}
    case EndWakeups => c.pc.Idle? && c.phase.Waking? && c.phase.todo == {}
    case NextCancel => c.pc.Idle? && c.phase.Cancelling? && c.phase.todo != {}
    case Die => c.pc.Idle? && c.phase.Cancelling? && c.phase.todo == {}
    case DropMessage => c.pc.Idle? && c.phase.Dead? && c.mailbox != []
    case Look => c.pc.Asking? || c.pc.Retract? || c.pc.Notify?
    case Push => (c.pc.PushWait? || c.pc.SelfWake? || c.pc.PushCancel? || c.pc.PushWakeup?) && Dest(x, c.pc) in s.ctxs
  }

  function Dest(x: Handle, pc: Pc): Handle
    requires pc.PushWait? || pc.SelfWake? || pc.PushCancel? || pc.PushWakeup?
  {
    match pc
    case PushWait(h, _) => h
    case SelfWake(_) => x
    case PushCancel(h) => h
    case PushWakeup(w) => w
  }

  function Sent(x: Handle, pc: Pc): Msg
    requires pc.PushWait? || pc.SelfWake? || pc.PushCancel? || pc.PushWakeup?
  {
    match pc
    case PushWait(_, _) => Wait(x)
    case SelfWake(h) => Wakeup(h)
    case PushCancel(_) => Cancel(x)
    case PushWakeup(_) => Wakeup(x)
  }

  // on_received
  function Receive(c: Ctx): Ctx
    requires c.mailbox != []
  {
    var d := c.(mailbox := c.mailbox[1..]);
    match c.mailbox[0]
    case Wakeup(h) => d.(frame := Resuming(h, d.blocking[h]))
    case m => d.(waiters := Track(d.waiters, m))
  }

  // After a session on h has gone: cancel the wait if it was the last.
  function Recheck(c: Ctx, h: Handle): Ctx { if NoSession(c, h) then c.(pc := Retract(h)) else c }

  // What an action does to the context that takes it.  `ok`: whether the looked-up target accepts.
  function Local(c: Ctx, a: Action, ok: bool, pick: Handle): Ctx {
    match a
    case Create => Ctx(Live, [], {}, multiset{}, {}, NoFrame, Idle)
    case Pop => if c.mailbox == [] then c else Receive(c)
    case Ask(h, callback) => c.(pc := Asking(h, callback))
    case Record =>
      if !c.pc.Enlist? then c
      else if c.pc.callback then c.(pc := Idle, callbacks := c.callbacks + {c.pc.h})
      else c.(pc := Idle, blocking := c.blocking + multiset{c.pc.h})
    case DropCallback(h) => Recheck(c.(callbacks := c.callbacks - {h}), h)
    case TimeoutBlocking(h) => c.(blocking := c.blocking - multiset{h}, frame := TimedOut(h))
    case TimeoutCallback(h) => c.(callbacks := c.callbacks - {h}, frame := TimedOut(h))
    case TimeoutStale(h) => c.(frame := TimedOut(h))
    case ResumeNext =>
      if !c.frame.Resuming? then c
      else if c.frame.left > 0 then c.(blocking := c.blocking - multiset{c.frame.h}, frame := Resuming(c.frame.h, c.frame.left - 1))
      else c.(callbacks := c.callbacks - {c.frame.h}, frame := NoFrame)
    case EndTimeout => if c.frame.TimedOut? then Recheck(c.(frame := NoFrame), c.frame.h) else c
    case BeginDeinit => c.(phase := Waking(c.waiters))
    case NextWakeup => if c.phase.Waking? then c.(phase := Waking(c.phase.todo - {pick}), pc := Notify(pick)) else c
    case EndWakeups => c.(waiters := {}, phase := Cancelling((set h | h in c.blocking) + c.callbacks))
    case NextCancel => if c.phase.Cancelling? then c.(phase := Cancelling(c.phase.todo - {pick}), pc := Retract(pick)) else c
    case Die => c.(phase := Dead)
    case DropMessage =>
      if c.mailbox == [] then c
      else c.(mailbox := c.mailbox[1..], pc := if c.mailbox[0].Wait? then Notify(c.mailbox[0].source) else c.pc)
    case Look =>
      (match c.pc
       case Asking(h, callback) => c.(pc := if ok then PushWait(h, callback) else if callback then SelfWake(h) else Idle)
       case Retract(h) => c.(pc := if ok then PushCancel(h) else Idle)
       case Notify(w) => c.(pc := if ok then PushWakeup(w) else Idle)
       case _ => c)
    case Push =>
      c.(pc := if c.pc.PushWait? then Enlist(c.pc.h, c.pc.callback) else Idle)
  }

  function LookedUp(pc: Pc): Handle {
    match pc case Asking(h, _) => h case Retract(h) => h case Notify(w) => w case _ => 0
  }

  // `pick`: the next element in the iteration order of a set of handles.
  function Next(s: State, x: Handle, a: Action, pick: Handle): State
    requires Can(s, x, a)
  {
    var c := if a.Create? then Ctx(Live, [], {}, multiset{}, {}, NoFrame, Idle) else s.ctxs[x];
    var d := Local(c, a, Accepts(s, LookedUp(c.pc)), pick);
    var t := s.(ctxs := s.ctxs[x := d]);
    if a.Push? then
      var to := Dest(x, c.pc);
      t.(ctxs := t.ctxs[to := t.ctxs[to].(mailbox := t.ctxs[to].mailbox + [Sent(x, c.pc)])])
    else if a.Look? && LookedUp(c.pc) !in s.ctxs then t.(guessed := t.guessed + {LookedUp(c.pc)})
    else t
  }

  predicate PickOk(s: State, x: Handle, a: Action, pick: Handle)
    requires Can(s, x, a)
  {
    a.NextWakeup? || a.NextCancel? ==> pick in s.ctxs[x].phase.todo
  }

  ghost predicate Step(s: State, t: State) {
    exists x, a, pick :: Can(s, x, a) && PickOk(s, x, a, pick) && t == Next(s, x, a, pick)
  }

  ghost predicate ReachableIn(n: nat, s: State) {
    if n == 0 then s == State(map[], {}) else exists p :: ReachableIn(n - 1, p) && Step(p, s)
  }

  ghost predicate Reachable(s: State) { exists n :: ReachableIn(n, s) }

  // ----- the invariant

  function Track(waiters: set<Handle>, m: Msg): set<Handle> {
    match m case Wait(w) => waiters + {w} case Cancel(w) => waiters - {w} case _ => waiters
  }

  // The waiter set after the WAITs and WAIT_CANCELs still in the mailbox, in order.
  function Replay(waiters: set<Handle>, mailbox: seq<Msg>): set<Handle>
    decreases mailbox
  {
    if mailbox == [] then waiters else Replay(Track(waiters, mailbox[0]), mailbox[1..])
  }

  // Context c will, by what it holds itself, send a WAKEUP to w when it dies or because it is dying.
  predicate WillTell(c: Ctx, w: Handle) {
    || (c.phase.Live? && w in Replay(c.waiters, c.mailbox))
    || (c.phase.Waking? && w in c.phase.todo)
    || (!c.phase.Live? && Wait(w) in c.mailbox)
    || c.pc == Notify(w) || c.pc == PushWakeup(w)
  }

  // Live context c has a blocked session on h that it is not already resuming, or is just recording one.
  predicate Blocked(c: Ctx, h: Handle) {
    c.phase.Live? &&
    (c.blocking[h] > (if c.frame.Resuming? && c.frame.h == h then c.frame.left else 0) || c.pc == Enlist(h, false))
  }

  // The same for a callback.
  predicate Listens(c: Ctx, h: Handle) {
    c.phase.Live? && ((h in c.callbacks && !(c.frame.Resuming? && c.frame.h == h)) || c.pc == Enlist(h, true))
  }

  predicate PairOk(s: State, w: Handle, h: Handle) {
    w in s.ctxs && (Blocked(s.ctxs[w], h) || Listens(s.ctxs[w], h)) ==> h in s.ctxs && (WillTell(s.ctxs[h], w) || Wakeup(h) in s.ctxs[w].mailbox)
  }

  predicate Dying(s: State, h: Handle) { h in s.ctxs && !s.ctxs[h].phase.Live? }

  ghost predicate LocalOk(s: State, x: Handle) {
    x in s.ctxs ==>
    var c := s.ctxs[x];
    && (c.phase.Live? && (c.pc.Retract? || c.pc.PushCancel?) ==> NoSession(c, c.pc.h))
    && (c.frame.Resuming? ==> c.frame.left <= c.blocking[c.frame.h])
    && (c.pc.Notify? || c.pc.PushWakeup? ==> !c.phase.Live?)
    && (c.pc.Asking? || c.pc.PushWait? || c.pc.Enlist? || c.pc.SelfWake? ==> c.phase.Live?)
    && (c.pc.SelfWake? ==> c.pc.h in s.guessed || Dying(s, c.pc.h))
    && (!c.phase.Live? ==> c.frame.NoFrame?)
    && (c.pc.PushWait? || c.pc.PushCancel? || c.pc.PushWakeup? || c.pc.SelfWake? ==> Dest(x, c.pc) in s.ctxs)
  }

  // A WAKEUP from h is only ever in a mailbox when h is dying, or was looked up before it existed.
  predicate WakeOk(s: State, w: Handle, h: Handle) {
    w in s.ctxs && Wakeup(h) in s.ctxs[w].mailbox ==> h in s.guessed || Dying(s, h)
  }

  // Context c has a session on h, or is about to record one or to send a WAIT_CANCEL.
  predicate InTouch(c: Ctx, h: Handle) {
    !NoSession(c, h) || c.pc in {Enlist(h, false), Enlist(h, true), Retract(h), PushCancel(h)} || c.frame == TimedOut(h)
  }

  // Whom a live h would tell exists, and if it lives it is in touch with h; sessions are being
  // resumed only for a WAKEUP.
  predicate StaleOk(s: State, w: Handle, h: Handle) {
    && (h in s.ctxs && s.ctxs[h].phase.Live? && w in Replay(s.ctxs[h].waiters, s.ctxs[h].mailbox) ==>
         w in s.ctxs && (s.ctxs[w].phase.Live? && h !in s.guessed ==> InTouch(s.ctxs[w], h)))
    && (w in s.ctxs && s.ctxs[w].frame.Resuming? && s.ctxs[w].frame.h == h ==> h in s.guessed || Dying(s, h))
  }

  ghost predicate Inv(s: State) {
    && (forall w, h :: PairOk(s, w, h))
    && (forall w, h :: StaleOk(s, w, h))
    && (forall x :: LocalOk(s, x))
    && (forall w, h :: WakeOk(s, w, h))
  }

  // ----- preservation

  lemma {:induction false} ReplayAppend(ws: set<Handle>, mb: seq<Msg>, m: Msg)
    ensures Replay(ws, mb + [m]) == Track(Replay(ws, mb), m)
    decreases mb
  {
    if mb == [] {
      assert mb + [m] == [m] && [m][1..] == [];
    } else {
      assert (mb + [m])[1..] == mb[1..] + [m];
      ReplayAppend(Track(ws, mb[0]), mb[1..], m);
    }
  }

  lemma {:induction false} ReplaySource(ws: set<Handle>, mb: seq<Msg>, w: Handle)
    requires w in Replay(ws, mb)
    ensures w in ws || Wait(w) in mb
    decreases mb
  {
    if mb != [] { ReplaySource(Track(ws, mb[0]), mb[1..], w); }
  }

  predicate IsSessionAction(a: Action) {
    a.Record? || a.DropCallback? || a.TimeoutBlocking? || a.TimeoutCallback? || a.TimeoutStale? || a.ResumeNext? || a.EndTimeout?
  }

  predicate IsDyingAction(a: Action) {
    a.BeginDeinit? || a.NextWakeup? || a.EndWakeups? || a.NextCancel? || a.Die? || a.DropMessage?
  }

  lemma PushKeepsPair(s: State, x: Handle, pick: Handle, w: Handle, h: Handle)
    requires PairOk(s, w, h) && LocalOk(s, x) && Can(s, x, Push)
    ensures PairOk(Next(s, x, Push, pick), w, h)
  {
    if h in s.ctxs {
      ReplayAppend(s.ctxs[h].waiters, s.ctxs[h].mailbox, Sent(x, s.ctxs[x].pc));
      if w in s.ctxs && WillTell(s.ctxs[h], w) && s.ctxs[w].pc != PushCancel(h) { PushTells(s, x, pick, w, h); }
    }
  }

  // Only a WAIT_CANCEL of its own takes a context off those that will be told.
  lemma PushTells(s: State, x: Handle, pick: Handle, w: Handle, h: Handle)
    requires LocalOk(s, x) && Can(s, x, Push) && w in s.ctxs && h in s.ctxs && WillTell(s.ctxs[h], w) && s.ctxs[w].pc != PushCancel(h)
    ensures var t := Next(s, x, Push, pick); WillTell(t.ctxs[h], w) || Wakeup(h) in t.ctxs[w].mailbox
  {
    ReplayAppend(s.ctxs[h].waiters, s.ctxs[h].mailbox, Sent(x, s.ctxs[x].pc));
  }

  lemma LocalSession(c: Ctx, a: Action, ok: bool, pick: Handle)
    requires IsSessionAction(a)
    ensures var d := Local(c, a, ok, pick);
      && d.phase == c.phase && d.waiters == c.waiters && d.mailbox == c.mailbox
      && (d.frame.Resuming? ==> c.frame.Resuming? && c.frame.h == d.frame.h)
  {
    match a
    case Record =>
    case ResumeNext =>
    case EndTimeout =>
    case _ =>
  }

  lemma SessionOnly(s: State, x: Handle, a: Action, pick: Handle)
    requires Can(s, x, a) && IsSessionAction(a)
    ensures var t := Next(s, x, a, pick); var c, d := s.ctxs[x], t.ctxs[x];
      && t == s.(ctxs := s.ctxs[x := d]) && d.phase == c.phase && d.waiters == c.waiters && d.mailbox == c.mailbox
      && (d.frame.Resuming? ==> c.frame.Resuming? && c.frame.h == d.frame.h)
  {
    LocalSession(s.ctxs[x], a, Accepts(s, LookedUp(s.ctxs[x].pc)), pick);
  }

  // Session steps only let a session be recorded that was asked for.
  lemma RecordExpects(s: State, x: Handle, a: Action, pick: Handle, h: Handle)
    requires Can(s, x, a) && (a.Record? || a.DropCallback?)
    requires var d := Next(s, x, a, pick).ctxs[x]; Blocked(d, h) || Listens(d, h)
    ensures Blocked(s.ctxs[x], h) || Listens(s.ctxs[x], h)
  {
  }

  lemma TimeoutExpects(s: State, x: Handle, a: Action, pick: Handle, h: Handle)
    requires Can(s, x, a) && (a.TimeoutBlocking? || a.TimeoutCallback? || a.TimeoutStale? || a.EndTimeout?)
    requires var d := Next(s, x, a, pick).ctxs[x]; Blocked(d, h) || Listens(d, h)
    ensures Blocked(s.ctxs[x], h) || Listens(s.ctxs[x], h)
  {
  }

  lemma ResumeExpects(s: State, x: Handle, pick: Handle, h: Handle)
    requires Can(s, x, ResumeNext) && LocalOk(s, x)
    requires var d := Next(s, x, ResumeNext, pick).ctxs[x]; Blocked(d, h) || Listens(d, h)
    ensures Blocked(s.ctxs[x], h) || Listens(s.ctxs[x], h)
  {
  }

  lemma SessionKeepsPair(s: State, x: Handle, a: Action, pick: Handle, w: Handle, h: Handle)
    requires PairOk(s, w, h) && LocalOk(s, x) && Can(s, x, a) && IsSessionAction(a)
    ensures PairOk(Next(s, x, a, pick), w, h)
  {
    SessionOnly(s, x, a, pick);
    if h in s.ctxs && WillTell(s.ctxs[h], w) { SessionTells(s, x, a, pick, w, h); }
    var d := Next(s, x, a, pick).ctxs[x];
    if w == x && (Blocked(d, h) || Listens(d, h)) {
      if a.Record? || a.DropCallback? { RecordExpects(s, x, a, pick, h); }
      else if a.ResumeNext? { ResumeExpects(s, x, pick, h); }
      else { TimeoutExpects(s, x, a, pick, h); }
    }
  }

  lemma SessionTells(s: State, x: Handle, a: Action, pick: Handle, w: Handle, h: Handle)
    requires Can(s, x, a) && LocalOk(s, x) && IsSessionAction(a) && h in s.ctxs && WillTell(s.ctxs[h], w)
    ensures WillTell(Next(s, x, a, pick).ctxs[h], w)
  {
    SessionOnly(s, x, a, pick);
  }

  lemma DyingKeepsPair(s: State, x: Handle, a: Action, pick: Handle, w: Handle, h: Handle)
    requires PairOk(s, w, h) && LocalOk(s, x) && Can(s, x, a) && PickOk(s, x, a, pick) && IsDyingAction(a)
    ensures PairOk(Next(s, x, a, pick), w, h)
  {
    if a.BeginDeinit? && w in Replay(s.ctxs[x].waiters, s.ctxs[x].mailbox) {
      ReplaySource(s.ctxs[x].waiters, s.ctxs[x].mailbox, w);
    }
  }

  // Create, Pop, Ask and Look.  Pop moves what the first message asked for from the mailbox to the waiter set.
  lemma OtherKeepsPair(s: State, x: Handle, a: Action, pick: Handle, w: Handle, h: Handle)
    requires PairOk(s, w, h) && (a.Create? || LocalOk(s, x)) && Can(s, x, a) && PickOk(s, x, a, pick)
    requires a.Create? || a.Pop? || a.Ask? || a.Look?
    ensures PairOk(Next(s, x, a, pick), w, h)
  {
  }

  lemma PairsKept(s: State, x: Handle, a: Action, pick: Handle, w: Handle, h: Handle)
    requires PairOk(s, w, h) && LocalOk(s, x) && Can(s, x, a) && PickOk(s, x, a, pick)
    ensures PairOk(Next(s, x, a, pick), w, h)
  {
    if a.Push? { PushKeepsPair(s, x, pick, w, h); }
    else if IsSessionAction(a) { SessionKeepsPair(s, x, a, pick, w, h); }
    else if IsDyingAction(a) { DyingKeepsPair(s, x, a, pick, w, h); }
    else { OtherKeepsPair(s, x, a, pick, w, h); }
  }

  lemma SessionKeepsLocal(s: State, x: Handle, a: Action, pick: Handle, y: Handle)
    requires LocalOk(s, x) && LocalOk(s, y) && Can(s, x, a) && PickOk(s, x, a, pick)
    requires a.Record? || a.DropCallback? || a.ResumeNext?
    ensures LocalOk(Next(s, x, a, pick), y)
  {
  }

  lemma TimeoutKeepsLocal(s: State, x: Handle, a: Action, pick: Handle, y: Handle)
    requires LocalOk(s, x) && LocalOk(s, y) && Can(s, x, a) && PickOk(s, x, a, pick)
    requires a.TimeoutBlocking? || a.TimeoutCallback? || a.TimeoutStale? || a.EndTimeout?
    ensures LocalOk(Next(s, x, a, pick), y)
  {
  }

  lemma DyingKeepsLocal(s: State, x: Handle, a: Action, pick: Handle, y: Handle)
    requires LocalOk(s, x) && LocalOk(s, y) && Can(s, x, a) && PickOk(s, x, a, pick) && IsDyingAction(a)
    ensures LocalOk(Next(s, x, a, pick), y)
  {
  }

  lemma LookKeepsLocal(s: State, x: Handle, pick: Handle, y: Handle)
    requires LocalOk(s, x) && LocalOk(s, y) && Can(s, x, Look)
    ensures LocalOk(Next(s, x, Look, pick), y)
  {
  }

  lemma PushKeepsLocal(s: State, x: Handle, pick: Handle, y: Handle)
    requires LocalOk(s, x) && LocalOk(s, y) && Can(s, x, Push)
    ensures LocalOk(Next(s, x, Push, pick), y)
  {
  }

  lemma OtherKeepsLocal(s: State, x: Handle, a: Action, pick: Handle, y: Handle)
    requires LocalOk(s, x) && LocalOk(s, y) && Can(s, x, a) && PickOk(s, x, a, pick) && (a.Create? || a.Pop? || a.Ask?)
    ensures LocalOk(Next(s, x, a, pick), y)
  {
  }

  lemma LocalKept(s: State, x: Handle, a: Action, pick: Handle, y: Handle)
    requires LocalOk(s, x) && LocalOk(s, y) && Can(s, x, a) && PickOk(s, x, a, pick)
    ensures LocalOk(Next(s, x, a, pick), y)
  {
    if a.Record? || a.DropCallback? || a.ResumeNext? { SessionKeepsLocal(s, x, a, pick, y); }
    else if IsSessionAction(a) { TimeoutKeepsLocal(s, x, a, pick, y); }
    else if IsDyingAction(a) { DyingKeepsLocal(s, x, a, pick, y); }
    else if a.Look? { LookKeepsLocal(s, x, pick, y); }
    else if a.Push? { PushKeepsLocal(s, x, pick, y); }
    else { OtherKeepsLocal(s, x, a, pick, y); }
  }

  lemma WakesKept(s: State, x: Handle, a: Action, pick: Handle, w: Handle, h: Handle)
    requires WakeOk(s, w, h) && LocalOk(s, x) && Can(s, x, a) && PickOk(s, x, a, pick)
    ensures WakeOk(Next(s, x, a, pick), w, h)
  {
  }

  lemma PushKeepsStale(s: State, x: Handle, pick: Handle, w: Handle, h: Handle)
    requires StaleOk(s, w, h) && Can(s, x, Push)
    ensures StaleOk(Next(s, x, Push, pick), w, h)
  {
    if h in s.ctxs { ReplayAppend(s.ctxs[h].waiters, s.ctxs[h].mailbox, Sent(x, s.ctxs[x].pc)); }
  }

  // Where sessions come and go, a context stays in touch.
  lemma SessionKeepsTouch(s: State, x: Handle, a: Action, pick: Handle, h: Handle)
    requires Can(s, x, a) && (a.Record? || a.DropCallback? || a.ResumeNext?)
    requires InTouch(s.ctxs[x], h) && !(s.ctxs[x].frame.Resuming? && s.ctxs[x].frame.h == h)
    ensures InTouch(Next(s, x, a, pick).ctxs[x], h)
  {
  }

  lemma TimeoutKeepsTouch(s: State, x: Handle, a: Action, pick: Handle, h: Handle)
    requires Can(s, x, a) && (a.TimeoutBlocking? || a.TimeoutCallback? || a.TimeoutStale? || a.EndTimeout?)
    requires InTouch(s.ctxs[x], h)
    ensures InTouch(Next(s, x, a, pick).ctxs[x], h)
  {
  }

  lemma SessionKeepsStale(s: State, x: Handle, a: Action, pick: Handle, w: Handle, h: Handle)
    requires StaleOk(s, w, h) && Can(s, x, a) && IsSessionAction(a)
    ensures StaleOk(Next(s, x, a, pick), w, h)
  {
    SessionOnly(s, x, a, pick);
    if w == x && InTouch(s.ctxs[w], h) && !(s.ctxs[w].frame.Resuming? && s.ctxs[w].frame.h == h) {
      if a.Record? || a.DropCallback? || a.ResumeNext? { SessionKeepsTouch(s, x, a, pick, h); }
      else { TimeoutKeepsTouch(s, x, a, pick, h); }
    }
  }

  lemma DyingKeepsStale(s: State, x: Handle, a: Action, pick: Handle, w: Handle, h: Handle)
    requires StaleOk(s, w, h) && Can(s, x, a) && PickOk(s, x, a, pick) && IsDyingAction(a)
    ensures StaleOk(Next(s, x, a, pick), w, h)
  {
  }

  lemma OtherKeepsStale(s: State, x: Handle, a: Action, pick: Handle, w: Handle, h: Handle)
    requires StaleOk(s, w, h) && WakeOk(s, w, h) && Can(s, x, a) && PickOk(s, x, a, pick)
    requires a.Create? || a.Pop? || a.Ask? || a.Look?
    ensures StaleOk(Next(s, x, a, pick), w, h)
  {
  }

  lemma StalesKept(s: State, x: Handle, a: Action, pick: Handle, w: Handle, h: Handle)
    requires StaleOk(s, w, h) && WakeOk(s, w, h) && Can(s, x, a) && PickOk(s, x, a, pick)
    ensures StaleOk(Next(s, x, a, pick), w, h)
  {
    if a.Push? { PushKeepsStale(s, x, pick, w, h); }
    else if IsSessionAction(a) { SessionKeepsStale(s, x, a, pick, w, h); }
    else if IsDyingAction(a) { DyingKeepsStale(s, x, a, pick, w, h); }
    else { OtherKeepsStale(s, x, a, pick, w, h); }
  }

  lemma StepKeepsInv(s: State, x: Handle, a: Action, pick: Handle)
    requires Inv(s) && Can(s, x, a) && PickOk(s, x, a, pick)
    ensures Inv(Next(s, x, a, pick))
  {
    var t := Next(s, x, a, pick);
    forall w, h ensures PairOk(t, w, h) { assert PairOk(s, w, h) && LocalOk(s, x); PairsKept(s, x, a, pick, w, h); }
    forall w, h ensures StaleOk(t, w, h) { assert StaleOk(s, w, h) && WakeOk(s, w, h); StalesKept(s, x, a, pick, w, h); }
    forall y ensures LocalOk(t, y) { assert LocalOk(s, y) && LocalOk(s, x); LocalKept(s, x, a, pick, y); }
    forall w, h ensures WakeOk(t, w, h) { assert WakeOk(s, w, h) && LocalOk(s, x); WakesKept(s, x, a, pick, w, h); }
  }

  lemma {:induction false} ReachableInv(n: nat, s: State)
    requires ReachableIn(n, s)
    ensures Inv(s)
  {
    if n > 0 {
      var p :| ReachableIn(n - 1, p) && Step(p, s);
      ReachableInv(n - 1, p);
      var x, a, pick :| Can(p, x, a) && PickOk(p, x, a, pick) && s == Next(p, x, a, pick);
      StepKeepsInv(p, x, a, pick);
    }
  }

  // ----- what it says

  // A session of a live context on h, a coroutine's or a callback's, is never forgotten: h is live and w is in its
  // waiter set once the mailbox is replayed, or h is dying and still has w to tell (in its
  // loop, in its hand, or as a WAIT in its leftover mail), or the WAKEUP is on its way.
  lemma WaitIsNeverLost(s: State, w: Handle, h: Handle)
    requires Reachable(s) && w in s.ctxs && (Blocked(s.ctxs[w], h) || Listens(s.ctxs[w], h))
    ensures h in s.ctxs
    ensures
      || (s.ctxs[h].phase.Live? && w in Replay(s.ctxs[h].waiters, s.ctxs[h].mailbox))
      || (s.ctxs[h].phase.Waking? && w in s.ctxs[h].phase.todo)
      || (!s.ctxs[h].phase.Live? && (s.ctxs[h].pc == Notify(w) || s.ctxs[h].pc == PushWakeup(w)))
      || (!s.ctxs[h].phase.Live? && Wait(w) in s.ctxs[h].mailbox)
      || Wakeup(h) in s.ctxs[w].mailbox
  {
    var n :| ReachableIn(n, s);
    ReachableInv(n, s);
    assert PairOk(s, w, h) && LocalOk(s, h);
  }

  // A WAKEUP means what it says: h has begun to die, unless h had been looked up before it was created.
  lemma NoFalseWakeup(s: State, w: Handle, h: Handle)
    requires Reachable(s) && w in s.ctxs && Wakeup(h) in s.ctxs[w].mailbox && h !in s.guessed
    ensures h in s.ctxs && !s.ctxs[h].phase.Live?
  {
    var n :| ReachableIn(n, s);
    ReachableInv(n, s);
    assert WakeOk(s, w, h);
  }

  // Between two live contexts: when h has handled what is in its mailbox, an idle w is among its
  // waiters exactly if it has a session on h.
  lemma WaitersAreExact(s: State, w: Handle, h: Handle)
    requires Reachable(s) && w in s.ctxs && h in s.ctxs && s.ctxs[w].phase.Live? && s.ctxs[h].phase.Live? && h !in s.guessed
    requires s.ctxs[w].pc.Idle? && s.ctxs[w].frame.NoFrame?
    ensures w in Replay(s.ctxs[h].waiters, s.ctxs[h].mailbox) <==> h in s.ctxs[w].blocking || h in s.ctxs[w].callbacks
  {
    var n :| ReachableIn(n, s);
    ReachableInv(n, s);
    assert PairOk(s, w, h) && StaleOk(s, w, h) && WakeOk(s, w, h) && LocalOk(s, h);
  }

  const Born := Ctx(Live, [], {}, multiset{}, {}, NoFrame, Idle)

  datatype Move = Move(x: Handle, a: Action)

  predicate Possible(s: State, m: Move) { Can(s, m.x, m.a) && !m.a.NextWakeup? && !m.a.NextCancel? }

  // The state some moves lead to.
  function After(ms: seq<Move>): State {
    if ms == [] then State(map[], {}) else
    var s, m := After(ms[..|ms| - 1]), ms[|ms| - 1];
    if Possible(s, m) then Next(s, m.x, m.a, 0) else s
  }

  lemma {:induction false} AfterReached(ms: seq<Move>) returns (n: nat)
    ensures ReachableIn(n, After(ms))
  {
    n := 0;
    if ms != [] {
      var s, m := After(ms[..|ms| - 1]), ms[|ms| - 1];
      n := AfterReached(ms[..|ms| - 1]);
      if Possible(s, m) {
        assert PickOk(s, m.x, m.a, 0);
        assert Step(s, After(ms));
        n := n + 1;
        assert ReachableIn(n - 1, s);
      }
    }
  }

  lemma Then(ms: seq<Move>, s: State, x: Handle, a: Action) returns (ms': seq<Move>, t: State)
    requires After(ms) == s && Possible(s, Move(x, a))
    ensures t == Next(s, x, a, 0) && After(ms') == t
  {
    ms', t := ms + [Move(x, a)], Next(s, x, a, 0);
    assert ms'[..|ms'| - 1] == ms;
  }

  // Contexts 1 and 2, with 2 looked up before it existed.
  function Two(c: Ctx, d: Ctx): State { State(map[1 := c, 2 := d], {2}) }

  // Context 1 waits by a callback for 2, which does not exist, so it will wake itself.
  lemma Guess() returns (ms: seq<Move>)
    ensures After(ms) == State(map[1 := Born.(pc := SelfWake(2))], {2})
  {
    var s;
    ms, s := Then([], State(map[], {}), 1, Create);
    ms, s := Then(ms, s, 1, Ask(2, true));
    ms, s := Then(ms, s, 1, Look);
    assert s.ctxs == map[1 := Born.(pc := SelfWake(2))];
  }

  // Then 2 is created.
  lemma GuessedWakeup() returns (ms: seq<Move>)
    ensures After(ms) == Two(Born.(mailbox := [Wakeup(2)]), Born)
  {
    var s;
    ms := Guess();
    ms, s := Then(ms, After(ms), 2, Create);
    assert s == Two(Born.(pc := SelfWake(2)), Born);
    ms, s := Then(ms, s, 1, Push);
    assert [] + [Wakeup(2)] == [Wakeup(2)];
    assert s.ctxs[1] == Born.(mailbox := [Wakeup(2)]);
    assert s == Two(Born.(mailbox := [Wakeup(2)]), Born);
  }

  // And 1 waits for it.
  lemma GuessedAsk() returns (ms: seq<Move>)
    ensures After(ms) == Two(Born.(mailbox := [Wakeup(2)], pc := PushWait(2, false)), Born)
  {
    var s;
    ms := GuessedWakeup();
    var c := Born.(mailbox := [Wakeup(2)]);
    ms, s := Then(ms, After(ms), 1, Ask(2, false));
    assert s == Two(c.(pc := Asking(2, false)), Born);
    ms, s := Then(ms, s, 1, Look);
    assert s == Two(c.(pc := PushWait(2, false)), Born);
  }

  lemma GuessedWait() returns (ms: seq<Move>)
    ensures After(ms) == Two(Born.(mailbox := [Wakeup(2)], blocking := multiset{2}), Born.(mailbox := [Wait(1)]))
  {
    var s;
    ms := GuessedAsk();
    var c, d := Born.(mailbox := [Wakeup(2)]), Born.(mailbox := [Wait(1)]);
    ms, s := Then(ms, After(ms), 1, Push);
    assert [] + [Wait(1)] == [Wait(1)];
    assert s.ctxs[2] == d;
    assert s == Two(c.(pc := Enlist(2, false)), d);
    ms, s := Then(ms, s, 1, Record);
    assert multiset{} + multiset{2} == multiset{2};
    assert s.ctxs[1] == c.(blocking := multiset{2});
    assert s == Two(c.(blocking := multiset{2}), d);
  }

  lemma GuessedResume() returns (ms: seq<Move>)
    ensures After(ms) == Two(Born.(frame := Resuming(2, 0)), Born.(mailbox := [Wait(1)]))
  {
    var s;
    ms := GuessedWait();
    var d := Born.(mailbox := [Wait(1)]);
    ms, s := Then(ms, After(ms), 1, Pop);
    assert [Wakeup(2)][1..] == [];
    assert s.ctxs[1] == Born.(blocking := multiset{2}, frame := Resuming(2, 1));
    assert s == Two(Born.(blocking := multiset{2}, frame := Resuming(2, 1)), d);
    ms, s := Then(ms, s, 1, ResumeNext);
    assert multiset{2} - multiset{2} == multiset{};
    assert s.ctxs[1] == Born.(frame := Resuming(2, 0));
    assert s == Two(Born.(frame := Resuming(2, 0)), d);
  }

  // Its own WAKEUP ends that wait, and 1 stays among the waiters of 2: a handle looked up before
  // it exists is rightly excepted from what holds of the others.
  lemma GuessedStaysWaiter() returns (s: State)
    ensures Reachable(s) && s == Two(Born, Born.(mailbox := [Wait(1)]))
    ensures 1 in Replay(s.ctxs[2].waiters, s.ctxs[2].mailbox) && NoSession(s.ctxs[1], 2)
  {
    var ms := GuessedResume();
    var d := Born.(mailbox := [Wait(1)]);
    ms, s := Then(ms, After(ms), 1, ResumeNext);
    assert {} - {2} == {};
    assert s.ctxs[1] == Born;
    assert s == Two(Born, d);
    var n := AfterReached(ms);
    assert [Wait(1)][1..] == [];
  }

  // Handling a WAIT_CANCEL takes exactly its sender off the waiters, handling a WAIT puts exactly
  // its sender on them, and no other message changes them.
  lemma HandledWait(s: State, h: Handle, pick: Handle)
    requires Can(s, h, Pop)
    ensures var c, d := s.ctxs[h], Next(s, h, Pop, pick).ctxs[h];
      && d.mailbox == c.mailbox[1..]
      && (match c.mailbox[0]
          case Wait(w) => d.waiters == c.waiters + {w}
          case Cancel(w) => d.waiters == c.waiters - {w}
          case _ => d.waiters == c.waiters)
  {
  }

  // A wait that was sent is recorded.
  lemma SessionBegins(s: State, x: Handle, pick: Handle)
    requires Can(s, x, Record)
    ensures var c, d := s.ctxs[x], Next(s, x, Record, pick).ctxs[x];
      && d.blocking == (if c.pc.callback then c.blocking else c.blocking[c.pc.h := c.blocking[c.pc.h] + 1])
      && d.callbacks == (if c.pc.callback then c.callbacks + {c.pc.h} else c.callbacks)
  {
  }

  // A timeout ends one session, and the last one to go leaves a WAIT_CANCEL due.
  lemma SessionTimesOut(s: State, x: Handle, h: Handle, pick: Handle)
    requires Can(s, x, TimeoutBlocking(h))
    ensures var c, d := s.ctxs[x], Next(s, x, TimeoutBlocking(h), pick).ctxs[x];
      d.blocking == c.blocking[h := c.blocking[h] - 1] && d.callbacks == c.callbacks && d.frame == TimedOut(h)
  {
  }

  lemma CallbackTimesOut(s: State, x: Handle, h: Handle, pick: Handle)
    requires Can(s, x, TimeoutCallback(h))
    ensures var c, d := s.ctxs[x], Next(s, x, TimeoutCallback(h), pick).ctxs[x];
      d.blocking == c.blocking && d.callbacks == c.callbacks - {h} && d.frame == TimedOut(h)
  {
  }

  lemma LastSessionCancels(s: State, x: Handle, a: Action, pick: Handle)
    requires Can(s, x, a) && (a.DropCallback? || a.EndTimeout?)
    ensures var c, d := s.ctxs[x], Next(s, x, a, pick).ctxs[x];
      var h := if a.DropCallback? then a.h else c.frame.h;
      && d.blocking == c.blocking && d.callbacks == (if a.DropCallback? then c.callbacks - {h} else c.callbacks)
      && (h !in d.blocking && h !in d.callbacks ==> d.pc == Retract(h))
  {
  }

  // A WAKEUP resumes each coroutine that was blocked on its sender once, and then the callback.
  lemma WakeupResumes(s: State, x: Handle, pick: Handle)
    requires Can(s, x, ResumeNext) && LocalOk(s, x)
    ensures var c, d := s.ctxs[x], Next(s, x, ResumeNext, pick).ctxs[x];
      var h := c.frame.h;
      if c.frame.left > 0 then
        d.blocking == c.blocking[h := c.blocking[h] - 1] && d.frame == Resuming(h, c.frame.left - 1) && d.callbacks == c.callbacks
      else d.blocking == c.blocking && d.callbacks == c.callbacks - {h} && d.frame == NoFrame
  {
  }

  // Among the waiters in the end is who is the sender of a WAIT that no WAIT_CANCEL of his
  // follows, or was among them and sent no WAIT_CANCEL.
  lemma {:induction false} ReplayMeans(ws: set<Handle>, mb: seq<Msg>, w: Handle)
    ensures w in Replay(ws, mb) <==>
      (w in ws && Cancel(w) !in mb) || exists i :: 0 <= i < |mb| && mb[i] == Wait(w) && Cancel(w) !in mb[i..]
    decreases mb
  {
    if mb != [] {
      var rest := mb[1..];
      ReplayMeans(Track(ws, mb[0]), rest, w);
      assert mb == [mb[0]] + rest;
      assert forall i :: 0 <= i < |rest| ==> rest[i..] == mb[i + 1..];
      if i :| 0 <= i < |rest| && rest[i] == Wait(w) && Cancel(w) !in rest[i..] { assert mb[i + 1] == Wait(w); }
      if i :| 0 <= i < |mb| && mb[i] == Wait(w) && Cancel(w) !in mb[i..] {
        if i == 0 { assert mb[0..] == mb; } else { assert rest[i - 1] == Wait(w); }
      }
    }
  }

  ghost predicate Enabled(s: State, h: Handle, a: Action, pick: Handle) { Can(s, h, a) && PickOk(s, h, a, pick) }

  // Steps of h alone, in whatever order it takes them, come in the end to a WAKEUP from h in w's
  // mailbox: there always is a step before that, and none leads elsewhere.
  least predicate Tells(h: Handle, w: Handle, s: State) {
    w in s.ctxs &&
    (Wakeup(h) in s.ctxs[w].mailbox ||
      ((exists a, pick :: Enabled(s, h, a, pick)) && forall a, pick :: Enabled(s, h, a, pick) ==> Tells(h, w, Next(s, h, a, pick))))
  }

  function IndexOf(mb: seq<Msg>, m: Msg): nat {
    if mb == [] || mb[0] == m then 0 else 1 + IndexOf(mb[1..], m)
  }

  lemma {:induction false} IndexOfPrefix(mb: seq<Msg>, n: Msg, m: Msg)
    requires m in mb
    ensures IndexOf(mb + [n], m) == IndexOf(mb, m)
  {
    if mb[0] != m {
      assert (mb + [n])[1..] == mb[1..] + [n];
      IndexOfPrefix(mb[1..], n, m);
    }
  }

  function PhaseRank(p: Phase): nat { match p case Live => 3 case Waking(_) => 2 case Cancelling(_) => 1 case Dead => 0 }

  function Todo(p: Phase): set<Handle> { if p.Waking? || p.Cancelling? then p.todo else {} }

  function PcRank(pc: Pc): nat { if pc.Idle? then 0 else if pc.Retract? || pc.Notify? then 2 else 1 }

  // How much a dying context has left to do before it has told w.
  datatype Work = Work(phase: nat, todo: nat, mail: nat, pc: nat)

  function Left(c: Ctx, w: Handle): Work {
    Work(PhaseRank(c.phase), |Todo(c.phase)|,
         if c.pc == Notify(w) || c.pc == PushWakeup(w) || Wait(w) !in c.mailbox then 0 else 1 + IndexOf(c.mailbox, Wait(w)),
         PcRank(c.pc))
  }

  predicate Less(a: Work, b: Work) {
    a.phase < b.phase || (a.phase == b.phase && (a.todo < b.todo || (a.todo == b.todo && (a.mail < b.mail || (a.mail == b.mail && a.pc < b.pc)))))
  }

  // The next thing a dying context does.
  function DyingAction(c: Ctx): Action {
    if c.pc.Retract? || c.pc.Notify? then Look
    else if !c.pc.Idle? then Push
    else match c.phase
      case Waking(todo) => if todo == {} then EndWakeups else NextWakeup
      case Cancelling(todo) => if todo == {} then Die else NextCancel
      case _ => DropMessage
  }

  lemma OnlyAction(s: State, h: Handle, a: Action)
    requires LocalOk(s, h) && Dying(s, h) && Can(s, h, a)
    ensures a == DyingAction(s.ctxs[h])
  {
  }

  lemma NotStuck(s: State, h: Handle, w: Handle) returns (a: Action, pick: Handle)
    requires LocalOk(s, h) && Dying(s, h) && WillTell(s.ctxs[h], w)
    ensures Enabled(s, h, a, pick)
  {
    a, pick := DyingAction(s.ctxs[h]), 0;
    var todo := Todo(s.ctxs[h].phase);
    if todo != {} { pick :| pick in todo; }
  }

  lemma SendingStep(s: State, h: Handle, w: Handle, a: Action, pick: Handle)
    requires LocalOk(s, h) && w in s.ctxs && s.ctxs[w].phase.Live? && Dying(s, h) && WillTell(s.ctxs[h], w)
    requires !s.ctxs[h].pc.Idle? && a == DyingAction(s.ctxs[h]) && Can(s, h, a)
    ensures var t := Next(s, h, a, pick);
      && w in t.ctxs && t.ctxs[w].phase.Live? && Dying(t, h)
      && (Wakeup(h) in t.ctxs[w].mailbox || (WillTell(t.ctxs[h], w) && Less(Left(t.ctxs[h], w), Left(s.ctxs[h], w))))
  {
    var c := s.ctxs[h];
    if a.Push? && Wait(w) in c.mailbox { IndexOfPrefix(c.mailbox, Sent(h, c.pc), Wait(w)); }
  }

  // Whichever handle the loop takes next.
  lemma LoopStep(s: State, h: Handle, w: Handle, a: Action, pick: Handle)
    requires LocalOk(s, h) && w in s.ctxs && s.ctxs[w].phase.Live? && Dying(s, h) && WillTell(s.ctxs[h], w)
    requires s.ctxs[h].pc.Idle? && a == DyingAction(s.ctxs[h]) && Enabled(s, h, a, pick)
    ensures var t := Next(s, h, a, pick);
      && w in t.ctxs && t.ctxs[w].phase.Live? && Dying(t, h)
      && WillTell(t.ctxs[h], w) && Less(Left(t.ctxs[h], w), Left(s.ctxs[h], w))
  {
    var todo := Todo(s.ctxs[h].phase);
    assert pick in todo ==> |todo - {pick}| < |todo|;
  }

  // A dying context tells every waiter: its own steps, with nobody else's help and in any order of
  // its waiters, put the WAKEUP into the mailbox of a live context that is blocked on it.
  lemma {:induction false} DyingTells(s: State, h: Handle, w: Handle)
    requires Inv(s) && w in s.ctxs && s.ctxs[w].phase.Live? && Dying(s, h)
    requires WillTell(s.ctxs[h], w) || Wakeup(h) in s.ctxs[w].mailbox
    ensures Tells(h, w, s)
    decreases Left(s.ctxs[h], w).phase, Left(s.ctxs[h], w).todo, Left(s.ctxs[h], w).mail, Left(s.ctxs[h], w).pc
  {
    if Wakeup(h) !in s.ctxs[w].mailbox {
      assert LocalOk(s, h);
      var b, p := NotStuck(s, h, w);
      forall a, pick | Enabled(s, h, a, pick) ensures Tells(h, w, Next(s, h, a, pick)) {
        OnlyAction(s, h, a);
        if s.ctxs[h].pc.Idle? { LoopStep(s, h, w, a, pick); } else { SendingStep(s, h, w, a, pick); }
        StepKeepsInv(s, h, a, pick);
        var t := Next(s, h, a, pick);
        if Wakeup(h) !in t.ctxs[w].mailbox { DyingTells(t, h, w); }
      }
    }
  }

  lemma DeathReachesEveryWaiter(s: State, h: Handle, w: Handle)
    requires Reachable(s) && w in s.ctxs && (Blocked(s.ctxs[w], h) || Listens(s.ctxs[w], h)) && Dying(s, h)
    ensures Tells(h, w, s)
  {
    var k :| ReachableIn(k, s);
    ReachableInv(k, s);
    assert PairOk(s, w, h);
    DyingTells(s, h, w);
  }
}
