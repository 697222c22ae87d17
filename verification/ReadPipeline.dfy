/** A frame's way from the network thread to a waiting coroutine. */
module ReadPipeline {
  import opened Basics

  // The network thread sends a frame if a read is outstanding, else caches it; the context hands it
  // to a waiting reader or callback, else keeps it in the overflow queue.  Each context or network
  // step below is atomic; steps of the two threads interleave freely, and a resumed coroutine may
  // read again at any point.  The socket stays open and its context alive.

  type Frame = seq<int>

  datatype Msg = Data(frame: Frame) | Err(code: int) | Overflow   // Overflow: sent by the context to itself

  // ----- the network side

  // m_read_cached_buffers, m_has_noblocking_read, m_blocking_read_count, m_read_error, and
  // whether the socket is being read: between uv_read_start and uv_read_stop
  datatype Net = Net(cached: seq<Frame>, callback: bool, blocking: nat, error: int, reading: bool) {
    predicate Started() { callback || blocking > 0 }             // read_start_state
    function Spend(): Net { if blocking > 0 then this.(blocking := blocking - 1) else this }
  }

  datatype Sent = Sent(net: Net, msgs: seq<Msg>)

  function DataOf(fs: seq<Frame>): (r: seq<Msg>)
    ensures |r| == |fs|
  {
    seq(|fs|, i requires 0 <= i < |fs| => Data(fs[i]))
  }

  // A frame is complete.
  function Finish(n: Net, f: Frame): Sent {
    if n.Started() then Sent(n.Spend().(reading := n.reading && n.Spend().Started()), [Data(f)]) else Sent(n.(cached := n.cached + [f]), [])
  }

  // Cached frames sent while a read is outstanding.
  function Drain(n: Net): Sent
    decreases |n.cached|
  {
    if n.cached == [] then Sent(n, []) else
    var m := n.(cached := n.cached[1..]).Spend();
    if !m.Started() then Sent(m, [Data(n.cached[0])])
    else
      var r := Drain(m);
      Sent(r.net, [Data(n.cached[0])] + r.msgs)
  }

  function Read(n: Net, blocking: bool): Sent {
    if n.error != 0 then Sent(n, []) else
    var r := Drain(Ask(n, blocking));
    Sent(r.net.(reading := n.reading || (!n.Started() && r.net.Started())), r.msgs)
  }

  function Ask(n: Net, blocking: bool): Net {
    if blocking then n.(blocking := n.blocking + 1) else n.(callback := true)
  }

  // What trigger_read_error sends; the error itself is recorded afterwards.
  function Fail(n: Net, code: int): Sent { Sent(n.(cached := []), DataOf(n.cached) + [Err(code)]) }

  class NetSide {
    var cached: seq<Frame>
    var callback: bool
    var blocking: nat
    var error: int
    var reading: bool
    var sent: seq<Msg>      // what was sent to the context, in order

    function Now(): Net reads this { Net(cached, callback, blocking, error, reading) }

    method WriteReadBufferFinish(f: Frame)
      modifies this
      ensures var r := Finish(old(Now()), f); Now() == r.net && sent == old(sent) + r.msgs
    {
      if callback || blocking > 0 {
        sent := sent + [Data(f)];
        if blocking > 0 { blocking := blocking - 1; }
        if !(callback || blocking > 0) { reading := false; }
      } else {
        cached := cached + [f];
      }
    }

    method TriggerReadError(code: int)
      modifies this
      ensures var r := Fail(old(Now()), code); Now() == r.net.(error := code) && sent == old(sent) + r.msgs
    {
      ghost var all := cached;
      for i := 0 to |cached|
        invariant cached == all[i..] && sent == old(sent) + DataOf(all)[..i]
        invariant callback == old(callback) && blocking == old(blocking) && error == old(error) && reading == old(reading)
      {
        sent := sent + [Data(cached[0])];
        cached := cached[1..];
      }
      assert DataOf(all)[..|all|] == DataOf(all);
      sent := sent + [Err(code)];
      error := code;
    }

    method ReadRequest(isBlocking: bool)
      modifies this
      ensures var r := Read(old(Now()), isBlocking); Now() == r.net && sent == old(sent) + r.msgs
    {
      if error != 0 { return; }
      var started := callback || blocking > 0;
      if isBlocking { blocking := blocking + 1; } else { callback := true; }
      ghost var whole := After(sent, Now());
      while cached != []
        invariant After(sent, Now()) == whole
        invariant (callback || blocking > 0) && error == 0 && reading == old(reading)
        decreases |cached|
      {
        ghost var next := Now().(cached := cached[1..]).Spend();
        AfterOne(sent, Now());
        sent := sent + [Data(cached[0])];
        cached := cached[1..];
        if blocking > 0 { blocking := blocking - 1; }
        assert Now() == next;
        if !(callback || blocking > 0) { return; }
      }
      if !started { reading := true; }
    }
  }

  // What has been sent once the rest of the cache is drained too.
  ghost function After(sent: seq<Msg>, n: Net): Sent { Sent(Drain(n).net, sent + Drain(n).msgs) }

  lemma AfterOne(sent: seq<Msg>, n: Net)
    requires n.cached != []
    ensures var m, now := n.(cached := n.cached[1..]).Spend(), sent + [Data(n.cached[0])];
      After(sent, n) == (if m.Started() then After(now, m) else Sent(m, now))
  {
    var x, more := Data(n.cached[0]), Drain(n.(cached := n.cached[1..]).Spend()).msgs;
    assert sent + ([x] + more) == (sent + [x]) + more;
  }

  // ----- the whole

  datatype Given = Got(frame: Frame) | Failed(code: int)

  datatype Pc =
    | Idle
    | Draining(m: Msg)                   // the loop of wakeup_read, for message m
    | WakingAll(left: nat, code: int)    // wakeup_all: blocked readers first, then the callback

  datatype Lua = Lua(
    overflow: seq<Frame>,
    waiting: nat,          // blocked readers
    callback: bool,        // a read callback is registered
    timedOut: nat,         // m_read_timeout_session_count
    log: seq<Given>,       // what readers were given, in order
    pc: Pc)

  datatype State = State(
    net: Net, failing: int,            // failing: sent as a read error but not yet recorded in m_read_error
    requests: seq<bool>,               // read requests on their way to the network thread: blocking or not
    mailbox: seq<Msg>, lua: Lua,
    parsed: seq<Frame>,                // every frame completed so far
    chunk: bool)                       // the network thread is inside on_read, at work on one chunk

  datatype Event =
    | NChunk | NFrame(f: Frame) | NEnd | NFail(code: int) | NSetError | NRequest
    | LRead | LListen | LTimeout | LHandle | LDrain | LDone | LWake | LWoken

  const Start := State(Net([], false, 0, 0, false), 0, [], [], Lua([], 0, false, 0, [], Idle), [], false)

  predicate Open(s: State) { s.failing == 0 && s.net.error == 0 }      // no read error so far

  predicate Can(s: State, e: Event) {
    match e
    case NChunk => Open(s) && s.net.reading && !s.chunk
    case NFrame(_) => Open(s) && s.chunk
    case NEnd => s.failing == 0 && s.chunk
    case NFail(code) => Open(s) && (s.chunk || s.net.reading) && code != 0   // reading: uv_read_start failed, or end of file
    case NSetError => s.failing != 0
    case NRequest => s.failing == 0 && !s.chunk && s.requests != []
    case LRead => true
    case LListen => !s.lua.callback
    case LTimeout => s.lua.pc.Idle? && s.lua.waiting > 0
    case LHandle => s.lua.pc.Idle? && s.mailbox != []
    case LDrain => s.lua.pc.Draining? && (s.lua.waiting > 0 || s.lua.callback) && s.lua.overflow != []
    case LDone => s.lua.pc.Draining? && !((s.lua.waiting > 0 || s.lua.callback) && s.lua.overflow != [])
    case LWake => s.lua.pc.WakingAll? && s.lua.pc.left > 0 && s.lua.waiting > 0
    case LWoken => s.lua.pc.WakingAll? && s.lua.pc.left == 0
  }

  function Post(s: State, r: Sent): State { s.(net := r.net, mailbox := s.mailbox + r.msgs) }

  // The label handle_error of wakeup_read.
  function HandleError(s: State, m: Msg): State {
    match m
    case Data(_) => s.(lua := s.lua.(pc := Idle))
    case Err(code) => s.(lua := s.lua.(pc := WakingAll(s.lua.waiting, code)))
    case Overflow =>
      s.(lua := s.lua.(pc := if s.net.error != 0 then WakingAll(s.lua.waiting, s.net.error) else Idle))
  }

  // wakeup_once
  function Give(l: Lua, f: Frame): Lua {
    l.(log := l.log + [Got(f)], waiting := if l.waiting > 0 then l.waiting - 1 else 0)
  }

  function WakeupRead(s: State, m: Msg): State {
    var l := s.lua;
    if l.overflow == [] then
      if m.Data? then
        if l.waiting > 0 || l.callback then s.(lua := Give(l, m.frame))
        else s.(lua := l.(overflow := [m.frame]))
      else HandleError(s, m)
    else
      s.(lua := l.(overflow := if m.Data? then l.overflow + [m.frame] else l.overflow, pc := Draining(m)))
  }

  // read_yield_finalize up to its message to itself: a timed-out read's request is used again.
  function Asked(s: State): State {
    var t := s.(lua := s.lua.(waiting := s.lua.waiting + 1));
    if s.net.error != 0 then t
    else if s.lua.timedOut == 0 then t.(requests := s.requests + [true])
    else t.(lua := t.lua.(timedOut := s.lua.timedOut - 1))
  }

  function Listened(s: State): State {
    s.(lua := s.lua.(callback := true), requests := if s.net.error == 0 then s.requests + [false] else s.requests)
  }

  function SelfSend(s: State): State { s.(mailbox := s.mailbox + [Overflow]) }

  function Next(s: State, e: Event): State
    requires Can(s, e)
  {
    var l := s.lua;
    match e
    case NChunk => s.(chunk := true)
    case NEnd => s.(chunk := false)
    case NFrame(f) => Post(s, Finish(s.net, f)).(parsed := s.parsed + [f])
    case NFail(code) => Post(s, Fail(s.net, code)).(failing := code)
    case NSetError => s.(failing := 0, net := s.net.(error := s.failing, reading := false))   // and uv_read_stop
    case NRequest => Post(s, Read(s.net, s.requests[0])).(requests := s.requests[1..])
    case LRead => if s.net.error != 0 || l.overflow != [] then SelfSend(Asked(s)) else Asked(s)
    case LListen => if l.overflow != [] then SelfSend(Listened(s)) else Listened(s)
    case LTimeout => s.(lua := l.(waiting := l.waiting - 1, timedOut := l.timedOut + 1))
    case LHandle => WakeupRead(s.(mailbox := s.mailbox[1..]), s.mailbox[0])
    case LDrain => s.(lua := Give(l, l.overflow[0]).(overflow := l.overflow[1..]))
    case LDone => if l.overflow != [] then s.(lua := l.(pc := Idle)) else HandleError(s, l.pc.m)
    case LWake => s.(lua := l.(waiting := l.waiting - 1, log := l.log + [Failed(l.pc.code)], pc := WakingAll(l.pc.left - 1, l.pc.code)))
    case LWoken => s.(lua := l.(pc := Idle, log := if l.callback then l.log + [Failed(l.pc.code)] else l.log))
  }

  function Runs(es: seq<Event>): (r: State)
    decreases |es|
  {
    if es == [] then Start else
    var s := Runs(es[..|es| - 1]);
    var e := es[|es| - 1];
    if Can(s, e) then Next(s, e) else s
  }

  // ----- frames arrive exactly once and in order

  function Datas(ms: seq<Msg>): seq<Frame> {
    if ms == [] then [] else (if ms[0].Data? then [ms[0].frame] else []) + Datas(ms[1..])
  }

  function Frames(log: seq<Given>): seq<Frame> {
    if log == [] then [] else (if log[0].Got? then [log[0].frame] else []) + Frames(log[1..])
  }

  lemma {:induction false} DatasSum(a: seq<Msg>, b: seq<Msg>)
    ensures Datas(a + b) == Datas(a) + Datas(b)
  {
    if a == [] { assert a + b == b; }
    else {
      assert (a + b)[1..] == a[1..] + b;
      DatasSum(a[1..], b);
    }
  }

  lemma {:induction false} FramesSum(a: seq<Given>, b: seq<Given>)
    ensures Frames(a + b) == Frames(a) + Frames(b)
  {
    if a == [] { assert a + b == b; }
    else {
      assert (a + b)[1..] == a[1..] + b;
      FramesSum(a[1..], b);
    }
  }

  lemma {:induction false} DatasOfFrames(fs: seq<Frame>)
    ensures Datas(DataOf(fs)) == fs
  {
    if fs != [] {
      assert DataOf(fs)[1..] == DataOf(fs[1..]);
      DatasOfFrames(fs[1..]);
    }
  }

  lemma DatasFirst(f: Frame, ms: seq<Msg>)
    ensures Datas([Data(f)] + ms) == [f] + Datas(ms)
  {
    assert ([Data(f)] + ms)[1..] == ms;
  }

  // A drained read leaves no outstanding read beside cached frames.
  lemma {:induction false} DrainKeeps(n: Net)
    ensures var r := Drain(n);
      Datas(r.msgs) + r.net.cached == n.cached
      && (n.cached == [] || n.Started() ==> r.net.Started() ==> r.net.cached == [])
    decreases |n.cached|
  {
    if n.cached != [] {
      var f, m := n.cached[0], n.(cached := n.cached[1..]).Spend();
      if m.Started() {
        DrainKeeps(m);
        DatasFirst(f, Drain(m).msgs);
        Regroup([f], Datas(Drain(m).msgs), Drain(m).net.cached);
      } else {
        DatasFirst(f, []);
      }
    }
  }

  // The cache and the count of blocking reads apart, draining changes nothing.
  lemma {:induction false} DrainLeaves(n: Net)
    ensures var r := Drain(n); r.net == n.(cached := r.net.cached, blocking := r.net.blocking) && forall m <- r.msgs :: m.Data?
    decreases |n.cached|
  {
    if n.cached != [] {
      var m := n.(cached := n.cached[1..]).Spend();
      if m.Started() { DrainLeaves(m); }
    }
  }

  // After a read error nothing follows it, and nothing is cached.
  predicate ErrorsLast(ms: seq<Msg>) { forall i, j :: 0 <= i < j < |ms| && ms[i].Err? ==> !ms[j].Data? }

  function Flow(l: Lua, mailbox: seq<Msg>, cached: seq<Frame>): seq<Frame> {
    Frames(l.log) + l.overflow + Datas(mailbox) + cached
  }

  predicate Ordered(s: State) {
    && (s.net.Started() || !Open(s) ==> s.net.cached == [])
    && (Open(s) ==> s.net.reading == s.net.Started())
    && ErrorsLast(s.mailbox) && (Open(s) ==> forall m <- s.mailbox :: !m.Err?)
    && (s.lua.pc.Draining? && s.lua.pc.m.Err? ==> !Open(s) && forall m <- s.mailbox :: !m.Data?)
  }

  predicate Inv(s: State) { Flow(s.lua, s.mailbox, s.net.cached) == s.parsed && Ordered(s) }

  lemma PostFlow(s: State, r: Sent)
    ensures Flow(s.lua, s.mailbox + r.msgs, r.net.cached) == Frames(s.lua.log) + s.lua.overflow + Datas(s.mailbox) + (Datas(r.msgs) + r.net.cached)
  {
    DatasSum(s.mailbox, r.msgs);
  }

  // What the network thread sends, in the order the frames were completed.
  predicate Sends(n: Net, r: Sent, more: seq<Frame>) {
    && Datas(r.msgs) + r.net.cached == n.cached + more
    && (r.net.Started() ==> r.net.cached == [])
    && ErrorsLast(r.msgs)
  }

  lemma FrameSends(n: Net, f: Frame)
    requires n.Started() ==> n.cached == []
    ensures Sends(n, Finish(n, f), [f]) && forall m <- Finish(n, f).msgs :: !m.Err?
  {
    assert Datas([Data(f)]) == [f] + Datas([]);
  }

  lemma FailSends(n: Net, code: int)
    ensures Sends(n, Fail(n, code), []) && Fail(n, code).net.cached == []
  {
    DatasOfFrames(n.cached);
    DatasSum(DataOf(n.cached), [Err(code)]);
    assert Datas([Err(code)]) == Datas([]);
  }

  lemma ReadSends(n: Net, blocking: bool)
    requires n.Started() || n.error != 0 ==> n.cached == []
    ensures Sends(n, Read(n, blocking), []) && Read(n, blocking).net.error == n.error && forall m <- Read(n, blocking).msgs :: m.Data?
    ensures n.error != 0 ==> Read(n, blocking) == Sent(n, [])
    ensures n.error == 0 && n.reading == n.Started() ==> Read(n, blocking).net.reading == Read(n, blocking).net.Started()
  {
    DrainKeeps(Ask(n, blocking));
    DrainLeaves(Ask(n, blocking));
    if n.Started() { assert Drain(Ask(n, blocking)) == Sent(Ask(n, blocking), []); }
    var msgs := Read(n, blocking).msgs;
    assert forall i :: 0 <= i < |msgs| ==> msgs[i] in msgs;
  }

  lemma FrameKeepsInv(s: State, f: Frame)
    requires Inv(s) && Can(s, NFrame(f))
    ensures Inv(Next(s, NFrame(f)))
  {
    FrameSends(s.net, f);
    PostFlow(s, Finish(s.net, f));
  }

  lemma FailKeepsInv(s: State, code: int)
    requires Inv(s) && Can(s, NFail(code))
    ensures Inv(Next(s, NFail(code)))
  {
    FailSends(s.net, code);
    PostFlow(s, Fail(s.net, code));
  }

  lemma RequestKeepsInv(s: State)
    requires Inv(s) && Can(s, NRequest)
    ensures Inv(Next(s, NRequest))
  {
    ReadSends(s.net, s.requests[0]);
    PostFlow(s, Read(s.net, s.requests[0]));
    assert s.net.error != 0 ==> Next(s, NRequest).mailbox == s.mailbox;
  }

  lemma SelfSendKeepsInv(s: State)
    requires Inv(s)
    ensures Inv(SelfSend(s))
  {
    DatasSum(s.mailbox, [Overflow]);
    assert Datas([Overflow]) == Datas([]);
  }

  lemma ReadKeepsInv(s: State)
    requires Inv(s)
    ensures Inv(Next(s, LRead))
  {
    SameFrames(s, Asked(s));
    SelfSendKeepsInv(Asked(s));
  }

  lemma ListenKeepsInv(s: State)
    requires Inv(s) && Can(s, LListen)
    ensures Inv(Next(s, LListen))
  {
    SameFrames(s, Listened(s));
    SelfSendKeepsInv(Listened(s));
  }

  // Taking the first message off an ordered mailbox.
  lemma TailOrdered(ms: seq<Msg>)
    requires ms != [] && ErrorsLast(ms)
    ensures ErrorsLast(ms[1..]) && (ms[0].Err? ==> forall m <- ms[1..] :: !m.Data?)
    ensures Datas(ms) == (if ms[0].Data? then [ms[0].frame] else []) + Datas(ms[1..])
  {
    var rest := ms[1..];
    assert forall i :: 0 <= i < |rest| ==> rest[i] == ms[i + 1];
  }

  lemma HandleKeepsInv(s: State)
    requires Inv(s) && Can(s, LHandle)
    ensures Inv(Next(s, LHandle))
  {
    TailOrdered(s.mailbox);
    var given, first := Frames(s.lua.log) + s.lua.overflow, if s.mailbox[0].Data? then [s.mailbox[0].frame] else [];
    Regroup(given, first, Datas(s.mailbox[1..]));
    Regroup(given + first, Datas(s.mailbox[1..]), s.net.cached);
    Handles(s.(mailbox := s.mailbox[1..]), s.mailbox[0]);
  }

  lemma Handles(s: State, m: Msg)
    requires Frames(s.lua.log) + s.lua.overflow + (if m.Data? then [m.frame] else []) + (Datas(s.mailbox) + s.net.cached) == s.parsed
    requires Ordered(s) && s.lua.pc.Idle? && (m.Err? ==> !Open(s) && forall x <- s.mailbox :: !x.Data?)
    ensures Inv(WakeupRead(s, m))
  {
    HandlesFrame(s.lua, s, m);
    HandlesInOrder(s, m);
    var l := WakeupRead(s, m).lua;
    Regroup(Frames(l.log) + l.overflow, Datas(s.mailbox), s.net.cached);
  }

  lemma HandlesInOrder(s: State, m: Msg)
    requires Ordered(s) && s.lua.pc.Idle? && (m.Err? ==> !Open(s) && forall x <- s.mailbox :: !x.Data?)
    ensures var t := WakeupRead(s, m); Ordered(t) && t.mailbox == s.mailbox && t.net == s.net && t.parsed == s.parsed
  {
  }

  lemma HandlesFrame(l: Lua, s: State, m: Msg)
    requires l == s.lua
    ensures var t := WakeupRead(s, m).lua;
      Frames(t.log) + t.overflow == Frames(l.log) + l.overflow + (if m.Data? then [m.frame] else [])
  {
    if m.Data? { GotOne(l.log, m.frame); }
  }

  lemma DrainsFrame(l: Lua)
    requires l.overflow != []
    ensures var t := Give(l, l.overflow[0]); Frames(t.log) + l.overflow[1..] == Frames(l.log) + l.overflow
  {
    GotOne(l.log, l.overflow[0]);
  }

  lemma DrainKeepsInv(s: State)
    requires Inv(s) && Can(s, LDrain)
    ensures Inv(Next(s, LDrain))
  {
    DrainsFrame(s.lua);
  }

  // A step that moves no frame and lets the context handle none.
  lemma SameFrames(s: State, t: State)
    requires Inv(s) && t == s.(lua := t.lua, requests := t.requests)
    requires t.lua.log == s.lua.log && t.lua.overflow == s.lua.overflow && (t.lua.pc == s.lua.pc || !t.lua.pc.Draining?)
    ensures Inv(t)
  {
  }

  lemma DoneKeepsInv(s: State)
    requires Inv(s) && Can(s, LDone)
    ensures Inv(Next(s, LDone))
  {
    SameFrames(s, Next(s, LDone));
  }

  lemma WakeKeepsInv(s: State, e: Event)
    requires Inv(s) && Can(s, e) && (e.LWake? || e.LWoken?)
    ensures Inv(Next(s, e))
  {
    FailedOne(s.lua.log, s.lua.pc.code);
  }

  lemma StepKeepsInv(s: State, e: Event)
    requires Inv(s) && Can(s, e)
    ensures Inv(Next(s, e))
  {
    match e
    case NFrame(f) => FrameKeepsInv(s, f);
    case NFail(code) => FailKeepsInv(s, code);
    case NSetError =>
    case NRequest => RequestKeepsInv(s);
    case LTimeout =>
    case LHandle => HandleKeepsInv(s);
    case LRead => ReadKeepsInv(s);
    case LListen => ListenKeepsInv(s);
    case LWake => WakeKeepsInv(s, e);
    case LWoken => WakeKeepsInv(s, e);
    case NChunk =>
    case NEnd =>
    case LDrain => DrainKeepsInv(s);
    case LDone => DoneKeepsInv(s);
  }

  lemma GotOne(log: seq<Given>, f: Frame)
    ensures Frames(log + [Got(f)]) == Frames(log) + [f]
  {
    FramesSum(log, [Got(f)]);
    assert Frames([Got(f)]) == [f] + Frames([]);
  }

  lemma FailedOne(log: seq<Given>, code: int)
    ensures Frames(log + [Failed(code)]) == Frames(log)
  {
    FramesSum(log, [Failed(code)]);
    assert Frames([Failed(code)]) == Frames([]);
  }

  lemma {:induction false} RunsInv(es: seq<Event>)
    ensures Inv(Runs(es))
    decreases |es|
  {
    if es != [] {
      var s, e := Runs(es[..|es| - 1]), es[|es| - 1];
      RunsInv(es[..|es| - 1]);
      if Can(s, e) {
        StepKeepsInv(s, e);
      }
    }
  }

  // What the readers got, what waits in the overflow queue, what is in the mailbox and what
  // the network thread has cached are together the frames completed so far, in order.  Until an
  // error the socket is read exactly while a read is outstanding.
  lemma FramesInOrder(es: seq<Event>)
    ensures var s := Runs(es);
      s.parsed == Frames(s.lua.log) + s.lua.overflow + Datas(s.mailbox) + s.net.cached
    ensures Runs(es).net.Started() ==> Runs(es).net.cached == []
    ensures Open(Runs(es)) ==> (Runs(es).net.reading <==> Runs(es).net.Started())
  {
    RunsInv(es);
  }

  // ----- errors

  // A wake-up of all readers with a read error.
  predicate TellsError(s: State, e: Event) { Can(s, e) && !s.lua.pc.WakingAll? && Next(s, e).lua.pc.WakingAll? }

  function Handled(s: State, e: Event): Msg
    requires TellsError(s, e)
  {
    if e.LHandle? then s.mailbox[0] else s.lua.pc.m
  }

  // The error follows every earlier frame exactly if no frame is left in the mailbox; for the
  // error message itself that is always so.
  lemma ErrorAfterFrames(es: seq<Event>, e: Event)
    requires TellsError(Runs(es), e)
    ensures var s, t := Runs(es), Next(Runs(es), e);
      && (Frames(t.lua.log) == t.parsed <==> Datas(t.mailbox) == [])
      && (Handled(s, e).Err? ==> Frames(t.lua.log) == t.parsed)
  {
    RunsInv(es);
    StepKeepsInv(Runs(es), e);
    TellsLast(Runs(es), e);
    NoFramesLeft(Next(Runs(es), e));
  }

  // What a wake-up of all readers with an error leaves.
  lemma TellsLast(s: State, e: Event)
    requires Ordered(s) && TellsError(s, e)
    ensures var t := Next(s, e); t.lua.overflow == [] && !Open(t) && (Handled(s, e).Err? ==> Datas(t.mailbox) == [])
  {
    if e.LHandle? { TailOrdered(s.mailbox); }
    if Handled(s, e).Err? { NoDatas(Next(s, e).mailbox); }
  }

  lemma NoFramesLeft(t: State)
    requires Inv(t) && t.lua.overflow == [] && !Open(t)
    ensures Frames(t.lua.log) == t.parsed <==> Datas(t.mailbox) == []
  {
    assert t.parsed == Frames(t.lua.log) + Datas(t.mailbox);
  }

  lemma {:induction false} NoDatas(ms: seq<Msg>)
    requires forall m <- ms :: !m.Data?
    ensures Datas(ms) == []
  {
    if ms != [] { NoDatas(ms[1..]); }
  }

  // It is not always so for an overflow message: a reader is told of the error while an earlier
  // frame is still in its mailbox.  The network thread completes that frame and then meets the
  // error in one go, as when the next head in the same chunk is too large: with no other read
  // outstanding it has stopped reading in between.
  lemma ErrorBeforeFrame(f: Frame, g: Frame) returns (es: seq<Event>)
    ensures var s := Runs(es);
      s.lua.log == [Got(f), Failed(1)] && s.mailbox == [Data(g), Err(1), Overflow] && s.parsed == [f, g]
  {
    var s;
    es, s := OverflowFilled(f);
    es, s := StreamFails(es, f, g);
    // the reader gets f, reads again, and is told of the error before g
    es, s := Then(es, s, LHandle);
    es, s := Then(es, s, LDrain);
    es, s := Then(es, s, LRead);
    es, s := Then(es, s, LDone);
    es, s := Then(es, s, LWake);
  }

  // A read that times out, so that frame f goes to the overflow queue.
  lemma OverflowFilled(f: Frame) returns (es: seq<Event>, s: State)
    ensures s == Runs(es) == State(Net([], false, 0, 0, false), 0, [], [], Lua([f], 0, false, 1, [], Idle), [f], true)
  {
    es, s := ReadTimedOut();
    es, s := Then(es, s, NChunk);
    es, s := Then(es, s, NFrame(f));
    es, s := Then(es, s, LHandle);
  }

  lemma ReadTimedOut() returns (es: seq<Event>, s: State)
    ensures s == Runs(es) == State(Net([], false, 1, 0, true), 0, [], [], Lua([], 0, false, 1, [], Idle), [], false)
  {
    es, s := Then([], Start, LRead);
    es, s := Then(es, s, NRequest);
    es, s := Then(es, s, LTimeout);
  }

  // The next read wakes itself by an overflow message; then g arrives, and the error.
  lemma StreamFails(es0: seq<Event>, f: Frame, g: Frame) returns (es: seq<Event>, s: State)
    requires Runs(es0) == State(Net([], false, 0, 0, false), 0, [], [], Lua([f], 0, false, 1, [], Idle), [f], true)
    ensures s == Runs(es) == State(Net([], false, 0, 1, false), 0, [], [Overflow, Data(g), Err(1)], Lua([f], 1, false, 0, [], Idle), [f, g], true)
  {
    es, s := Then(es0, Runs(es0), LRead);
    es, s := Then(es, s, NFrame(g));
    assert DataOf([g]) == [Data(g)];
    es, s := Then(es, s, NFail(1));
    es, s := Then(es, s, NSetError);
  }

  lemma Then(es: seq<Event>, s: State, e: Event) returns (es': seq<Event>, t: State)
    requires Runs(es) == s && Can(s, e)
    ensures t == Next(s, e) && Runs(es') == t
  {
    es', t := es + [e], Next(s, e);
    assert es'[..|es'| - 1] == es;
  }

  // ----- readers left waiting

  // The error message is still on its way, or being taken up.
  predicate Pending(s: State) { (exists m <- s.mailbox :: m.Err?) || (s.lua.pc.Draining? && s.lua.pc.m.Err?) }

  // A read made now comes too late for the error message and too early for the recorded error.
  predicate Late(s: State) { s.failing != 0 && !Pending(s) }

  predicate Tells(s: State, m: Msg) { m.Err? || (m.Overflow? && s.net.error != 0) }

  // Something is under way that tells every waiting reader of the error.
  predicate WillTell(s: State) {
    || (exists m <- s.mailbox :: Tells(s, m))
    || (s.lua.pc.Draining? && Tells(s, s.lua.pc.m))
    || (s.lua.pc.WakingAll? && s.lua.pc.left >= s.lua.waiting)
  }

  predicate Remembered(s: State) { !Open(s) && s.lua.waiting > 0 ==> WillTell(s) }

  lemma StepRemembers(s: State, e: Event)
    requires Can(s, e) && Remembered(s) && (e.LRead? ==> !Late(s))
    ensures Remembered(Next(s, e))
  {
    match e
    case NFail(code) => FailTells(s, code);
    case NRequest => ReadKeepsError(s.net, s.requests[0]); PostKeeps(s, Read(s.net, s.requests[0]));
    case LRead => ReadRemembers(s);
    case LListen => ListenRemembers(s);
    case LHandle => HandleRemembers(s);
    case _ =>
  }

  lemma FailTells(s: State, code: int)
    ensures Err(code) in Post(s, Fail(s.net, code)).mailbox
  {
    assert Fail(s.net, code).msgs[|s.net.cached|] == Err(code);
  }

  lemma PostKeeps(s: State, r: Sent)
    ensures forall m :: m in s.mailbox ==> m in Post(s, r).mailbox
  {
  }

  lemma ReadRemembers(s: State)
    requires Remembered(s) && !Late(s)
    ensures Remembered(Next(s, LRead))
  {
    var t := Next(s, LRead);
    assert forall m :: m in s.mailbox ==> m in t.mailbox;
    if s.net.error != 0 { assert Overflow in t.mailbox; }
  }

  lemma ListenRemembers(s: State)
    requires Remembered(s) && Can(s, LListen)
    ensures Remembered(Next(s, LListen))
  {
    assert forall m :: m in s.mailbox ==> m in Next(s, LListen).mailbox;
  }

  lemma HandleRemembers(s: State)
    requires Remembered(s) && Can(s, LHandle)
    ensures Remembered(Next(s, LHandle))
  {
    var m, rest := s.mailbox[0], s.mailbox[1..];
    assert s.mailbox == [m] + rest;
  }

  // No read of the run was late.
  predicate OnTime(es: seq<Event>) {
    forall i :: 0 <= i < |es| && es[i].LRead? ==> !Late(Runs(es[..i]))
  }

  // Unless a read was late, every reader that waits after an error will be told of it.
  lemma {:induction false} ReadersAreTold(es: seq<Event>)
    requires OnTime(es)
    ensures Remembered(Runs(es))
    decreases |es|
  {
    if es != [] {
      var before, e := es[..|es| - 1], es[|es| - 1];
      forall i | 0 <= i < |before| && before[i].LRead? ensures !Late(Runs(before[..i])) { assert before[..i] == es[..i]; }
      ReadersAreTold(before);
      if Can(Runs(before), e) { StepRemembers(Runs(before), e); }
    }
  }

  // And that is exact: a late read is told nothing, as things stand.
  lemma LateReadIsNotTold(es: seq<Event>)
    requires !Open(Runs(es)) && OnTime(es)
    ensures WillTell(Next(Runs(es), LRead)) <==> !Late(Runs(es))
  {
    ReadersAreTold(es);
    var s, t := Runs(es), Next(Runs(es), LRead);
    if Late(s) {
      assert forall m :: m in t.mailbox ==> m in s.mailbox || m == Overflow;
      WakingAllIsAll(es);
    } else {
      ReadRemembers(s);
    }
  }

  lemma {:induction false} WakingAllIsAll(es: seq<Event>)
    ensures Runs(es).lua.pc.WakingAll? ==> Runs(es).lua.pc.left <= Runs(es).lua.waiting
    ensures Runs(es).net.error == 0 || Runs(es).failing == 0
    decreases |es|
  {
    if es != [] {
      var before, e := es[..|es| - 1], es[|es| - 1];
      WakingAllIsAll(before);
      if Can(Runs(before), e) { WakingStep(Runs(before), e); }
    }
  }

  lemma WakingStep(s: State, e: Event)
    requires Can(s, e) && (s.net.error == 0 || s.failing == 0) && (s.lua.pc.WakingAll? ==> s.lua.pc.left <= s.lua.waiting)
    ensures var t := Next(s, e); (t.net.error == 0 || t.failing == 0) && (t.lua.pc.WakingAll? ==> t.lua.pc.left <= t.lua.waiting)
  {
    if e.NRequest? { ReadKeepsError(s.net, s.requests[0]); }
  }

  lemma ReadKeepsError(n: Net, blocking: bool)
    ensures Read(n, blocking).net.error == n.error
  {
    DrainLeaves(Ask(n, blocking));
  }

  // An error has been recorded, a reader waits, and nothing is under way that could wake it.
  predicate Forgotten(s: State) { s.net.error != 0 && s.lua.waiting > 0 && s.mailbox == [] && s.lua.pc.Idle? }

  // The error is sent and told of, a coroutine reads, and the error is recorded: that reader is
  // forgotten.
  lemma ReaderForgotten() returns (es: seq<Event>)
    ensures Forgotten(Runs(es)) && Runs(es).requests == []
    ensures Runs(es).lua == Lua([], 1, false, 0, [Failed(1)], Idle)
  {
    var s;
    es, s := ErrorTold();
    es, s := Then(es, s, LRead);
    es, s := Then(es, s, NSetError);
    es, s := Then(es, s, NEnd);
    es, s := Then(es, s, NRequest);
  }

  // A reader is told of an error before the error is recorded.
  lemma ErrorTold() returns (es: seq<Event>, s: State)
    ensures s == Runs(es) == State(Net([], false, 1, 0, true), 1, [], [], Lua([], 0, false, 0, [Failed(1)], Idle), [], true)
  {
    es, s := ErrorSent();
    es, s := Then(es, s, LHandle);
    es, s := Then(es, s, LWake);
    es, s := Then(es, s, LWoken);
  }

  lemma ErrorSent() returns (es: seq<Event>, s: State)
    ensures s == Runs(es) == State(Net([], false, 1, 0, true), 1, [], [Err(1)], Lua([], 1, false, 0, [], Idle), [], true)
  {
    assert DataOf([]) == [];
    es, s := Then([], Start, LRead);
    es, s := Then(es, s, NRequest);
    es, s := Then(es, s, NChunk);
    es, s := Then(es, s, NFail(1));
  }

  // However the run goes on, forgotten readers stay so until the next read, and from then on
  // something is under way that tells all that wait.
  lemma ToldByNextRead(es: seq<Event>, more: seq<Event>)
    requires Forgotten(Runs(es))
    ensures var s, t := Runs(es), Runs(es + more);
      && (t.lua.waiting > 0 ==> (WillTell(t) <==> LRead in more))
      && (LRead !in more ==> t.lua.log == s.lua.log)
  {
    AfterForgotten(es, more);
  }

  predicate Quiet(s: State, log: seq<Given>) { s.mailbox == [] && s.lua.overflow == [] && s.lua.pc.Idle? && s.lua.log == log }

  lemma {:induction false} AfterForgotten(es: seq<Event>, more: seq<Event>)
    requires Forgotten(Runs(es))
    ensures Runs(es + more).net.error != 0 && Runs(es + more).failing == 0
    ensures if LRead in more then Remembered(Runs(es + more)) else Quiet(Runs(es + more), Runs(es).lua.log)
    decreases |more|
  {
    if more == [] {
      assert es + more == es;
      WakingAllIsAll(es);
      Fed(es);
    } else {
      var before, e := more[..|more| - 1], more[|more| - 1];
      assert more == before + [e];
      assert (es + more)[..|es + more| - 1] == es + before;
      AfterForgotten(es, before);
      var s := Runs(es + before);
      if Can(s, e) { ForgottenStep(s, e, LRead in before); }
    }
  }

  lemma ForgottenStep(s: State, e: Event, read: bool)
    requires Can(s, e) && s.net.error != 0 && s.failing == 0
    requires if read then Remembered(s) else Quiet(s, s.lua.log)
    ensures Next(s, e).net.error != 0 && Next(s, e).failing == 0
    ensures if read || e.LRead? then Remembered(Next(s, e)) else Quiet(Next(s, e), s.lua.log)
  {
    if read { StepRemembers(s, e); }
    else if e.LRead? { assert Overflow in Next(s, e).mailbox; }
    if e.NRequest? { ReadKeepsError(s.net, s.requests[0]); }
  }

  // ----- readers are served

  // While frames wait in the overflow queue and somebody reads, the context is draining it or has
  // sent itself the message to do so.
  predicate IsFed(s: State) {
    s.lua.overflow != [] && (s.lua.waiting > 0 || s.lua.callback) ==> s.lua.pc.Draining? || Overflow in s.mailbox
  }

  // A callback of the context is known to the network thread, or will be.
  predicate CallbackKnown(s: State) { s.lua.callback <==> s.net.callback || false in s.requests }

  // Reads that wait or have timed out, one for each read or frame under way.
  predicate Balanced(s: State) {
    s.lua.waiting + s.lua.timedOut == s.net.blocking + |s.requests| + |Datas(s.mailbox)| + |s.lua.overflow|
  }

  predicate Serves(s: State) {
    Open(s) ==> !s.lua.pc.WakingAll? && CallbackKnown(s) && (!s.lua.callback ==> Balanced(s))
  }

  lemma {:induction false} Fed(es: seq<Event>)
    ensures IsFed(Runs(es)) && (Runs(es).lua.pc.WakingAll? ==> Runs(es).lua.overflow == [])
    decreases |es|
  {
    if es != [] {
      var before, e := es[..|es| - 1], es[|es| - 1];
      Fed(before);
      if Can(Runs(before), e) { FedStep(Runs(before), e); }
    }
  }

  lemma FedStep(s: State, e: Event)
    requires Can(s, e) && IsFed(s) && (s.lua.pc.WakingAll? ==> s.lua.overflow == [])
    ensures var t := Next(s, e); IsFed(t) && (t.lua.pc.WakingAll? ==> t.lua.overflow == [])
  {
    match e
    case NFrame(f) => PostKeeps(s, Finish(s.net, f));
    case NFail(code) => PostKeeps(s, Fail(s.net, code));
    case NRequest => PostKeeps(s, Read(s.net, s.requests[0]));
    case LRead => assert s.lua.overflow != [] ==> Overflow in Next(s, e).mailbox;
    case LListen => assert s.lua.overflow != [] ==> Overflow in Next(s, e).mailbox;
    case LHandle => assert s.mailbox == [s.mailbox[0]] + s.mailbox[1..];
    case _ =>
  }

  // Without a callback each frame a request sends uses up one read.
  lemma {:induction false} DrainSpends(n: Net)
    requires !n.callback && n.blocking > 0
    ensures var r := Drain(n); !r.net.callback && r.net.blocking + |Datas(r.msgs)| == n.blocking
    decreases |n.cached|
  {
    if n.cached != [] {
      var m := n.(cached := n.cached[1..]).Spend();
      DatasFirst(n.cached[0], if m.Started() then Drain(m).msgs else []);
      if m.Started() { DrainSpends(m); }
    }
  }

  lemma {:induction false} ServesAlways(es: seq<Event>)
    ensures Serves(Runs(es))
    decreases |es|
  {
    if es != [] {
      var before, e := es[..|es| - 1], es[|es| - 1];
      ServesAlways(before);
      RunsInv(before);
      if Can(Runs(before), e) { ServesStep(Runs(before), e); }
    }
  }

  lemma ServesStep(s: State, e: Event)
    requires Can(s, e) && Ordered(s) && Serves(s)
    ensures Serves(Next(s, e))
  {
    match e
    case NFrame(f) => FrameServes(s, f);
    case NRequest => RequestServes(s);
    case LRead => AskedServes(s); NoFrame(s.mailbox);
    case LListen => ListenedServes(s);
    case LHandle => HandleServes(s);
    case LDrain => DrainServes(s);
    case _ =>
  }

  lemma AskedServes(s: State)
    requires Serves(s)
    ensures Serves(Asked(s))
  {
  }

  lemma ListenedServes(s: State)
    requires Can(s, LListen) && Serves(s)
    ensures Serves(Next(s, LListen))
  {
    var t := Next(s, LListen);
    assert t.requests == s.requests || t.requests == s.requests + [false];
  }

  lemma DrainServes(s: State)
    requires Can(s, LDrain) && Serves(s)
    ensures Serves(Next(s, LDrain))
  {
  }

  lemma NoFrame(ms: seq<Msg>)
    ensures Datas(ms + [Overflow]) == Datas(ms)
  {
    DatasSum(ms, [Overflow]);
    assert Datas([Overflow]) == Datas([]);
  }

  lemma FrameServes(s: State, f: Frame)
    requires Can(s, NFrame(f)) && Serves(s)
    ensures Serves(Next(s, NFrame(f)))
  {
    DatasSum(s.mailbox, Finish(s.net, f).msgs);
    DatasFirst(f, []);
  }

  lemma RequestServes(s: State)
    requires Can(s, NRequest) && Serves(s)
    ensures Serves(Next(s, NRequest))
  {
    var n := Ask(s.net, s.requests[0]);
    DrainLeaves(n);
    assert s.requests == [s.requests[0]] + s.requests[1..];
    DatasSum(s.mailbox, Drain(n).msgs);
    if Open(s) && !s.lua.callback { DrainSpends(n); }
  }

  lemma HandleServes(s: State)
    requires Can(s, LHandle) && Ordered(s) && Serves(s)
    ensures Serves(Next(s, LHandle))
  {
    TailOrdered(s.mailbox);
  }

  // Until an error no reader waits in vain: a frame or a request is under way to it, or the socket
  // is being read.  Without a callback the reads and what is under way for them balance.
  lemma ReadersAreServed(es: seq<Event>)
    ensures var s := Runs(es); var l := s.lua; Open(s) ==>
      && (l.waiting > 0 || l.callback ==>
            if l.overflow != [] then l.pc.Draining? || Overflow in s.mailbox
            else Datas(s.mailbox) != [] || s.requests != [] || s.net.reading)
      && (!l.callback ==> Balanced(s))
  {
    ServesAlways(es);
    RunsInv(es);
    Fed(es);
  }

  // ----- the runs by their events

  // The error of the failure in a run, 0 if there was none.
  function FailedWith(es: seq<Event>): int
    decreases |es|
  {
    if es == [] then 0 else
    var before, e := es[..|es| - 1], es[|es| - 1];
    if FailedWith(before) == 0 && e.NFail? && Can(Runs(before), e) then e.code else FailedWith(before)
  }

  // Everything in the state that names an error names this one.
  predicate Names(s: State, code: int) {
    && (Open(s) <==> code == 0) && (s.failing != 0 ==> s.failing == code) && (s.net.error != 0 ==> s.net.error == code)
    && MailNames(s.mailbox, code) && LuaNames(s.lua, code)
  }

  predicate MailNames(ms: seq<Msg>, code: int) { forall i :: 0 <= i < |ms| && ms[i].Err? ==> ms[i].code == code != 0 }

  predicate LuaNames(l: Lua, code: int) {
    && (l.pc.Draining? && l.pc.m.Err? ==> l.pc.m.code == code != 0)
    && (l.pc.WakingAll? ==> l.pc.code == code != 0)
    && (forall i :: 0 <= i < |l.log| && l.log[i].Failed? ==> l.log[i].code == code != 0)
  }

  lemma SendsNoError(s: State, r: Sent, code: int)
    requires Names(s, code) && (forall m <- r.msgs :: m.Data?) && r.net.error == s.net.error
    ensures Names(Post(s, r), code)
  {
    assert forall i :: 0 <= i < |r.msgs| ==> r.msgs[i] in r.msgs;
  }

  lemma NamesKept(s: State, e: Event, code: int)
    requires Can(s, e) && Names(s, code)
    ensures Names(Next(s, e), if e.NFail? then e.code else code)
  {
    match e
    case NFrame(f) => SendsNoError(s, Finish(s.net, f), code);
    case NFail(c) => FailNames(s, c);
    case NRequest => DrainLeaves(Ask(s.net, s.requests[0])); SendsNoError(s, Read(s.net, s.requests[0]), code);
    case LHandle => HandleNames(s, code);
    case LRead => AskNames(s, e, code);
    case LListen => AskNames(s, e, code);
    case _ => StepNames(s, e, code);
  }

  lemma AskNames(s: State, e: Event, code: int)
    requires Can(s, e) && Names(s, code) && (e.LRead? || e.LListen?)
    ensures Names(Next(s, e), code)
  {
  }

  lemma StepNames(s: State, e: Event, code: int)
    requires Can(s, e) && Names(s, code) && !e.NFrame? && !e.NFail? && !e.NRequest? && !e.LHandle? && !e.LRead? && !e.LListen?
    ensures Names(Next(s, e), code)
  {
  }

  lemma FailNames(s: State, c: int)
    requires Can(s, NFail(c)) && Names(s, 0)
    ensures Names(Next(s, NFail(c)), c)
  {
  }

  lemma HandleNames(s: State, code: int)
    requires Can(s, LHandle) && Names(s, code)
    ensures Names(Next(s, LHandle), code)
  {
    assert s.mailbox == [s.mailbox[0]] + s.mailbox[1..];
  }

  lemma {:induction false} NamesOfRun(es: seq<Event>)
    ensures Names(Runs(es), FailedWith(es))
    decreases |es|
  {
    if es != [] {
      var before, e := es[..|es| - 1], es[|es| - 1];
      NamesOfRun(before);
      if Can(Runs(before), e) { NamesKept(Runs(before), e, FailedWith(before)); }
    }
  }

  // Whoever is told of an error is told of the one the stream failed with.
  lemma ToldTheError(es: seq<Event>)
    ensures forall g <- Runs(es).lua.log :: g.Failed? ==> g.code == FailedWith(es) != 0
  {
    NamesOfRun(es);
  }

  // The frames completed in a run, by its events.
  function Completed(es: seq<Event>): seq<Frame>
    decreases |es|
  {
    if es == [] then [] else
    var before, e := es[..|es| - 1], es[|es| - 1];
    Completed(before) + if e.NFrame? && Can(Runs(before), e) then [e.f] else []
  }

  lemma {:induction false} ParsedIsCompleted(es: seq<Event>)
    ensures Runs(es).parsed == Completed(es)
    decreases |es|
  {
    if es != [] {
      var before, e := es[..|es| - 1], es[|es| - 1];
      ParsedIsCompleted(before);
      if Can(Runs(before), e) { StepParses(Runs(before), e); }
    }
  }

  lemma StepParses(s: State, e: Event)
    requires Can(s, e)
    ensures Next(s, e).parsed == s.parsed + if e.NFrame? then [e.f] else []
  {
    match e case LRead => case LListen => case LHandle => case _ =>
  }

  // Every frame the network thread completed has been given out, waits in the overflow queue, is
  // in the mailbox or is cached, once and in the order of completion.
  lemma NoFrameLost(es: seq<Event>)
    ensures var s := Runs(es); Completed(es) == Frames(s.lua.log) + s.lua.overflow + Datas(s.mailbox) + s.net.cached
  {
    ParsedIsCompleted(es);
    FramesInOrder(es);
  }

  // How many steps of a run were reads, and how many reads timed out.
  function Reads(es: seq<Event>): nat {
    if es == [] then 0 else Reads(es[..|es| - 1]) + if es[|es| - 1].LRead? then 1 else 0
  }

  function TimedOut(es: seq<Event>): nat
    decreases |es|
  {
    if es == [] then 0 else
    var before, e := es[..|es| - 1], es[|es| - 1];
    TimedOut(before) + if e.LTimeout? && Can(Runs(before), e) then 1 else 0
  }

  // Where no callback reads, each read is answered once: it waits, has timed out, or has got a
  // frame or an error.
  lemma {:induction false} ReadsAnswered(es: seq<Event>)
    ensures !Runs(es).lua.callback ==> Reads(es) == Runs(es).lua.waiting + TimedOut(es) + |Runs(es).lua.log|
    decreases |es|
  {
    if es != [] {
      var before, e := es[..|es| - 1], es[|es| - 1];
      ReadsAnswered(before);
      if Can(Runs(before), e) { StepAnswers(Runs(before), e); }
    }
  }

  lemma StepAnswers(s: State, e: Event)
    requires Can(s, e)
    ensures var l, m := s.lua, Next(s, e).lua;
      !m.callback ==>
        (!l.callback && m.waiting + |m.log| == l.waiting + |l.log| + (if e.LRead? then 1 else if e.LTimeout? then -1 else 0))
  {
  }
}
