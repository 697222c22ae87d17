/**
 The code generator for expressions.  Jumps that wait for the same target form a list
 threaded through the jump instructions themselves; `jpc` is the list of jumps to the next
 instruction.  Every method keeps what the code laid down so far means: falling off its end
 it holds the value where its descriptor says, and leaving it by a jump of the true or the
 false list it holds a true or a false value.  A method refuses only for want of room: when
 a jump would be too far, or the registers are used up.
 */
module CodeGen {
  import opened LuaMachine
  import opened JumpLists
  import opened JumpChains
  import opened ShortCircuit
  import opened CodeEdits
  import opened CodeLayout
  import opened CodeSteps

  const MAXARG_sBx := 131071
  const MAXREGS := 255

  // Compilation stops at the first error.
  datatype Status = Ok | TooLong | TooManyRegisters {
    predicate IsFailure() { !Ok? }
    function PropagateFailure(): Status { this }
  }

  // SETARG_A on an instruction whose register is still open.
  function Relocated(i: Instr, reg: Reg): Instr
    requires i.GetUpval? || i.Not?
  {
    if i.Not? then Not(reg, i.b) else GetUpval(reg, i.upvalue)
  }

  // Bounds for the instructions and the registers an expression takes.
  function Size(x: Expr): nat {
    match x
    case Negation(y) => Size(y) + 4
    case And(y, z) => Size(y) + Size(z) + 6
    case Or(y, z) => Size(y) + Size(z) + 6
    case Related(_, y, z) => Size(y) + Size(z) + 30
    case _ => 0
  }

  function Height(x: Expr): (r: nat)
    ensures r >= 1
  {
    match x
    case Negation(y) => Height(y)
    case And(y, z) => if Height(y) < Height(z) then Height(z) else Height(y)
    case Or(y, z) => if Height(y) < Height(z) then Height(z) else Height(y)
    case Related(_, y, z) => if Height(y) < Height(z) + 1 then Height(z) + 1 else Height(y)
    case _ => 1
  }

  class FuncState {
    var code: seq<Instr>
    var jpc: int
    var freereg: nat
    var maxstacksize: nat
    const nactvar: nat           // locals live in the registers below
    ghost var waiting: seq<nat>  // the jumps of list jpc

    ghost predicate Valid()
      reads this
    {
      && Chain(code, jpc, waiting) && Waiting(code, Nodes(waiting))
      && nactvar <= freereg <= maxstacksize < MAXREGS
    }

    // A function with its parameters in registers.
    constructor (locals: nat)
      requires locals < MAXREGS
      ensures Valid() && code == [] && waiting == [] && freereg == nactvar == locals
    {
      code, jpc, waiting := [], NO_JUMP, [];
      freereg, nactvar, maxstacksize := locals, locals, if locals < 2 then 2 else locals;
    }

    // ---- lists ----

    function GetJump(pc: nat): int
      requires pc < |code| && code[pc].Jmp?
      reads this
    {
      if code[pc].sBx == NO_JUMP then NO_JUMP else pc + 1 + code[pc].sBx
    }

    // No more than k instructions were added to n; an error says that those would be too many.
    predicate Fits(st: Status, n: nat, k: nat)
      reads `code
    {
      (st.Ok? ==> |code| <= n + k) && (st.TooLong? ==> n + k >= MAXARG_sBx)
    }

    // Only a jump over more code than there may be fails.
    method FixJump(pc: nat, dest: int) returns (st: Status)
      requires pc < |code| && code[pc].Jmp?
      requires -1 <= dest <= |code|
      modifies `code
      ensures st.Ok? ==> code == old(code)[pc := Jmp(dest - (pc + 1))]
      ensures Fits(st, |old(code)|, 0) && !st.TooManyRegisters?
    {
      var offset := dest - (pc + 1);
      if (if offset < 0 then -offset else offset) > MAXARG_sBx { return TooLong; }
      code := code[pc := Jmp(offset)];
      return Ok;
    }

    method Concat(l1: int, l2: int, ghost n1: seq<nat>, ghost n2: seq<nat>) returns (st: Status, l: int)
      requires Chain(code, l1, n1) && Chain(code, l2, n2) && Nodes(n1) !! Nodes(n2)
      modifies `code
      ensures st.Ok? ==> Chain(code, l, n1 + n2)
      ensures st.Ok? ==> SameBut(old(code), code, if n2 == [] then {} else Nodes(n1))
      ensures Fits(st, |old(code)|, 0) && !st.TooManyRegisters?
    {
      ghost var was := code;
      if l2 == NO_JUMP { assert n1 + n2 == n1; return Ok, l1; }
      if l1 == NO_JUMP { assert n1 + n2 == n2; return Ok, l2; }
      l := l1;
      var list := l1;
      ghost var k := 0;
      assert Linked(code, n1, 0);
      var next := GetJump(list);
      while next != NO_JUMP
        invariant 0 <= k < |n1| && list == n1[k] && list < |code| && code[list].Jmp? && next == GetJump(list)
        decreases |n1| - k
      {
        assert Linked(code, n1, k) && Linked(code, n1, k + 1);
        list := next;
        k := k + 1;
        next := GetJump(list);
      }
      assert Linked(code, n1, k);
      LastOfChain(code, l1, n1, k);
      assert Linked(code, n2, 0);
      :- FixJump(list, l2);
      Spliced(was, l1, n1, l2, n2, code);
      return Ok, l1;
    }

    // Gives the test of jump `node` its register; false if the jump carries no value.
    method PatchTestReg(node: nat, reg: Reg) returns (valued: bool)
      requires node < |code|
      modifies `code
      ensures valued == HasValue(old(code), node)
      ensures code == if valued then old(code)[node - 1 := Tied(old(code)[node - 1], reg)] else old(code)
    {
      var control := if node >= 1 && code[node - 1].IsTest() then node - 1 else node;
      if !code[control].TestSet? || control == node { return false; }
      code := code[control := Tied(code[control], reg)];
      return true;
    }

    method PatchListAux(l: int, vtarget: nat, reg: Reg, dtarget: int, ghost ns: seq<nat>) returns (st: Status)
      requires Chain(code, l, ns)
      requires vtarget <= |code| && -1 <= dtarget <= |code|
      modifies `code
      ensures st.Ok? ==> code == Patched(old(code), Nodes(ns), vtarget, reg, dtarget)
      ensures Fits(st, |old(code)|, 0) && !st.TooManyRegisters?
    {
      var list := l;
      ghost var k := 0;
      ghost var was := code;
      ghost var done: set<nat> := {};
      assert code == Patched(was, {}, vtarget, reg, dtarget);
      while list != NO_JUMP
        invariant 0 <= k <= |ns| && done == Nodes(ns[..k]) && list == if k < |ns| then ns[k] else NO_JUMP
        invariant code == Patched(was, done, vtarget, reg, dtarget)
        decreases |ns| - k
      {
        ChainAhead(was, l, ns, k, done);
        var next := GetJump(list);
        var valued := PatchTestReg(list, reg);
        :- FixJump(list, if valued then vtarget else dtarget);
        PatchedOneMore(was, done, vtarget, reg, dtarget, list, code);
        done := done + {list};
        OneMoreNode(ns, k);
        list := next;
        k := k + 1;
      }
      assert ns[..k] == ns;
      return Ok;
    }

    method DischargeJpc() returns (st: Status)
      requires Valid()
      modifies `code, `jpc, `waiting
      ensures st.Ok? ==> Valid() && code == Discharged(old(code), Nodes(old(waiting))) && jpc == NO_JUMP && waiting == []
      ensures Fits(st, |old(code)|, 0) && !st.TooManyRegisters?
    {
      st := PatchListAux(jpc, |code|, NO_REG, |code|, waiting);
      :- st;
      jpc := NO_JUMP;
      waiting := [];
      return Ok;
    }

    // luaK_code
    method Code(i: Instr) returns (st: Status, pc: nat)
      requires Valid()
      modifies `code, `jpc, `waiting
      ensures st.Ok? ==> Valid() && code == Discharged(old(code), Nodes(old(waiting))) + [i] && jpc == NO_JUMP && waiting == []
      ensures st.Ok? ==> pc == |old(code)|
      ensures Fits(st, |old(code)|, 1) && !st.TooManyRegisters?
    {
      pc := |code|;
      :- DischargeJpc();
      code := code + [i];
      return Ok, pc;
    }

    // A jump without a target; the jumps to here go along with it.
    method Jump() returns (st: Status, j: int)
      requires Valid()
      modifies `code, `jpc, `waiting
      ensures st.Ok? ==> Valid() && jpc == NO_JUMP && waiting == []
      ensures st.Ok? ==> |code| == |old(code)| + 1 && code[..|old(code)|] == old(code) && code[|old(code)|].Jmp?
      ensures st.Ok? ==> Chain(code, j, [|old(code)|] + old(waiting))
      ensures st.Ok? && old(waiting) == [] ==> code[|old(code)|] == Jmp(NO_JUMP) && j == |old(code)|
      ensures Fits(st, |old(code)|, 1) && !st.TooManyRegisters?
    {
      var held := jpc;
      ghost var ns := waiting;
      ghost var was := code;
      jpc := NO_JUMP;
      waiting := [];
      st, j := Code(Jmp(NO_JUMP));
      :- st;
      assert code == was + [Jmp(NO_JUMP)] by { assert Discharged(was, {}) == was; }
      ChainNodes(was, held, ns);
      ChainKept(was, code, held, ns);
      ghost var mid := code;
      st, j := Concat(j, held, [|was|], ns);
      :- st;
      assert code[..|was|] == mid[..|was|] == was;
      return Ok, j;
    }

    // A test followed by its jump.
    method CondJump(i: Instr) returns (st: Status, j: int)
      requires Valid() && i.IsTest()
      modifies `code, `jpc, `waiting
      ensures st.Ok? ==> Valid() && jpc == NO_JUMP && waiting == []
      ensures st.Ok? ==> code == Discharged(old(code), Nodes(old(waiting))) + [i, Jmp(NO_JUMP)] && j == |old(code)| + 1
      ensures st.Ok? ==> Chain(code, j, [|old(code)| + 1])
      ensures Fits(st, |old(code)|, 2) && !st.TooManyRegisters?
    {
      ghost var was, ns := code, waiting;
      st, j := Code(i);
      :- st;
      ghost var mid := code;
      st, j := Jump();
      :- st;
      assert code == mid + [Jmp(NO_JUMP)];
      assert code == Discharged(was, Nodes(ns)) + [i, Jmp(NO_JUMP)];
      assert [|was| + 1] + [] == [|was| + 1];
      return Ok, j;
    }

    method PatchToHere(l: int, ghost ns: seq<nat>) returns (st: Status)
      requires Valid() && Chain(code, l, ns) && Nodes(waiting) !! Nodes(ns) && Waiting(code, Nodes(ns))
      modifies `code, `jpc, `waiting
      ensures st.Ok? ==> Valid() && waiting == old(waiting) + ns
      ensures st.Ok? ==> SameBut(old(code), code, if ns == [] then {} else Nodes(old(waiting)))
      ensures Fits(st, |old(code)|, 0) && !st.TooManyRegisters?
    {
      ghost var was := code;
      st, jpc := Concat(jpc, l, waiting, ns);
      :- st;
      NodesOfSum(waiting, ns);
      waiting := waiting + ns;
      assert Waiting(was, Nodes(waiting));
      forall j <- Nodes(waiting) ensures j < |code| && code[j].Jmp? && (j > 0 && code[j - 1].TestSet? ==> code[j - 1].a == NO_REG) {
        assert j > 0 ==> code[j - 1] == was[j - 1] || code[j - 1].Jmp?;
      }
      return Ok;
    }

    // Does some jump of the list not produce a value?
    method NeedValue(l: int, ghost ns: seq<nat>) returns (b: bool)
      requires Chain(code, l, ns)
      ensures b <==> exists j <- Nodes(ns) :: j < |code| && !HasValue(code, j)
    {
      var list := l;
      ghost var k := 0;
      ChainNodes(code, l, ns);
      while list != NO_JUMP
        invariant 0 <= k <= |ns| && list == if k < |ns| then ns[k] else NO_JUMP
        invariant forall i :: 0 <= i < k ==> ns[i] < |code| && HasValue(code, ns[i])
        decreases |ns| - k
      {
        assert Linked(code, ns, k) && ns[k] in Nodes(ns);
        var i := if list >= 1 && code[list - 1].IsTest() then code[list - 1] else code[list];
        if !i.TestSet? { return true; }
        list := GetJump(list);
        LastOrNext(code, l, ns, k);
        k := k + 1;
      }
      return false;
    }

    method RemoveValues(l: int, ghost ns: seq<nat>)
      requires Chain(code, l, ns)
      modifies `code
      ensures code == Untied(old(code), Nodes(ns))
      ensures |code| == |old(code)|
    {
      var list := l;
      ghost var k := 0;
      ghost var was := code;
      ghost var done: set<nat> := {};
      assert code == Untied(was, {});
      while list != NO_JUMP
        invariant 0 <= k <= |ns| && done == Nodes(ns[..k]) && list == if k < |ns| then ns[k] else NO_JUMP
        invariant code == Untied(was, done)
        decreases |ns| - k
      {
        ChainAhead(was, l, ns, k, done);
        LastOrNext(was, l, ns, k);
        assert code[list] == UntiedAt(was, done, list);
        assert list > 0 ==> code[list - 1] == UntiedAt(was, done, list - 1);
        ghost var mid := code;
        var valued := PatchTestReg(list, NO_REG);
        UntiedOneMore(was, done, list, code);
        done := done + {list};
        OneMoreNode(ns, k);
        assert code[list] == was[list];
        list := GetJump(list);
        k := k + 1;
      }
      assert ns[..k] == ns;
    }

    // ---- descriptors ----

    ghost predicate Lists(e: ExpDesc, t: seq<nat>, f: seq<nat>)
      reads this
    {
      Valid() && Chain(code, e.t, t) && Chain(code, e.f, f)
    }

    // The value of s.expr (negated, if `negated`) is where e says.
    ghost predicate Holding(s: Sub, e: ExpDesc, spoilt: Reg, negated: bool, t: seq<nat>, f: seq<nat>)
      reads this
    {
      Lists(e, t, f) && Good(s, code, Nodes(waiting), e.k, spoilt, negated, Nodes(t), Nodes(f))
    }

    // A value in a register is in a local or in the first free one when the subexpression began.
    predicate Placed(s: Sub, k: Kind)
      reads this
    {
      && nactvar <= s.base
      && (k.VLocal? ==> k.reg < nactvar)
      && freereg == s.base + (if k.VNonReloc? && k.reg >= nactvar then 1 else 0)
      && (k.VNonReloc? && k.reg >= nactvar ==> k.reg == s.base)
    }

    method ReserveReg() returns (st: Status)
      requires Valid()
      modifies `freereg, `maxstacksize
      ensures st.Ok? ==> Valid() && freereg == old(freereg) + 1
      ensures !st.TooLong? && (st.TooManyRegisters? ==> old(freereg) + 1 >= MAXREGS)
    {
      var newstack := freereg + 1;
      if newstack > maxstacksize {
        if newstack >= MAXREGS { return TooManyRegisters; }
        maxstacksize := newstack;
      }
      freereg := newstack;
      return Ok;
    }

    method FreeExp(e: ExpDesc, ghost s: Sub)
      requires Valid() && Placed(s, e.k)
      modifies `freereg
      ensures Valid() && freereg == s.base
    {
      if e.k.VNonReloc? && e.k.reg >= nactvar {
        freereg := freereg - 1;
        assert e.k.reg == freereg;
      }
    }

    method DischargeVars(e: ExpDesc, ghost s: Sub, ghost t: seq<nat>, ghost f: seq<nat>) returns (st: Status, e': ExpDesc)
      requires Holding(s, e, NO_REG, false, t, f)
      modifies `code, `jpc, `waiting
      ensures st.Ok? ==> Holding(s, e', NO_REG, false, t, f) && (old(Placed(s, e.k)) ==> Placed(s, e'.k))
      ensures st.Ok? ==> (e'.k.VK? || e'.k.VJmp? ==> e'.k == e.k) && !e'.k.VLocal? && !e'.k.VUpval? && e'.t == e.t && e'.f == e.f
      ensures !e.k.VLocal? && !e.k.VUpval? ==> st.Ok? && e' == e && code == old(code) && jpc == old(jpc) && waiting == old(waiting)
      ensures Fits(st, |old(code)|, 1) && !st.TooManyRegisters?
    {
      st, e' := Ok, e;
      match e.k
      case VLocal(r) =>
        e' := e.(k := VNonReloc(r));
        Redescribe(s, code, Nodes(waiting), e.k, NO_REG, e'.k, NO_REG, false, Nodes(t), Nodes(f));
      case VUpval(u) =>
        ghost var was, ns := code, waiting;
        var pc;
        st, pc := Code(GetUpval(0, u));
        :- st;
        e' := e.(k := VReloc(pc));
        DeferValue(s, was, Nodes(ns), e.k, Nodes(t), Nodes(f), GetUpval(0, u), false);
        ListsEmitted(s, was, Nodes(ns), e, t, f, code);
      case _ =>
    }

    // Puts the value into `reg`; a pending comparison stays as it is.
    method Discharge2Reg(e0: ExpDesc, reg: Reg, ghost s: Sub, ghost t: seq<nat>, ghost f: seq<nat>)
        returns (st: Status, e: ExpDesc)
      requires Holding(s, e0, NO_REG, false, t, f)
      modifies `code, `jpc, `waiting
      ensures st.Ok? ==> e.t == e0.t && e.f == e0.f
      ensures st.Ok? && e0.k.VJmp? ==> e == e0 && Holding(s, e, NO_REG, false, t, f)
      ensures st.Ok? && !e0.k.VJmp? ==> e.k == VNonReloc(reg) && Holding(s, e, reg, false, t, f)
      ensures Fits(st, |old(code)|, 2) && !st.TooManyRegisters?
    {
      st, e := DischargeVars(e0, s, t, f);
      :- st;
      match e.k {
        case VJmp(_) => return Ok, e;
        case VNonReloc(r) =>
          if r != reg { st := Load(Move(reg, r), e, s, t, f); }
          else { Redescribe(s, code, Nodes(waiting), e.k, NO_REG, e.k, reg, false, Nodes(t), Nodes(f)); }
        case VNil => st := Load(LoadNil(reg), e, s, t, f);
        case VTrue => st := Load(LoadBool(reg, true, false), e, s, t, f);
        case VFalse => st := Load(LoadBool(reg, false, false), e, s, t, f);
        case VK(v) => st := Load(LoadK(reg, v), e, s, t, f);
        case VReloc(_) => Relocate(e, reg, s, t, f);
      }
      :- st;
      e := e.(k := VNonReloc(reg));
      return Ok, e;
    }

    // Gives the last instruction its register.
    method Relocate(e: ExpDesc, reg: Reg, ghost s: Sub, ghost t: seq<nat>, ghost f: seq<nat>)
      requires Holding(s, e, NO_REG, false, t, f) && e.k.VReloc?
      modifies `code
      ensures Holding(s, e.(k := VNonReloc(reg)), reg, false, t, f)
      ensures |code| == |old(code)|
    {
      ghost var was, here := code, Nodes(waiting);
      var i := Relocated(code[e.k.pc], reg);
      code := code[e.k.pc := i];
      ghost var b := Body(was, e.k);
      assert Discharged(b, here) == b;
      assert code == b + [i];
      ChainNodes(was, jpc, waiting);
      PutValue(s, was, here, e.k, Nodes(t), Nodes(f), i);
      ListsBefore(s, was, here, e, t, f, code);
    }

    // One instruction that loads a constant or moves a register.
    method Load(i: Instr, e: ExpDesc, ghost s: Sub, ghost t: seq<nat>, ghost f: seq<nat>) returns (st: Status)
      requires Holding(s, e, NO_REG, false, t, f) && !e.k.VReloc? && !e.k.VJmp?
      requires !i.IsTest() && !i.Jmp? && (i.LoadBool? ==> !i.skip)
      requires forall env: Env, now: Regs :: Computes(env, i, now) == ValueOf(env, code, e.k, now)
      modifies `code, `jpc, `waiting
      ensures st.Ok? ==> Holding(s, e.(k := VNonReloc(i.a)), i.a, false, t, f)
      ensures Fits(st, |old(code)|, 1) && !st.TooManyRegisters?
    {
      ghost var was, here := code, Nodes(waiting);
      var pc;
      st, pc := Code(i);
      :- st;
      PutValue(s, was, here, e.k, Nodes(t), Nodes(f), i);
      ListsEmitted(s, was, here, e, t, f, code);
      return Ok;
    }

    method Discharge2AnyReg(e: ExpDesc, ghost s: Sub, ghost t: seq<nat>, ghost f: seq<nat>) returns (st: Status, e': ExpDesc)
      requires Holding(s, e, NO_REG, false, t, f) && Placed(s, e.k) && !e.k.VJmp?
      modifies this
      ensures st.Ok? ==> e'.k.VNonReloc? && e'.t == e.t && e'.f == e.f
      ensures st.Ok? ==> Holding(s, e', NO_REG, false, t, f) && Placed(s, e'.k)
      ensures Fits(st, |old(code)|, 2)
      ensures st.TooManyRegisters? ==> s.base + 1 >= MAXREGS
    {
      e' := e;
      if e.k.VNonReloc? { return Ok, e; }
      :- ReserveReg();
      st, e' := Discharge2Reg(e, freereg - 1, s, t, f);
      :- st;
      Redescribe(s, code, Nodes(waiting), e'.k, freereg - 1, e'.k, NO_REG, false, Nodes(t), Nodes(f));
      return Ok, e';
    }

    // ---- jumping on the value ----

    // The test of the value is emitted: falling through it is a true one exactly if c.
    ghost predicate Testing(s: Sub, c: bool, t: set<nat>, f: set<nat>)
      reads this
    {
      Valid() && freereg == s.base && Tested(s, code, Nodes(waiting), c, t, f)
    }

    // The jumps p leave when the value is not one that c asks for.
    ghost predicate Taken(s: Sub, e: ExpDesc, c: bool, pc: int, p: seq<nat>, t: seq<nat>, f: seq<nat>)
      reads this
    {
      && Lists(e, t, f) && Chain(code, pc, p) && Nodes(p) !! Nodes(t) + Nodes(f)
      && Testing(s, c, if c then Nodes(t) else Nodes(t) + Nodes(p), if c then Nodes(f) + Nodes(p) else Nodes(f))
    }

    // A test of the value in a register.
    method JumpOnRegister(e: ExpDesc, cond: bool, ghost s: Sub, ghost t: seq<nat>, ghost f: seq<nat>) returns (st: Status, pc: int)
      requires Holding(s, e, NO_REG, false, t, f) && e.k.VNonReloc? && freereg == s.base
      modifies `code, `jpc, `waiting
      ensures st.Ok? ==> pc >= 0 && Taken(s, e, !cond, pc, [pc], t, f)
      ensures Fits(st, |old(code)|, 2) && !st.TooManyRegisters?
    {
      ghost var was, here := code, Nodes(waiting);
      st, pc := CondJump(TestSet(NO_REG, e.k.reg, cond));
      :- st;
      NodesOfOne(pc);
      TestValue(s, was, here, e.k, Nodes(t), Nodes(f), TestSet(NO_REG, e.k.reg, cond), !cond,
        if cond then Nodes(t) + {pc} else Nodes(t), if cond then Nodes(f) else Nodes(f) + {pc});
      ListsEmitted(s, was, here, e, t, f, code);
      return Ok, pc;
    }

    // The last instruction, a NOT, becomes a test of its operand.
    method JumpOnNot(e: ExpDesc, cond: bool, ghost s: Sub, ghost t: seq<nat>, ghost f: seq<nat>) returns (st: Status, pc: int)
      requires Holding(s, e, NO_REG, false, t, f) && e.k.VReloc? && code[e.k.pc].Not? && freereg == s.base
      modifies `code, `jpc, `waiting
      ensures st.Ok? ==> pc >= 0 && Taken(s, e, !cond, pc, [pc], t, f)
      ensures Fits(st, |old(code)|, 2) && !st.TooManyRegisters?
    {
      ghost var was := code;
      var i := Test(code[e.k.pc].b, !cond);
      code := code[..e.k.pc];
      ghost var b := code;
      ChainNodes(was, jpc, waiting);
      assert Discharged(b, {}) == b;
      ListsBefore(s, was, {}, e, t, f, code);
      st, pc := CondJump(i);
      :- st;
      NodesOfOne(pc);
      TestValue(s, was, {}, e.k, Nodes(t), Nodes(f), i, !cond,
        if cond then Nodes(t) + {pc} else Nodes(t), if cond then Nodes(f) else Nodes(f) + {pc});
      ListsBefore(s, was, {}, e, t, f, code);
      return Ok, pc;
    }

    // A jump taken when the value is a true one exactly if `cond`.
    method JumpOnCond(e0: ExpDesc, cond: bool, ghost s: Sub, ghost t: seq<nat>, ghost f: seq<nat>) returns (st: Status, pc: int)
      requires Holding(s, e0, NO_REG, false, t, f) && Placed(s, e0.k) && !e0.k.VJmp?
      modifies this
      ensures st.Ok? ==> pc >= 0 && Taken(s, e0, !cond, pc, [pc], t, f)
      ensures Fits(st, |old(code)|, 4)
      ensures st.TooManyRegisters? ==> s.base + 1 >= MAXREGS
    {
      pc := NO_JUMP;
      if e0.k.VReloc? && code[e0.k.pc].Not? {
        st, pc := JumpOnNot(e0, cond, s, t, f);
      } else {
        var e;
        st, e := Discharge2AnyReg(e0, s, t, f);
        :- st;
        FreeExp(e, s);
        st, pc := JumpOnRegister(e, cond, s, t, f);
      }
    }

    // The comparison before a jump inverted.
    method InvertJump(e: ExpDesc, ghost s: Sub, ghost t: seq<nat>, ghost f: seq<nat>)
      requires Holding(s, e, NO_REG, false, t, f) && e.k.VJmp?
      modifies `code
      ensures Holding(s, e, NO_REG, true, t, f)
      ensures var i := old(code)[e.k.pc - 1]; code == old(code)[e.k.pc - 1 := i.(cond := !i.cond)]
      ensures |code| == |old(code)|
    {
      ghost var was := code;
      var i := code[e.k.pc - 1];
      code := code[e.k.pc - 1 := Compare(i.op, !i.cond, i.x, i.y)];
      ChainNodes(was, jpc, waiting);
      Invert(s, was, e.k.pc, code[e.k.pc - 1], Nodes(t), Nodes(f));
      ListsBefore(s, was, {}, e, t, f, code);
    }

    // A comparison's own jump, inverted to be taken on a false value.
    method JumpOnFalse(e: ExpDesc, ghost s: Sub, ghost t: seq<nat>, ghost f: seq<nat>)
      requires Holding(s, e, NO_REG, false, t, f) && e.k.VJmp? && freereg == s.base
      modifies `code
      ensures Taken(s, e, true, e.k.pc, [e.k.pc], t, f)
      ensures |code| == |old(code)|
    {
      ghost var was := code;
      ChainNodes(was, jpc, waiting);
      InvertJump(e, s, t, f);
      JumpTested(s, was, e.k.pc, code, Nodes(t), Nodes(f), true);
    }

    // The end of goiftrue (c) and goiffalse: the jump joins the list it leaves by, and the
    // jumps with verdict c go on to the next instruction.
    method LinkAndClose(open: int, pc: int, close: int, c: bool, ghost s: Sub,
        ghost ns: seq<nat>, ghost p: seq<nat>, ghost ms: seq<nat>) returns (st: Status, l: int)
      requires Valid() && Chain(code, open, ns) && Chain(code, pc, p) && Chain(code, close, ms) && Nodes(ns) !! Nodes(p)
      requires Testing(s, c, if c then Nodes(ms) else Nodes(ns) + Nodes(p), if c then Nodes(ns) + Nodes(p) else Nodes(ms))
      modifies `code, `jpc, `waiting
      ensures st.Ok? ==> Chain(code, l, ns + p)
      ensures st.Ok? ==> Testing(s, c, if c then {} else Nodes(ns + p), if c then Nodes(ns + p) else {})
      ensures Fits(st, |old(code)|, 0) && !st.TooManyRegisters?
    {
      ghost var was, here := code, Nodes(waiting);
      ghost var t := if c then Nodes(ms) else Nodes(ns) + Nodes(p);
      ghost var f := if c then Nodes(ns) + Nodes(p) else Nodes(ms);
      NodesOfSum(ns, p);
      st, l := Concat(open, pc, ns, p);
      :- st;
      TestedLinks(s, was, here, c, t, f, code);
      ChainKept(was, code, jpc, waiting);
      ChainKept(was, code, close, ms);
      ghost var mid := code;
      ChainNodes(mid, close, ms);
      assert ms != [] ==> t + f != {};
      Close(s, mid, here, c, t, f);
      :- PatchToHere(close, ms);
      NodesOfSum(old(waiting), ms);
      ChainKept(mid, code, l, ns + p);
      TestedLinks(s, mid, here + Nodes(ms), c, if c then {} else t, if c then f else {}, code);
      return Ok, l;
    }

    method GoIfTrue(e0: ExpDesc, ghost s: Sub, ghost t: seq<nat>, ghost f: seq<nat>)
        returns (st: Status, e: ExpDesc, ghost f': seq<nat>)
      requires Holding(s, e0, NO_REG, false, t, f) && Placed(s, e0.k) && Proper(e0.k)
      modifies this
      ensures st.Ok? ==> e.t == NO_JUMP && Chain(code, e.f, f') && Testing(s, true, {}, Nodes(f'))
      ensures Fits(st, |old(code)|, 5)
      ensures st.TooManyRegisters? ==> s.base + 1 >= MAXREGS
    {
      f' := [];
      st, e := DischargeVars(e0, s, t, f);
      :- st;
      var pc := NO_JUMP;
      ghost var p := [];
      if e.k.VJmp? {
        JumpOnFalse(e, s, t, f);
        pc := e.k.pc;
        p := [pc];
      } else if e.k.VK? || e.k.VTrue? {      // always true
        NoTest(s, code, Nodes(waiting), e.k, Nodes(t), Nodes(f), true);
      } else {
        st, pc := JumpOnCond(e, false, s, t, f);
        :- st;
        p := [pc];
      }
      assert p == [] ==> Nodes(f) + Nodes(p) == Nodes(f);
      assert Taken(s, e, true, pc, p, t, f);
      st, pc := LinkAndClose(e.f, pc, e.t, true, s, f, p, t);
      :- st;
      return Ok, e.(f := pc, t := NO_JUMP), f + p;
    }

    method GoIfFalse(e0: ExpDesc, ghost s: Sub, ghost t: seq<nat>, ghost f: seq<nat>)
        returns (st: Status, e: ExpDesc, ghost t': seq<nat>)
      requires Holding(s, e0, NO_REG, false, t, f) && Placed(s, e0.k)
      modifies this
      ensures st.Ok? ==> e.f == NO_JUMP && Chain(code, e.t, t') && Testing(s, false, Nodes(t'), {})
      ensures Fits(st, |old(code)|, 5)
      ensures st.TooManyRegisters? ==> s.base + 1 >= MAXREGS
    {
      t' := [];
      st, e := DischargeVars(e0, s, t, f);
      :- st;
      var pc := NO_JUMP;
      ghost var p := [];
      if e.k.VJmp? {
        pc := e.k.pc;
        p := [pc];
        JumpTested(s, code, pc, code, Nodes(t), Nodes(f), false);
      } else if e.k.VNil? || e.k.VFalse? {   // always false
        NoTest(s, code, Nodes(waiting), e.k, Nodes(t), Nodes(f), false);
      } else {
        st, pc := JumpOnCond(e, true, s, t, f);
        :- st;
        p := [pc];
      }
      assert p == [] ==> Nodes(t) + Nodes(p) == Nodes(t);
      assert Taken(s, e, false, pc, p, t, f);
      st, pc := LinkAndClose(e.t, pc, e.f, false, s, t, p, f);
      :- st;
      return Ok, e.(t := pc, f := NO_JUMP), t + p;
    }

    // ---- not ----

    method CodeNot(e0: ExpDesc, ghost s: Sub, ghost t: seq<nat>, ghost f: seq<nat>) returns (st: Status, e: ExpDesc)
      requires Holding(s, e0, NO_REG, false, t, f) && Placed(s, e0.k) && Proper(e0.k)
      modifies this
      ensures st.Ok? ==> Holding(s.(expr := Negation(s.expr)), e, NO_REG, false, f, t) && Placed(s, e.k) && Proper(e.k)
      ensures Fits(st, |old(code)|, 4)
      ensures st.TooManyRegisters? ==> s.base + 1 >= MAXREGS
    {
      st, e := DischargeVars(e0, s, t, f);
      :- st;
      if e.k.VNil? || e.k.VFalse? {
        Redescribe(s, code, Nodes(waiting), e.k, NO_REG, VTrue, NO_REG, true, Nodes(t), Nodes(f));
        e := e.(k := VTrue);
      } else if e.k.VK? || e.k.VTrue? {
        Redescribe(s, code, Nodes(waiting), e.k, NO_REG, VFalse, NO_REG, true, Nodes(t), Nodes(f));
        e := e.(k := VFalse);
      } else if e.k.VJmp? {
        InvertJump(e, s, t, f);
      } else {
        st, e := NotOfRegister(e, s, t, f);
        :- st;
      }
      e := SwapLists(e, s, t, f);
      return Ok, e;
    }

    // Interchanges the true and the false list; their tests keep no value any more.
    method SwapLists(e0: ExpDesc, ghost s: Sub, ghost t: seq<nat>, ghost f: seq<nat>) returns (e: ExpDesc)
      requires Holding(s, e0, NO_REG, true, t, f) && (e0.k.VReloc? ==> code[e0.k.pc].Not?)
      modifies `code
      ensures e == e0.(t := e0.f, f := e0.t)
      ensures Holding(s.(expr := Negation(s.expr)), e, NO_REG, false, f, t)
      ensures |code| == |old(code)|
    {
      e := e0.(t := e0.f, f := e0.t);
      ghost var was := code;
      RemoveValues(e.f, t);
      ChainUntied(was, Nodes(t), e.t, f);
      RemoveValues(e.t, f);
      UntiedTwice(was, Nodes(t), Nodes(f));
      assert Nodes(f) + Nodes(t) == Nodes(t) + Nodes(f);
      ListsUntied(was, Nodes(t) + Nodes(f), jpc, waiting, e, f, t);
      Swap(s, was, Nodes(waiting), e.k, Nodes(t), Nodes(f));
    }

    // The value into a register, and a NOT of it.
    method NotOfRegister(e0: ExpDesc, ghost s: Sub, ghost t: seq<nat>, ghost f: seq<nat>) returns (st: Status, e: ExpDesc)
      requires Holding(s, e0, NO_REG, false, t, f) && Placed(s, e0.k) && (e0.k.VReloc? || e0.k.VNonReloc?)
      modifies this
      ensures st.Ok? ==> e.k.VReloc? && e.k.pc < |code| && code[e.k.pc].Not? && e.t == e0.t && e.f == e0.f && freereg == s.base
      ensures st.Ok? ==> Holding(s, e, NO_REG, true, t, f)
      ensures Fits(st, |old(code)|, 3)
      ensures st.TooManyRegisters? ==> s.base + 1 >= MAXREGS
    {
      st, e := Discharge2AnyReg(e0, s, t, f);
      :- st;
      FreeExp(e, s);
      ghost var was, here := code, Nodes(waiting);
      var pc;
      st, pc := Code(LuaMachine.Not(0, e.k.reg));
      :- st;
      DeferValue(s, was, here, e.k, Nodes(t), Nodes(f), LuaMachine.Not(0, e.k.reg), true);
      ListsEmitted(s, was, here, e, t, f, code);
      return Ok, e.(k := VReloc(pc));
    }

    // ---- the value into one register ----

    // Two loads that can be jumped to: false, skipping the second; and true.
    method LoadPair(reg: Reg) returns (st: Status, p_f: int, p_t: int)
      requires Valid() && waiting == []
      modifies `code, `jpc, `waiting
      ensures st.Ok? ==> Valid() && waiting == [] && p_f == |old(code)| && p_t == p_f + 1
      ensures st.Ok? ==> code == old(code) + [LoadBool(reg, false, true), LoadBool(reg, true, false)]
      ensures Fits(st, |old(code)|, 2) && !st.TooManyRegisters?
    {
      ghost var was := code;
      p_f, p_t := NO_JUMP, NO_JUMP;
      assert Discharged(was, {}) == was;
      st, p_f := Code(LoadBool(reg, false, true));
      :- st;
      ghost var mid := code;
      assert Discharged(mid, {}) == mid;
      st, p_t := Code(LoadBool(reg, true, false));
      :- st;
      return Ok, p_f, p_t;
    }

    // The value, its lists and the loads they need, before the lists are patched.
    ghost predicate Pending(s: Sub, reg: Reg, p_f: int, p_t: int, tl: int, fl: int, t: seq<nat>, f: seq<nat>)
      reads this
    {
      && Valid() && Chain(code, tl, t) && Chain(code, fl, f)
      && Good(s, code, Nodes(waiting), VNonReloc(reg), reg, false, Nodes(t), Nodes(f))
      && Loadable(code, Nodes(t) + Nodes(f), reg, p_f, p_t)
    }

    // The comparison's own jump put on the true list.
    ghost predicate JumpListed(s: Sub, e: ExpDesc, tl: int, t: seq<nat>, f: seq<nat>)
      reads this
    {
      && Valid() && e.k.VJmp? && Chain(code, tl, t + [e.k.pc]) && Chain(code, e.f, f)
      && Good(s, code, Nodes(waiting), e.k, NO_REG, false, Nodes(t), Nodes(f))
    }

    method ListJump(e: ExpDesc, ghost s: Sub, ghost t: seq<nat>, ghost f: seq<nat>) returns (st: Status, tl: int)
      requires Holding(s, e, NO_REG, false, t, f) && e.k.VJmp?
      modifies `code
      ensures st.Ok? ==> JumpListed(s, e, tl, t, f)
      ensures Fits(st, |old(code)|, 0) && !st.TooManyRegisters?
    {
      ghost var was := code;
      ChainNodes(was, jpc, waiting);
      NodesOfOne(e.k.pc);
      st, tl := Concat(e.t, e.k.pc, t, [e.k.pc]);
      :- st;
      GoodLinks(s, was, {}, e.k, NO_REG, false, Nodes(t), Nodes(f), code);
      ChainKept(was, code, e.f, f);
      ChainKept(was, code, jpc, waiting);
      return Ok, tl;
    }

    method LoadsAfterJump(e: ExpDesc, reg: Reg, tl: int, ghost s: Sub, ghost t: seq<nat>, ghost f: seq<nat>)
        returns (st: Status, p_f: int, p_t: int)
      requires JumpListed(s, e, tl, t, f)
      modifies `code, `jpc, `waiting
      ensures st.Ok? ==> Pending(s, reg, p_f, p_t, tl, e.f, t + [e.k.pc], f)
      ensures Fits(st, |old(code)|, 2) && !st.TooManyRegisters?
      ensures st.Ok? ==> 0 <= p_f <= |code| && 0 <= p_t <= |code|
    {
      ghost var was := code;
      ChainNodes(was, jpc, waiting);
      NodesOfOne(e.k.pc);
      NodesOfSum(t, [e.k.pc]);
      LoadAfterJumps(s, was, e.k, reg, Nodes(t), Nodes(f));
      st, p_f, p_t := LoadPair(reg);
      :- st;
      assert Entry(code, p_f);
      ChainKept(was, code, tl, t + [e.k.pc]);
      ChainKept(was, code, e.f, f);
      return Ok, p_f, p_t;
    }

    method LoadsAfterValue(e: ExpDesc, reg: Reg, ghost s: Sub, ghost t: seq<nat>, ghost f: seq<nat>)
        returns (st: Status, p_f: int, p_t: int)
      requires Holding(s, e, reg, false, t, f) && e.k == VNonReloc(reg) && Nodes(t) + Nodes(f) != {}
      modifies `code, `jpc, `waiting
      ensures st.Ok? ==> Pending(s, reg, p_f, p_t, e.t, e.f, t, f)
      ensures Fits(st, |old(code)|, 3) && !st.TooManyRegisters?
      ensures st.Ok? ==> 0 <= p_f <= |code| && 0 <= p_t <= |code|
    {
      ghost var was, ns := code, waiting;
      var fj;
      ghost var link;
      st, fj, p_f, p_t, link := JumpOverLoads(reg);
      :- st;
      ValueLoaded(s, was, Nodes(ns), reg, e, t, f, link);
      ghost var before := code;
      :- PatchToHere(fj, [|was|] + ns);
      assert code == before && waiting == [|was|] + ns;
      return Ok, p_f, p_t;
    }

    // A jump, with those waiting along with it, over the two loads.
    method JumpOverLoads(reg: Reg) returns (st: Status, fj: int, p_f: int, p_t: int, ghost link: int)
      requires Valid()
      modifies `code, `jpc, `waiting
      ensures st.Ok? ==> Valid() && waiting == [] && p_f == |old(code)| + 1 && p_t == p_f + 1
      ensures st.Ok? ==> code == old(code) + [Jmp(link), LoadBool(reg, false, true), LoadBool(reg, true, false)]
      ensures st.Ok? ==> Chain(code, fj, [|old(code)|] + old(waiting))
      ensures Nodes([|old(code)|] + old(waiting)) == Nodes(old(waiting)) + {|old(code)|}
      ensures Fits(st, |old(code)|, 3) && !st.TooManyRegisters?
    {
      p_f, p_t, link := NO_JUMP, NO_JUMP, NO_JUMP;
      ghost var was, ns := code, waiting;
      NodesOfOne(|was|);
      NodesOfSum([|was|], ns);
      st, fj := Jump();
      :- st;
      link := code[|was|].sBx;
      ghost var mid := code;
      assert mid == was + [Jmp(link)];
      st, p_f, p_t := LoadPair(reg);
      :- st;
      assert code == was + [Jmp(link), LoadBool(reg, false, true), LoadBool(reg, true, false)];
      ChainKept(mid, code, fj, [|was|] + ns);
      return Ok, fj, p_f, p_t, link;
    }

    // Both lists patched: to the end with their values, or through the loads.
    method PatchBoth(reg: Reg, p_f: int, p_t: int, tl: int, fl: int, ghost s: Sub, ghost t: seq<nat>, ghost f: seq<nat>) returns (st: Status)
      requires Pending(s, reg, p_f, p_t, tl, fl, t, f) && reg != NO_REG
      requires -1 <= p_f <= |code| && -1 <= p_t <= |code|
      modifies `code
      ensures st.Ok? ==> Valid() && Good(s, code, Nodes(waiting), VNonReloc(reg), reg, false, {}, {})
      ensures Fits(st, |old(code)|, 0) && !st.TooManyRegisters?
    {
      var final := |code|;
      ghost var was, here := code, Nodes(waiting);
      :- PatchListAux(fl, final, reg, p_f, f);
      PatchList(s, was, here, reg, Nodes(t), Nodes(f), false, Nodes(f), Nodes(t), {}, p_f);
      ghost var mid := code;
      OtherChain(was, Nodes(f), final, reg, p_f, tl, t);
      OtherChain(was, Nodes(f), final, reg, p_f, jpc, waiting);
      LoadsKept(was, Nodes(f), final, reg, p_f, Nodes(t), p_t);
      :- PatchListAux(tl, final, reg, p_t, t);
      PatchList(s, mid, here, reg, Nodes(t), {}, true, Nodes(t), {}, {}, p_t);
      OtherChain(mid, Nodes(t), final, reg, p_t, jpc, waiting);
      return Ok;
    }

    method Exp2Reg(e0: ExpDesc, reg: Reg, ghost s: Sub, ghost t: seq<nat>, ghost f: seq<nat>) returns (st: Status, e: ExpDesc)
      requires Holding(s, e0, NO_REG, false, t, f) && reg != NO_REG
      modifies `code, `jpc, `waiting
      ensures st.Ok? ==> e == ExpDesc(VNonReloc(reg), NO_JUMP, NO_JUMP) && Holding(s, e, reg, false, [], [])
      ensures Fits(st, |old(code)|, 5) && !st.TooManyRegisters?
    {
      st, e := Discharge2Reg(e0, reg, s, t, f);
      :- st;
      if e.k.VJmp? {
        :- JumpToReg(e, reg, s, t, f);
      } else {
        ChainNodes(code, e.t, t);
        ChainNodes(code, e.f, f);
        if e.t != e.f { :- PatchLists(e, reg, e.t, s, t, f, t); }
        else { SameList(code, e.t, t, f); }
      }
      e := ExpDesc(VNonReloc(reg), NO_JUMP, NO_JUMP);
      return Ok, e;
    }

    // A comparison: its own jump joins the true list.
    method JumpToReg(e: ExpDesc, reg: Reg, ghost s: Sub, ghost t: seq<nat>, ghost f: seq<nat>) returns (st: Status)
      requires Holding(s, e, NO_REG, false, t, f) && e.k.VJmp? && reg != NO_REG
      modifies `code, `jpc, `waiting
      ensures st.Ok? ==> Valid() && Good(s, code, Nodes(waiting), VNonReloc(reg), reg, false, {}, {})
      ensures Fits(st, |old(code)|, 3) && !st.TooManyRegisters?
    {
      var tl;
      st, tl := ListJump(e, s, t, f);
      :- st;
      ChainNodes(code, tl, t + [e.k.pc]);
      ChainNodes(code, e.f, f);
      assert (t + [e.k.pc])[|t|] == e.k.pc;
      st := PatchLists(e, reg, tl, s, t, f, t + [e.k.pc]);
    }

    // The part of exp2reg for expressions with jumps.
    method PatchLists(e: ExpDesc, reg: Reg, tl: int, ghost s: Sub, ghost t: seq<nat>, ghost f: seq<nat>, ghost ts: seq<nat>)
        returns (st: Status)
      requires reg != NO_REG && Chain(code, tl, ts) && Nodes(ts) + Nodes(f) != {}
      requires if e.k.VJmp? then JumpListed(s, e, tl, t, f) && ts == t + [e.k.pc] && e.k.pc in Nodes(ts) && !HasValue(code, e.k.pc)
        else e.k == VNonReloc(reg) && Holding(s, e, reg, false, t, f) && ts == t && tl == e.t
      modifies `code, `jpc, `waiting
      ensures st.Ok? ==> Valid() && Good(s, code, Nodes(waiting), VNonReloc(reg), reg, false, {}, {})
      ensures Fits(st, |old(code)|, 3) && !st.TooManyRegisters?
    {
      var p_f, p_t := NO_JUMP, NO_JUMP;
      ChainNodes(code, tl, ts);
      ChainNodes(code, e.f, f);
      var need := NeedValue(tl, ts);
      if !need { need := NeedValue(e.f, f); }
      if need {
        if e.k.VJmp? { st, p_f, p_t := LoadsAfterJump(e, reg, tl, s, t, f); }
        else { st, p_f, p_t := LoadsAfterValue(e, reg, s, t, f); }
        :- st;
      }
      :- PatchBoth(reg, p_f, p_t, tl, e.f, s, ts, f);
      return Ok;
    }

    // The value alone in a register, local or the first free one, or a constant.
    ghost predicate Single(s: Sub, e: ExpDesc)
      reads this
    {
      Holding(s, e, NO_REG, false, [], []) && Placed(s, e.k)
    }

    method Exp2NextReg(e0: ExpDesc, ghost s: Sub, ghost t: seq<nat>, ghost f: seq<nat>) returns (st: Status, e: ExpDesc)
      requires Holding(s, e0, NO_REG, false, t, f) && Placed(s, e0.k)
      modifies this
      ensures st.Ok? ==> e == ExpDesc(VNonReloc(s.base), NO_JUMP, NO_JUMP) && Single(s, e)
      ensures Fits(st, |old(code)|, 6)
      ensures st.TooManyRegisters? ==> s.base + 1 >= MAXREGS
    {
      st, e := DischargeVars(e0, s, t, f);
      :- st;
      FreeExp(e, s);
      :- ReserveReg();
      st, e := Exp2Reg(e, freereg - 1, s, t, f);
      :- st;
      Redescribe(s, code, Nodes(waiting), e.k, e.k.reg, e.k, NO_REG, false, {}, {});
      return Ok, e;
    }

    method Exp2AnyReg(e0: ExpDesc, ghost s: Sub, ghost t: seq<nat>, ghost f: seq<nat>) returns (st: Status, e: ExpDesc)
      requires Holding(s, e0, NO_REG, false, t, f) && Placed(s, e0.k)
      modifies this
      ensures st.Ok? ==> e.k.VNonReloc? && Single(s, e)
      ensures Fits(st, |old(code)|, 7)
      ensures st.TooManyRegisters? ==> s.base + 1 >= MAXREGS
    {
      st, e := DischargeVars(e0, s, t, f);
      :- st;
      if e.k.VNonReloc? {
        ChainNodes(code, e.t, t);
        ChainNodes(code, e.f, f);
        if e.t == e.f { SameList(code, e.t, t, f); return Ok, e; }
        if e.k.reg >= nactvar {
          st, e := Exp2Reg(e, e.k.reg, s, t, f);
          :- st;
          Redescribe(s, code, Nodes(waiting), e.k, e.k.reg, e.k, NO_REG, false, {}, {});
          return Ok, e;
        }
      }
      st, e := Exp2NextReg(e, s, t, f);
    }

    // A constant or a register.
    method Exp2RK(e0: ExpDesc, ghost s: Sub, ghost t: seq<nat>, ghost f: seq<nat>) returns (st: Status, e: ExpDesc)
      requires Holding(s, e0, NO_REG, false, t, f) && Placed(s, e0.k)
      modifies this
      ensures st.Ok? ==> (e.k.VNonReloc? || e.k.VK?) && Single(s, e)
      ensures Fits(st, |old(code)|, 14)
      ensures st.TooManyRegisters? ==> s.base + 1 >= MAXREGS
    {
      ChainNodes(code, e0.t, t);
      ChainNodes(code, e0.f, f);
      e := e0;
      if e0.t != e0.f {
        st, e := Exp2AnyReg(e0, s, t, f);
        :- st;
      } else {
        SameList(code, e0.t, t, f);
        st, e := DischargeVars(e0, s, t, f);
        :- st;
      }
      if e.k.VTrue? || e.k.VFalse? || e.k.VNil? {
        var v := if e.k.VNil? then Nil else Bool(e.k.VTrue?);
        Redescribe(s, code, Nodes(waiting), e.k, NO_REG, VK(v), NO_REG, false, {}, {});
        return Ok, e.(k := VK(v));
      }
      if e.k.VK? { return Ok, e; }
      st, e := Exp2AnyReg(e, s, [], []);
    }

    // ---- operators ----

    // 'a > b' is 'b < a', '~=' is '==' with the jump inverted.
    method CodeComp(e1: ExpDesc, rel: Relation, e2: ExpDesc, ghost s: Sub, ghost s1: Sub, ghost code1: seq<Instr>, ghost here1: set<nat>,
        ghost s2: Sub) returns (st: Status, e: ExpDesc)
      requires s.expr == Related(rel, s1.expr, s2.expr) && s1 == s.(expr := s1.expr) && Reads(s2.expr, nactvar)
      requires (e1.k.VNonReloc? || e1.k.VK?) && Good(s1, code1, here1, e1.k, NO_REG, false, {}, {})
      requires s2 == Sub(s2.expr, code1, here1, s2.base) && s2.base < NO_REG
      requires nactvar <= s.base && s2.base == s.base + (if e1.k.VNonReloc? && e1.k.reg >= nactvar then 1 else 0)
      requires e1.k.VNonReloc? && e1.k.reg >= nactvar ==> e1.k.reg == s.base
      requires (e2.k.VNonReloc? || e2.k.VK?) && Single(s2, e2)
      modifies this
      ensures st.Ok? ==> Holding(s, e, NO_REG, false, [], []) && Placed(s, e.k) && e.k.VJmp?
      ensures Fits(st, |old(code)|, 2) && !st.TooManyRegisters?
    {
      var o1, o2 := OperandOf(e1.k), OperandOf(e2.k);
      FreeExp(e2, s2);
      FreeExp(e1, s);
      ReadsMore(s2.expr, nactvar, s.base);
      var op, cond := OpOf(rel), !(rel.NE? || rel.GT? || rel.GE?);
      if !cond && op != Eq {
        o1, o2 := o2, o1;
        cond := true;
      }
      st, e := EmitCompare(Compare(op, cond, o1, o2), rel, s, s1.expr, code1, here1, e1.k, s2, e2.k);
    }

    // The instruction for the operands in place, and its jump.
    method EmitCompare(i: Instr, ghost rel: Relation, ghost s: Sub, ghost x: Expr, ghost code1: seq<Instr>, ghost here1: set<nat>, ghost k1: Kind,
        ghost s2: Sub, ghost k2: Kind) returns (st: Status, e: ExpDesc)
      requires Valid() && s2 == Sub(s2.expr, code1, here1, s2.base)
      requires k1.VK? || (k1.VNonReloc? && k1.reg < s2.base)
      requires k2.VK? || k2.VNonReloc?
      requires s.expr == Related(rel, x, s2.expr) && Reads(s2.expr, s.base) && s.base <= s2.base < NO_REG
      requires Good(s.(expr := x), code1, here1, k1, NO_REG, false, {}, {})
      requires Good(s2, code, Nodes(waiting), k2, NO_REG, false, {}, {})
      requires i.Compare? && i.op == OpOf(rel) && i.cond == !rel.NE?
      requires if rel.GT? || rel.GE? then i.x == OperandOf(k2) && i.y == OperandOf(k1) else i.x == OperandOf(k1) && i.y == OperandOf(k2)
      modifies `code, `jpc, `waiting
      ensures st.Ok? ==> Holding(s, e, NO_REG, false, [], []) && e.k.VJmp?
      ensures Fits(st, |old(code)|, 2) && !st.TooManyRegisters?
    {
      e := ExpDesc(VNil, NO_JUMP, NO_JUMP);
      ghost var was, here := code, Nodes(waiting);
      var pc;
      st, pc := CondJump(i);
      :- st;
      Compared(s, x, code1, here1, k1, rel, s2.expr, s2.base, was, here, k2, i);
      return Ok, ExpDesc(VJmp(pc), NO_JUMP, NO_JUMP);
    }

    // luaK_posfix for and (c) and or: the operands' lists joined.
    method JoinLists(e1: ExpDesc, c: bool, e2: ExpDesc, ghost s1: Sub, ghost code1: seq<Instr>, ghost here1: set<nat>, ghost y: Expr,
        ghost l1: seq<nat>, ghost t2: seq<nat>, ghost f2: seq<nat>)
        returns (st: Status, e: ExpDesc, ghost t: seq<nat>, ghost f: seq<nat>)
      requires Tested(s1, code1, here1, c, if c then {} else Nodes(l1), if c then Nodes(l1) else {})
      requires Chain(code1, if c then e1.f else e1.t, l1) && Reads(y, s1.base)
      requires Holding(Sub(y, code1, here1, s1.base), e2, NO_REG, false, t2, f2)
      modifies `code, `jpc, `waiting
      ensures st.Ok? ==> Holding(s1.(expr := if c then And(s1.expr, y) else Or(s1.expr, y)), e, NO_REG, false, t, f)
      ensures st.Ok? ==> (old(Placed(Sub(y, code1, here1, s1.base), e2.k)) ==> Placed(s1, e.k)) && (Proper(e2.k) ==> Proper(e.k))
      ensures Fits(st, |old(code)|, 1) && !st.TooManyRegisters?
    {
      ghost var s2 := Sub(y, code1, here1, s1.base);
      ghost var s := s1.(expr := if c then And(s1.expr, y) else Or(s1.expr, y));
      t, f := t2, f2;
      st, e := DischargeVars(e2, s2, t2, f2);
      :- st;
      ghost var was, here := code, Nodes(waiting);
      ghost var t1 := if c then {} else Nodes(l1);
      ghost var f1 := if c then Nodes(l1) else {};
      Join(s1, code1, here1, c, t1, f1, y, was, here, e.k, Nodes(t2), Nodes(f2));
      JoinedLists(s1, code1, here1, c, if c then e1.f else e1.t, l1, s2, was, here, e.k, Nodes(t2), Nodes(f2));
      st, e, t, f := ConcatTo(e, c, if c then e1.f else e1.t, s, t2, f2, l1);
    }

    // A list joins the false (c) or the true list.
    method ConcatTo(e0: ExpDesc, c: bool, l: int, ghost s: Sub, ghost t0: seq<nat>, ghost f0: seq<nat>, ghost ls: seq<nat>)
        returns (st: Status, e: ExpDesc, ghost t: seq<nat>, ghost f: seq<nat>)
      requires Lists(e0, t0, f0) && Chain(code, l, ls) && Nodes(ls) !! Nodes(t0) + Nodes(f0)
      requires Good(s, code, Nodes(waiting), e0.k, NO_REG, false,
        Nodes(t0) + (if c then {} else Nodes(ls)), Nodes(f0) + (if c then Nodes(ls) else {}))
      modifies `code
      ensures st.Ok? ==> Holding(s, e, NO_REG, false, t, f) && e.k == e0.k
      ensures Fits(st, |old(code)|, 0) && !st.TooManyRegisters?
    {
      ghost var was, here := code, Nodes(waiting);
      e, t, f := e0, t0, f0;
      var l';
      if c {
        NodesOfSum(f0, ls);
        assert Nodes(t0) + {} == Nodes(t0);
        st, l' := Concat(e.f, l, f0, ls);
        :- st;
        f := f0 + ls;
        ChainKept(was, code, e.t, t0);
        e := e.(f := l');
      } else {
        NodesOfSum(t0, ls);
        assert Nodes(f0) + {} == Nodes(f0);
        st, l' := Concat(e.t, l, t0, ls);
        :- st;
        t := t0 + ls;
        ChainKept(was, code, e.f, f0);
        e := e.(t := l');
      }
      ChainKept(was, code, jpc, waiting);
      GoodLinks(s, was, here, e.k, NO_REG, false, Nodes(t), Nodes(f), code);
      return Ok, e, t, f;
    }

    // ---- expressions ----

    // An expression, its jumps still open.
    method SubExpr(x: Expr) returns (st: Status, e: ExpDesc, ghost t: seq<nat>, ghost f: seq<nat>)
      requires Valid() && Entry(code, |code|) && Reads(x, nactvar)
      modifies this
      ensures var s := Sub(x, old(code), Nodes(old(waiting)), old(freereg));
        st.Ok? ==> Holding(s, e, NO_REG, false, t, f) && Placed(s, e.k) && Proper(e.k)
      ensures Fits(st, |old(code)|, Size(x))
      ensures st.TooManyRegisters? ==> old(freereg) + Height(x) >= MAXREGS
      decreases x, 1
    {
      ghost var s := Sub(x, code, Nodes(waiting), freereg);
      t, f := [], [];
      match x
      case Literal(v) =>
        var k := if v.Nil? then VNil else if v == Bool(true) then VTrue else if v == Bool(false) then VFalse else VK(v);
        Start(s, k);
        return Ok, ExpDesc(k, NO_JUMP, NO_JUMP), [], [];
      case Local(r) =>
        Start(s, VLocal(r));
        return Ok, ExpDesc(VLocal(r), NO_JUMP, NO_JUMP), [], [];
      case Upvalue(u) =>
        Start(s, VUpval(u));
        return Ok, ExpDesc(VUpval(u), NO_JUMP, NO_JUMP), [], [];
      case Negation(y) =>
        ghost var t', f';
        st, e, t', f' := SubExpr(y);
        :- st;
        st, e := CodeNot(e, s.(expr := y), t', f');
        t, f := f', t';
      case And(y, z) =>
        st, e, t, f := AndOr(true, y, z);
      case Or(y, z) =>
        st, e, t, f := AndOr(false, y, z);
      case Related(rel, y, z) =>
        st, e := Comparison(rel, y, z);
    }

    method AndOr(c: bool, x: Expr, y: Expr) returns (st: Status, e: ExpDesc, ghost t: seq<nat>, ghost f: seq<nat>)
      requires Valid() && Entry(code, |code|) && Reads(x, nactvar) && Reads(y, nactvar)
      modifies this
      ensures var s := Sub(if c then And(x, y) else Or(x, y), old(code), Nodes(old(waiting)), old(freereg));
        st.Ok? ==> Holding(s, e, NO_REG, false, t, f) && Placed(s, e.k) && Proper(e.k)
      ensures Fits(st, |old(code)|, Size(x) + Size(y) + 6)
      ensures st.TooManyRegisters? ==> old(freereg) + Height(x) >= MAXREGS || old(freereg) + Height(y) >= MAXREGS
      decreases if c then And(x, y) else Or(x, y), 0
    {
      ghost var l1;
      st, e, l1 := FirstOperand(c, x);
      t, f := [], [];
      :- st;
      st, e, t, f := SecondOperand(e, c, y, Sub(x, old(code), Nodes(old(waiting)), old(freereg)), l1);
    }

    // The first operand of and (c) or or, and the jumps past the second.
    method FirstOperand(c: bool, x: Expr) returns (st: Status, e: ExpDesc, ghost l: seq<nat>)
      requires Valid() && Entry(code, |code|) && Reads(x, nactvar)
      modifies this
      ensures var s := Sub(x, old(code), Nodes(old(waiting)), old(freereg));
        st.Ok? ==> Testing(s, c, if c then {} else Nodes(l), if c then Nodes(l) else {}) && Chain(code, if c then e.f else e.t, l)
      ensures Fits(st, |old(code)|, Size(x) + 5)
      ensures st.TooManyRegisters? ==> old(freereg) + Height(x) >= MAXREGS
      decreases x, 2
    {
      ghost var s := Sub(x, code, Nodes(waiting), freereg);
      ghost var t, f;
      l := [];
      st, e, t, f := SubExpr(x);
      :- st;
      if c { st, e, l := GoIfTrue(e, s, t, f); } else { st, e, l := GoIfFalse(e, s, t, f); }
    }

    // The second operand of and (c) or or, after the jumps of the first.
    method SecondOperand(e1: ExpDesc, c: bool, y: Expr, ghost s1: Sub, ghost l1: seq<nat>)
        returns (st: Status, e: ExpDesc, ghost t: seq<nat>, ghost f: seq<nat>)
      requires Testing(s1, c, if c then {} else Nodes(l1), if c then Nodes(l1) else {})
      requires Chain(code, if c then e1.f else e1.t, l1) && Reads(y, nactvar) && nactvar <= s1.base
      modifies this
      ensures var s := s1.(expr := if c then And(s1.expr, y) else Or(s1.expr, y));
        st.Ok? ==> Holding(s, e, NO_REG, false, t, f) && Placed(s, e.k) && Proper(e.k)
      ensures Fits(st, |old(code)|, Size(y) + 1)
      ensures st.TooManyRegisters? ==> s1.base + Height(y) >= MAXREGS
      decreases y, 2
    {
      ghost var code1, here1 := code, Nodes(waiting);
      TestedEntry(s1, code1, here1, if c then {} else Nodes(l1), if c then Nodes(l1) else {});
      ghost var t2, f2;
      t, f := [], [];
      st, e, t2, f2 := SubExpr(y);
      :- st;
      ReadsMore(y, nactvar, s1.base);
      st, e, t, f := JoinLists(e1, c, e, s1, code1, here1, y, l1, t2, f2);
    }

    method Comparison(rel: Relation, x: Expr, y: Expr) returns (st: Status, e: ExpDesc)
      requires Valid() && Entry(code, |code|) && Reads(x, nactvar) && Reads(y, nactvar)
      modifies this
      ensures var s := Sub(Related(rel, x, y), old(code), Nodes(old(waiting)), old(freereg));
        st.Ok? ==> Holding(s, e, NO_REG, false, [], []) && Placed(s, e.k) && e.k.VJmp?
      ensures Fits(st, |old(code)|, Size(x) + Size(y) + 30)
      ensures st.TooManyRegisters? ==> old(freereg) + Height(x) >= MAXREGS || old(freereg) + 1 + Height(y) >= MAXREGS
      decreases Related(rel, x, y), 0
    {
      ghost var s := Sub(Related(rel, x, y), code, Nodes(waiting), freereg);
      var e1;
      st, e1 := Operand(x);
      e := e1;
      :- st;
      ghost var code1, here1 := code, Nodes(waiting);
      ghost var s2 := Sub(y, code1, here1, freereg);
      st, e := Operand(y);
      :- st;
      st, e := CodeComp(e1, rel, e, s, s.(expr := x), code1, here1, s2);
    }

    // An operand of a comparison: a constant or a register.
    method Operand(x: Expr) returns (st: Status, e: ExpDesc)
      requires Valid() && Entry(code, |code|) && Reads(x, nactvar)
      modifies this
      ensures var s := Sub(x, old(code), Nodes(old(waiting)), old(freereg));
        st.Ok? ==> (e.k.VNonReloc? || e.k.VK?) && Single(s, e) && Entry(code, |code|)
      ensures Fits(st, |old(code)|, Size(x) + 14)
      ensures st.TooManyRegisters? ==> old(freereg) + Height(x) >= MAXREGS
      decreases x, 2
    {
      ghost var s := Sub(x, code, Nodes(waiting), freereg);
      ghost var t, f;
      st, e, t, f := SubExpr(x);
      :- st;
      st, e := Exp2RK(e, s, t, f);
      :- st;
      TestedEntry(s, code, Nodes(waiting), {}, {});
      return Ok, e;
    }

    // An expression into the next free register.
    method ExprToNextReg(x: Expr) returns (st: Status, e: ExpDesc)
      requires Valid() && Entry(code, |code|) && Reads(x, nactvar)
      modifies this
      ensures var s := Sub(x, old(code), Nodes(old(waiting)), old(freereg));
        st.Ok? ==> e == ExpDesc(VNonReloc(s.base), NO_JUMP, NO_JUMP) && Single(s, e)
      // Any expression compiles that leaves room for its code and its registers.
      ensures |old(code)| + Size(x) + 6 < MAXARG_sBx && old(freereg) + Height(x) < MAXREGS ==> st.Ok?
    {
      ghost var s := Sub(x, code, Nodes(waiting), freereg);
      ghost var t, f;
      st, e, t, f := SubExpr(x);
      :- st;
      st, e := Exp2NextReg(e, s, t, f);
    }

    // An expression assigned to a local: luaK_storevar.
    method ExprToLocal(x: Expr, v: Reg) returns (st: Status)
      requires Valid() && Entry(code, |code|) && Reads(x, nactvar) && v < nactvar
      modifies this
      ensures var s := Sub(x, old(code), Nodes(old(waiting)), old(freereg));
        st.Ok? ==> Holding(s, ExpDesc(VNonReloc(v), NO_JUMP, NO_JUMP), v, false, [], []) && freereg == old(freereg)
      ensures |old(code)| + Size(x) + 5 < MAXARG_sBx && old(freereg) + Height(x) < MAXREGS ==> st.Ok?
    {
      ghost var s := Sub(x, code, Nodes(waiting), freereg);
      ghost var t, f;
      var e;
      st, e, t, f := SubExpr(x);
      :- st;
      FreeExp(e, s);
      st, e := Exp2Reg(e, v, s, t, f);
    }
  }

  // What the code for an expression does once its last waiting jumps are resolved, as they
  // are by the next instruction: it runs to its end and leaves the value in the register.
  lemma ExpressionRuns(s: Sub, code: seq<Instr>, here: set<nat>, reg: Reg, spoilt: Reg, env: Env, regs: Regs)
      returns (n: nat, now: Regs)
    requires Good(s, code, here, VNonReloc(reg), spoilt, false, {}, {})
    ensures Run(env, Discharged(code, here), Machine(|s.code|, regs), n) == Machine(|code|, now)
    ensures now[reg] == Eval(env, s.expr, regs) && Kept(s.base, spoilt, regs, now)
  {
    var none: set<nat> := {};
    assert none + none == none;
    assert MeansAt(env, s, code, here, VNonReloc(reg), spoilt, false, {}, {}, regs);
    var d := Discharged(code, here);
    assert d[..|code|] == d;
    Append(env, code, {}, here, d, {}, {}, |s.code|, regs);
    LaidDone(s, code, here);
    forall i | |s.code| <= i < |d| && d[i].TestSet? ensures d[i].a != NO_REG {
      assert Sound(d, {}, {}, i);
    }
    n := ExecRuns(env, d, |s.code|, regs);
    now := Exec(env, d, {}, {}, |s.code|, regs).regs;
  }

  // An expression compiled and run from any registers: the direct evaluation, in one statement.
  method CompileAndRun(fs: FuncState, x: Expr, ghost env: Env, ghost regs: Regs)
      returns (st: Status, e: ExpDesc, ghost n: nat, ghost now: Regs)
    requires fs.Valid() && Entry(fs.code, |fs.code|) && Reads(x, fs.nactvar)
    modifies fs
    ensures st.Ok? ==> e == ExpDesc(VNonReloc(old(fs.freereg)), NO_JUMP, NO_JUMP) && now[old(fs.freereg)] == Eval(env, x, regs)
    ensures st.Ok? ==>
      Run(env, Discharged(fs.code, Nodes(fs.waiting)), Machine(|old(fs.code)|, regs), n) == Machine(|fs.code|, now)
    ensures st.Ok? ==> forall r: Reg :: r < old(fs.freereg) ==> now[r] == regs[r]
    ensures |old(fs.code)| + Size(x) + 6 < MAXARG_sBx && old(fs.freereg) + Height(x) < MAXREGS ==> st.Ok?
  {
    ghost var s := Sub(x, fs.code, Nodes(fs.waiting), fs.freereg);
    n, now := 0, regs;
    st, e := fs.ExprToNextReg(x);
    if st.Ok? { n, now := ExpressionRuns(s, fs.code, Nodes(fs.waiting), s.base, NO_REG, env, regs); }
  }

  // Integers compared as they are.
  ghost predicate ComparesIntegers(env: Env) {
    forall n: int, m: int ::
      env.compare(Eq, Int(n), Int(m)) == (n == m) && env.compare(Lt, Int(n), Int(m)) == (n < m) && env.compare(Le, Int(n), Int(m)) == (n <= m)
  }

  // The relation of two integers that an operator names.
  predicate Between(n: int, rel: Relation, m: int) {
    match rel
    case EQ => n == m
    case NE => n != m
    case LT => n < m
    case GT => n > m
    case LE => n <= m
    case GE => n >= m
  }

  // Each comparison operator, compiled and run on two integers in locals, gives its relation.
  method CompileComparison(fs: FuncState, rel: Relation, a: Reg, b: Reg, n: int, m: int, ghost env: Env, ghost regs: Regs)
      returns (st: Status, e: ExpDesc, ghost steps: nat, ghost now: Regs)
    requires fs.Valid() && Entry(fs.code, |fs.code|) && a < fs.nactvar && b < fs.nactvar
    requires ComparesIntegers(env) && regs[a] == Int(n) && regs[b] == Int(m)
    modifies fs
    ensures st.Ok? ==> now[old(fs.freereg)] == Bool(Between(n, rel, m))
    ensures st.Ok? ==>
      Run(env, Discharged(fs.code, Nodes(fs.waiting)), Machine(|old(fs.code)|, regs), steps) == Machine(|fs.code|, now)
  {
    st, e, steps, now := CompileAndRun(fs, Related(rel, Local(a), Local(b)), env, regs);
  }

  // What and, or and not make of two values: only nil and false are false.
  lemma OperatorsMean(env: Env, v: Value, w: Value, regs: Regs)
    ensures Eval(env, And(Literal(v), Literal(w)), regs) == if v == Nil || v == Bool(false) then v else w
    ensures Eval(env, Or(Literal(v), Literal(w)), regs) == if v == Nil || v == Bool(false) then w else v
    ensures Eval(env, Negation(Literal(v)), regs) == Bool(v == Nil || v == Bool(false))
  {
  }

  lemma OneMoreNode(ns: seq<nat>, k: nat)
    requires k < |ns|
    ensures Nodes(ns[..k + 1]) == Nodes(ns[..k]) + {ns[k]}
  {
    assert ns[..k + 1] == ns[..k] + [ns[k]];
    NodesOfSum(ns[..k], [ns[k]]);
    NodesOfOne(ns[k]);
  }

  lemma TestedEntry(s: Sub, code: seq<Instr>, here: set<nat>, t: set<nat>, f: set<nat>)
    requires Laid(s, code, here, t, f)
    ensures Entry(code, |code|)
  {
    EndIsEntry(code, |s.code|, t + f, here);
  }

  lemma JoinedLists(s1: Sub, code1: seq<Instr>, here1: set<nat>, c: bool, l: int, l1: seq<nat>,
      s2: Sub, code2: seq<Instr>, here2: set<nat>, k2: Kind, t2: set<nat>, f2: set<nat>)
    requires Laid(s1, code1, here1, if c then {} else Nodes(l1), if c then Nodes(l1) else {}) && Chain(code1, l, l1)
    requires s2.code == code1 && s2.here == here1 && Shape(s2, code2, here2, k2, t2, f2)
    ensures Chain(code2, l, l1) && Nodes(l1) !! t2 + f2
  {
    ChainGrown(code1, here1, code2, here2, l, l1);
    ChainNodes(code1, l, l1);
  }

  // The comparison emitted for two operands in place.
  lemma Compared(s: Sub, x: Expr, code1: seq<Instr>, here1: set<nat>, k1: Kind, rel: Relation,
      y: Expr, base2: nat, code2: seq<Instr>, here2: set<nat>, k2: Kind, i: Instr)
    requires k1.VK? || (k1.VNonReloc? && k1.reg < base2)
    requires k2.VK? || k2.VNonReloc?
    requires s.expr == Related(rel, x, y) && Reads(y, s.base) && s.base <= base2 < NO_REG
    requires Good(s.(expr := x), code1, here1, k1, NO_REG, false, {}, {})
    requires Good(Sub(y, code1, here1, base2), code2, here2, k2, NO_REG, false, {}, {})
    requires i.Compare? && i.op == OpOf(rel) && i.cond == !rel.NE?
    requires if rel.GT? || rel.GE? then i.x == OperandOf(k2) && i.y == OperandOf(k1) else i.x == OperandOf(k1) && i.y == OperandOf(k2)
    ensures Good(s, Discharged(code2, here2) + [i, Jmp(NO_JUMP)], {}, VJmp(|code2| + 1), NO_REG, false, {}, {})
  {
    CompareBoth(s, x, code1, here1, k1, rel, y, base2, code2, here2, k2, i);
  }

  function OpOf(rel: Relation): CmpOp {
    match rel
    case EQ => Eq
    case NE => Eq
    case LT => Lt
    case GT => Lt
    case LE => Le
    case GE => Le
  }

  lemma {:induction false} ReadsMore(e: Expr, n: nat, m: nat)
    requires Reads(e, n) && n <= m
    ensures Reads(e, m)
  {
    match e
    case Literal(_) =>
    case Local(_) =>
    case Upvalue(_) =>
    case Negation(x) => ReadsMore(x, n, m);
    case And(x, y) => ReadsMore(x, n, m); ReadsMore(y, n, m);
    case Or(x, y) => ReadsMore(x, n, m); ReadsMore(y, n, m);
    case Related(_, x, y) => ReadsMore(x, n, m); ReadsMore(y, n, m);
  }

  lemma ChainGrown(code: seq<Instr>, here: set<nat>, code': seq<Instr>, here': set<nat>, l: int, ns: seq<nat>)
    requires Chain(code, l, ns) && Nodes(ns) !! here && Grown(code, here, code', here')
    ensures Chain(code', l, ns)
  {
    if code' != code || here' != here { ChainEmitted(code, here, code', l, ns); }
  }

  lemma FirstNode(ns: seq<nat>)
    ensures ns != [] ==> ns[0] in Nodes(ns)
  {
  }

  lemma SameList(code: seq<Instr>, l: int, t: seq<nat>, f: seq<nat>)
    requires Chain(code, l, t) && Chain(code, l, f) && Nodes(t) !! Nodes(f)
    ensures t == [] && f == []
  {
    FirstNode(t);
    FirstNode(f);
  }

  // Every jump of the lists carries its value, or the code ends in the two loads.
  predicate Loadable(code: seq<Instr>, list: set<nat>, reg: Reg, p_f: int, p_t: int) {
    || (forall j <- list :: j < |code| && HasValue(code, j))
    || (0 <= p_f && p_t == p_f + 1 && p_f + 2 == |code| && (forall j <- list :: j < p_f) && Entry(code, p_f)
        && code[p_f] == LoadBool(reg, false, true) && code[p_t] == LoadBool(reg, true, false))
  }

  // A value and its lists, with the loads behind a jump over them.
  lemma ValueLoaded(s: Sub, was: seq<Instr>, here: set<nat>, reg: Reg, e: ExpDesc, t: seq<nat>, f: seq<nat>, link: int)
    requires Good(s, was, here, VNonReloc(reg), reg, false, Nodes(t), Nodes(f)) && Nodes(t) + Nodes(f) != {}
    requires Chain(was, e.t, t) && Chain(was, e.f, f)
    ensures var code := was + [Jmp(link), LoadBool(reg, false, true), LoadBool(reg, true, false)];
      && Good(s, code, here + {|was|}, VNonReloc(reg), reg, false, Nodes(t), Nodes(f))
      && Loadable(code, Nodes(t) + Nodes(f), reg, |was| + 1, |was| + 2)
      && Chain(code, e.t, t) && Chain(code, e.f, f)
  {
    var code := was + [Jmp(link), LoadBool(reg, false, true), LoadBool(reg, true, false)];
    LoadAfterValue(s, was, here, reg, Nodes(t), Nodes(f), link);
    LoadableAfter(was, code, Nodes(t) + Nodes(f), reg, link);
    ChainKept(was, code, e.t, t);
    ChainKept(was, code, e.f, f);
  }

  lemma LoadableAfter(code: seq<Instr>, code': seq<Instr>, list: set<nat>, reg: Reg, link: int)
    requires code' == code + [Jmp(link), LoadBool(reg, false, true), LoadBool(reg, true, false)]
    requires forall j <- list :: j < |code|
    ensures Loadable(code', list, reg, |code| + 1, |code| + 2)
  {
  }

  lemma LoadsKept(code: seq<Instr>, list: set<nat>, v: nat, reg: Reg, p_f: int, other: set<nat>, p_t: int)
    requires Loadable(code, other + list, reg, p_f, p_t) && other !! list
    requires forall j <- other + list :: j < |code| && code[j].Jmp?
    ensures var now := Patched(code, list, v, reg, p_f);
      (forall j <- other :: HasValue(now, j)) || (LoadsAt(now, p_t, reg, true) && Entry(now, p_t) && forall j <- other :: j < p_t)
  {
    var now := Patched(code, list, v, reg, p_f);
    forall i | 0 <= i < |code| ensures now[i] == PatchedAt(code, list, v, reg, p_f, i) {}
    if forall j <- other + list :: HasValue(code, j) {
      forall j <- other ensures HasValue(now, j) {}
    }
  }

  // A list untouched by patching another.
  lemma OtherChain(code: seq<Instr>, list: set<nat>, v: nat, reg: Reg, d: int, l: int, ns: seq<nat>)
    requires Chain(code, l, ns) && Nodes(ns) !! list
    ensures Chain(Patched(code, list, v, reg, d), l, ns)
  {
    ChainNodes(code, l, ns);
    forall j <- Nodes(ns) ensures Patched(code, list, v, reg, d)[j] == code[j] {
      assert Patched(code, list, v, reg, d)[j] == PatchedAt(code, list, v, reg, d, j);
    }
    ChainKept(code, Patched(code, list, v, reg, d), l, ns);
  }

  lemma ListsUntied(code: seq<Instr>, list: set<nat>, jpc: int, waiting: seq<nat>, e: ExpDesc, t: seq<nat>, f: seq<nat>)
    requires Chain(code, jpc, waiting) && Waiting(code, Nodes(waiting)) && Chain(code, e.t, t) && Chain(code, e.f, f)
    ensures var now := Untied(code, list);
      Chain(now, jpc, waiting) && Waiting(now, Nodes(waiting)) && Chain(now, e.t, t) && Chain(now, e.f, f)
  {
    ChainUntied(code, list, jpc, waiting);
    ChainUntied(code, list, e.t, t);
    ChainUntied(code, list, e.f, f);
  }

  // A constant that is not nil, true or false is a true value.
  predicate Proper(k: Kind) { k.VK? ==> Truthy(k.value) }

  // The jump of a comparison, inverted if it is to be taken on a false value.
  lemma JumpTested(s: Sub, code: seq<Instr>, pc: nat, code': seq<Instr>, t: set<nat>, f: set<nat>, c: bool)
    requires Good(s, code, {}, VJmp(pc), NO_REG, false, t, f)
    requires var i := code[pc - 1]; code' == if c then code[pc - 1 := i.(cond := !i.cond)] else code
    ensures Tested(s, code', {}, c, if c then t else t + Nodes([pc]), if c then f + Nodes([pc]) else f)
    ensures Chain(code', pc, [pc]) && Nodes([pc]) !! t + f
  {
    NodesOfOne(pc);
    var b, i := Body(code, VJmp(pc)), code'[pc - 1];
    assert Discharged(b, {}) == b;
    assert code' == b + [i, Jmp(NO_JUMP)];
    TestValue(s, code, {}, VJmp(pc), t, f, i, c, if c then t else t + {pc}, if c then f + {pc} else f);
  }

  // The lists of e after something was emitted, or after an edit behind them.
  lemma ListsEmitted(s: Sub, code: seq<Instr>, here: set<nat>, e: ExpDesc, t: seq<nat>, f: seq<nat>, code': seq<Instr>)
    requires Laid(s, code, here, Nodes(t), Nodes(f)) && Chain(code, e.t, t) && Chain(code, e.f, f)
    requires |code| <= |code'| && code'[..|code|] == Discharged(code, here)
    ensures Chain(code', e.t, t) && Chain(code', e.f, f)
  {
    ChainEmitted(code, here, code', e.t, t);
    ChainEmitted(code, here, code', e.f, f);
  }

  lemma ListsBefore(s: Sub, code: seq<Instr>, here: set<nat>, e: ExpDesc, t: seq<nat>, f: seq<nat>, code': seq<Instr>)
    requires Shape(s, code, here, e.k, Nodes(t), Nodes(f)) && Chain(code, e.t, t) && Chain(code, e.f, f)
    requires var b := Body(code, e.k); |b| <= |code'| && code'[..|b|] == b
    ensures Chain(code', e.t, t) && Chain(code', e.f, f)
  {
    var b := Body(code, e.k);
    forall j | j in Nodes(t) + Nodes(f) ensures j < |code'| && code'[j] == code[j] {
      assert code'[j] == b[j];
    }
    forall i | 0 <= i < |t| ensures Linked(code', t, i) { assert Linked(code, t, i); assert t[i] in Nodes(t); }
    forall i | 0 <= i < |f| ensures Linked(code', f, i) { assert Linked(code, f, i); assert f[i] in Nodes(f); }
  }
}
