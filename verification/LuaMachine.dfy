/**
 The instructions that boolean expressions compile to, what the virtual machine does with
 them, and the meaning of code whose jumps are not all patched yet.
 */
module LuaMachine {
  const NO_REG := 255          // MAXARG_A: "no register yet" in a TESTSET
  const NO_JUMP := -1

  datatype Value = Nil | Bool(b: bool) | Int(n: int) | Object(id: nat)

  predicate Truthy(v: Value) { v != Nil && v != Bool(false) }

  type Reg = r: nat | r < 256
  type Regs = rs: seq<Value> | |rs| == 256 witness seq(256, _ => Nil)

  datatype RK = R(reg: Reg) | K(value: Value)

  datatype CmpOp = Eq | Lt | Le

  datatype Instr =
    | Move(a: Reg, b: Reg)
    | LoadK(a: Reg, value: Value)
    | LoadBool(a: Reg, on: bool, skip: bool)
    | LoadNil(a: Reg)
    | GetUpval(a: Reg, upvalue: nat)
    | Not(a: Reg, b: Reg)
    | Compare(op: CmpOp, cond: bool, x: RK, y: RK)
    | Test(a: Reg, c: bool)
    | TestSet(a: Reg, b: Reg, c: bool)
    | Jmp(sBx: int)
  {
    predicate IsTest() { Compare? || Test? || TestSet? }   // testTMode: the next instruction is a jump
  }

  // What the expression may read besides registers: comparisons can run metamethods.
  datatype Env = Env(compare: (CmpOp, Value, Value) -> bool, upvalue: nat -> Value)

  function Operand(o: RK, regs: Regs): Value { if o.R? then regs[o.reg] else o.value }

  function Holds(env: Env, i: Instr, regs: Regs): bool
    requires i.Compare?
  {
    env.compare(i.op, Operand(i.x, regs), Operand(i.y, regs))
  }

  // The value an instruction computes for its register A.
  function Computes(env: Env, i: Instr, regs: Regs): Value
    requires !i.IsTest() && !i.Jmp?
  {
    match i
    case Move(_, b) => regs[b]
    case LoadK(_, v) => v
    case LoadBool(_, on, _) => Bool(on)
    case LoadNil(_) => Nil
    case GetUpval(_, u) => env.upvalue(u)
    case Not(_, b) => Bool(!Truthy(regs[b]))
  }

  // One step of the machine on anything but a jump.
  function StepRegs(env: Env, i: Instr, regs: Regs): Regs
    requires !i.Jmp?
  {
    if i.TestSet? then (if Truthy(regs[i.b]) == i.c then regs[i.a := regs[i.b]] else regs)
    else if i.IsTest() then regs
    else regs[i.a := Computes(env, i, regs)]
  }

  predicate Skips(env: Env, i: Instr, regs: Regs)
    requires !i.Jmp?
  {
    match i
    case Compare(_, cond, _, _) => Holds(env, i, regs) != cond
    case Test(a, c) => Truthy(regs[a]) != c
    case TestSet(_, b, c) => Truthy(regs[b]) != c
    case LoadBool(_, _, skip) => skip
    case _ => false
  }

  datatype Machine = Machine(pc: int, regs: Regs)

  function Step(env: Env, code: seq<Instr>, m: Machine): Machine
    requires 0 <= m.pc < |code|
  {
    var i := code[m.pc];
    if i.Jmp? then m.(pc := m.pc + 1 + i.sBx)
    else Machine(m.pc + (if Skips(env, i, m.regs) then 2 else 1), StepRegs(env, i, m.regs))
  }

  // `n` steps, fewer if the machine leaves the code.
  function Run(env: Env, code: seq<Instr>, m: Machine, n: nat): Machine
    decreases n
  {
    if n == 0 || !(0 <= m.pc < |code|) then m else Run(env, code, Step(env, code, m), n - 1)
  }

  // One step on each instruction, as lopcodes.h tells it.
  lemma InstructionMeans(env: Env, code: seq<Instr>, pc: nat, regs: Regs)
    requires pc < |code|
    ensures var m := Run(env, code, Machine(pc, regs), 1);
      match code[pc]
      case Move(a, b) => m == Machine(pc + 1, regs[a := regs[b]])
      case LoadK(a, v) => m == Machine(pc + 1, regs[a := v])
      case LoadBool(a, on, skip) => m == Machine(if skip then pc + 2 else pc + 1, regs[a := Bool(on)])
      case LoadNil(a) => m == Machine(pc + 1, regs[a := Nil])
      case GetUpval(a, u) => m == Machine(pc + 1, regs[a := env.upvalue(u)])
      case Not(a, b) => m == Machine(pc + 1, regs[a := Bool(regs[b] == Nil || regs[b] == Bool(false))])
      case Compare(op, cond, x, y) =>
        m == Machine(if env.compare(op, Operand(x, regs), Operand(y, regs)) == cond then pc + 1 else pc + 2, regs)
      case Test(a, c) => m == Machine(if (regs[a] != Nil && regs[a] != Bool(false)) == c then pc + 1 else pc + 2, regs)
      case TestSet(a, b, c) =>
        m == if (regs[b] != Nil && regs[b] != Bool(false)) == c then Machine(pc + 1, regs[a := regs[b]]) else Machine(pc + 2, regs)
      case Jmp(s) => m == Machine(pc + 1 + s, regs)
  {
    var m := Step(env, code, Machine(pc, regs));
    assert Run(env, code, m, 0) == m;
  }

  // ---- code under construction ----

  datatype Exit = Out(pc: nat, regs: Regs) | Hole(j: nat, regs: Regs) | Stuck

  // Runs code in which the jumps in `open` have no target yet, and those in `here` are
  // waiting for the next instruction to be emitted.  A TESTSET with no register only tests.
  function Exec(env: Env, code: seq<Instr>, open: set<nat>, here: set<nat>, pc: nat, regs: Regs): Exit
    decreases |code| - pc
  {
    if pc >= |code| then Out(pc, regs) else
    var i := code[pc];
    if i.Jmp? then
      if pc in open then Hole(pc, regs)
      else if pc in here then Out(|code|, regs)
      else if i.sBx < 0 then Stuck
      else Exec(env, code, open, here, pc + 1 + i.sBx, regs)
    else
      Exec(env, code, open, here, pc + (if Skips(env, i, regs) then 2 else 1), Settle(env, i, regs))
  }

  function Settle(env: Env, i: Instr, regs: Regs): Regs
    requires !i.Jmp?
  {
    if i.TestSet? && i.a == NO_REG then regs else StepRegs(env, i, regs)
  }

  predicate Finished(code: seq<Instr>, start: nat) {
    forall i :: start <= i < |code| && code[i].TestSet? ==> code[i].a != NO_REG
  }

  // With every jump patched this is the machine.
  lemma {:induction false} ExecRuns(env: Env, code: seq<Instr>, pc: nat, regs: Regs) returns (n: nat)
    requires Finished(code, pc)
    requires Exec(env, code, {}, {}, pc, regs).Out?
    ensures var x := Exec(env, code, {}, {}, pc, regs);
      Run(env, code, Machine(pc, regs), n) == Machine(x.pc, x.regs)
    decreases |code| - pc
  {
    n := 0;
    if pc < |code| {
      var m := Step(env, code, Machine(pc, regs));
      n := ExecRuns(env, code, m.pc, m.regs);
      n := n + 1;
    }
  }
}
