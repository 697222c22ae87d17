/**
 What and, or, not and comparisons mean, and what unfinished code has to do to compute
 them: falling off its end it holds the value in the place its descriptor names, and
 leaving by a jump of the true (false) list the value is a true (false) one, sitting in
 the register its test looks at or else a boolean.
 */
module ShortCircuit {
  import opened LuaMachine
  import opened JumpLists

  datatype Relation = EQ | NE | LT | GT | LE | GE

  datatype Expr =
    | Literal(value: Value)
    | Local(reg: Reg)
    | Upvalue(index: nat)
    | Negation(x: Expr)
    | And(x: Expr, y: Expr)
    | Or(x: Expr, y: Expr)
    | Related(rel: Relation, x: Expr, y: Expr)

  function Relate(env: Env, rel: Relation, v: Value, w: Value): bool {
    match rel
    case EQ => env.compare(Eq, v, w)
    case NE => !env.compare(Eq, v, w)
    case LT => env.compare(Lt, v, w)
    case GT => env.compare(Lt, w, v)
    case LE => env.compare(Le, v, w)
    case GE => env.compare(Le, w, v)
  }

  function Eval(env: Env, e: Expr, regs: Regs): Value {
    match e
    case Literal(v) => v
    case Local(r) => regs[r]
    case Upvalue(u) => env.upvalue(u)
    case Negation(x) => Bool(!Truthy(Eval(env, x, regs)))
    case And(x, y) => if Truthy(Eval(env, x, regs)) then Eval(env, y, regs) else Eval(env, x, regs)
    case Or(x, y) => if Truthy(Eval(env, x, regs)) then Eval(env, x, regs) else Eval(env, y, regs)
    case Related(rel, x, y) => Bool(Relate(env, rel, Eval(env, x, regs), Eval(env, y, regs)))
  }

  // Every local the expression reads is below n.
  predicate Reads(e: Expr, n: nat) {
    match e
    case Literal(_) => true
    case Local(r) => r < n
    case Upvalue(_) => true
    case Negation(x) => Reads(x, n)
    case And(x, y) => Reads(x, n) && Reads(y, n)
    case Or(x, y) => Reads(x, n) && Reads(y, n)
    case Related(_, x, y) => Reads(x, n) && Reads(y, n)
  }

  predicate Kept(n: nat, spoilt: Reg, was: Regs, now: Regs) {
    forall i: Reg :: i < n && i != spoilt ==> now[i] == was[i]
  }

  lemma {:induction false} EvalKept(env: Env, e: Expr, n: nat, was: Regs, now: Regs)
    requires Reads(e, n) && Kept(n, NO_REG, was, now) && n < NO_REG
    ensures Eval(env, e, was) == Eval(env, e, now)
  {
    match e
    case Literal(_) =>
    case Local(_) =>
    case Upvalue(_) =>
    case Negation(x) => EvalKept(env, x, n, was, now);
    case And(x, y) => EvalKept(env, x, n, was, now); EvalKept(env, y, n, was, now);
    case Or(x, y) => EvalKept(env, x, n, was, now); EvalKept(env, y, n, was, now);
    case Related(_, x, y) => EvalKept(env, x, n, was, now); EvalKept(env, y, n, was, now);
  }

  datatype Kind =
    | VNil | VTrue | VFalse
    | VK(value: Value)           // a constant that is a true value
    | VLocal(reg: Reg) | VUpval(index: nat)
    | VNonReloc(reg: Reg)
    | VReloc(pc: nat)            // the last instruction, its register still open
    | VJmp(pc: nat)              // a comparison and its jump, the last two instructions

  datatype ExpDesc = ExpDesc(k: Kind, t: int, f: int)

  // A subexpression being compiled: the code and the waiting jumps when it began, and the
  // number of registers in use then.
  datatype Sub = Sub(expr: Expr, code: seq<Instr>, here: set<nat>, base: nat)

  // The code up to where its value is still to be put somewhere.
  function Body(code: seq<Instr>, k: Kind): seq<Instr> {
    if k.VReloc? && 1 <= |code| then code[..|code| - 1]
    else if k.VJmp? && 2 <= |code| then code[..|code| - 2]
    else code
  }

  // The value after the body has run.
  function ValueOf(env: Env, code: seq<Instr>, k: Kind, regs: Regs): Value {
    match k
    case VNil => Nil
    case VTrue => Bool(true)
    case VFalse => Bool(false)
    case VK(v) => v
    case VLocal(r) => regs[r]
    case VUpval(u) => env.upvalue(u)
    case VNonReloc(r) => regs[r]
    case VReloc(_) =>
      if code != [] && !code[|code| - 1].Jmp? && !code[|code| - 1].IsTest() then Computes(env, code[|code| - 1], regs) else Nil
    case VJmp(_) =>
      if |code| >= 2 && code[|code| - 2].Compare? then Bool(Holds(env, code[|code| - 2], regs) == code[|code| - 2].cond)
      else Nil
  }

  // The code before the subexpression changed only in that its waiting jumps were patched.
  predicate Grown(c0: seq<Instr>, h0: set<nat>, code: seq<Instr>, here: set<nat>) {
    || (code == c0 && here == h0)
    || (|c0| <= |code| && code[..|c0|] == Discharged(c0, h0) && forall j <- here :: |c0| <= j)
  }

  predicate KindOk(s: Sub, code: seq<Instr>, here: set<nat>, k: Kind) {
    match k
    case VReloc(pc) =>
      pc + 1 == |code| && |s.code| < |code| && here == {} && (code[pc].GetUpval? || code[pc].Not?)
    case VJmp(pc) =>
      pc + 1 == |code| && |s.code| + 2 <= |code| && here == {} && code[pc - 1].Compare? && code[pc] == Jmp(NO_JUMP)
    case _ => true
  }

  // Code laid down for a subexpression, with its jumps on the true and false lists pending.
  predicate Laid(s: Sub, body: seq<Instr>, here: set<nat>, t: set<nat>, f: set<nat>) {
    && t !! f && s.base < NO_REG
    && Entry(s.code, |s.code|) && Waiting(s.code, s.here)
    && |s.code| <= |body|
    && Grown(s.code, s.here, body, here)
    && WellFormed(body, |s.code|, t + f, here)
    && Waiting(body, here)
  }

  predicate Shape(s: Sub, code: seq<Instr>, here: set<nat>, k: Kind, t: set<nat>, f: set<nat>) {
    KindOk(s, code, here, k) && Laid(s, Body(code, k), here, t, f)
  }

  // Leaving by a pending jump.
  predicate Leaves(code: seq<Instr>, n: nat, v: Value, regs: Regs, x: Exit, t: set<nat>, f: set<nat>)
    requires x.Hole?
  {
    && x.j < |code| && x.j in t + f && (x.j in t <==> Truthy(v))
    && Kept(n, NO_REG, regs, x.regs)
    && if HasValue(code, x.j) then x.regs[code[x.j - 1].b] == v else v.Bool?
  }

  // Falling off the end the value (negated, if `negated`) is where k says.
  predicate MeansAt(env: Env, s: Sub, code: seq<Instr>, here: set<nat>, k: Kind, spoilt: Reg, negated: bool,
      t: set<nat>, f: set<nat>, regs: Regs)
  {
    var v := Eval(env, s.expr, regs);
    var x := Exec(env, Body(code, k), t + f, here, |s.code|, regs);
    match x
    case Out(pc, now) =>
      pc == |Body(code, k)| && Kept(s.base, spoilt, regs, now)
      && ValueOf(env, code, k, now) == if negated then Bool(!Truthy(v)) else v
    case Hole(_, _) => Leaves(Body(code, k), s.base, v, regs, x, t, f)
    case Stuck => false
  }

  ghost predicate Means(s: Sub, code: seq<Instr>, here: set<nat>, k: Kind, spoilt: Reg, negated: bool, t: set<nat>, f: set<nat>) {
    forall env: Env, regs: Regs :: MeansAt(env, s, code, here, k, spoilt, negated, t, f, regs)
  }

  // Falling off the end the value is a true one exactly if c.
  predicate DecidesAt(env: Env, s: Sub, code: seq<Instr>, here: set<nat>, c: bool, t: set<nat>, f: set<nat>, regs: Regs) {
    var v := Eval(env, s.expr, regs);
    var x := Exec(env, code, t + f, here, |s.code|, regs);
    match x
    case Out(pc, now) => pc == |code| && Kept(s.base, NO_REG, regs, now) && Truthy(v) == c
    case Hole(_, _) => Leaves(code, s.base, v, regs, x, t, f)
    case Stuck => false
  }

  ghost predicate Decides(s: Sub, code: seq<Instr>, here: set<nat>, c: bool, t: set<nat>, f: set<nat>) {
    forall env: Env, regs: Regs :: DecidesAt(env, s, code, here, c, t, f, regs)
  }
}
