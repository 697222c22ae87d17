/**
 Each edit of the code generator keeps the meaning of the subexpression it works on.  The
 lemmas speak of one run each, from one set of registers; the generator's methods use them
 for all.  A run of the code either falls off its end, and then the value is where the
 expression's kind says, or leaves by a pending jump, and then the list that jump is on says
 whether the value is true.  The edits are those of lcode.c: an instruction that computes the
 value, a test with its jump, the inverted or exchanged lists of `not`, a list closed to the
 next instruction, and the loads of true and false at the end.
 */
module CodeEdits {
  import opened LuaMachine
  import opened JumpLists
  import opened ShortCircuit

  predicate Plain(i: Instr) { !i.IsTest() && !i.Jmp? && (i.LoadBool? ==> !i.skip) }

  // Code that follows the body: the way out of the body decides how it is entered.
  lemma Extend(env: Env, s: Sub, body: seq<Instr>, here: set<nat>, t: set<nat>, f: set<nat>,
      code': seq<Instr>, open': set<nat>, here': set<nat>, n: nat, v: Value, regs: Regs)
    requires t + f !! here && Waiting(body, here)
    requires |body| <= |code'| && code'[..|body|] == Discharged(body, here)
    requires forall j: nat :: j < |body| ==> (j in open' <==> j in t + f) && j !in here'
    ensures var x := Exec(env, body, t + f, here, |s.code|, regs);
      Exec(env, code', open', here', |s.code|, regs) ==
        if x.Out? then Exec(env, code', open', here', x.pc, x.regs) else x
    ensures var x := Exec(env, body, t + f, here, |s.code|, regs);
      x.Hole? && Leaves(body, n, v, regs, x, t, f) ==> Leaves(code', n, v, regs, x, t, f)
  {
    Append(env, body, t + f, here, code', open', here', |s.code|, regs);
    var x := Exec(env, body, t + f, here, |s.code|, regs);
    if x.Hole? && Leaves(body, n, v, regs, x, t, f) {
      SameControl(body, here, t + f, code', x.j);
    }
  }

  lemma SameControl(code: seq<Instr>, here: set<nat>, open: set<nat>, code': seq<Instr>, j: nat)
    requires |code| <= |code'| && code'[..|code|] == Discharged(code, here)
    requires j in open && open !! here && j < |code| && Waiting(code, here)
    ensures HasValue(code', j) == HasValue(code, j) && (HasValue(code, j) ==> code'[j - 1] == code[j - 1])
  {
    if j > 0 {
      assert code'[j - 1] == code'[..|code|][j - 1] == PatchedAt(code, here, |code|, NO_REG, |code|, j - 1);
    }
  }

  // An instruction that computes the value into its register A.
  lemma PutValueAt(env: Env, s: Sub, code: seq<Instr>, here: set<nat>, k: Kind, t: set<nat>, f: set<nat>, i: Instr, regs: Regs)
    requires Shape(s, code, here, k, t, f) && MeansAt(env, s, code, here, k, NO_REG, false, t, f, regs)
    requires Plain(i) && forall now: Regs :: Computes(env, i, now) == ValueOf(env, code, k, now)
    ensures MeansAt(env, s, Discharged(Body(code, k), here) + [i], {}, VNonReloc(i.a), i.a, false, t, f, regs)
  {
    var b := Body(code, k);
    var code' := Discharged(b, here) + [i];
    assert code'[..|b|] == Discharged(b, here);
    Extend(env, s, b, here, t, f, code', t + f, {}, s.base, Eval(env, s.expr, regs), regs);
    var x := Exec(env, b, t + f, here, |s.code|, regs);
    if x.Out? {
      assert code'[|b|] == i;
      assert Exec(env, code', t + f, {}, |b|, x.regs) == Exec(env, code', t + f, {}, |b| + 1, x.regs[i.a := Computes(env, i, x.regs)]);
    }
  }

  // A test of the value and its jump, which is taken when the value is not c.
  lemma TestValueAt(env: Env, s: Sub, code: seq<Instr>, here: set<nat>, k: Kind, t: set<nat>, f: set<nat>,
      i: Instr, c: bool, t': set<nat>, f': set<nat>, regs: Regs)
    requires Shape(s, code, here, k, t, f) && MeansAt(env, s, code, here, k, NO_REG, false, t, f, regs)
    requires i.IsTest() && forall now: Regs :: Skips(env, i, now) == (Truthy(ValueOf(env, code, k, now)) == c)
    requires if i.TestSet? then i.a == NO_REG && k == VNonReloc(i.b) else forall now: Regs :: ValueOf(env, code, k, now).Bool?
    requires var j := |Body(code, k)| + 1;
      if c then t' == t && f' == f + {j} else t' == t + {j} && f' == f
    ensures DecidesAt(env, s, Discharged(Body(code, k), here) + [i, Jmp(NO_JUMP)], {}, c, t', f', regs)
  {
    var b := Body(code, k);
    var code' := Discharged(b, here) + [i, Jmp(NO_JUMP)];
    var v := Eval(env, s.expr, regs);
    assert code'[..|b|] == Discharged(b, here);
    Extend(env, s, b, here, t, f, code', t' + f', {}, s.base, v, regs);
    var x := Exec(env, b, t + f, here, |s.code|, regs);
    if x.Out? {
      assert code'[|b|] == i && code'[|b| + 1] == Jmp(NO_JUMP);
      assert ValueOf(env, code, k, x.regs) == v;
      if !Skips(env, i, x.regs) {
        assert Leaves(code', s.base, v, regs, Hole(|b| + 1, x.regs), t', f');
      }
    } else {
      assert x.Hole? && Leaves(code', s.base, v, regs, x, t', f');
    }
  }

  // An instruction whose register stays open: the value, or its negation, is still to come.
  lemma DeferValueAt(env: Env, s: Sub, code: seq<Instr>, here: set<nat>, k: Kind, t: set<nat>, f: set<nat>,
      i: Instr, negated: bool, regs: Regs)
    requires Shape(s, code, here, k, t, f) && MeansAt(env, s, code, here, k, NO_REG, false, t, f, regs)
    requires Body(code, k) == code && Plain(i)
    requires forall now: Regs ::
      Computes(env, i, now) == (if negated then Bool(!Truthy(ValueOf(env, code, k, now))) else ValueOf(env, code, k, now))
    ensures MeansAt(env, s, Discharged(code, here) + [i], {}, VReloc(|code|), NO_REG, negated, t, f, regs)
  {
    var d := Discharged(code, here);
    var code' := d + [i];
    assert Body(code', VReloc(|code|)) == d && d[..|code|] == d;
    Extend(env, s, code, here, t, f, d, t + f, {}, s.base, Eval(env, s.expr, regs), regs);
    assert code'[|code'| - 1] == i;
  }

  // The two lists exchanged, their tests keeping no value any more.
  lemma SwapAt(env: Env, s: Sub, code: seq<Instr>, here: set<nat>, k: Kind, t: set<nat>, f: set<nat>, regs: Regs)
    requires WellFormed(Body(code, k), |s.code|, t + f, here) && MeansAt(env, s, code, here, k, NO_REG, true, t, f, regs)
    requires t !! f && (k.VReloc? ==> code != [] && code[|code| - 1].Not?)
    requires k.VJmp? ==> |code| >= 2 && code[|code| - 2].Compare?
    ensures MeansAt(env, s.(expr := Negation(s.expr)), Untied(code, t + f), here, k, NO_REG, false, f, t, regs)
  {
    var b := Body(code, k);
    var code' := Untied(code, t + f);
    UntiedBody(code, k, t + f);
    Untie(env, b, |s.code|, t + f, here, t + f, |s.code|, regs);
    assert t + f == f + t;
    var x := Exec(env, b, t + f, here, |s.code|, regs);
    if x.Out? {
      assert ValueOf(env, code', k, x.regs) == ValueOf(env, code, k, x.regs);
    }
  }

  lemma UntiedBody(code: seq<Instr>, k: Kind, list: set<nat>)
    requires forall j <- list :: j < |Body(code, k)|
    ensures Body(Untied(code, list), k) == Untied(Body(code, k), list)
    ensures forall i :: |Body(code, k)| <= i < |code| ==> Untied(code, list)[i] == code[i]
  {
    var b := Body(code, k);
    forall i | 0 <= i < |code| ensures Untied(code, list)[i] == if i < |b| then Untied(b, list)[i] else code[i] {
      assert Untied(code, list)[i] == UntiedAt(code, list, i);
      if i < |b| { assert Untied(b, list)[i] == UntiedAt(b, list, i); }
    }
  }

  // The jumps that leave with the verdict c now go to the next instruction.
  lemma CloseAt(env: Env, s: Sub, code: seq<Instr>, here: set<nat>, c: bool, t: set<nat>, f: set<nat>, regs: Regs)
    requires DecidesAt(env, s, code, here, c, t, f, regs) && t + f !! here && t !! f
    ensures DecidesAt(env, s, code, here + (if c then t else f), c, if c then {} else t, if c then f else {}, regs)
  {
    var list := if c then t else f;
    ToHere(env, code, t + f, here, list, |s.code|, regs);
    assert (t + f) - list == (if c then {} else t) + (if c then f else {});
  }

  // Code for one subexpression after code for another.
  lemma Sequence(env: Env, s1: Sub, code1: seq<Instr>, here1: set<nat>, t1: set<nat>, f1: set<nat>,
      code2: seq<Instr>, here2: set<nat>, open2: set<nat>, n: nat, v: Value, regs: Regs)
    requires WellFormed(code1, |s1.code|, t1 + f1, here1) && Waiting(code1, here1)
    requires Grown(code1, here1, code2, here2) && forall j <- open2 :: |code1| <= j < |code2|
    requires var x := Exec(env, code1, t1 + f1, here1, |s1.code|, regs); x.Out? ==> x.pc == |code1|
    ensures var x := Exec(env, code1, t1 + f1, here1, |s1.code|, regs);
      Exec(env, code2, t1 + f1 + open2, here2, |s1.code|, regs) ==
        if x.Out? then Exec(env, code2, open2, here2, |code1|, x.regs) else x
    ensures var x := Exec(env, code1, t1 + f1, here1, |s1.code|, regs);
      x.Hole? && Leaves(code1, n, v, regs, x, t1, f1) ==> Leaves(code2, n, v, regs, x, t1, f1)
  {
    var all := t1 + f1 + open2;
    var x := Exec(env, code1, t1 + f1, here1, |s1.code|, regs);
    if code2 == code1 && here2 == here1 {
      assert open2 == {};
      assert all == t1 + f1;
    } else {
      Extend(env, s1, code1, here1, t1, f1, code2, all, here2, n, v, regs);
      if x.Out? {
        Behind(env, code2, all, here2, open2, here2, |code1|, x.regs);
      }
    }
  }

  // The first operand decides, or else the second is the value.
  lemma JoinAt(env: Env, s1: Sub, code1: seq<Instr>, here1: set<nat>, c: bool, t1: set<nat>, f1: set<nat>,
      y: Expr, code2: seq<Instr>, here2: set<nat>, k2: Kind, t2: set<nat>, f2: set<nat>, regs: Regs)
    requires WellFormed(code1, |s1.code|, t1 + f1, here1) && Waiting(code1, here1)
    requires (if c then t1 else f1) == {} && t1 + f1 !! t2 + f2 && DecidesAt(env, s1, code1, here1, c, t1, f1, regs)
    requires Grown(code1, here1, Body(code2, k2), here2) && forall j <- t2 + f2 :: |code1| <= j < |Body(code2, k2)|
    requires Means(Sub(y, code1, here1, s1.base), code2, here2, k2, NO_REG, false, t2, f2)
    requires Reads(y, s1.base) && s1.base < NO_REG
    ensures MeansAt(env, s1.(expr := if c then And(s1.expr, y) else Or(s1.expr, y)), code2, here2, k2, NO_REG, false,
      t2 + t1, f2 + f1, regs)
  {
    var s2 := Sub(y, code1, here1, s1.base);
    var b2 := Body(code2, k2);
    var v1 := Eval(env, s1.expr, regs);
    Sequence(env, s1, code1, here1, t1, f1, b2, here2, t2 + f2, s1.base, v1, regs);
    assert (t2 + t1) + (f2 + f1) == t1 + f1 + (t2 + f2);
    var x := Exec(env, code1, t1 + f1, here1, |s1.code|, regs);
    if x.Out? {
      assert MeansAt(env, s2, code2, here2, k2, NO_REG, false, t2, f2, x.regs);
      EvalKept(env, y, s1.base, regs, x.regs);
      SecondDecides(env, s1, c, s2, code2, here2, k2, t2, f2, t1, f1, x.regs, regs);
    } else {
      assert Leaves(b2, s1.base, v1, regs, x, t1, f1);
    }
  }

  lemma SecondDecides(env: Env, s1: Sub, c: bool, s2: Sub, code2: seq<Instr>, here2: set<nat>, k2: Kind, t2: set<nat>, f2: set<nat>,
      t1: set<nat>, f1: set<nat>, now: Regs, regs: Regs)
    requires Truthy(Eval(env, s1.expr, regs)) == c && Kept(s1.base, NO_REG, regs, now) && s2.base == s1.base
    requires Eval(env, s2.expr, regs) == Eval(env, s2.expr, now)
    requires MeansAt(env, s2, code2, here2, k2, NO_REG, false, t2, f2, now)
    requires var b := Body(code2, k2);
      Exec(env, b, (t2 + t1) + (f2 + f1), here2, |s1.code|, regs) == Exec(env, b, t2 + f2, here2, |s2.code|, now)
    requires t1 + f1 !! t2 + f2
    ensures MeansAt(env, s1.(expr := if c then And(s1.expr, s2.expr) else Or(s1.expr, s2.expr)), code2, here2, k2, NO_REG, false,
      t2 + t1, f2 + f1, regs)
  {
  }

  // Both operands in place at once.
  predicate OperandsAt(env: Env, s: Sub, code: seq<Instr>, here: set<nat>, x: Expr, k1: Kind, y: Expr, k2: Kind, regs: Regs) {
    var e := Exec(env, code, {}, here, |s.code|, regs);
    e.Out? && e.pc == |code| && Kept(s.base, NO_REG, regs, e.regs)
    && ValueOf(env, code, k1, e.regs) == Eval(env, x, regs)
    && ValueOf(env, code, k2, e.regs) == Eval(env, y, regs)
  }

  lemma BothAt(env: Env, s1: Sub, code1: seq<Instr>, here1: set<nat>, k1: Kind,
      y: Expr, base2: nat, code2: seq<Instr>, here2: set<nat>, k2: Kind, regs: Regs)
    requires WellFormed(code1, |s1.code|, {}, here1) && Waiting(code1, here1) && Grown(code1, here1, code2, here2)
    requires k1.VK? || (k1.VNonReloc? && k1.reg < base2)
    requires k2.VK? || k2.VNonReloc?
    requires MeansAt(env, s1, code1, here1, k1, NO_REG, false, {}, {}, regs)
    requires Means(Sub(y, code1, here1, base2), code2, here2, k2, NO_REG, false, {}, {})
    requires Reads(y, s1.base) && s1.base <= base2 < NO_REG
    ensures OperandsAt(env, s1, code2, here2, s1.expr, k1, y, k2, regs)
  {
    var none: set<nat> := {};
    assert none + none == none;
    Sequence(env, s1, code1, here1, {}, {}, code2, here2, {}, s1.base, Eval(env, s1.expr, regs), regs);
    var x := Exec(env, code1, {}, here1, |s1.code|, regs);
    assert Body(code1, k1) == code1 && Body(code2, k2) == code2;
    assert MeansAt(env, Sub(y, code1, here1, base2), code2, here2, k2, NO_REG, false, {}, {}, x.regs);
    EvalKept(env, y, s1.base, regs, x.regs);
  }

  function OperandOf(k: Kind): RK
    requires k.VK? || k.VNonReloc?
  {
    if k.VK? then K(k.value) else R(k.reg)
  }

  // The comparison instruction and its jump.
  lemma CompareAt(env: Env, s: Sub, code: seq<Instr>, here: set<nat>, x: Expr, k1: Kind, rel: Relation, y: Expr, k2: Kind,
      i: Instr, regs: Regs)
    requires Waiting(code, here) && (k1.VK? || k1.VNonReloc?) && (k2.VK? || k2.VNonReloc?)
    requires OperandsAt(env, s, code, here, x, k1, y, k2, regs)
    requires i.Compare? && forall now: Regs ::
      (Holds(env, i, now) == i.cond) == Relate(env, rel, ValueOf(env, code, k1, now), ValueOf(env, code, k2, now))
    ensures MeansAt(env, s.(expr := Related(rel, x, y)), Discharged(code, here) + [i, Jmp(NO_JUMP)], {}, VJmp(|code| + 1),
      NO_REG, false, {}, {}, regs)
  {
    var d := Discharged(code, here);
    var code' := d + [i, Jmp(NO_JUMP)];
    assert Body(code', VJmp(|code| + 1)) == d && d[..|code|] == d;
    Extend(env, s, code, here, {}, {}, d, {}, {}, s.base, Nil, regs);
    assert code'[|code'| - 2] == i;
    var none: set<nat> := {};
    assert none + none == none;
  }

  // ---- putting a value whose lists are open into its register ----

  // A load of false that skips the load of true, after a comparison and its pending jump.
  lemma LoadAfterJump(env: Env, code: seq<Instr>, open: set<nat>, n: nat, reg: Reg, regs: Regs)
    requires n + 4 == |code| && code[n].Compare? && code[n + 1].Jmp? && n + 1 in open
    requires code[n + 2] == LoadBool(reg, false, true)
    ensures Exec(env, code, open, {}, n, regs) ==
      if Holds(env, code[n], regs) == code[n].cond then Hole(n + 1, regs) else Out(|code|, regs[reg := Bool(false)])
  {
    assert Exec(env, code, open, {}, n, regs) == Exec(env, code, open, {}, n + (if Skips(env, code[n], regs) then 2 else 1), regs);
    assert Exec(env, code, open, {}, n + 2, regs) == Exec(env, code, open, {}, n + 4, regs[reg := Bool(false)]);
  }

  lemma LinksAt(env: Env, s: Sub, code: seq<Instr>, here: set<nat>, k: Kind, spoilt: Reg, negated: bool,
      t: set<nat>, f: set<nat>, code': seq<Instr>, regs: Regs)
    requires SameBut(code, code', t + f + here) && forall j <- t + f + here :: j < |Body(code, k)|
    requires MeansAt(env, s, code, here, k, spoilt, negated, t, f, regs)
    ensures MeansAt(env, s, code', here, k, spoilt, negated, t, f, regs)
  {
    var b, b' := Body(code, k), Body(code', k);
    Links(env, b, b', t + f, here, |s.code|, regs);
    var x := Exec(env, b, t + f, here, |s.code|, regs);
    if x.Out? {
      assert ValueOf(env, code', k, x.regs) == ValueOf(env, code, k, x.regs);
    }
  }

  // A comparison's own jump, counted among the true exits; falling through loads false.
  lemma LoadAfterJumpAt(env: Env, s: Sub, code: seq<Instr>, k: Kind, reg: Reg, t: set<nat>, f: set<nat>, on: Instr, regs: Regs)
    requires k.VJmp? && KindOk(s, code, {}, k) && s.base < NO_REG && k.pc !in f
    requires MeansAt(env, s, code, {}, k, NO_REG, false, t, f, regs)
    ensures MeansAt(env, s, code + [LoadBool(reg, false, true), on], {}, VNonReloc(reg), reg, false, t + {k.pc}, f, regs)
  {
    var b := Body(code, k);
    var code' := code + [LoadBool(reg, false, true), on];
    var v := Eval(env, s.expr, regs);
    var open' := (t + {k.pc}) + f;
    assert Discharged(b, {}) == b;
    assert code'[..|b|] == b;
    Extend(env, s, b, {}, t, f, code', open', {}, s.base, v, regs);
    var x := Exec(env, b, t + f, {}, |s.code|, regs);
    if x.Out? {
      assert code'[|b|] == code[|b|] && code'[|b| + 1] == code[|b| + 1] && code'[|b| + 2] == LoadBool(reg, false, true);
      LoadAfterJump(env, code', open', |b|, reg, x.regs);
    }
  }

  // Falling through jumps over the two loads.
  lemma LoadAfterValueAt(env: Env, s: Sub, code: seq<Instr>, here: set<nat>, reg: Reg, t: set<nat>, f: set<nat>,
      tail: seq<Instr>, regs: Regs)
    requires (forall j <- t + f :: j < |code|) && MeansAt(env, s, code, here, VNonReloc(reg), reg, false, t, f, regs)
    requires |tail| > 0 && tail[0].Jmp?
    ensures MeansAt(env, s, code + tail, here + {|code|}, VNonReloc(reg), reg, false, t, f, regs)
  {
    var code' := code + tail;
    assert code'[..|code|] == code && code'[|code|] == tail[0];
    HoldAt(env, code, t + f, here, code', |s.code|, regs);
    var x := Exec(env, code, t + f, here, |s.code|, regs);
    if x.Hole? && x.j > 0 { assert code'[x.j - 1] == code[x.j - 1]; }
  }

  lemma {:induction false} HoldAt(env: Env, code: seq<Instr>, open: set<nat>, here: set<nat>, code': seq<Instr>, pc: nat, regs: Regs)
    requires |code| < |code'| && code'[..|code|] == code && code'[|code|].Jmp? && forall j <- open :: j < |code|
    ensures var x := Exec(env, code, open, here, pc, regs);
      (x.Out? ==> x.pc == |code|) ==>
      Exec(env, code', open, here + {|code|}, pc, regs) == if x.Out? then Out(|code'|, x.regs) else x
    decreases |code| - pc
  {
    if pc < |code| {
      assert code'[pc] == code[pc];
      var i := code[pc];
      if i.Jmp? {
        if pc !in open && pc !in here && i.sBx >= 0 {
          HoldAt(env, code, open, here, code', pc + 1 + i.sBx, regs);
        }
      } else {
        HoldAt(env, code, open, here, code', pc + (if Skips(env, i, regs) then 2 else 1), Settle(env, i, regs));
      }
    }
  }

  // A load of `on` after which the code ends.
  predicate LoadsAt(code: seq<Instr>, d: int, reg: Reg, on: bool) {
    0 <= d < |code| && code[d].LoadBool? && code[d].a == reg && code[d].on == on && d + (if code[d].skip then 2 else 1) == |code|
  }

  // Where a patched jump ends up.
  lemma Landing(env: Env, code: seq<Instr>, open: set<nat>, here: set<nat>, reg: Reg, list: set<nat>, c: bool, d: int, x: Exit)
    requires x.Hole? && x.j in list && x.j < |code|
    requires HasValue(code, x.j) || (LoadsAt(code, d, reg, c) && d !in list)
    ensures Onward(env, code, Patched(code, list, |code|, reg, d), open, here, list, |code|, reg, At(d), x) ==
      Out(|code|, x.regs[reg := if HasValue(code, x.j) then x.regs[code[x.j - 1].b] else Bool(c)])
  {
    var code' := Patched(code, list, |code|, reg, d);
    if !HasValue(code, x.j) {
      assert code'[d] == PatchedAt(code, list, |code|, reg, d, d);
      assert Exec(env, code', open - list, here, d, x.regs) == Exec(env, code', open - list, here, |code|, x.regs[reg := Bool(c)]);
    }
  }

  lemma PatchedLeaves(code: seq<Instr>, list: set<nat>, reg: Reg, d: int, n: nat, v: Value, regs: Regs, x: Exit,
      t: set<nat>, f: set<nat>, t': set<nat>, f': set<nat>)
    requires x.Hole? && x.j !in list && (forall j <- list :: j < |code| && code[j].Jmp?)
    requires Leaves(code, n, v, regs, x, t, f) && t - list == t' && f - list == f'
    ensures Leaves(Patched(code, list, |code|, reg, d), n, v, regs, x, t', f')
  {
    if x.j > 0 {
      assert Patched(code, list, |code|, reg, d)[x.j - 1] == PatchedAt(code, list, |code|, reg, d, x.j - 1);
    }
  }

  // One list patched: its jumps carry their value to the end or go through a load.
  lemma PatchListAt(env: Env, s: Sub, code: seq<Instr>, here: set<nat>, reg: Reg, t: set<nat>, f: set<nat>, c: bool,
      list: set<nat>, t': set<nat>, f': set<nat>, d: int, regs: Regs)
    requires MeansAt(env, s, code, here, VNonReloc(reg), reg, false, t, f, regs)
    requires if c then list == t && t' == {} && f' == f else list == f && t' == t && f' == {}
    requires Patchable(code, |s.code|, t + f, here, list, |code|, reg, d) && t !! f && Entry(code, |s.code|)
    requires s.base < NO_REG && ((forall j <- list :: HasValue(code, j)) || LoadsAt(code, d, reg, c))
    ensures MeansAt(env, s, Patched(code, list, |code|, reg, d), here, VNonReloc(reg), reg, false, t', f', regs)
  {
    var code' := Patched(code, list, |code|, reg, d);
    Patch(env, code, |s.code|, t + f, here, list, |code|, reg, d, |s.code|, regs);
    assert (t + f) - list == t' + f';
    var x := Exec(env, code, t + f, here, |s.code|, regs);
    if x.Hole? && x.j in list {
      assert LoadsAt(code, d, reg, c) ==> d !in list;
      Landing(env, code, t + f, here, reg, list, c, d, x);
    } else if x.Hole? {
      PatchedLeaves(code, list, reg, d, s.base, Eval(env, s.expr, regs), regs, x, t, f, t', f');
    }
  }
}
