/** The generator's edits put together: each keeps both the layout and the meaning. */
module CodeSteps {
  import opened LuaMachine
  import opened JumpLists
  import opened ShortCircuit
  import opened CodeEdits
  import opened CodeLayout

  ghost predicate Good(s: Sub, code: seq<Instr>, here: set<nat>, k: Kind, spoilt: Reg, negated: bool, t: set<nat>, f: set<nat>) {
    Shape(s, code, here, k, t, f) && Means(s, code, here, k, spoilt, negated, t, f)
  }

  ghost predicate Tested(s: Sub, code: seq<Instr>, here: set<nat>, c: bool, t: set<nat>, f: set<nat>) {
    Laid(s, code, here, t, f) && Decides(s, code, here, c, t, f)
  }

  // A value that takes no code.
  lemma Start(s: Sub, k: Kind)
    requires Entry(s.code, |s.code|) && Waiting(s.code, s.here) && s.base < NO_REG
    requires !k.VReloc? && !k.VJmp? && forall env: Env, regs: Regs :: ValueOf(env, s.code, k, regs) == Eval(env, s.expr, regs)
    ensures Good(s, s.code, s.here, k, NO_REG, false, {}, {})
  {
    forall env: Env, regs: Regs ensures MeansAt(env, s, s.code, s.here, k, NO_REG, false, {}, {}, regs) {}
  }

  // Another description of the same value.
  lemma Redescribe(s: Sub, code: seq<Instr>, here: set<nat>, k: Kind, spoilt: Reg, k': Kind, spoilt': Reg, negated: bool,
      t: set<nat>, f: set<nat>)
    requires Good(s, code, here, k, spoilt, false, t, f)
    requires !k.VReloc? && !k.VJmp? && !k'.VReloc? && !k'.VJmp?
    requires spoilt == spoilt' || spoilt == NO_REG || s.base <= spoilt
    requires forall env: Env, regs: Regs ::
      ValueOf(env, code, k', regs) == (if negated then Bool(!Truthy(ValueOf(env, code, k, regs))) else ValueOf(env, code, k, regs))
    ensures Good(s, code, here, k', spoilt', negated, t, f)
  {
    forall env: Env, regs: Regs ensures MeansAt(env, s, code, here, k', spoilt', negated, t, f, regs) {
      assert MeansAt(env, s, code, here, k, spoilt, false, t, f, regs);
    }
  }

  lemma PutValue(s: Sub, code: seq<Instr>, here: set<nat>, k: Kind, t: set<nat>, f: set<nat>, i: Instr)
    requires Good(s, code, here, k, NO_REG, false, t, f)
    requires Plain(i) && forall env: Env, now: Regs :: Computes(env, i, now) == ValueOf(env, code, k, now)
    ensures Good(s, Discharged(Body(code, k), here) + [i], {}, VNonReloc(i.a), i.a, false, t, f)
  {
    var code' := Discharged(Body(code, k), here) + [i];
    LaidEmit(s, Body(code, k), here, t, f, i);
    forall env: Env, regs: Regs ensures MeansAt(env, s, code', {}, VNonReloc(i.a), i.a, false, t, f, regs) {
      assert MeansAt(env, s, code, here, k, NO_REG, false, t, f, regs);
      PutValueAt(env, s, code, here, k, t, f, i, regs);
    }
  }

  lemma DeferValue(s: Sub, code: seq<Instr>, here: set<nat>, k: Kind, t: set<nat>, f: set<nat>, i: Instr, negated: bool)
    requires Good(s, code, here, k, NO_REG, false, t, f) && Body(code, k) == code && (i.GetUpval? || i.Not?)
    requires forall env: Env, now: Regs ::
      Computes(env, i, now) == (if negated then Bool(!Truthy(ValueOf(env, code, k, now))) else ValueOf(env, code, k, now))
    ensures Good(s, Discharged(code, here) + [i], {}, VReloc(|code|), NO_REG, negated, t, f)
  {
    var code' := Discharged(code, here) + [i];
    LaidEmit(s, code, here, t, f, i);
    assert Body(code', VReloc(|code|)) == Discharged(code, here);
    forall env: Env, regs: Regs ensures MeansAt(env, s, code', {}, VReloc(|code|), NO_REG, negated, t, f, regs) {
      assert MeansAt(env, s, code, here, k, NO_REG, false, t, f, regs);
      DeferValueAt(env, s, code, here, k, t, f, i, negated, regs);
    }
  }

  lemma TestValue(s: Sub, code: seq<Instr>, here: set<nat>, k: Kind, t: set<nat>, f: set<nat>, i: Instr, c: bool,
      t': set<nat>, f': set<nat>)
    requires Good(s, code, here, k, NO_REG, false, t, f)
    requires i.IsTest() && forall env: Env, now: Regs :: Skips(env, i, now) == (Truthy(ValueOf(env, code, k, now)) == c)
    requires if i.TestSet? then i.a == NO_REG && k == VNonReloc(i.b) else forall env: Env, now: Regs :: ValueOf(env, code, k, now).Bool?
    requires var j := |Body(code, k)| + 1;
      if c then t' == t && f' == f + {j} else t' == t + {j} && f' == f
    ensures Tested(s, Discharged(Body(code, k), here) + [i, Jmp(NO_JUMP)], {}, c, t', f')
  {
    var code' := Discharged(Body(code, k), here) + [i, Jmp(NO_JUMP)];
    LaidTest(s, Body(code, k), here, t, f, i, t', f');
    forall env: Env, regs: Regs ensures DecidesAt(env, s, code', {}, c, t', f', regs) {
      assert MeansAt(env, s, code, here, k, NO_REG, false, t, f, regs);
      TestValueAt(env, s, code, here, k, t, f, i, c, t', f', regs);
    }
  }

  // A value known without running anything needs no test.
  lemma NoTest(s: Sub, code: seq<Instr>, here: set<nat>, k: Kind, t: set<nat>, f: set<nat>, c: bool)
    requires Good(s, code, here, k, NO_REG, false, t, f) && !k.VReloc? && !k.VJmp?
    requires forall env: Env, now: Regs :: Truthy(ValueOf(env, code, k, now)) == c
    ensures Tested(s, code, here, c, t, f)
  {
    forall env: Env, regs: Regs ensures DecidesAt(env, s, code, here, c, t, f, regs) {
      assert MeansAt(env, s, code, here, k, NO_REG, false, t, f, regs);
    }
  }

  lemma Close(s: Sub, code: seq<Instr>, here: set<nat>, c: bool, t: set<nat>, f: set<nat>)
    requires Tested(s, code, here, c, t, f)
    ensures Tested(s, code, here + (if c then t else f), c, if c then {} else t, if c then f else {})
  {
    LaidClose(s, code, here, t, f, c);
    var here', t', f' := here + (if c then t else f), if c then {} else t, if c then f else {};
    forall env: Env, regs: Regs ensures DecidesAt(env, s, code, here', c, t', f', regs) {
      assert DecidesAt(env, s, code, here, c, t, f, regs);
      CloseAt(env, s, code, here, c, t, f, regs);
    }
  }

  lemma TestedLinks(s: Sub, code: seq<Instr>, here: set<nat>, c: bool, t: set<nat>, f: set<nat>, code': seq<Instr>)
    requires Tested(s, code, here, c, t, f) && SameBut(code, code', t + f + here)
    requires forall i :: 0 <= i < |s.code| ==> code'[i] == code[i]
    ensures Tested(s, code', here, c, t, f)
  {
    LaidLinks(s, code, here, t, f, code');
    forall env: Env, regs: Regs ensures DecidesAt(env, s, code', here, c, t, f, regs) {
      assert DecidesAt(env, s, code, here, c, t, f, regs);
      Links(env, code, code', t + f, here, |s.code|, regs);
    }
  }

  lemma GoodLinks(s: Sub, code: seq<Instr>, here: set<nat>, k: Kind, spoilt: Reg, negated: bool, t: set<nat>, f: set<nat>, code': seq<Instr>)
    requires Good(s, code, here, k, spoilt, negated, t, f) && SameBut(code, code', t + f + here)
    requires forall i :: 0 <= i < |s.code| ==> code'[i] == code[i]
    ensures Good(s, code', here, k, spoilt, negated, t, f)
  {
    var b, b' := Body(code, k), Body(code', k);
    assert SameBut(b, b', t + f + here);
    LaidLinks(s, b, here, t, f, b');
    forall env: Env, regs: Regs ensures MeansAt(env, s, code', here, k, spoilt, negated, t, f, regs) {
      assert MeansAt(env, s, code, here, k, spoilt, negated, t, f, regs);
      LinksAt(env, s, code, here, k, spoilt, negated, t, f, code', regs);
    }
  }

  lemma Invert(s: Sub, code: seq<Instr>, pc: nat, i: Instr, t: set<nat>, f: set<nat>)
    requires Good(s, code, {}, VJmp(pc), NO_REG, false, t, f) && i == code[pc - 1].(cond := !code[pc - 1].cond)
    ensures Good(s, code[pc - 1 := i], {}, VJmp(pc), NO_REG, true, t, f)
  {
    var code' := code[pc - 1 := i];
    assert Body(code', VJmp(pc)) == Body(code, VJmp(pc));
    forall env: Env, regs: Regs ensures MeansAt(env, s, code', {}, VJmp(pc), NO_REG, true, t, f, regs) {
      assert MeansAt(env, s, code, {}, VJmp(pc), NO_REG, false, t, f, regs);
    }
  }

  lemma Swap(s: Sub, code: seq<Instr>, here: set<nat>, k: Kind, t: set<nat>, f: set<nat>)
    requires Good(s, code, here, k, NO_REG, true, t, f) && (k.VReloc? ==> code[k.pc].Not?)
    ensures Good(s.(expr := Negation(s.expr)), Untied(code, t + f), here, k, NO_REG, false, f, t)
  {
    UntiedBody(code, k, t + f);
    LaidUntied(s, Body(code, k), here, t, f);
    forall env: Env, regs: Regs
      ensures MeansAt(env, s.(expr := Negation(s.expr)), Untied(code, t + f), here, k, NO_REG, false, f, t, regs)
    {
      assert MeansAt(env, s, code, here, k, NO_REG, true, t, f, regs);
      SwapAt(env, s, code, here, k, t, f, regs);
    }
  }

  lemma Join(s1: Sub, code1: seq<Instr>, here1: set<nat>, c: bool, t1: set<nat>, f1: set<nat>,
      y: Expr, code2: seq<Instr>, here2: set<nat>, k2: Kind, t2: set<nat>, f2: set<nat>)
    requires Tested(s1, code1, here1, c, t1, f1) && (if c then t1 else f1) == {}
    requires Good(Sub(y, code1, here1, s1.base), code2, here2, k2, NO_REG, false, t2, f2) && Reads(y, s1.base)
    ensures Good(s1.(expr := if c then And(s1.expr, y) else Or(s1.expr, y)), code2, here2, k2, NO_REG, false, t2 + t1, f2 + f1)
  {
    var s2 := Sub(y, code1, here1, s1.base);
    LaidJoin(s1, code1, here1, t1, f1, s2, Body(code2, k2), here2, t2, f2);
    var s, t, f := s1.(expr := if c then And(s1.expr, y) else Or(s1.expr, y)), t2 + t1, f2 + f1;
    forall env: Env, regs: Regs ensures MeansAt(env, s, code2, here2, k2, NO_REG, false, t, f, regs) {
      assert DecidesAt(env, s1, code1, here1, c, t1, f1, regs);
      JoinAt(env, s1, code1, here1, c, t1, f1, y, code2, here2, k2, t2, f2, regs);
    }
  }

  lemma CompareBoth(s: Sub, x: Expr, code1: seq<Instr>, here1: set<nat>, k1: Kind, rel: Relation,
      y: Expr, base2: nat, code2: seq<Instr>, here2: set<nat>, k2: Kind, i: Instr)
    requires k1.VK? || (k1.VNonReloc? && k1.reg < base2)
    requires k2.VK? || k2.VNonReloc?
    requires s.expr == Related(rel, x, y) && Reads(y, s.base) && s.base <= base2 < NO_REG
    requires Good(s.(expr := x), code1, here1, k1, NO_REG, false, {}, {})
    requires Good(Sub(y, code1, here1, base2), code2, here2, k2, NO_REG, false, {}, {})
    requires i.Compare? && forall env: Env, now: Regs ::
      (Holds(env, i, now) == i.cond) == Relate(env, rel, ValueOf(env, code1, k1, now), ValueOf(env, code2, k2, now))
    ensures Good(s, Discharged(code2, here2) + [i, Jmp(NO_JUMP)], {}, VJmp(|code2| + 1), NO_REG, false, {}, {})
  {
    var s1, s2 := s.(expr := x), Sub(y, code1, here1, base2);
    var none: set<nat> := {};
    assert none + none == none;
    var code' := Discharged(code2, here2) + [i, Jmp(NO_JUMP)];
    LaidJoin(s1, code1, here1, {}, {}, s2, code2, here2, {}, {});
    LaidDone(s1, code2, here2);
    assert Body(code', VJmp(|code2| + 1)) == Discharged(code2, here2);
    var k := VJmp(|code2| + 1);
    forall env: Env, regs: Regs ensures MeansAt(env, s, code', {}, k, NO_REG, false, {}, {}, regs) {
      assert MeansAt(env, s1, code1, here1, k1, NO_REG, false, {}, {}, regs);
      BothAt(env, s1, code1, here1, k1, y, base2, code2, here2, k2, regs);
      CompareAt(env, s1, code2, here2, x, k1, rel, y, k2, i, regs);
    }
  }

  lemma LaidDone(s: Sub, body: seq<Instr>, here: set<nat>)
    requires Laid(s, body, here, {}, {})
    ensures Laid(s, Discharged(body, here), {}, {}, {})
  {
    LaidEmit(s, body, here, {}, {}, Move(0, 0));
  }

  // ---- the value and its lists into one register ----

  lemma LoadAfterJumps(s: Sub, code: seq<Instr>, k: Kind, reg: Reg, t: set<nat>, f: set<nat>)
    requires k.VJmp? && Good(s, code, {}, k, NO_REG, false, t, f)
    ensures Good(s, code + [LoadBool(reg, false, true), LoadBool(reg, true, false)], {}, VNonReloc(reg), reg, false, t + {k.pc}, f)
    ensures Laid(s, code, {}, t + {k.pc}, f)
  {
    var b := Body(code, k);
    var loads := [LoadBool(reg, false, true), LoadBool(reg, true, false)];
    LaidTest(s, b, {}, t, f, code[k.pc - 1], t + {k.pc}, f);
    assert Discharged(b, {}) == b;
    assert code == b + [code[k.pc - 1], Jmp(NO_JUMP)];
    assert Discharged(code, {}) == code;
    LaidMore(s, code, {}, t + {k.pc}, f, loads, t + {k.pc}, f);
    forall env: Env, regs: Regs ensures MeansAt(env, s, code + loads, {}, VNonReloc(reg), reg, false, t + {k.pc}, f, regs) {
      assert MeansAt(env, s, code, {}, k, NO_REG, false, t, f, regs);
      LoadAfterJumpAt(env, s, code, k, reg, t, f, LoadBool(reg, true, false), regs);
    }
  }

  lemma LoadAfterValue(s: Sub, code: seq<Instr>, here: set<nat>, reg: Reg, t: set<nat>, f: set<nat>, link: int)
    requires Good(s, code, here, VNonReloc(reg), reg, false, t, f) && t + f != {}
    ensures Good(s, code + [Jmp(link), LoadBool(reg, false, true), LoadBool(reg, true, false)], here + {|code|},
      VNonReloc(reg), reg, false, t, f)
  {
    var tail := [Jmp(link), LoadBool(reg, false, true), LoadBool(reg, true, false)];
    var j :| j in t + f;
    LaidHold(s, code, here, t, f, tail);
    forall env: Env, regs: Regs
      ensures MeansAt(env, s, code + tail, here + {|code|}, VNonReloc(reg), reg, false, t, f, regs)
    {
      assert MeansAt(env, s, code, here, VNonReloc(reg), reg, false, t, f, regs);
      LoadAfterValueAt(env, s, code, here, reg, t, f, tail, regs);
    }
  }

  lemma PatchList(s: Sub, code: seq<Instr>, here: set<nat>, reg: Reg, t: set<nat>, f: set<nat>, c: bool,
      list: set<nat>, t': set<nat>, f': set<nat>, d: int)
    requires Good(s, code, here, VNonReloc(reg), reg, false, t, f) && reg != NO_REG
    requires if c then list == t && t' == {} && f' == f else list == f && t' == t && f' == {}
    requires (forall j <- list :: HasValue(code, j)) || (LoadsAt(code, d, reg, c) && Entry(code, d) && forall j <- list :: j < d)
    ensures Good(s, Patched(code, list, |code|, reg, d), here, VNonReloc(reg), reg, false, t', f')
  {
    LaidPatch(s, code, here, t, f, list, reg, d, t', f');
    forall env: Env, regs: Regs
      ensures MeansAt(env, s, Patched(code, list, |code|, reg, d), here, VNonReloc(reg), reg, false, t', f', regs)
    {
      assert MeansAt(env, s, code, here, VNonReloc(reg), reg, false, t, f, regs);
      PatchListAt(env, s, code, here, reg, t, f, c, list, t', f', d, regs);
    }
  }
}
