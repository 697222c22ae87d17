/**
 What the code generator's edits do to the meaning of unfinished code: appending to it,
 patching a list of jumps, turning the tests of a list into ones that keep no value.
 */
module JumpLists {
  import opened LuaMachine

  function Nodes(list: seq<nat>): (r: set<nat>)
    ensures list == [] ==> r == {}
  {
    set j <- list
  }

  // Address 'pc' cannot be the jump of a test.
  predicate Entry(code: seq<Instr>, pc: nat) { 0 < pc <= |code| ==> !code[pc - 1].IsTest() }

  // Instruction i is well placed: tests are followed by their jump, a TESTSET lacks its
  // register exactly while that jump is pending, and settled jumps go forward.
  predicate Sound(code: seq<Instr>, open: set<nat>, here: set<nat>, i: nat)
    requires i < |code|
  {
    match code[i]
    case Jmp(d) => i in open + here || (0 <= d && i + 1 + d <= |code| && Entry(code, i + 1 + d))
    case LoadBool(_, _, true) => i + 1 < |code| && code[i + 1].LoadBool?
    case TestSet(a, _, _) => i + 1 < |code| && code[i + 1].Jmp? && (a == NO_REG <==> i + 1 in open + here)
    case Compare(_, _, _, _) => i + 1 < |code| && code[i + 1].Jmp?
    case Test(_, _) => i + 1 < |code| && code[i + 1].Jmp?
    case _ => true
  }

  predicate WellFormed(code: seq<Instr>, start: nat, open: set<nat>, here: set<nat>) {
    && open !! here
    && (forall j <- open :: start <= j < |code| && code[j].Jmp?)
    && (forall i :: start <= i < |code| ==> Sound(code, open, here, i))
  }

  // The jumps to the next instruction; some may come from code before `start`.
  predicate Waiting(code: seq<Instr>, here: set<nat>) {
    forall j <- here :: j < |code| && code[j].Jmp? && (j > 0 && code[j - 1].TestSet? ==> code[j - 1].a == NO_REG)
  }

  // The test of a jump that gets register `reg`, or none.
  function Tied(i: Instr, reg: Reg): Instr
    requires i.TestSet?
  {
    if reg != NO_REG && reg != i.b then TestSet(reg, i.b, i.c) else Test(i.b, i.c)
  }

  predicate HasValue(code: seq<Instr>, j: nat)
    requires j < |code|
  {
    j > 0 && code[j - 1].TestSet?
  }

  function PatchedAt(code: seq<Instr>, list: set<nat>, vtarget: int, reg: Reg, dtarget: int, i: nat): Instr
    requires i < |code|
  {
    if i in list then Jmp((if HasValue(code, i) then vtarget else dtarget) - (i + 1))
    else if i + 1 in list && code[i].TestSet? then Tied(code[i], reg)
    else code[i]
  }

  // Every jump of the list patched: those that carry a value go to vtarget, the others to dtarget.
  function Patched(code: seq<Instr>, list: set<nat>, vtarget: int, reg: Reg, dtarget: int): (r: seq<Instr>)
    ensures |r| == |code|
  {
    seq(|code|, i requires 0 <= i < |code| => PatchedAt(code, list, vtarget, reg, dtarget, i))
  }

  function Discharged(code: seq<Instr>, here: set<nat>): (r: seq<Instr>)
    ensures |r| == |code|
  {
    Patched(code, here, |code|, NO_REG, |code|)
  }

  // The tests of a list stop keeping their value.
  function UntiedAt(code: seq<Instr>, list: set<nat>, i: nat): Instr
    requires i < |code|
  {
    if i + 1 in list && code[i].TestSet? then Tied(code[i], NO_REG) else code[i]
  }

  function Untied(code: seq<Instr>, list: set<nat>): (r: seq<Instr>)
    ensures |r| == |code|
  {
    seq(|code|, i requires 0 <= i < |code| => UntiedAt(code, list, i))
  }

  // Emitting code resolves the jumps that wait for it and changes nothing else.
  lemma {:induction false} Append(env: Env, code: seq<Instr>, open: set<nat>, here: set<nat>,
      code': seq<Instr>, open': set<nat>, here': set<nat>, pc: nat, regs: Regs)
    requires |code| <= |code'| && code'[..|code|] == Discharged(code, here)
    requires open !! here && Waiting(code, here)
    requires forall j: nat :: j < |code| ==> (j in open' <==> j in open) && j !in here'
    ensures var x := Exec(env, code, open, here, pc, regs);
      Exec(env, code', open', here', pc, regs) ==
        if x.Out? then Exec(env, code', open', here', x.pc, x.regs) else x
    decreases |code| - pc
  {
    if pc < |code| {
      assert code'[pc] == code'[..|code|][pc] == PatchedAt(code, here, |code|, NO_REG, |code|, pc);
      var i := code[pc];
      if i.Jmp? {
        if pc !in open && pc !in here && i.sBx >= 0 {
          Append(env, code, open, here, code', open', here', pc + 1 + i.sBx, regs);
        }
      } else {
        Append(env, code, open, here, code', open', here',
          pc + (if Skips(env, i, regs) then 2 else 1), Settle(env, i, regs));
      }
    }
  }

  // Running from `pc` on, only what lies there matters.
  lemma {:induction false} Behind(env: Env, code: seq<Instr>, open: set<nat>, here: set<nat>,
      open': set<nat>, here': set<nat>, pc: nat, regs: Regs)
    requires forall j: nat :: pc <= j < |code| ==> (j in open <==> j in open') && (j in here <==> j in here')
    ensures Exec(env, code, open, here, pc, regs) == Exec(env, code, open', here', pc, regs)
    decreases |code| - pc
  {
    if pc < |code| {
      var i := code[pc];
      if i.Jmp? {
        if pc !in open && pc !in here && i.sBx >= 0 {
          Behind(env, code, open, here, open', here', pc + 1 + i.sBx, regs);
        }
      } else {
        Behind(env, code, open, here, open', here', pc + (if Skips(env, i, regs) then 2 else 1), Settle(env, i, regs));
      }
    }
  }

  // Jumps of a list told to go to the next instruction.
  lemma {:induction false} ToHere(env: Env, code: seq<Instr>, open: set<nat>, here: set<nat>, list: set<nat>,
      pc: nat, regs: Regs)
    requires open !! here && list <= open
    ensures var x := Exec(env, code, open, here, pc, regs);
      Exec(env, code, open - list, here + list, pc, regs) == if x.Hole? && x.j in list then Out(|code|, x.regs) else x
    decreases |code| - pc
  {
    if pc < |code| {
      var i := code[pc];
      if i.Jmp? {
        if pc !in open && pc !in here && i.sBx >= 0 {
          ToHere(env, code, open, here, list, pc + 1 + i.sBx, regs);
        }
      } else {
        ToHere(env, code, open, here, list, pc + (if Skips(env, i, regs) then 2 else 1), Settle(env, i, regs));
      }
    }
  }

  // Codes that differ only in where pending jumps link to.
  predicate SameBut(code: seq<Instr>, code': seq<Instr>, holes: set<nat>) {
    |code| == |code'|
    && forall i :: 0 <= i < |code| ==> code[i] == code'[i] || (i in holes && code[i].Jmp? && code'[i].Jmp?)
  }

  lemma {:induction false} Links(env: Env, code: seq<Instr>, code': seq<Instr>, open: set<nat>, here: set<nat>,
      pc: nat, regs: Regs)
    requires SameBut(code, code', open + here)
    ensures Exec(env, code', open, here, pc, regs) == Exec(env, code, open, here, pc, regs)
    decreases |code| - pc
  {
    if pc < |code| {
      var i := code[pc];
      if i.Jmp? {
        if pc !in open && pc !in here && i.sBx >= 0 {
          Links(env, code, code', open, here, pc + 1 + i.sBx, regs);
        }
      } else {
        Links(env, code, code', open, here, pc + (if Skips(env, i, regs) then 2 else 1), Settle(env, i, regs));
      }
    }
  }

  lemma {:induction false} Untie(env: Env, code: seq<Instr>, start: nat, open: set<nat>, here: set<nat>, list: set<nat>,
      pc: nat, regs: Regs)
    requires WellFormed(code, start, open, here) && list <= open && start <= pc
    ensures Exec(env, Untied(code, list), open, here, pc, regs) == Exec(env, code, open, here, pc, regs)
    decreases |code| - pc
  {
    if pc < |code| {
      assert Sound(code, open, here, pc);
      var i := code[pc];
      assert Untied(code, list)[pc] == UntiedAt(code, list, pc);
      if i.Jmp? {
        if pc !in open && pc !in here && i.sBx >= 0 {
          Untie(env, code, start, open, here, list, pc + 1 + i.sBx, regs);
        }
      } else {
        Untie(env, code, start, open, here, list, pc + (if Skips(env, i, regs) then 2 else 1), Settle(env, i, regs));
      }
    }
  }

  // What a patched jump does: it carries its value into `reg`, or goes to the default target.
  function Onward(env: Env, code: seq<Instr>, code': seq<Instr>, open: set<nat>, here: set<nat>, list: set<nat>,
      vtarget: nat, reg: Reg, dtarget: nat, x: Exit): Exit
  {
    if x.Hole? && x.j in list && x.j < |code| then
      if HasValue(code, x.j) then
        Exec(env, code', open - list, here, vtarget, x.regs[reg := x.regs[code[x.j - 1].b]])
      else Exec(env, code', open - list, here, dtarget, x.regs)
    else x
  }

  predicate Patchable(code: seq<Instr>, start: nat, open: set<nat>, here: set<nat>, list: set<nat>,
      vtarget: nat, reg: Reg, dtarget: int)
  {
    && WellFormed(code, start, open, here) && list <= open && reg != NO_REG
    && forall j <- list :: j < vtarget && (!HasValue(code, j) ==> j < dtarget)
  }

  function At(dtarget: int): nat { if dtarget < 0 then 0 else dtarget }

  // A test that goes on to its patched jump.
  lemma PatchHole(env: Env, code: seq<Instr>, start: nat, open: set<nat>, here: set<nat>, list: set<nat>,
      vtarget: nat, reg: Reg, dtarget: int, pc: nat, regs: Regs)
    requires Patchable(code, start, open, here, list, vtarget, reg, dtarget)
    requires start <= pc && pc + 1 < |code| && code[pc].IsTest() && pc + 1 in list && !Skips(env, code[pc], regs)
    ensures var code' := Patched(code, list, vtarget, reg, dtarget);
      Exec(env, code', open - list, here, pc, regs) ==
        if code[pc].TestSet? then Exec(env, code', open - list, here, vtarget, regs[reg := regs[code[pc].b]])
        else Exec(env, code', open - list, here, At(dtarget), regs)
  {
    var code' := Patched(code, list, vtarget, reg, dtarget);
    var i := code[pc];
    assert Sound(code, open, here, pc);
    assert code'[pc] == PatchedAt(code, list, vtarget, reg, dtarget, pc);
    assert code'[pc + 1] == PatchedAt(code, list, vtarget, reg, dtarget, pc + 1);
    assert i.TestSet? && reg == i.b ==> regs == regs[reg := regs[i.b]];
    assert !Skips(env, code'[pc], regs);
    assert Exec(env, code', open - list, here, pc, regs)
        == Exec(env, code', open - list, here, pc + 1, Settle(env, code'[pc], regs));
  }

  lemma {:induction false} Patch(env: Env, code: seq<Instr>, start: nat, open: set<nat>, here: set<nat>, list: set<nat>,
      vtarget: nat, reg: Reg, dtarget: int, pc: nat, regs: Regs)
    requires Patchable(code, start, open, here, list, vtarget, reg, dtarget)
    requires start <= pc && (pc in list ==> Entry(code, pc))
    ensures var code' := Patched(code, list, vtarget, reg, dtarget);
      Exec(env, code', open - list, here, pc, regs) ==
      Onward(env, code, code', open, here, list, vtarget, reg, At(dtarget), Exec(env, code, open, here, pc, regs))
    decreases |code| - pc
  {
    if pc < |code| {
      var i := code[pc];
      assert Sound(code, open, here, pc);
      if i.IsTest() && pc + 1 in list && !Skips(env, i, regs) {
        PatchHole(env, code, start, open, here, list, vtarget, reg, dtarget, pc, regs);
      } else {
        var code' := Patched(code, list, vtarget, reg, dtarget);
        assert code'[pc] == PatchedAt(code, list, vtarget, reg, dtarget, pc);
        if i.Jmp? {
          if pc !in open && pc !in here {
            Patch(env, code, start, open, here, list, vtarget, reg, dtarget, pc + 1 + i.sBx, regs);
          }
        } else {
          var next := pc + if Skips(env, i, regs) then 2 else 1;
          assert next in list ==> Entry(code, next);
          Patch(env, code, start, open, here, list, vtarget, reg, dtarget, next, Settle(env, i, regs));
        }
      }
    }
  }
}
