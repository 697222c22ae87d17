/** Jump lists as the generator stores them, threaded through the jumps' own offsets. */
module JumpChains {
  import opened LuaMachine
  import opened JumpLists

  predicate Linked(code: seq<Instr>, ns: seq<nat>, i: nat)
    requires i < |ns|
  {
    ns[i] < |code| && code[ns[i]] == Jmp(if i + 1 < |ns| then ns[i + 1] - (ns[i] + 1) else NO_JUMP)
  }

  predicate Chain(code: seq<Instr>, l: int, ns: seq<nat>) {
    && l == (if ns == [] then NO_JUMP else ns[0])
    && (forall i :: 0 <= i < |ns| ==> Linked(code, ns, i))
    && (forall i, j :: 0 <= i < j < |ns| ==> ns[i] != ns[j])
  }

  lemma ChainKept(code: seq<Instr>, code': seq<Instr>, l: int, ns: seq<nat>)
    requires Chain(code, l, ns) && |code| <= |code'|
    requires forall j <- Nodes(ns) :: j < |code| ==> code'[j] == code[j]
    ensures Chain(code', l, ns)
  {
    forall i | 0 <= i < |ns| ensures Linked(code', ns, i) {
      assert Linked(code, ns, i);
      assert ns[i] in Nodes(ns);
    }
  }

  lemma ChainNodes(code: seq<Instr>, l: int, ns: seq<nat>)
    requires Chain(code, l, ns)
    ensures forall j <- Nodes(ns) :: j < |code| && code[j].Jmp?
    ensures l == NO_JUMP <==> Nodes(ns) == {}
    ensures Nodes(ns) == {} <==> ns == []
  {
    forall j <- Nodes(ns) ensures j < |code| && code[j].Jmp? {
      var i :| 0 <= i < |ns| && ns[i] == j;
      assert Linked(code, ns, i);
    }
    if ns != [] { assert ns[0] in Nodes(ns); }
  }

  lemma NodesOfOne(j: nat)
    ensures Nodes([j]) == {j}
  {
    assert [j][0] == j;
  }

  lemma NodesOfSum(ns: seq<nat>, ms: seq<nat>)
    ensures Nodes(ns + ms) == Nodes(ns) + Nodes(ms)
  {
    forall j | j in Nodes(ns) + Nodes(ms) ensures j in Nodes(ns + ms) {
      if j in Nodes(ns) { var i :| 0 <= i < |ns| && ns[i] == j; assert (ns + ms)[i] == j; }
      else { var i :| 0 <= i < |ms| && ms[i] == j; assert (ns + ms)[|ns| + i] == j; }
    }
  }

  lemma LastOrNext(code: seq<Instr>, l: int, ns: seq<nat>, k: nat)
    requires Chain(code, l, ns) && k < |ns|
    ensures Linked(code, ns, k)
    ensures (if code[ns[k]].sBx == NO_JUMP then NO_JUMP else ns[k] + 1 + code[ns[k]].sBx) == if k + 1 < |ns| then ns[k + 1] else NO_JUMP
  {
    assert Linked(code, ns, k);
    assert k + 1 < |ns| ==> ns[k] != ns[k + 1];
  }

  lemma ChainAhead(code: seq<Instr>, l: int, ns: seq<nat>, k: nat, done: set<nat>)
    requires Chain(code, l, ns) && k < |ns| && done == Nodes(ns[..k])
    ensures ns[k] !in done && ns[k] < |code| && code[ns[k]].Jmp?
    ensures (if code[ns[k]].sBx == NO_JUMP then NO_JUMP else ns[k] + 1 + code[ns[k]].sBx) == if k + 1 < |ns| then ns[k + 1] else NO_JUMP
    ensures forall j <- done :: j < |code| && code[j].Jmp?
  {
    LastOrNext(code, l, ns, k);
    forall j <- done ensures j != ns[k] && j < |code| && code[j].Jmp? {
      var i :| 0 <= i < k && ns[..k][i] == j;
      assert ns[i] == j && Linked(code, ns, i);
    }
  }

  lemma PatchedOneMore(was: seq<Instr>, done: set<nat>, v: nat, reg: Reg, d: int, node: nat, code: seq<Instr>)
    requires node < |was| && was[node].Jmp? && node !in done && forall j <- done :: j < |was| && was[j].Jmp?
    requires var mid := Patched(was, done, v, reg, d);
      var tied := if HasValue(was, node) then mid[node - 1 := Tied(was[node - 1], reg)] else mid;
      code == tied[node := Jmp((if HasValue(was, node) then v else d) - (node + 1))]
    ensures code == Patched(was, done + {node}, v, reg, d)
  {
    forall i | 0 <= i < |was| ensures code[i] == Patched(was, done + {node}, v, reg, d)[i] {
      assert Patched(was, done, v, reg, d)[i] == PatchedAt(was, done, v, reg, d, i);
      assert Patched(was, done + {node}, v, reg, d)[i] == PatchedAt(was, done + {node}, v, reg, d, i);
    }
  }

  lemma UntiedOneMore(was: seq<Instr>, done: set<nat>, node: nat, code: seq<Instr>)
    requires node < |was| && was[node].Jmp? && node !in done
    requires var mid := Untied(was, done);
      code == if HasValue(was, node) then mid[node - 1 := Tied(was[node - 1], NO_REG)] else mid
    ensures code == Untied(was, done + {node})
  {
    forall i | 0 <= i < |was| ensures code[i] == Untied(was, done + {node})[i] {
      assert Untied(was, done)[i] == UntiedAt(was, done, i);
      assert Untied(was, done + {node})[i] == UntiedAt(was, done + {node}, i);
    }
  }

  lemma LastOfChain(code: seq<Instr>, l: int, ns: seq<nat>, k: nat)
    requires Chain(code, l, ns) && k < |ns| && ns[k] < |code|
    requires code[ns[k]] == Jmp(NO_JUMP)
    ensures k + 1 == |ns|
  {
    assert Linked(code, ns, k);
  }

  lemma Spliced(code: seq<Instr>, l1: int, n1: seq<nat>, l2: int, n2: seq<nat>, code': seq<Instr>)
    requires Chain(code, l1, n1) && Chain(code, l2, n2) && Nodes(n1) !! Nodes(n2) && n1 != [] && n2 != []
    requires var last := n1[|n1| - 1]; last < |code| && code' == code[last := Jmp(l2 - (last + 1))]
    ensures Chain(code', l1, n1 + n2)
  {
    var ns := n1 + n2;
    forall i | 0 <= i < |ns| ensures Linked(code', ns, i) {
      if i < |n1| { assert Linked(code, n1, i); }
      else { assert Linked(code, n2, i - |n1|); assert n2[i - |n1|] in Nodes(n2) && n1[|n1| - 1] in Nodes(n1); }
    }
    forall i, j | 0 <= i < j < |ns| ensures ns[i] != ns[j] {
      if i < |n1| <= j { assert n1[i] in Nodes(n1) && n2[j - |n1|] in Nodes(n2); }
    }
  }

  // The list is not touched by emitting code.
  lemma ChainEmitted(code: seq<Instr>, here: set<nat>, code': seq<Instr>, l: int, ns: seq<nat>)
    requires Chain(code, l, ns) && Nodes(ns) !! here && |code| <= |code'| && code'[..|code|] == Discharged(code, here)
    ensures Chain(code', l, ns)
  {
    ChainNodes(code, l, ns);
    forall j <- Nodes(ns) ensures code'[j] == code[j] {
      assert code'[j] == code'[..|code|][j] == PatchedAt(code, here, |code|, NO_REG, |code|, j);
    }
    ChainKept(code, code', l, ns);
  }

  lemma ChainUntied(code: seq<Instr>, list: set<nat>, l: int, ns: seq<nat>)
    requires Chain(code, l, ns)
    ensures Chain(Untied(code, list), l, ns)
  {
    ChainNodes(code, l, ns);
    forall j <- Nodes(ns) ensures Untied(code, list)[j] == code[j] {
      assert Untied(code, list)[j] == UntiedAt(code, list, j);
    }
    ChainKept(code, Untied(code, list), l, ns);
  }

  lemma UntiedTwice(code: seq<Instr>, list: set<nat>, more: set<nat>)
    ensures Untied(Untied(code, list), more) == Untied(code, more + list)
  {
    forall i | 0 <= i < |code| ensures Untied(Untied(code, list), more)[i] == Untied(code, more + list)[i] {
      assert Untied(code, list)[i] == UntiedAt(code, list, i);
      assert Untied(code, more + list)[i] == UntiedAt(code, more + list, i);
      assert Untied(Untied(code, list), more)[i] == UntiedAt(Untied(code, list), more, i);
    }
  }
}
