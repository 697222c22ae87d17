/**
 Each edit of the code generator keeps the code well formed: tests stay in front of their
 jumps, a TESTSET lacks its register exactly while its jump is pending, settled jumps go
 forward to where an instruction starts, and the jumps of the true list, of the false list
 and to the next instruction are kept apart.  There is one lemma for each kind of edit:
 emitting, joining two operands, relinking or exchanging the lists, closing a list to the
 next instruction, and patching a list to its loads.
 */
module CodeLayout {
  import opened LuaMachine
  import opened JumpLists
  import opened ShortCircuit

  lemma EndIsEntry(body: seq<Instr>, start: nat, open: set<nat>, here: set<nat>)
    requires WellFormed(body, start, open, here) && Entry(body, start) && start <= |body|
    ensures Entry(body, |body|)
  {
    if start < |body| { assert Sound(body, open, here, |body| - 1); }
  }

  lemma LaidDischarged(s: Sub, body: seq<Instr>, here: set<nat>, t: set<nat>, f: set<nat>)
    requires Laid(s, body, here, t, f) && Entry(body, |s.code|)
    ensures WellFormed(Discharged(body, here), |s.code|, t + f, {})
    ensures Entry(Discharged(body, here), |s.code|)
    ensures Discharged(body, here)[..|s.code|] == Discharged(s.code, s.here)
  {
    var d := Discharged(body, here);
    EndIsEntry(body, |s.code|, t + f, here);
    forall i | 0 <= i < |d| ensures d[i] == PatchedAt(body, here, |body|, NO_REG, |body|, i) {}
    forall i | |s.code| <= i < |d| ensures Sound(d, t + f, {}, i) {
      assert Sound(body, t + f, here, i);
    }
    if body != s.code || here != s.here {
      forall i | 0 <= i < |s.code| ensures d[i] == Discharged(s.code, s.here)[i] {
        assert body[i] == body[..|s.code|][i];
      }
    }
  }

  lemma SoundBefore(code: seq<Instr>, open: set<nat>, here: set<nat>, code': seq<Instr>, open': set<nat>, here': set<nat>, i: nat)
    requires i < |code| <= |code'| && code'[..|code|] == code && Sound(code, open, here, i)
    requires forall j: nat :: j < |code| ==> (j in open <==> j in open') && (j in here <==> j in here')
    ensures Sound(code', open', here', i)
  {
    assert code'[i] == code[i];
    if i + 1 < |code| { assert code'[i + 1] == code[i + 1]; }
    if code[i].Jmp? && i !in open && i !in here {
      var p := i + 1 + code[i].sBx;
      assert code'[p - 1] == code[p - 1];
    }
  }

  // Code that follows, its jumps pending.
  lemma LaidMore(s: Sub, body: seq<Instr>, here: set<nat>, t: set<nat>, f: set<nat>, more: seq<Instr>, t': set<nat>, f': set<nat>)
    requires Laid(s, body, here, t, f) && t' !! f'
    requires forall j: nat :: j < |body| ==> (j in t + f <==> j in t' + f')
    requires forall j <- t' + f' :: j < |body| || (j < |body| + |more| && more[j - |body|].Jmp?)
    requires forall i :: |body| <= i < |body| + |more| ==> Sound(Discharged(body, here) + more, t' + f', {}, i)
    ensures Laid(s, Discharged(body, here) + more, {}, t', f')
  {
    LaidDischarged(s, body, here, t, f);
    var d := Discharged(body, here);
    var code' := d + more;
    assert code'[..|body|] == d;
    forall i | |s.code| <= i < |code'| ensures Sound(code', t' + f', {}, i) {
      if i < |body| { SoundBefore(d, t + f, {}, code', t' + f', {}, i); }
    }
    forall j <- t' + f' ensures |s.code| <= j < |code'| && code'[j].Jmp? {
      if j < |body| { assert j in t + f; assert code'[j] == d[j]; }
    }
    assert code'[..|s.code|] == d[..|s.code|];
  }

  lemma LaidEmit(s: Sub, body: seq<Instr>, here: set<nat>, t: set<nat>, f: set<nat>, i: Instr)
    requires Laid(s, body, here, t, f) && !i.IsTest() && !i.Jmp? && (i.LoadBool? ==> !i.skip)
    ensures Laid(s, Discharged(body, here) + [i], {}, t, f)
    ensures Laid(s, Discharged(body, here), {}, t, f)
  {
    LaidMore(s, body, here, t, f, [i], t, f);
    LaidMore(s, body, here, t, f, [], t, f);
    assert Discharged(body, here) + [] == Discharged(body, here);
  }

  lemma LaidTest(s: Sub, body: seq<Instr>, here: set<nat>, t: set<nat>, f: set<nat>, i: Instr, t': set<nat>, f': set<nat>)
    requires Laid(s, body, here, t, f) && i.IsTest() && (i.TestSet? ==> i.a == NO_REG)
    requires var j := |body| + 1; (t' == t && f' == f + {j}) || (t' == t + {j} && f' == f)
    ensures Laid(s, Discharged(body, here) + [i, Jmp(NO_JUMP)], {}, t', f')
  {
    LaidMore(s, body, here, t, f, [i, Jmp(NO_JUMP)], t', f');
  }

  lemma LaidUntied(s: Sub, body: seq<Instr>, here: set<nat>, t: set<nat>, f: set<nat>)
    requires Laid(s, body, here, t, f)
    ensures Laid(s, Untied(body, t + f), here, f, t)
  {
    var code' := Untied(body, t + f);
    forall i | 0 <= i < |body| ensures code'[i] == UntiedAt(body, t + f, i) && (code'[i].IsTest() == body[i].IsTest()) {}
    forall i | |s.code| <= i < |body| ensures Sound(code', f + t, here, i) {
      assert Sound(body, t + f, here, i);
    }
    forall i | 0 <= i < |s.code| ensures code'[i] == body[i] {
      if i + 1 in t + f { assert i + 1 == |s.code|; }
    }
    if body == s.code { assert t + f == {}; assert code' == body; }
    else { assert code'[..|s.code|] == body[..|s.code|]; }
  }

  lemma LaidLinks(s: Sub, body: seq<Instr>, here: set<nat>, t: set<nat>, f: set<nat>, code': seq<Instr>)
    requires Laid(s, body, here, t, f) && SameBut(body, code', t + f + here)
    requires forall i :: 0 <= i < |s.code| ==> code'[i] == body[i]
    ensures Laid(s, code', here, t, f)
  {
    forall i | |s.code| <= i < |body| ensures Sound(code', t + f, here, i) {
      assert Sound(body, t + f, here, i);
    }
    assert code'[..|s.code|] == body[..|s.code|];
    if body == s.code { assert code' == body; }
  }

  lemma LaidClose(s: Sub, body: seq<Instr>, here: set<nat>, t: set<nat>, f: set<nat>, c: bool)
    requires Laid(s, body, here, t, f)
    ensures Laid(s, body, here + (if c then t else f), if c then {} else t, if c then f else {})
  {
    var list := if c then t else f;
    var open' := (if c then {} else t) + (if c then f else {});
    assert open' + (here + list) == t + f + here;
    forall i | |s.code| <= i < |body| ensures Sound(body, open', here + list, i) {
      assert Sound(body, t + f, here, i);
    }
    forall j <- list ensures j > 0 && body[j - 1].TestSet? ==> body[j - 1].a == NO_REG {
      if j > |s.code| { assert Sound(body, t + f, here, j - 1); }
    }
    if body == s.code { assert list == {}; assert here + list == here; }
  }

  // A list patched: valued jumps to the end, the others to a load.
  lemma LaidPatch(s: Sub, body: seq<Instr>, here: set<nat>, t: set<nat>, f: set<nat>, list: set<nat>, reg: Reg, d: int,
      t': set<nat>, f': set<nat>)
    requires Laid(s, body, here, t, f) && reg != NO_REG
    requires (list == t && t' == {} && f' == f) || (list == f && t' == t && f' == {})
    requires forall j <- list :: !HasValue(body, j) ==> j < d < |body| && Entry(body, d)
    ensures Laid(s, Patched(body, list, |body|, reg, d), here, t', f')
  {
    var code' := Patched(body, list, |body|, reg, d);
    EndIsEntry(body, |s.code|, t + f, here);
    forall i | |s.code| <= i < |body| ensures Sound(code', t' + f', here, i) {
      PatchedSound(body, |s.code|, t + f, here, list, reg, d, t' + f', i);
    }
    forall i | 0 <= i < |s.code| ensures code'[i] == body[i] {
      assert code'[i] == PatchedAt(body, list, |body|, reg, d, i);
      if i + 1 in list { assert i + 1 == |s.code|; }
    }
    assert code'[..|s.code|] == body[..|s.code|];
    if body == s.code { assert list == {}; assert code' == body; }
    forall j <- here ensures code'[j].Jmp? && (j > 0 && code'[j - 1].TestSet? ==> code'[j - 1].a == NO_REG) {
      assert code'[j] == PatchedAt(body, list, |body|, reg, d, j);
      if j > 0 { assert code'[j - 1] == PatchedAt(body, list, |body|, reg, d, j - 1); }
    }
    forall j <- t' + f' ensures code'[j].Jmp? {
      assert code'[j] == PatchedAt(body, list, |body|, reg, d, j);
    }
  }

  lemma PatchedSound(body: seq<Instr>, start: nat, open: set<nat>, here: set<nat>, list: set<nat>, reg: Reg, d: int,
      open': set<nat>, i: nat)
    requires WellFormed(body, start, open, here) && start <= i < |body| && reg != NO_REG
    requires list <= open && open' == open - list && Entry(body, |body|) && Entry(body, start)
    requires forall j <- list :: !HasValue(body, j) ==> j < d < |body| && Entry(body, d)
    ensures Sound(Patched(body, list, |body|, reg, d), open', here, i)
  {
    var code' := Patched(body, list, |body|, reg, d);
    assert Sound(body, open, here, i);
    assert code'[i] == PatchedAt(body, list, |body|, reg, d, i);
    if i + 1 < |body| { assert code'[i + 1] == PatchedAt(body, list, |body|, reg, d, i + 1); }
  }

  // Two pieces of code, one after the other.
  lemma LaidJoin(s1: Sub, code1: seq<Instr>, here1: set<nat>, t1: set<nat>, f1: set<nat>,
      s2: Sub, body2: seq<Instr>, here2: set<nat>, t2: set<nat>, f2: set<nat>)
    requires Laid(s1, code1, here1, t1, f1) && Laid(s2, body2, here2, t2, f2)
    requires s2.code == code1 && s2.here == here1
    ensures Laid(s1, body2, here2, t2 + t1, f2 + f1)
  {
    var open := (t2 + t1) + (f2 + f1);
    if body2 == code1 && here2 == here1 {
      assert t2 + t1 == t1 && f2 + f1 == f1;
    } else {
      LaidDischarged(s1, code1, here1, t1, f1);
      var d := Discharged(code1, here1);
      forall i | |s1.code| <= i < |body2| ensures Sound(body2, open, here2, i) {
        if i < |code1| { SoundBefore(d, t1 + f1, {}, body2, open, here2, i); }
        else { SoundAfter(body2, t2 + f2, here2, open, |code1|, i); }
      }
      forall j <- open ensures |s1.code| <= j < |body2| && body2[j].Jmp? {
        if j in t1 + f1 { assert body2[j] == d[j]; }
      }
      assert body2[..|s1.code|] == d[..|s1.code|];
      forall i, j | i in t2 + f2 && j in t1 + f1 ensures i != j {}
    }
  }

  lemma SoundAfter(code: seq<Instr>, open: set<nat>, here: set<nat>, open': set<nat>, start: nat, i: nat)
    requires start <= i < |code| && Sound(code, open, here, i)
    requires forall j: nat :: start <= j ==> (j in open <==> j in open')
    ensures Sound(code, open', here, i)
  {
  }

  // The pair of loads, jumped over by the code before them.
  lemma LaidHold(s: Sub, body: seq<Instr>, here: set<nat>, t: set<nat>, f: set<nat>, tail: seq<Instr>)
    requires Laid(s, body, here, t, f) && |s.code| < |body|
    requires |tail| == 3 && tail[0].Jmp? && tail[1].LoadBool? && tail[2].LoadBool? && !tail[2].skip
    ensures Laid(s, body + tail, here + {|body|}, t, f)
  {
    var code', here' := body + tail, here + {|body|};
    EndIsEntry(body, |s.code|, t + f, here);
    assert code'[..|body|] == body;
    forall i | |s.code| <= i < |code'| ensures Sound(code', t + f, here', i) {
      if i < |body| {
        assert Sound(body, t + f, here, i);
        SoundBefore(body, t + f, here, code', t + f, here', i);
      }
    }
    forall j <- t + f ensures code'[j].Jmp? { assert code'[j] == body[j]; }
    assert code'[..|s.code|] == body[..|s.code|];
    forall j <- here' ensures code'[j].Jmp? && (j > 0 && code'[j - 1].TestSet? ==> code'[j - 1].a == NO_REG) {
      if j < |body| { assert code'[j] == body[j] && (j > 0 ==> code'[j - 1] == body[j - 1]); }
    }
  }
}
