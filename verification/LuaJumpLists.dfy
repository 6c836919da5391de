/** Lists of unpatched jumps, threaded through the jumps' own offsets. */
module LuaJumpLists {
  import opened LuaOpcodes

  const NO_JUMP: int := -1

  ghost predicate NoDup(l: seq<nat>) {
    forall i, j :: 0 <= i < j < |l| ==> l[i] != l[j]
  }

  ghost predicate Disjoint(l: seq<nat>, m: seq<nat>) {
    forall j :: j in l ==> j !in m
  }

  ghost function Elems(l: seq<nat>): set<nat> {
    set j | j in l
  }

  /** The next jump of the list; an offset of -1, "jump to itself", ends it. */
  function GetJump(code: seq<Instr>, pc: nat): int
    requires pc < |code| && code[pc].Jmp?
  {
    if code[pc].sbx == NO_JUMP then NO_JUMP else pc + 1 + code[pc].sbx
  }

  ghost predicate AllJumps(code: seq<Instr>, l: seq<nat>) {
    forall i :: 0 <= i < |l| ==> l[i] < |code| && code[l[i]].Jmp?
  }

  function Head(l: seq<nat>, i: nat): int {
    if i < |l| then l[i] else NO_JUMP
  }

  ghost predicate Linked(code: seq<Instr>, l: seq<nat>)
    requires AllJumps(code, l)
  {
    forall i :: 0 <= i < |l| ==> GetJump(code, l[i]) == Head(l, i + 1)
  }

  /** A jump that a TESTSET controls: it delivers a value. */
  predicate Carries(code: seq<Instr>, j: nat) {
    0 < j <= |code| && code[j - 1].TestSet?
  }

  /** The TESTSETs of the list have no register yet. */
  ghost predicate Unset(code: seq<Instr>, l: seq<nat>) {
    forall j :: j in l && Carries(code, j) ==> code[j - 1].a == NO_REG
  }

  /** `head` begins the list of exactly the jumps in `l`, in that order. */
  ghost predicate IsList(code: seq<Instr>, head: int, l: seq<nat>) {
    && NoDup(l) && AllJumps(code, l) && Linked(code, l) && Unset(code, l) && head == Head(l, 0)
  }

  // ----- relinking -----

  /** Only the links of jumps in `l` differ. */
  ghost predicate Relinked(code: seq<Instr>, code': seq<Instr>, l: seq<nat>) {
    && |code'| == |code|
    && forall p :: 0 <= p < |code| ==> code'[p] == code[p] || (p in l && code[p].Jmp? && code'[p].Jmp?)
  }

  lemma RelinkedOther(code: seq<Instr>, code': seq<Instr>, l: seq<nat>, head: int, m: seq<nat>)
    requires IsList(code, head, m) && Relinked(code, code', l) && Disjoint(l, m)
    ensures IsList(code', head, m)
  {
    forall i | 0 <= i < |m| ensures m[i] < |code'| && code'[m[i]] == code[m[i]] { assert m[i] in m; }
    forall j | j in m && Carries(code', j) ensures code'[j - 1].a == NO_REG { assert Carries(code, j); }
  }

  /** Linking the last jump of one list to the first of another joins them. */
  lemma Joined(code: seq<Instr>, code': seq<Instr>, h1: int, l1: seq<nat>, h2: int, l2: seq<nat>)
    requires IsList(code, h1, l1) && IsList(code, h2, l2) && Disjoint(l1, l2) && l1 != [] && l2 != []
    requires var last := l1[|l1| - 1]; code' == code[last := Jmp(h2 - (last + 1))]
    ensures IsList(code', h1, l1 + l2) && Relinked(code, code', l1)
  {
    hide NoDup, Linked, Unset, Disjoint;
    LastIn(l1);
    NoDupJoin(l1, l2);
    LinkedJoin(code, code', l1, l2);
    UnsetJoin(code, code', l1, l2, h2 - (l1[|l1| - 1] + 1));
    FirstOf(l1, l2);
  }

  lemma FirstOf(l1: seq<nat>, l2: seq<nat>)
    requires l1 != []
    ensures Head(l1 + l2, 0) == Head(l1, 0)
  {
  }

  lemma LastIn(l: seq<nat>)
    requires l != []
    ensures l[|l| - 1] in l
  {
  }

  lemma NoDupJoin(l1: seq<nat>, l2: seq<nat>)
    requires NoDup(l1) && NoDup(l2) && Disjoint(l1, l2)
    ensures NoDup(l1 + l2)
  {
    var l := l1 + l2;
    forall i, j | 0 <= i < j < |l| ensures l[i] != l[j] {
      if i < |l1| <= j { assert l[i] in l1 && l[j] in l2; }
    }
  }

  lemma LinkedJoin(code: seq<Instr>, code': seq<Instr>, l1: seq<nat>, l2: seq<nat>)
    requires AllJumps(code, l1) && Linked(code, l1) && AllJumps(code, l2) && Linked(code, l2) && NoDup(l1) && Disjoint(l1, l2)
    requires l1 != [] && l2 != []
    requires var last := l1[|l1| - 1]; code' == code[last := Jmp(Head(l2, 0) - (last + 1))]
    ensures AllJumps(code', l1 + l2) && Linked(code', l1 + l2)
  {
    var l, last := l1 + l2, l1[|l1| - 1];
    assert l2[0] != last by { assert last in l1 && l2[0] in l2; }
    forall i | 0 <= i < |l| ensures l[i] < |code'| && code'[l[i]].Jmp? && GetJump(code', l[i]) == Head(l, i + 1) {
      if i < |l1| - 1 {
        assert l[i] == l1[i] != last;
      } else if i >= |l1| {
        assert l[i] == l2[i - |l1|] && l[i] in l2 && last in l1;
      }
    }
  }

  lemma UnsetJoin(code: seq<Instr>, code': seq<Instr>, l1: seq<nat>, l2: seq<nat>, sbx: int)
    requires Unset(code, l1) && Unset(code, l2) && l1 != [] && l1[|l1| - 1] < |code|
    requires code' == code[l1[|l1| - 1] := Jmp(sbx)]
    ensures Unset(code', l1 + l2)
  {
    forall j | j in l1 + l2 && Carries(code', j) ensures code'[j - 1].a == NO_REG {
      assert Carries(code, j) && (j in l1 || j in l2);
    }
  }

  // ----- patching -----

  function PatchReg(i: Instr, reg: nat): Instr
    requires i.TestSet?
  {
    if reg != NO_REG && reg != i.b then TestSet(reg, i.b, i.c) else Test(i.b, i.c)
  }

  /** Position `p` once the jumps in `l` are sent to `vtarget` (those that deliver a
      value, into `reg`) or to `dtarget` (the others). */
  function PatchAt(code: seq<Instr>, l: seq<nat>, vtarget: nat, reg: nat, dtarget: int, p: nat): Instr
    requires p < |code|
  {
    if p in l then Jmp((if Carries(code, p) then vtarget else dtarget) - (p + 1))
    else if p + 1 in l && code[p].TestSet? then PatchReg(code[p], reg)
    else code[p]
  }

  ghost predicate Patched(code: seq<Instr>, code': seq<Instr>, l: seq<nat>, vtarget: nat, reg: nat, dtarget: int) {
    && |code'| == |code|
    && forall p :: 0 <= p < |code| ==> code'[p] == PatchAt(code, l, vtarget, reg, dtarget, p)
  }

  /** Patching one more jump. */
  lemma PatchedMore(code: seq<Instr>, c: seq<Instr>, l: seq<nat>, k: nat, vtarget: nat, reg: nat, dtarget: int, c': seq<Instr>)
    requires k < |l| && NoDup(l) && AllJumps(code, l) && Patched(code, c, l[..k], vtarget, reg, dtarget)
    requires |c'| == |c|
    requires c'[l[k]] == Jmp((if Carries(code, l[k]) then vtarget else dtarget) - (l[k] + 1))
    requires Carries(code, l[k]) ==> c'[l[k] - 1] == PatchReg(code[l[k] - 1], reg)
    requires forall p :: 0 <= p < |c| && p != l[k] && !(Carries(code, l[k]) && p == l[k] - 1) ==> c'[p] == c[p]
    ensures Patched(code, c', l[..k + 1], vtarget, reg, dtarget)
  {
    assert l[..k + 1] == l[..k] + [l[k]];
    forall p | 0 <= p < |code| ensures c'[p] == PatchAt(code, l[..k + 1], vtarget, reg, dtarget, p) {
      assert p in l[..k + 1] <==> p in l[..k] || p == l[k];
      assert p + 1 in l[..k + 1] <==> p + 1 in l[..k] || p + 1 == l[k];
      assert l[k] !in l[..k];
      if p in l[..k] {
        var i :| 0 <= i < k && l[i] == p;
        assert code[l[i]].Jmp?;
      }
    }
  }

  /** What is not yet patched is untouched. */
  lemma PatchedRest(code: seq<Instr>, c: seq<Instr>, l: seq<nat>, k: nat, vtarget: nat, reg: nat, dtarget: int)
    requires k < |l| && NoDup(l) && AllJumps(code, l) && Linked(code, l) && Patched(code, c, l[..k], vtarget, reg, dtarget)
    ensures l[k] < |c| == |code| && c[l[k]].Jmp? && c[l[k]] == code[l[k]] && GetJump(c, l[k]) == Head(l, k + 1)
    ensures Carries(c, l[k]) <==> Carries(code, l[k])
    ensures Carries(code, l[k]) ==> c[l[k] - 1] == code[l[k] - 1]
  {
    assert l[k] !in l[..k];
    assert l[k] in l;
    if l[k] > 0 && l[k] - 1 in l[..k] {
      var i :| 0 <= i < k && l[i] == l[k] - 1;
      assert code[l[i]].Jmp?;
    }
  }

  /** Patching one list leaves a disjoint one alone. */
  lemma PatchedOther(code: seq<Instr>, code': seq<Instr>, l: seq<nat>, vtarget: nat, reg: nat, dtarget: int, head: int, m: seq<nat>)
    requires AllJumps(code, l) && Patched(code, code', l, vtarget, reg, dtarget) && IsList(code, head, m) && Disjoint(l, m)
    ensures IsList(code', head, m)
    ensures forall j :: j in m ==> j < |code'| && code'[j] == code[j] && (Carries(code', j) <==> Carries(code, j))
  {
    forall j | j in m ensures j < |code'| && code'[j] == code[j] && (Carries(code', j) <==> Carries(code, j)) && (j > 0 ==> code'[j - 1] == code[j - 1] || code[j - 1].Jmp?) {
      var i :| 0 <= i < |m| && m[i] == j;
      if j > 0 && j - 1 in l {
        var i :| 0 <= i < |l| && l[i] == j - 1;
        assert code[l[i]].Jmp?;
      }
    }
    forall i | 0 <= i < |m| ensures m[i] in m {}
  }
}
