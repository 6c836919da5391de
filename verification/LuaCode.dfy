/** The code generator for conditional expressions. */
module LuaCode {
  import opened LuaOpcodes
  import opened LuaJumpLists
  import opened LuaFragments
  import opened LuaCodeLaws
  import opened LuaFrames

  /** Constants with an index above this do not fit an operand. */
  const MAXINDEXRK: nat := 255

  class FuncState {
    var code: seq<Instr>      // f->code up to pc
    var k: seq<Val>           // constants
    var jpc: int              // jumps waiting for the next instruction
    var lasttarget: nat       // the last position marked as a jump target
    var freereg: nat          // first free register
    const nactvar: nat        // registers that hold local variables
    ghost const order: Order
    ghost var entry: Entry    // how the code of the current expression begins

    ghost function M(): Machine
      reads this`k
    {
      Machine(k, order)
    }

    // ----- lists of jumps -----

    /** fixjump */
    method FixJump(pc: nat, dest: int)
      requires pc < |code| && dest != NO_JUMP
      modifies this`code
      ensures code == old(code)[pc := Jmp(dest - (pc + 1))]
    {
      code := code[pc := Jmp(dest - (pc + 1))];
    }

    /** luaK_concat */
    method Concat(l1: int, l2: int, ghost L1: seq<nat>, ghost L2: seq<nat>) returns (l: int)
      requires IsList(code, l1, L1) && IsList(code, l2, L2) && Disjoint(L1, L2)
      modifies this`code
      ensures IsList(code, l, L1 + L2) && Relinked(old(code), code, L1)
      ensures L1 == [] || L2 == [] ==> code == old(code)
    {
      ghost var c := code;
      if l2 == NO_JUMP {
        assert L1 + L2 == L1;
        return l1;
      } else if l1 == NO_JUMP {
        assert L1 + L2 == L2;
        return l2;
      }
      var list: nat := l1;
      ghost var i := 0;
      while GetJump(code, list) != NO_JUMP
        invariant code == c && 0 <= i < |L1| && list == L1[i]
        decreases |L1| - i
      {
        list := GetJump(code, list);
        i := i + 1;
      }
      LastOf(code, l1, L1, i);
      FixJump(list, l2);
      Joined(c, code, l1, L1, l2, L2);
      l := l1;
    }

    /** patchtestreg: gives the TESTSET that controls `node` its register, or turns it
        into a TEST; false when there is none. */
    method PatchTestReg(node: nat, reg: nat) returns (b: bool)
      requires node < |code| && code[node].Jmp?
      modifies this`code
      ensures b == Carries(old(code), node)
      ensures code == if b then old(code)[node - 1 := PatchReg(old(code)[node - 1], reg)] else old(code)
    {
      var control := if node >= 1 && IsTest(code[node - 1]) then node - 1 else node;
      var i := code[control];
      if !i.TestSet? { return false; }
      if reg != NO_REG && reg != i.b {
        code := code[control := TestSet(reg, i.b, i.c)];
      } else {
        code := code[control := Test(i.b, i.c)];
      }
      return true;
    }

    /** removevalues */
    method RemoveValues(list: int, ghost L: seq<nat>)
      requires IsList(code, list, L)
      modifies this`code
      ensures NoValues(old(code), code, L)
    {
      hide IsList, NoValues, NoDup, AllJumps, Linked, GetJump;
      ghost var c := code;
      var j := list;
      ghost var i := 0;
      NoValuesNone(c, L);
      ListParts(code, list, L);
      while j != NO_JUMP
        invariant 0 <= i <= |L| && j == Head(L, i) && NoValues(c, code, L[..i])
        decreases |L| - i
      {
        NoValuesRest(c, code, L, i);
        ghost var c1 := code;
        var b := PatchTestReg(j, NO_REG);
        NoValuesMore(c, c1, L, i, code);
        NoValuesJump(c, code, L, i + 1, i);
        j := GetJump(code, j);
        i := i + 1;
      }
      HeadEnd(code, L, i);
      assert L[..i] == L;
    }

    /** patchlistaux */
    method PatchListAux(list: int, vtarget: nat, reg: nat, dtarget: int, ghost L: seq<nat>)
      requires IsList(code, list, L)
      requires dtarget != NO_JUMP || forall j :: j in L ==> Carries(code, j)
      modifies this`code
      ensures Patched(old(code), code, L, vtarget, reg, dtarget)
    {
      hide IsList, Patched, NoDup, AllJumps, Linked, GetJump;
      ghost var c := code;
      var j := list;
      ghost var i := 0;
      PatchedNone(c, L, vtarget, reg, dtarget);
      ListParts(c, list, L);
      while j != NO_JUMP
        invariant 0 <= i <= |L| && j == Head(L, i) && Patched(c, code, L[..i], vtarget, reg, dtarget)
        decreases |L| - i
      {
        ghost var c1 := code;
        PatchedRest(c, code, L, i, vtarget, reg, dtarget);
        PatchedLength(c, code, L[..i], vtarget, reg, dtarget);
        assert L[i] in L;
        var next := GetJump(code, j);
        var b := PatchTestReg(j, reg);
        ghost var c2 := code;
        if b { FixJump(j, vtarget); } else { FixJump(j, dtarget); }
        PatchedStep(c, c1, L, i, vtarget, reg, dtarget, c2, code);
        j := next;
        i := i + 1;
      }
      HeadEnd(code, L, i);
      assert L[..i] == L;
    }

    /** luaK_getlabel */
    method GetLabel() returns (pc: nat)
      modifies this`lasttarget
      ensures lasttarget == pc == |code|
    {
      lasttarget := |code|;
      pc := |code|;
    }

    /** luaK_patchtohere: adds a list to the jumps waiting for the next instruction. */
    method PatchToHere(list: int, ghost L: seq<nat>, ghost js: seq<nat>)
      requires IsList(code, list, L) && IsList(code, jpc, js) && Disjoint(js, L)
      modifies this`code, this`jpc, this`lasttarget
      ensures IsList(code, jpc, js + L) && Relinked(old(code), code, js) && lasttarget == |code|
      ensures js == [] || L == [] ==> code == old(code)
    {
      var _ := GetLabel();
      jpc := Concat(jpc, list, js, L);
    }

    // ----- emitting instructions -----

    /** luaK_code: first the waiting jumps are sent to the new instruction. */
    method Emit(i: Instr, ghost js: seq<nat>) returns (pc: nat)
      requires IsList(code, jpc, js)
      modifies this`code, this`jpc
      ensures pc == |old(code)| && jpc == NO_JUMP && |code| == pc + 1 && code[pc] == i
      ensures Appended(old(code), code, pc, js)
    {
      ghost var c := code;
      PatchListAux(jpc, |code|, NO_REG, |code|, js);
      jpc := NO_JUMP;
      pc := |code|;
      code := code + [i];
    }

    /** luaK_jump: jumps waiting for this one go along with it. */
    method Jump(ghost js: seq<nat>) returns (j: nat)
      requires IsList(code, jpc, js) && Closed(code)
      modifies this`code, this`jpc
      ensures j == |old(code)| && jpc == NO_JUMP && |code| == j + 1 && code[j].Jmp? && code[..j] == old(code)
      ensures IsList(code, j, [j] + js)
    {
      hide IsList;
      ghost var c := code;
      var waiting := jpc;
      jpc := NO_JUMP;
      EmptyList(code);
      j := Emit(Jmp(NO_JUMP), []);
      AppendedNone(c, code, j);
      ListBelow(c, waiting, js);
      LongerList(c, code, waiting, js);
      NewJump(code, j);
      JumpApart(j, js);
      ghost var c1 := code;
      var l := Concat(j, waiting, [j], js);
      ListParts(code, l, [j] + js);
      RelinkedPrefix(c1, code, j);
    }

    /** condjump */
    method CondJump(i: Instr, ghost js: seq<nat>) returns (j: nat)
      requires IsList(code, jpc, js) && IsTest(i) && (i.TestSet? ==> i.a == NO_REG)
      modifies this`code, this`jpc
      ensures j == |old(code)| + 1 && jpc == NO_JUMP && |code| == j + 1 && code[j - 1] == i && code[j] == Jmp(NO_JUMP)
      ensures Appended(old(code), code, j - 1, js) && IsList(code, j, [j])
    {
      var n := Emit(i, js);
      ghost var c1 := code;
      EmptyList(code);
      j := Emit(Jmp(NO_JUMP), []);
      AppendedNone(c1, code, j);
      AppendedLonger(old(code), c1, code, n, js);
      TestedJump(code, j);
    }

    /** luaK_nil: extends a LOADNIL just before, unless a jump may lead here. */
    method LoadNils(from: nat, n: nat, ghost js: seq<nat>)
      requires IsList(code, jpc, js) && n > 0
      modifies this`code, this`jpc
      ensures !Merges(old(code), lasttarget, from, n) ==>
        && jpc == NO_JUMP && |code| == |old(code)| + 1 && code[|old(code)|] == LoadNil(from, n - 1)
        && Appended(old(code), code, |old(code)|, js)
      ensures Merges(old(code), lasttarget, from, n) ==> Merged(old(code), code, from, n) && jpc == old(jpc)
    {
      if |code| > lasttarget && code[|code| - 1].LoadNil? {
        var prev := code[|code| - 1];
        var l := from + n - 1;
        var pl := prev.a + prev.b;
        if prev.a <= from <= pl + 1 || from <= prev.a <= l + 1 {
          var first := if prev.a < from then prev.a else from;
          var last := if pl > l then pl else l;
          code := code[|code| - 1 := LoadNil(first, last - first)];
          return;
        }
      }
      var _ := Emit(LoadNil(from, n - 1), js);
    }

    // ----- constants and registers -----

    /** The place of a constant, an old one if there is one. */
    method AddK(v: Val) returns (i: nat)
      modifies this`k
      ensures i < |k| && k[i] == v && old(k) <= k
      ensures v in old(k) ==> k == old(k)
    {
      i := 0;
      while i < |k|
        invariant i <= |k| && v !in k[..i]
      {
        if k[i] == v { return; }
        i := i + 1;
      }
      k := k + [v];
    }

    method ReserveRegs(n: nat)
      requires freereg + n < MAXREGS
      modifies this`freereg
      ensures freereg == old(freereg) + n
    {
      freereg := freereg + n;
    }

    /** freereg: its assertion holds. */
    method FreeReg(reg: nat)
      requires reg >= nactvar ==> reg + 1 == freereg
      modifies this`freereg
      ensures freereg == if reg >= nactvar then reg else old(freereg)
    {
      if reg >= nactvar {
        freereg := freereg - 1;
        assert reg == freereg;
      }
    }

    /** freeexp */
    method FreeExp(v: Exp, ghost base: nat)
      requires RegsOk(v.k, nactvar, base, freereg)
      modifies this`freereg
      ensures freereg == base
    {
      if v.k.VNonReloc? { FreeReg(v.k.r); }
    }

    // ----- expressions -----

    /** What is known of a descriptor and its lists, and of the code behind them. */
    ghost predicate Holding(s: nat, v: Exp, l: Lists, z: Entry)
      reads this`code, this`jpc, this`lasttarget
    {
      && Tidy(code, s, v.t, v.f, jpc, l) && KindOk(code, s, v.k, l)
      && NilOk(code, lasttarget, s, z)
    }

    /** `v` describes `e`, whose code begins at `s`; registers from `base` on are free for it. */
    ghost predicate Has(e: Expr, v: Exp, s: nat, base: nat, l: Lists)
      reads this
    {
      HasFrom(entry, e, v, s, base, l)
    }

    /** The same, for code that begins as `z` says. */
    ghost predicate HasFrom(z: Entry, e: Expr, v: Exp, s: nat, base: nat, l: Lists)
      reads this`code, this`jpc, this`k, this`lasttarget, this`freereg
    {
      && Holding(s, v, l, z) && RegsOk(v.k, nactvar, base, freereg)
      && Means(M(), code, s, e, base, -1, Is(v.k), l, z)
    }

    /** discharge2reg */
    method Discharge2Reg(v: Exp, reg: nat, ghost e: Expr, ghost s: nat, ghost base: nat, ghost w: int, ghost l: Lists) returns (v': Exp, ghost l': Lists)
      requires Holding(s, v, l, entry) && Means(M(), code, s, e, base, -1, Is(v.k), l, entry) && reg < MAXREGS && (reg >= base || reg == w)
      modifies this`code, this`jpc, this`k
      ensures old(k) <= k
      ensures v.k.VJmp? ==> v' == v && l' == l && code == old(code) && jpc == old(jpc) && k == old(k)
      ensures v.k == VNonReloc(reg) ==> code == old(code) && l' == l
      ensures !v.k.VJmp? ==> v' == Exp(VNonReloc(reg), v.t, v.f) && Means(M(), code, s, e, base, w, Is(VNonReloc(reg)), l', entry)
      ensures Tidy(code, s, v'.t, v'.f, jpc, l') && l'.t == l.t && l'.f == l.f && (|code| == s ==> l'.js == l.js)
      ensures Framed(old(code), code, l.js, s) && (NilOk(code, lasttarget, s, entry) || v.k.VNil?)
    {
      hide Tidy, Means, Framed, Open, Disjoint, IsList, Appended;
      ghost var c, m := code, M();
      v', l' := v, l;
      TidyParts(code, s, v.t, v.f, jpc, l);
      FramedSelf(code, l.js, s);
      OpenBefore(code, s, v.t, v.f, jpc, l, v.k);
      if v.k.VJmp? { return; }
      v' := Exp(VNonReloc(reg), v.t, v.f);
      if v.k.VRelocable? {
        var pc := v.k.pc;
        code := code[pc := Not(reg, code[pc].b)];
        RelocateMeans(m, c, code, s, e, base, w, pc, l, reg, entry);
        TidyRelocated(c, code, s, v.t, v.f, jpc, l, pc, code[pc]);
        return;
      }
      if v.k == VNonReloc(reg) {
        MeansWider(m, code, s, e, base, w, Is(v.k), l, entry);
        return;
      }
      if v.k.VLocal? && v.k.r == reg {
        LocalMeans(m, code, s, e, base, w, reg, l, entry);
        return;
      }
      EmitLoad(v.k, reg, l.js);
      if v.k.VNil? && Merges(c, lasttarget, reg, 1) {
        MergedNil(m, c, code, s, e, base, w, v, jpc, l, reg, entry);
      } else {
        l' := Lists(l.t, l.f, []);
        LoadMeans(m, M(), c, code, s, e, base, w, v.k, l, reg, entry);
        TidyAppended(c, code, s, v.t, v.f, old(jpc), l);
      }
    }

    /** The instruction that loads a value of kind `d`. */
    method EmitLoad(d: Kind, reg: nat, ghost js: seq<nat>)
      requires IsList(code, jpc, js) && !d.VJmp? && !d.VRelocable?
      modifies this`code, this`jpc, this`k
      ensures old(k) <= k
      ensures !(d.VNil? && Merges(old(code), lasttarget, reg, 1)) ==>
        && |code| == |old(code)| + 1 && Loads(k, code[|old(code)|], d, reg)
        && jpc == NO_JUMP && Appended(old(code), code, |old(code)|, js) && Closed(code) && (NilSafe(code, lasttarget) || d.VNil?)
      ensures d.VNil? && Merges(old(code), lasttarget, reg, 1) ==> Merged(old(code), code, reg, 1) && jpc == old(jpc) && k == old(k)
    {
      hide IsList, Appended;
      if d.VNil? {
        LoadNils(reg, 1, js);
      } else if d.VTrue? || d.VFalse? {
        var _ := Emit(LoadBool(reg, d.VTrue?, false), js);
      } else if d.VK? {
        var _ := Emit(LoadK(reg, d.k), js);
      } else if d.VKInt? {
        var i := AddK(Num(d.n));
        var _ := Emit(LoadK(reg, i), js);
      } else {
        var _ := Emit(Move(reg, d.r), js);
      }
    }

    /** need_value: whether some jump of the list delivers no value. */
    method NeedValue(list: int, ghost L: seq<nat>) returns (b: bool)
      requires IsList(code, list, L)
      ensures b <==> exists j :: j in L && !Carries(code, j)
    {
      hide IsList, GetJump;
      var j := list;
      ghost var i := 0;
      ListParts(code, list, L);
      hide NoDup, Linked, AllJumps;
      while j != NO_JUMP
        invariant 0 <= i <= |L| && j == Head(L, i)
        invariant forall p :: 0 <= p < i ==> Carries(code, L[p])
        decreases |L| - i
      {
        assert L[i] in L;
        ListStep(code, L, i);
        if !(j >= 1 && code[j - 1].TestSet?) { return true; }
        j := GetJump(code, j);
        i := i + 1;
      }
      HeadEnd(code, L, i);
      b := false;
    }

    /** code_loadbool: may be a jump target. */
    method CodeLoadBool(reg: nat, b: bool, skip: bool) returns (pc: nat)
      requires jpc == NO_JUMP
      modifies this`code, this`jpc, this`lasttarget
      ensures pc == |old(code)| && jpc == NO_JUMP && code == old(code) + [LoadBool(reg, b, skip)]
    {
      var _ := GetLabel();
      ghost var c := code;
      EmptyList(code);
      pc := Emit(LoadBool(reg, b, skip), []);
      AppendedNone(c, code, pc);
      assert code == code[..pc] + [code[pc]];
    }

    /** The loads of false and true after an expression some of whose jumps deliver no
        value; what falls out of the expression jumps past them. */
    method CodeLoads(reg: nat, jumped: bool, ghost js: seq<nat>) returns (pf: int, pt: int, ghost js': seq<nat>)
      requires IsList(code, jpc, js) && Closed(code) && (jumped ==> js == [])
      modifies this`code, this`jpc, this`lasttarget
      ensures |code| > |old(code)| && code[..|old(code)|] == old(code) && Closed(code)
      ensures pf >= |old(code)| && Loader(code, pf, reg, false) && pt >= |old(code)| && Loader(code, pt, reg, true)
      ensures IsList(code, jpc, js')
      ensures if jumped then js' == [] && pf == |old(code)| else js' == [|old(code)|] + js && code[|old(code)|].Jmp?
      ensures code != [] && !code[|code| - 1].LoadNil?
    {
      hide IsList;
      ghost var c := code;
      EmptyInside(code, 0);
      if jumped {
        ListBelow(code, jpc, js);
        pf := CodeLoadBool(reg, false, true);
        pt := CodeLoadBool(reg, true, false);
        js' := [];
        EmptyList(code);
      } else {
        ListBelow(code, jpc, js);
        var fj := Jump(js);
        ghost var c1 := code;
        pf := CodeLoadBool(reg, false, true);
        pt := CodeLoadBool(reg, true, false);
        LongerList(c1, code, fj, [fj] + js);
        js' := [] + ([fj] + js);
        EmptyList(code);
        PatchToHere(fj, [fj] + js, []);
        assert js' == [fj] + js;
      }
    }

    /** Puts a new jump at the end of the list for `side`. */
    method AddJump(v: Exp, j: nat, side: bool, ghost g: Goal, ghost e: Expr, ghost s: nat, ghost base: nat, ghost l: Lists) returns (v': Exp)
      requires Tidy(code, s, v.t, v.f, jpc, l) && IsList(code, j, [j]) && Inside(code, s, [j]) && j !in l.t && j !in l.f && j !in l.js
      requires StopOf(g, |code|) == |code| && Means(M(), code, s, e, base, -1, g, AddTo(l, side, j), entry)
      modifies this`code
      ensures v'.k == v.k && Tidy(code, s, v'.t, v'.f, jpc, AddTo(l, side, j)) && Means(M(), code, s, e, base, -1, g, AddTo(l, side, j), entry)
      ensures (forall p :: 0 <= p < s ==> code[p] == old(code)[p]) && |code| == |old(code)| > s
      ensures forall p :: 0 <= p < |code| && !old(code)[p].Jmp? ==> code[p] == old(code)[p]
    {
      hide Tidy, Means, IsList, Relinked, Inside, Disjoint;
      ghost var c := code;
      TidyParts(code, s, v.t, v.f, jpc, l);
      AddTidy(c, s, v.t, v.f, jpc, l, side, j);
      if side {
        var t := Concat(v.t, j, l.t, [j]);
        v' := v.(t := t);
        AddedTidy(c, code, s, v.t, v.f, jpc, l, side, j, t, v.f, l.t);
        AddedMeans(M(), c, code, s, e, base, g, l, side, j, l.t, entry);
      } else {
        var f := Concat(v.f, j, l.f, [j]);
        v' := v.(f := f);
        AddedTidy(c, code, s, v.t, v.f, jpc, l, side, j, v.t, f, l.f);
        AddedMeans(M(), c, code, s, e, base, g, l, side, j, l.f, entry);
      }
    }

    /** The second half of `exp2reg`: patches the jumps out of an expression whose end is done. */
    method FinishExp(v: Exp, jumped: bool, reg: nat, ghost e: Expr, ghost s: nat, ghost base: nat, ghost w: int, ghost g: Goal, ghost l: Lists)
        returns (ghost l': Lists)
      requires Tidy(code, s, v.t, v.f, jpc, l) && Means(M(), code, s, e, base, w, g, l, entry) && reg < MAXREGS && (reg >= base || reg == w)
      requires if jumped then g == Is(VFalse) && l.js == [] && (exists j :: j in l.t && !Carries(code, j)) else g == Is(VNonReloc(reg))
      modifies this`code, this`jpc, this`lasttarget
      ensures l'.t == [] && l'.f == [] && Tidy(code, s, NO_JUMP, NO_JUMP, jpc, l') && Means(M(), code, s, e, base, w, Is(VNonReloc(reg)), l', entry)
      ensures Framed(old(code), code, l.js, s) && (|code| == s ==> l'.js == l.js)
      ensures if HasJumps(v) then lasttarget == |code| else code == old(code) && lasttarget == old(lasttarget)
      ensures jumped ==> HasJumps(v)
    {
      hide Tidy, Means, IsList, Final, Patched, Framed, Carries, Inside, Disjoint, Loader, FinalTail, NoDup, AllJumps, Linked;
      ghost var c := code;
      TidyParts(code, s, v.t, v.f, jpc, l);
      ListBelow(code, v.t, l.t);
      ListBelow(code, v.f, l.f);
      ListParts(code, v.t, l.t);
      ListParts(code, v.f, l.f);
      HeadsDiffer(v.t, v.f, l);
      l' := l;
      if !HasJumps(v) { FramedSelf(code, l.js, s); return; }
      var pf, pt := NO_JUMP, NO_JUMP;
      ghost var js := l.js;
      var nt := NeedValue(v.t, l.t);
      var nv := nt;
      if !nt { nv := NeedValue(v.f, l.f); }
      if nv { pf, pt, js := CodeLoads(reg, jumped, l.js); }
      ghost var c2 := code;
      PrefixSelf(c);
      var final := GetLabel();
      LongerList(c, c2, v.f, l.f);
      LongerList(c, c2, v.t, l.t);
      LongerCarries(c, c2, l);
      PatchListAux(v.f, final, reg, pf, l.f);
      ghost var c3 := code;
      PatchedOther(c2, c3, l.f, final, reg, pf, v.t, l.t);
      PatchListAux(v.t, final, reg, pt, l.t);
      FinishTidy(c, c2, c3, code, s, v.t, v.f, old(jpc), jpc, l, js, reg, pf, pt);
      l' := Lists([], [], js);
      TidyOpen(c, s, v.t, v.f, old(jpc), l);
      FinalBuilt(c, c2, c3, code, l, js, reg, s, pf, pt);
      FinishTail(c, c2, c3, code, l, js, g, reg, pf, pt, jumped);
      FinalMeans(M(), c, code, s, e, base, w, g, l, l', reg, entry);
    }


    /** exp2reg: the value ends up in `reg`, whichever way the expression is left. */
    method Exp2Reg(v: Exp, reg: nat, ghost e: Expr, ghost s: nat, ghost base: nat, ghost w: int, ghost l: Lists) returns (v': Exp, ghost l': Lists)
      requires Holding(s, v, l, entry) && Means(M(), code, s, e, base, -1, Is(v.k), l, entry) && reg < MAXREGS && (reg >= base || reg == w)
      modifies this`code, this`jpc, this`k, this`lasttarget
      ensures old(k) <= k && v' == Exp(VNonReloc(reg), NO_JUMP, NO_JUMP) && l'.t == [] && l'.f == []
      ensures Tidy(code, s, NO_JUMP, NO_JUMP, jpc, l') && Means(M(), code, s, e, base, w, Is(VNonReloc(reg)), l', entry)
      ensures Framed(old(code), code, l.js, s) && (|code| == s ==> l'.js == l.js)
      ensures NilOk(code, lasttarget, s, entry) || (v.k.VNil? && !HasJumps(v))
    {
      hide Tidy, Means, Framed, Inside, IsList;
      ghost var c0 := code;
      var v1; ghost var l1;
      v1, l1 := Discharge2Reg(v, reg, e, s, base, w, l);
      var jumped := v1.k.VJmp?;
      ghost var g := Is(v1.k);
      if jumped {
        ghost var c := code;
        JumpFree(code, s, v1, jpc, l1);
        CompareMeans(M(), code, code, s, e, base, v1.k.j, l1, true, AddTo(l1, true, v1.k.j), entry);
        var v2 := AddJump(v1, v1.k.j, true, Is(VFalse), e, s, base, l1);
        l1, g := AddTo(l1, true, v1.k.j), Is(VFalse);
        v1 := v2;
        MeansWider(M(), code, s, e, base, w, g, l1, entry);
        SameFramed(c, code, l.js, s);
        JumpBare(c, code, v.k.j, l1);
      }
      ghost var c1, js1 := code, l1.js;
      l' := FinishExp(v1, jumped, reg, e, s, base, w, g, l1);
      v' := Exp(VNonReloc(reg), NO_JUMP, NO_JUMP);
      FramedLonger(c1, code, js1, s);
      FramedTwice(c0, c1, code, l.js, js1, s);
    }

    /** luaK_dischargevars: a local variable is a value in a register. */
    function DischargeVars(v: Exp): Exp {
      if v.k.VLocal? then v.(k := VNonReloc(v.k.r)) else v
    }

    lemma Discharged(e: Expr, v: Exp, s: nat, base: nat, l: Lists)
      requires Has(e, v, s, base, l)
      ensures Has(e, DischargeVars(v), s, base, l)
    {
      hide Tidy, Means;
      if v.k.VLocal? { LocalMeans(M(), code, s, e, base, -1, v.k.r, l, entry); }
    }

    /** The value of `e` is in the register of `v`, with no jumps left. */
    ghost predicate Placed(e: Expr, v: Exp, s: nat, base: nat, l: Lists)
      reads this
    {
      && v.k.VNonReloc? && v.t == NO_JUMP && v.f == NO_JUMP && l.t == [] && l.f == []
      && Tidy(code, s, NO_JUMP, NO_JUMP, jpc, l) && RegsOk(v.k, nactvar, base, freereg)
      && Means(M(), code, s, e, base, -1, Is(v.k), l, entry)
    }

    /** luaK_exp2nextreg */
    method Exp2NextReg(v: Exp, ghost e: Expr, ghost s: nat, ghost base: nat, ghost l: Lists) returns (v': Exp, ghost l': Lists)
      requires Has(e, v, s, base, l) && base + 1 < MAXREGS
      modifies this`code, this`jpc, this`k, this`lasttarget, this`freereg
      ensures old(k) <= k && Placed(e, v', s, base, l') && v'.k == VNonReloc(base)
      ensures Framed(old(code), code, l.js, s) && (|code| == s ==> l'.js == l.js)
      ensures NilOk(code, lasttarget, s, entry) || (v.k.VNil? && !HasJumps(v))
    {
      hide Tidy, Means, Framed;
      Discharged(e, v, s, base, l);
      var v1 := DischargeVars(v);
      FreeExp(v1, base);
      ReserveRegs(1);
      v', l' := Exp2Reg(v1, freereg - 1, e, s, base, -1, l);
    }

    /** luaK_exp2anyreg */
    method Exp2AnyReg(v: Exp, ghost e: Expr, ghost s: nat, ghost base: nat, ghost l: Lists) returns (v': Exp, ghost l': Lists)
      requires Has(e, v, s, base, l) && base + 1 < MAXREGS
      modifies this`code, this`jpc, this`k, this`lasttarget, this`freereg
      ensures old(k) <= k && Placed(e, v', s, base, l')
      ensures Framed(old(code), code, l.js, s) && (|code| == s ==> l'.js == l.js)
      ensures NilOk(code, lasttarget, s, entry) || (v.k.VNil? && !HasJumps(v))
    {
      hide Tidy, Means, Framed;
      Discharged(e, v, s, base, l);
      var v1 := DischargeVars(v);
      if v1.k.VNonReloc? {
        if !HasJumps(v1) {
          NoLists(code, s, v1, jpc, l);
          FramedSelf(code, l.js, s);
          return v1, l;
        }
        if v1.k.r >= nactvar {
          v', l' := Exp2Reg(v1, v1.k.r, e, s, base, -1, l);
          return;
        }
      }
      v', l' := Exp2NextReg(v1, e, s, base, l);
    }

    /** luaK_exp2val */
    method Exp2Val(v: Exp, ghost e: Expr, ghost s: nat, ghost base: nat, ghost l: Lists) returns (v': Exp, ghost l': Lists)
      requires Has(e, v, s, base, l) && base + 1 < MAXREGS
      modifies this`code, this`jpc, this`k, this`lasttarget, this`freereg
      ensures old(k) <= k && Has(e, v', s, base, l') && !v'.k.VLocal?
      ensures v'.t == NO_JUMP && v'.f == NO_JUMP && l'.t == [] && l'.f == []
      ensures if v.t != v.f then v'.k.VNonReloc?
              else v'.k == (if v.k.VLocal? then VNonReloc(v.k.r) else v.k) && code == old(code) && k == old(k)
      ensures Framed(old(code), code, l.js, s) && (|code| == s ==> l'.js == l.js)
    {
      hide Tidy, Means, Framed;
      if HasJumps(v) {
        v', l' := Exp2AnyReg(v, e, s, base, l);
      } else {
        Discharged(e, v, s, base, l);
        v', l' := DischargeVars(v), l;
        NoLists(code, s, v', jpc, l);
        FramedSelf(code, l.js, s);
      }
    }

    /** `v` is the operand `rk` of a comparison. */
    ghost predicate Operand(e: Expr, v: Exp, rk: RK, s: nat, base: nat, l: Lists)
      reads this
    {
      && OperandOf(v.k, rk) && l.t == [] && l.f == [] && Tidy(code, s, NO_JUMP, NO_JUMP, jpc, l) && RegsOk(v.k, nactvar, base, freereg)
      && Means(M(), code, s, e, base, -1, Is(v.k), l, entry) && NilOk(code, lasttarget, s, entry)
    }

    /** luaK_exp2RK */
    method Exp2RK(v: Exp, ghost e: Expr, ghost s: nat, ghost base: nat, ghost l: Lists) returns (v': Exp, rk: RK, ghost l': Lists)
      requires Has(e, v, s, base, l) && base + 1 < MAXREGS
      modifies this`code, this`jpc, this`k, this`lasttarget, this`freereg
      ensures old(k) <= k && Operand(e, v', rk, s, base, l')
      ensures rk.Const? ==> rk.k <= 255
      ensures v.t == v.f && v.k.VK? && v.k.k <= 255 ==> rk == Const(v.k.k) && code == old(code)
      ensures Framed(old(code), code, l.js, s) && (|code| == s ==> l'.js == l.js)
    {
      hide Tidy, Means, Framed;
      ghost var c0 := code;
      v', l' := Exp2Val(v, e, s, base, l);
      ghost var c1, js1 := code, l'.js;
      if v'.k.VNil? || v'.k.VTrue? || v'.k.VFalse? || v'.k.VKInt? || v'.k.VK? {
        var info := ConstantIndex(v'.k, e, s, base, l');
        v' := v'.(k := VK(info));
        if info <= MAXINDEXRK { return v', Const(info), l'; }
      }
      v', l' := Exp2AnyReg(v', e, s, base, l');
      FramedLonger(c1, code, js1, s);
      FramedTwice(c0, c1, code, l.js, js1, s);
      rk := Reg(v'.k.r);
    }

    /** Moves a constant to the list of constants. */
    method ConstantIndex(d: Kind, ghost e: Expr, ghost s: nat, ghost base: nat, ghost l: Lists) returns (i: nat)
      requires d.VNil? || d.VTrue? || d.VFalse? || d.VKInt? || d.VK?
      requires Tidy(code, s, NO_JUMP, NO_JUMP, jpc, l) && Means(M(), code, s, e, base, -1, Is(d), l, entry)
      modifies this`k
      ensures old(k) <= k && Means(M(), code, s, e, base, -1, Is(VK(i)), l, entry) && (d.VK? ==> i == d.k)
    {
      hide Tidy, Means;
      if d.VK? { return d.k; }
      ghost var m := M();
      var value := if d.VNil? then Nil else if d.VTrue? then Bool(true) else if d.VFalse? then Bool(false) else Num(d.n);
      i := AddK(value);
      TidyOpen(code, s, NO_JUMP, NO_JUMP, jpc, l);
      TidyParts(code, s, NO_JUMP, NO_JUMP, jpc, l);
      MeansMore(m, M(), code, s, e, base, -1, Is(d), l, entry);
      MeansWeaker(M(), code, s, e, base, Is(d), Is(VK(i)), l, entry);
    }

    // ----- conditions -----

    /** negatecondition */
    method NegateCondition(j: nat)
      requires 0 < j <= |code| && code[j - 1].Compare?
      modifies this`code
      ensures code == old(code)[j - 1 := Flip(old(code)[j - 1])]
    {
      var i := code[j - 1];
      code := code[j - 1 := i.(want := !i.want)];
    }

    /** discharge2anyreg */
    method Discharge2AnyReg(v: Exp, ghost e: Expr, ghost s: nat, ghost base: nat, ghost l: Lists) returns (v': Exp, ghost l': Lists)
      requires Has(e, v, s, base, l) && !v.k.VJmp? && !v.k.VLocal? && base + 1 < MAXREGS
      modifies this`code, this`jpc, this`k, this`freereg
      ensures old(k) <= k && v'.k.VNonReloc? && v'.t == v.t && v'.f == v.f && l'.t == l.t && l'.f == l.f && RegsOk(v'.k, nactvar, base, freereg)
      ensures Tidy(code, s, v'.t, v'.f, jpc, l') && Means(M(), code, s, e, base, -1, Is(v'.k), l', entry)
      ensures Framed(old(code), code, l.js, s) && (|code| == s ==> l'.js == l.js)
    {
      hide Tidy, Means, Framed;
      if v.k.VNonReloc? {
        TidyParts(code, s, v.t, v.f, jpc, l);
        FramedSelf(code, l.js, s);
        return v, l;
      }
      ReserveRegs(1);
      v', l' := Discharge2Reg(v, freereg - 1, e, s, base, -1, l);
    }

    /** jumponcond: a jump taken when the truth of `e` is `cond`. A `not` just coded is
        taken back and its operand tested for the opposite. */
    method JumpOnCond(v: Exp, cond: bool, ghost e: Expr, ghost s: nat, ghost base: nat, ghost l: Lists) returns (j: nat, ghost l': Lists)
      requires Has(e, v, s, base, l) && !v.k.VJmp? && !v.k.VLocal? && base + 1 < MAXREGS
      modifies this`code, this`jpc, this`k, this`freereg
      ensures old(k) <= k && freereg == base && l' == Lists(l.t, l.f, [])
      ensures Tidy(code, s, v.t, v.f, jpc, l') && Framed(old(code), code, l.js, s) && j + 1 == |code|
      ensures IsList(code, j, [j]) && Inside(code, s, [j]) && j !in l.t && j !in l.f
      ensures Means(M(), code, s, e, base, -1, Passes(!cond), AddTo(l', cond, j), entry)
    {
      hide Tidy, Means, Framed, IsList, Appended, Inside, Disjoint;
      l' := Lists(l.t, l.f, []);
      if v.k.VRelocable? {
        ghost var c := code;
        var pc := v.k.pc;
        var b := code[pc].b;
        OpenBefore(code, s, v.t, v.f, jpc, l, v.k);
        code := code[..pc];
        TidyCut(c, code, s, v.t, v.f, jpc, l, pc);
        ghost var c1 := code;
        j := CondJump(Test(b, !cond), []);
        AppendedNone(c1, code, pc);
        TidyAppended(c1, code, s, v.t, v.f, NO_JUMP, l');
        NotTestMeans(M(), c, code, s, e, base, pc, l, cond, AddTo(l', cond, j), entry);
        CutFramed(c, c1, code, s, pc, l.js);
        NewJumpFree(c1, code, s, v, NO_JUMP, l', j);
      } else {
        ghost var c0 := code;
        var v1; ghost var l1;
        v1, l1 := Discharge2AnyReg(v, e, s, base, l);
        FreeExp(v1, base);
        ghost var c1, jpc1 := code, jpc;
        TidyParts(code, s, v.t, v.f, jpc, l1);
        TidyOpen(code, s, v.t, v.f, jpc, l1);
        j := CondJump(TestSet(NO_REG, v1.k.r, cond), l1.js);
        TidyAppended(c1, code, s, v.t, v.f, jpc1, l1);
        TestMeans(M(), c1, code, s, e, base, v1.k.r, l1, cond, AddTo(l', cond, j), entry);
        FramedTwice(c0, c1, code, l.js, l1.js, s);
        NewJumpFree(c1, code, s, v, jpc1, l1, j);
      }
    }

    /** `e` has been turned into a condition: control goes through when its truth is
        `pass`, and leaves by the list of the other side. */
    ghost predicate Through(e: Expr, v: Exp, pass: bool, s: nat, base: nat, l: Lists)
      reads this
    {
      && (if pass then v.t == NO_JUMP && l.t == [] else v.f == NO_JUMP && l.f == [])
      && Tidy(code, s, v.t, v.f, jpc, l) && Means(M(), code, s, e, base, -1, Passes(pass), l, entry)
      && freereg == base && lasttarget == |code|
    }

    /** The end of luaK_goiftrue and luaK_goiffalse: the jumps on the side that passes lead here. */
    method PassHere(v: Exp, pass: bool, ghost e: Expr, ghost s: nat, ghost base: nat, ghost l: Lists) returns (v': Exp, ghost l': Lists)
      requires Tidy(code, s, v.t, v.f, jpc, l) && Means(M(), code, s, e, base, -1, Passes(pass), l, entry) && freereg == base
      modifies this`code, this`jpc, this`lasttarget
      ensures Through(e, v', pass, s, base, l') && Framed(old(code), code, l.js, s) && (|code| == s ==> l' == Lists([], [], l.js))
    {
      hide Tidy, Means, Framed, IsList, Relinked, Inside, Disjoint;
      ghost var c := code;
      TidyParts(code, s, v.t, v.f, jpc, l);
      DisjointFlip(l.t, l.js);
      DisjointFlip(l.f, l.js);
      if pass {
        PatchToHere(v.t, l.t, l.js);
        l' := Lists([], l.f, l.js + l.t);
        v' := v.(t := NO_JUMP);
      } else {
        PatchToHere(v.f, l.f, l.js);
        l' := Lists(l.t, [], l.js + l.f);
        v' := v.(f := NO_JUMP);
      }
      HereTidy(c, code, s, v.t, v.f, old(jpc), jpc, l, pass, l');
      TidyOpen(c, s, v.t, v.f, old(jpc), l);
      OpenPend(l);
      ExtendsSelf(M());
      MeansRelinked(M(), M(), c, code, s, e, base, -1, Passes(pass), l, l.js, entry);
      ToHereMeans(M(), code, s, e, base, pass, l, l', entry);
    }

    /** luaK_goiftrue: goes through when `e` is true, jumps when it is false. */
    method GoIfTrue(v: Exp, ghost e: Expr, ghost s: nat, ghost base: nat, ghost l: Lists) returns (v': Exp, ghost l': Lists)
      requires Has(e, v, s, base, l) && ConstOk(k, v.k) && base + 1 < MAXREGS
      modifies this`code, this`jpc, this`k, this`lasttarget, this`freereg
      ensures old(k) <= k && Through(e, v', true, s, base, l')
      ensures Framed(old(code), code, l.js, s) && (|code| == s ==> l' == Lists([], [], l.js))
    {
      hide Tidy, Means, Framed;
      ghost var c0 := code;
      Discharged(e, v, s, base, l);
      var v1 := DischargeVars(v);
      ghost var l1 := l;
      if v1.k.VJmp? {
        v1, l1 := NegatedJump(v1, e, s, base, l);
      } else if v1.k.VK? || v1.k.VKInt? || v1.k.VTrue? {
        MeansWeaker(M(), code, s, e, base, Is(v1.k), Passes(true), l, entry);
        TidyParts(code, s, v.t, v.f, jpc, l);
        FramedSelf(code, l.js, s);
      } else {
        v1, l1 := AddTest(v1, false, e, s, base, l);
      }
      ghost var c1 := code;
      v', l' := PassHere(v1, true, e, s, base, l1);
      FramedLonger(c1, code, l1.js, s);
      FramedTwice(c0, c1, code, l.js, l1.js, s);
    }

    /** luaK_goiffalse: goes through when `e` is false, jumps when it is true. */
    method GoIfFalse(v: Exp, ghost e: Expr, ghost s: nat, ghost base: nat, ghost l: Lists) returns (v': Exp, ghost l': Lists)
      requires Has(e, v, s, base, l) && base + 1 < MAXREGS
      modifies this`code, this`jpc, this`k, this`lasttarget, this`freereg
      ensures old(k) <= k && Through(e, v', false, s, base, l')
      ensures Framed(old(code), code, l.js, s) && (|code| == s ==> l' == Lists([], [], l.js))
    {
      hide Tidy, Means, Framed;
      ghost var c0 := code;
      Discharged(e, v, s, base, l);
      var v1 := DischargeVars(v);
      ghost var l1 := l;
      if v1.k.VJmp? {
        v1, l1 := PlainJump(v1, e, s, base, l);
      } else if v1.k.VNil? || v1.k.VFalse? {
        MeansWeaker(M(), code, s, e, base, Is(v1.k), Passes(false), l, entry);
        TidyParts(code, s, v.t, v.f, jpc, l);
        FramedSelf(code, l.js, s);
      } else {
        v1, l1 := AddTest(v1, true, e, s, base, l);
      }
      ghost var c1 := code;
      v', l' := PassHere(v1, false, e, s, base, l1);
      FramedLonger(c1, code, l1.js, s);
      FramedTwice(c0, c1, code, l.js, l1.js, s);
    }

    /** A test of the value, its jump added to the list for `cond`. */
    method AddTest(v: Exp, cond: bool, ghost e: Expr, ghost s: nat, ghost base: nat, ghost l: Lists) returns (v': Exp, ghost l': Lists)
      requires Has(e, v, s, base, l) && !v.k.VJmp? && !v.k.VLocal? && base + 1 < MAXREGS
      modifies this`code, this`jpc, this`k, this`freereg
      ensures old(k) <= k && freereg == base && Tidy(code, s, v'.t, v'.f, jpc, l') && Means(M(), code, s, e, base, -1, Passes(!cond), l', entry)
      ensures Framed(old(code), code, l.js, s) && |code| > s
    {
      hide Tidy, Means, Framed, IsList, Inside;
      ghost var c0 := code;
      var j; ghost var l1;
      j, l1 := JumpOnCond(v, cond, e, s, base, l);
      ghost var c1 := code;
      v' := AddJump(v, j, cond, Passes(!cond), e, s, base, l1);
      l' := AddTo(l1, cond, j);
      SameFramed(c1, code, [], s);
      FramedTwice(c0, c1, code, l.js, [], s);
    }

    /** The jump of a comparison, taken when it is true, joins the list for true. */
    method PlainJump(v: Exp, ghost e: Expr, ghost s: nat, ghost base: nat, ghost l: Lists) returns (v': Exp, ghost l': Lists)
      requires Has(e, v, s, base, l) && v.k.VJmp?
      modifies this`code
      ensures Tidy(code, s, v'.t, v'.f, jpc, l') && Means(M(), code, s, e, base, -1, Passes(false), l', entry)
      ensures Framed(old(code), code, l.js, s) && |code| > s
    {
      hide Tidy, Means, Framed, IsList, Inside;
      ghost var c := code;
      var j := v.k.j;
      l' := AddTo(l, true, j);
      JumpFree(code, s, v, jpc, l);
      CompareMeans(M(), code, code, s, e, base, j, l, true, l', entry);
      MeansWeaker(M(), code, s, e, base, Is(VFalse), Passes(false), l', entry);
      v' := AddJump(v, j, true, Passes(false), e, s, base, l);
      SameFramed(c, code, l.js, s);
    }

    /** The comparison is negated, and its jump joins the list for false. */
    method NegatedJump(v: Exp, ghost e: Expr, ghost s: nat, ghost base: nat, ghost l: Lists) returns (v': Exp, ghost l': Lists)
      requires Has(e, v, s, base, l) && v.k.VJmp?
      modifies this`code
      ensures Tidy(code, s, v'.t, v'.f, jpc, l') && Means(M(), code, s, e, base, -1, Passes(true), l', entry)
      ensures Framed(old(code), code, l.js, s) && |code| > s
    {
      hide Tidy, Means, Framed, IsList, Inside;
      ghost var c := code;
      var j := v.k.j;
      l' := AddTo(l, false, j);
      JumpFree(code, s, v, jpc, l);
      NegateCondition(j);
      FlipTidy(c, code, s, v, jpc, l);
      CompareMeans(M(), c, code, s, e, base, j, l, false, l', entry);
      MeansWeaker(M(), code, s, e, base, Is(VTrue), Passes(true), l', entry);
      ghost var c1 := code;
      v' := AddJump(v, j, false, Passes(true), e, s, base, l);
      SameFramed(c, code, l.js, s);
    }

    // ----- not -----

    /** The end of `codenot`: the lists change places, and their tests deliver no
        values any more. */
    method SwapLists(v: Exp, ghost e: Expr, ghost s: nat, ghost base: nat, ghost c0: seq<Instr>, ghost g0: Goal, ghost l0: Lists,
                     ghost jp: seq<nat>, ghost l: Lists) returns (v': Exp, ghost l': Lists)
      requires Tidy(code, s, v.t, v.f, jpc, l) && KindOk(code, s, v.k, l) && l.t == l0.t && l.f == l0.f
      requires (jp == [] && l.js == l0.js) || (jp == l0.js && l.js == [])
      requires Means(M(), c0, s, e, base, -1, g0, l0, entry) && s <= StopOf(g0, |c0|) == StopOf(Is(v.k), |code|) && Open(c0, l0, StopOf(g0, |c0|))
      requires Appended(c0, code, StopOf(g0, |c0|), jp) && Disjoint(l0.t, l0.js) && Disjoint(l0.f, l0.js)
      requires Negates(M(), c0, g0, code, Is(v.k))
      modifies this`code
      ensures v' == Exp(v.k, v.f, v.t) && l' == Lists(l.f, l.t, l.js)
      ensures Tidy(code, s, v'.t, v'.f, jpc, l') && KindOk(code, s, v'.k, l') && Means(M(), code, s, NotOf(e), base, -1, Is(v'.k), l', entry)
      ensures |code| == |old(code)| && forall p :: 0 <= p < |code| && (p < s || !old(code)[p].TestSet?) ==> code[p] == old(code)[p]
    {
      hide Tidy, Means, IsList, NoValues, Appended, Open, Disjoint, KindOk, Negates, Stripped;
      ghost var c1, n := code, StopOf(g0, |c0|);
      TidyParts(code, s, v.t, v.f, jpc, l);
      v', l' := Exp(v.k, v.f, v.t), Lists(l.f, l.t, l.js);
      RemoveValues(v'.f, l'.f);
      ghost var c2 := code;
      NoValuesTidy(c1, c2, s, v.t, v.f, jpc, l, l.t);
      TidyParts(code, s, v.t, v.f, jpc, l);
      RemoveValues(v'.t, l'.t);
      NoValuesTidy(c2, code, s, v.t, v.f, jpc, l, l.f);
      NoValuesSame(c1, c2, code, s, v, jpc, l);
      AppendedLength(c0, c1, n, jp);
      StrippedBuilt(c0, c1, c2, code, l0, l', jp, s, n);
      NegatesStill(M(), c0, g0, c1, code, s, v.k, l);
      KindSwap(c1, code, s, v.k, l);
      SwapTidy(code, s, v.t, v.f, jpc, l);
      NotMeans(M(), c0, code, s, e, base, g0, Is(v.k), l0, l', n, entry);
    }

    /** codenot */
    method CodeNot(v: Exp, ghost e: Expr, ghost s: nat, ghost base: nat, ghost l: Lists) returns (v': Exp, ghost l': Lists)
      requires Has(e, v, s, base, l) && ConstOk(k, v.k) && base + 1 < MAXREGS
      modifies this`code, this`jpc, this`k, this`freereg
      ensures old(k) <= k && Has(NotOf(e), v', s, base, l') && !v'.k.VK?
      ensures Framed(old(code), code, l.js, s) && (|code| == s ==> l' == Lists([], [], l.js))
    {
      hide Tidy, Means, Framed;
      Discharged(e, v, s, base, l);
      var v1 := DischargeVars(v);
      if v1.k.VNil? || v1.k.VFalse? {
        v', l' := NotOfConstant(v1, VTrue, e, s, base, l);
      } else if v1.k.VK? || v1.k.VKInt? || v1.k.VTrue? {
        v', l' := NotOfConstant(v1, VFalse, e, s, base, l);
      } else if v1.k.VJmp? {
        v', l' := NotOfJump(v1, e, s, base, l);
      } else {
        v', l' := NotOfValue(v1, e, s, base, l);
      }
    }

    /** codenot of a constant: the other boolean. */
    method NotOfConstant(v: Exp, d: Kind, ghost e: Expr, ghost s: nat, ghost base: nat, ghost l: Lists) returns (v': Exp, ghost l': Lists)
      requires Has(e, v, s, base, l) && ConstOk(k, v.k)
      requires ((v.k.VNil? || v.k.VFalse?) && d == VTrue) || ((v.k.VK? || v.k.VKInt? || v.k.VTrue?) && d == VFalse)
      modifies this`code
      ensures Has(NotOf(e), v', s, base, l') && v'.k == d
      ensures Framed(old(code), code, l.js, s) && (|code| == s ==> l' == Lists([], [], l.js))
    {
      hide Tidy, Means, Framed, NilOk, ConstOk;
      ghost var c := code;
      v', l' := SwapConstant(v, d, e, s, base, l);
      NotFramed(c, c, code, s, l, v, jpc);
      LastSame(c, code, s, v.t, v.f, jpc, l);
      NilOkSame(c, code, lasttarget, s, entry);
    }

    method SwapConstant(v: Exp, d: Kind, ghost e: Expr, ghost s: nat, ghost base: nat, ghost l: Lists) returns (v': Exp, ghost l': Lists)
      requires Tidy(code, s, v.t, v.f, jpc, l) && KindOk(code, s, v.k, l) && Means(M(), code, s, e, base, -1, Is(v.k), l, entry) && ConstOk(k, v.k)
      requires ((v.k.VNil? || v.k.VFalse?) && d == VTrue) || ((v.k.VK? || v.k.VKInt? || v.k.VTrue?) && d == VFalse)
      modifies this`code
      ensures v' == Exp(d, v.f, v.t) && l' == Lists(l.f, l.t, l.js)
      ensures Tidy(code, s, v'.t, v'.f, jpc, l') && KindOk(code, s, v'.k, l') && Means(M(), code, s, NotOf(e), base, -1, Is(d), l', entry)
      ensures |code| == |old(code)| && forall p :: 0 <= p < |code| && (p < s || !old(code)[p].TestSet?) ==> code[p] == old(code)[p]
    {
      hide Tidy, Means, Open, Disjoint, Appended, Negates;
      OpenBefore(code, s, v.t, v.f, jpc, l, v.k);
      TidyParts(code, s, v.t, v.f, jpc, l);
      NegatesConst(M(), code, v.k, d);
      AppendedFlip(code, code, |code|);
      v', l' := SwapLists(v.(k := d), e, s, base, code, Is(v.k), l, [], l);
    }

    /** codenot of a comparison: the comparison is negated. */
    method NotOfJump(v: Exp, ghost e: Expr, ghost s: nat, ghost base: nat, ghost l: Lists) returns (v': Exp, ghost l': Lists)
      requires Has(e, v, s, base, l) && v.k.VJmp?
      modifies this`code
      ensures Has(NotOf(e), v', s, base, l') && v'.k == v.k
      ensures Framed(old(code), code, l.js, s) && |code| > s
    {
      hide Tidy, Means, Framed, Appended, KindOk, NilSafe;
      ghost var c := code;
      JumpKind(c, s, v.k, l, lasttarget);
      v', l' := SwapNegated(v, e, s, base, l);
      JumpKind(code, s, v.k, l', lasttarget);
      SameFramed(c, code, l.js, s);
    }

    method SwapNegated(v: Exp, ghost e: Expr, ghost s: nat, ghost base: nat, ghost l: Lists) returns (v': Exp, ghost l': Lists)
      requires Tidy(code, s, v.t, v.f, jpc, l) && KindOk(code, s, v.k, l) && v.k.VJmp? && Means(M(), code, s, e, base, -1, Is(v.k), l, entry)
      modifies this`code
      ensures v' == Exp(v.k, v.f, v.t) && l' == Lists(l.f, l.t, l.js)
      ensures Tidy(code, s, v'.t, v'.f, jpc, l') && KindOk(code, s, v'.k, l') && Means(M(), code, s, NotOf(e), base, -1, Is(v'.k), l', entry)
      ensures |code| == |old(code)| && forall p :: 0 <= p < |code| && p < s ==> code[p] == old(code)[p]
    {
      hide Tidy, Means, Open, Disjoint, Appended, Negates, KindOk;
      ghost var c := code;
      TidyParts(c, s, v.t, v.f, jpc, l);
      JumpKind(c, s, v.k, l, 0);
      NegateOpen(v, s, l);
      JumpKind(code, s, v.k, l, 0);
      v', l' := SwapLists(v, e, s, base, c, Is(v.k), l, [], l);
    }

    /** Negates the comparison that `v` ends in. */
    method NegateOpen(v: Exp, ghost s: nat, ghost l: Lists)
      requires Tidy(code, s, v.t, v.f, jpc, l) && KindOk(code, s, v.k, l) && v.k.VJmp?
      modifies this`code
      ensures Tidy(code, s, v.t, v.f, jpc, l) && KindOk(code, s, v.k, l)
      ensures Open(old(code), l, v.k.j - 1) && Appended(old(code), code, v.k.j - 1, []) && Negates(M(), old(code), Is(v.k), code, Is(v.k))
      ensures |code| == |old(code)| && forall p :: 0 <= p < |code| && p < s ==> code[p] == old(code)[p]
    {
      hide Tidy, Open, Appended, Negates, KindOk;
      ghost var c := code;
      JumpKind(code, s, v.k, l, 0);
      OpenBefore(code, s, v.t, v.f, jpc, l, v.k);
      NegateCondition(v.k.j);
      FlipTidy(c, code, s, v, jpc, l);
      NegatesJump(M(), c, code, v.k.j);
      AppendedFlip(c, code, v.k.j - 1);
    }

    /** codenot of a value: a NOT whose register is open. */
    method NotOfValue(v: Exp, ghost e: Expr, ghost s: nat, ghost base: nat, ghost l: Lists) returns (v': Exp, ghost l': Lists)
      requires Has(e, v, s, base, l) && (v.k.VNonReloc? || v.k.VRelocable?) && base + 1 < MAXREGS
      modifies this`code, this`jpc, this`k, this`freereg
      ensures old(k) <= k && Has(NotOf(e), v', s, base, l') && !v'.k.VK?
      ensures Framed(old(code), code, l.js, s) && |code| > s
    {
      hide Tidy, Means, Framed, Open, Disjoint, Appended, Negates, IsList;
      ghost var c0 := code;
      var v1; ghost var l1;
      v1, l1 := Discharge2AnyReg(v, e, s, base, l);
      FreeExp(v1, base);
      ghost var c1, jpc1 := code, jpc;
      TidyParts(code, s, v1.t, v1.f, jpc, l1);
      TidyOpen(code, s, v1.t, v1.f, jpc, l1);
      var pc := Emit(Not(0, v1.k.r), l1.js);
      TidyAppended(c1, code, s, v1.t, v1.f, jpc1, l1);
      NotKind(c1, code, s, v1.t, v1.f, jpc1, l1, pc);
      NegatesValue(M(), c1, code, v1.k.r, pc);
      FramedTwice(c0, c1, code, l.js, l1.js, s);
      ghost var c2 := code;
      v', l' := SwapLists(v1.(k := VRelocable(pc)), e, s, base, c1, Is(v1.k), l1, l1.js, Lists(l1.t, l1.f, []));
      SameFramed(c2, code, [], s);
      FramedTwice(c0, c2, code, l.js, [], s);
    }

    // ----- binary operators -----

    /** luaK_posfix for `and` and `or`: the first operand's jumps out join those of the second. */
    method PosfixLogic(cond: bool, v1: Exp, v2: Exp, ghost x: Expr, ghost y: Expr, ghost s: nat, ghost base: nat,
                       ghost c1: seq<Instr>, ghost m1: Machine, ghost jpc1: int, ghost l1: Lists, ghost l2: Lists, ghost z: Entry) returns (v: Exp, ghost l: Lists)
      requires Tidy(c1, s, v1.t, v1.f, jpc1, l1) && Means(m1, c1, s, x, base, -1, Passes(cond), l1, z) && Extends(m1, M()) && entry == Direct
      requires if cond then v1.t == NO_JUMP && l1.t == [] else v1.f == NO_JUMP && l1.f == []
      requires Grown(c1, code, l1.js) && Has(y, v2, |c1|, base, l2) && ConstOk(k, v2.k) && Scoped(y, nactvar)
      requires |code| == |c1| ==> l2 == Lists([], [], l1.js)
      modifies this`code
      ensures HasFrom(z, Logic(cond, x, y), v, s, base, l) && ConstOk(k, v.k)
      ensures Framed(c1, code, l1.js, s) && (|code| == s ==> l == Lists([], [], l1.js))
    {
      hide Tidy, Means, Framed, Disjoint, Grown, KindOk, NilSafe, NilOk, Extends, IsList, Relinked, Open;
      ghost var c2 := code;
      Discharged(y, v2, |c1|, base, l2);
      v := DischargeVars(v2);
      l := Lists(l2.t + l1.t, l2.f + l1.f, l2.js);
      LogicLists(c1, c2, s, v1, jpc1, l1, v, jpc, l2, cond);
      LogicSound(m1, M(), c1, c2, s, x, y, cond, base, nactvar, v1, jpc1, l1, v, jpc, l2, z);
      NilOkDirect(code, lasttarget, |c1|);
      LogicOpen(c1, c2, s, v1, jpc1, l1, v, jpc, l2, l, cond);
      if cond {
        assert l2.t + l1.t == l2.t;
        var f := Concat(v.f, v1.f, l2.f, l1.f);
        v := v.(f := f);
        LogicTidy(c1, c2, code, s, v1, jpc1, l1, v2.t, v2.f, v, jpc, l2, l, cond, l2.f, lasttarget);
        LogicRelinked(M(), c2, code, s, Logic(cond, x, y), base, v.k, l, l2.f, z);
      } else {
        assert l2.f + l1.f == l2.f;
        var t := Concat(v.t, v1.t, l2.t, l1.t);
        v := v.(t := t);
        LogicTidy(c1, c2, code, s, v1, jpc1, l1, v2.t, v2.f, v, jpc, l2, l, cond, l2.t, lasttarget);
        LogicRelinked(M(), c2, code, s, Logic(cond, x, y), base, v.k, l, l2.t, z);
      }
      NilOkSafe(code, lasttarget, s, z);
    }

    /** freeexps: the later register first. */
    method FreeExps(v1: Exp, v2: Exp, ghost base: nat, ghost base2: nat)
      requires RegsOk(v1.k, nactvar, base, base2) && RegsOk(v2.k, nactvar, base2, freereg)
      modifies this`freereg
      ensures freereg == base
    {
      var r1: int := if v1.k.VNonReloc? then v1.k.r else -1;
      var r2: int := if v2.k.VNonReloc? then v2.k.r else -1;
      if r1 > r2 {
        FreeReg(r1);
        if r2 >= 0 { FreeReg(r2); }
      } else {
        if r2 >= 0 { FreeReg(r2); }
        if r1 >= 0 { FreeReg(r1); }
      }
    }

    /** The two ways the operands of a comparison lie: the second one's code after the
        first one's, or, when that has none, from the same beginning. */
    ghost predicate Pair(s: nat, s2: nat, c1: seq<Instr>, l1: Lists, l2: Lists, z: Entry)
      reads this`code, this`entry
    {
      if z.AfterNils? && entry == z then s2 == s && BeginsAt(c1, s, z) && l1 == Lists([], [], []) && Framed(c1, code, [], s)
      else entry == Direct && s2 == |c1| && Grown(c1, code, l1.js) && (|code| == |c1| ==> l2 == Lists([], [], l1.js))
    }

    /** codecomp */
    method CodeComp(op: Relation, v1: Exp, v2: Exp, ghost x: Expr, ghost y: Expr, ghost s: nat, ghost s2: nat, ghost base: nat, ghost base2: nat,
                    ghost c1: seq<Instr>, ghost m1: Machine, ghost jpc1: int, ghost l1: Lists, ghost l2: Lists, ghost z: Entry) returns (v: Exp)
      requires (v1.k.VK? || v1.k.VNonReloc?) && l1.t == [] && l1.f == [] && Tidy(c1, s, NO_JUMP, NO_JUMP, jpc1, l1)
      requires Means(m1, c1, s, x, base, -1, Is(v1.k), l1, z) && Extends(m1, M()) && RegsOk(v1.k, nactvar, base, base2)
      requires Pair(s, s2, c1, l1, l2, z) && Has(y, v2, s2, base2, l2) && Scoped(y, nactvar) && base2 + 1 < MAXREGS
      modifies this`code, this`jpc, this`k, this`lasttarget, this`freereg
      ensures old(k) <= k && v.k.VJmp? && HasFrom(z, Rel(op, x, y), v, s, base, Lists([], [], []))
      ensures Framed(c1, code, l1.js, s) && |code| > s
      ensures |code| >= 2 && v.k.j == |code| - 1 && code[|code| - 1] == Jmp(NO_JUMP)
      ensures EmittedFor(op, code[|code| - 2], if v1.k.VK? then Const(v1.k.k) else Reg(v1.k.r))
    {
      hide Tidy, Means, Framed, Grown, Appended, IsList, Open, CompareFor, Extends, NilSafe, NilOk, KindOk, BeginsAt, EmittedFor;
      var rk1 := if v1.k.VK? then Const(v1.k.k) else Reg(v1.k.r);
      ghost var c := code;
      ghost var m := M();
      var v2', rk2; ghost var l2';
      v2', rk2, l2' := Exp2RK(v2, y, s2, base2, l2);
      ghost var c2, m2, jpc2 := code, M(), jpc;
      MoreConstants(m1, m, m2);
      FreeExps(v1, v2', base, base2);
      TidyParts(code, s2, NO_JUMP, NO_JUMP, jpc, l2');
      TidyParts(c1, s, NO_JUMP, NO_JUMP, jpc1, l1);
      CompareIsTest(op, rk1, rk2);
      CompareEmitted(op, rk1, rk2);
      var j := CondJump(CompareFor(op, rk1, rk2), l2'.js);
      v := Exp(VJmp(j), NO_JUMP, NO_JUMP);
      if z.AfterNils? && entry == z {
        CompareFramed(c1, c, c2, l2.js, s, z);
        CompareSameSound(m1, m2, c1, c2, code, s, x, y, op, base, base2, nactvar, v1.k, v2'.k, rk1, rk2, jpc2, l2', z);
        CompareSameTidy(c1, c2, code, s, jpc2, l2', op, rk1, rk2, lasttarget);
      } else {
        CompareGrown(c1, c, c2, l1.js, l2.js, l2'.js);
        CompareSound(m1, m2, c1, c2, code, s, x, y, op, base, base2, nactvar, v1.k, v2'.k, rk1, rk2, jpc1, l1, jpc2, l2', z);
        CompareTidy(c1, c2, code, s, jpc1, l1, jpc2, l2', op, rk1, rk2, lasttarget);
      }
      NilOkSafe(code, lasttarget, s, z);
    }

    // ----- whole expressions -----

    /** Where the code of an expression may begin: at the end, or with the LOADNIL there. */
    ghost predicate Ready(e: Expr, s: nat, base: nat, js: seq<nat>)
      reads this
    {
      && IsList(code, jpc, js) && Closed(code) && BeginsAt(code, s, entry)
      && (if entry.Direct? then NilSafe(code, lasttarget) else js == [])
      && Scoped(e, nactvar) && nactvar <= base == freereg && base + Need(e) < MAXREGS
    }

    /** A literal or a variable: no code. */
    method SimpleExp(e: Expr, ghost s: nat, ghost base: nat, ghost js: seq<nat>) returns (v: Exp)
      requires Ready(e, s, base, js) && !e.NotOf? && !e.And? && !e.Or? && !e.Rel?
      modifies this`k
      ensures old(k) <= k && Has(e, v, s, base, Lists([], [], js)) && ConstOk(k, v.k)
    {
      hide IsList, Means;
      var d;
      if e.NilLit? { d := VNil; }
      else if e.TrueLit? { d := VTrue; }
      else if e.FalseLit? { d := VFalse; }
      else if e.NumLit? { d := VKInt(e.n); }
      else if e.StrLit? {
        var i := AddK(Str(e.id));
        d := VK(i);
      }
      else { d := VLocal(e.r); }
      v := Exp(d, NO_JUMP, NO_JUMP);
      EmptyList(code);
      EmptyInside(code, s);
      LeafMeans(M(), code, s, e, base, d, js, entry);
    }

    /** subexpr: generates code for `e` and describes its value. */
    method Subexpr(e: Expr, ghost s: nat, ghost base: nat, ghost js: seq<nat>) returns (v: Exp, ghost l: Lists)
      requires Ready(e, s, base, js)
      modifies this`code, this`jpc, this`k, this`lasttarget, this`freereg, this`entry
      ensures old(k) <= k && Has(e, v, s, base, l) && ConstOk(k, v.k) && entry == old(entry)
      ensures Framed(old(code), code, js, s) && (|code| == s ==> l == Lists([], [], js))
      decreases e
    {
      hide Tidy, Means, Framed, IsList, KindOk, ConstOk, Closed, NilSafe, NilOk, BeginsAt;
      ghost var c0 := code;
      NeedOne(e);
      if e.NotOf? {
        v, l := Subexpr(e.x, s, base, js);
        ghost var c1, js1 := code, l.js;
        v, l := CodeNot(v, e.x, s, base, l);
        NotConst(k, v.k);
        FramedLonger(c1, code, js1, s);
        FramedTwice(c0, c1, code, js, js1, s);
      } else if e.And? || e.Or? {
        v, l := LogicExpr(e, e.And?, e.x, e.y, s, base, js);
      } else if e.Rel? {
        v, l := RelExpr(e, e.op, e.x, e.y, s, base, js);
      } else {
        v := SimpleExp(e, s, base, js);
        l := Lists([], [], js);
        Begun(code, s, entry);
        FramedSelf(code, js, s);
      }
    }

    /** `x and y`, `x or y`. */
    method LogicExpr(e: Expr, cond: bool, x: Expr, y: Expr, ghost s: nat, ghost base: nat, ghost js: seq<nat>) returns (v: Exp, ghost l: Lists)
      requires Ready(e, s, base, js) && e == Logic(cond, x, y)
      modifies this`code, this`jpc, this`k, this`lasttarget, this`freereg, this`entry
      ensures old(k) <= k && Has(e, v, s, base, l) && ConstOk(k, v.k) && entry == old(entry)
      ensures Framed(old(code), code, js, s) && (|code| == s ==> l == Lists([], [], js))
      decreases e, 0
    {
      hide Tidy, Means, Framed, IsList, KindOk, ConstOk, Grown, Closed, NilSafe, NilOk;
      ghost var c0 := code;
      NeedOne(x);
      NeedOne(y);
      var v1; ghost var l1;
      v1, l1 := Subexpr(x, s, base, js);
      ghost var ca, ja := code, l1.js;
      if cond {
        v1, l1 := GoIfTrue(v1, x, s, base, l1);
      } else {
        v1, l1 := GoIfFalse(v1, x, s, base, l1);
      }
      FramedLonger(ca, code, ja, s);
      FramedTwice(c0, ca, code, js, ja, s);
      TidyParts(code, s, v1.t, v1.f, jpc, l1);
      LabelSafe(code, lasttarget);
      ghost var c1, m1, jpc1, z := code, M(), jpc, entry;
      entry := Direct;
      var v2; ghost var l2;
      v2, l2 := Subexpr(y, |code|, base, l1.js);
      FramedIsGrown(c1, code, l1.js);
      v, l := PosfixLogic(cond, v1, v2, x, y, s, base, c1, m1, jpc1, l1, l2, z);
      entry := z;
      FramedLonger(c1, code, l1.js, s);
      FramedTwice(c0, c1, code, js, l1.js, s);
    }

    /** A comparison. */
    method RelExpr(e: Expr, op: Relation, x: Expr, y: Expr, ghost s: nat, ghost base: nat, ghost js: seq<nat>) returns (v: Exp, ghost l: Lists)
      requires Ready(e, s, base, js) && e == Rel(op, x, y)
      modifies this`code, this`jpc, this`k, this`lasttarget, this`freereg, this`entry
      ensures old(k) <= k && Has(e, v, s, base, l) && ConstOk(k, v.k) && entry == old(entry)
      ensures Framed(old(code), code, js, s) && (|code| == s ==> l == Lists([], [], js))
      decreases e, 0
    {
      hide Tidy, Means, Framed, IsList, KindOk, Grown, Closed, NilSafe, NilOk, BeginsAt;
      ghost var c0 := code;
      NeedOne(x);
      NeedOne(y);
      var v1; ghost var l1;
      v1, l1 := Subexpr(x, s, base, js);
      ghost var ca, ja := code, l1.js;
      var rk1;
      v1, rk1, l1 := Exp2RK(v1, x, s, base, l1);
      FramedLonger(ca, code, ja, s);
      FramedTwice(c0, ca, code, js, ja, s);
      TidyParts(code, s, NO_JUMP, NO_JUMP, jpc, l1);
      ghost var c1, m1, jpc1, base2, z, s2 := code, M(), jpc, freereg, entry, s;
      if NilSafe(code, lasttarget) {
        entry, s2 := Direct, |code|;
        AtEnd(code);
      } else {
        StillAtNil(code, lasttarget, s, jpc, l1, z);
      }
      var v2; ghost var l2;
      v2, l2 := Subexpr(y, s2, base2, l1.js);
      if entry == Direct { FramedIsGrown(c1, code, l1.js); }
      v := CodeComp(op, v1, v2, x, y, s, s2, base, base2, c1, m1, jpc1, l1, l2, z);
      entry := z;
      l := Lists([], [], []);
      FramedTwice(c0, c1, code, js, l1.js, s);
    }

    // ----- statements that use the value -----

    /** Code for `e` may be generated: registers suffice, and jumps that wait for the
        next instruction have made it a jump target. */
    ghost predicate CanBegin(e: Expr, js: seq<nat>)
      reads this
    {
      && IsList(code, jpc, js) && Closed(code) && (NilSafe(code, lasttarget) || js == [])
      && Scoped(e, nactvar) && nactvar <= freereg && freereg + Need(e) < MAXREGS
    }

    /** `return e`. The code that has been generated, run from where it begins with any
        values in the registers, returns the value of `e`; no jump is left open. Where a
        LOADNIL came before it that it may have extended, the run begins with that, and
        `e` is evaluated on what it used to leave. */
    method ReturnExpr(e: Expr, ghost js: seq<nat>)
      requires CanBegin(e, js)
      modifies this`code, this`jpc, this`k, this`lasttarget, this`freereg, this`entry
      ensures forall r: Regs :: Run(M(), code, {}, |code|, BeginOf(old(code), old(lasttarget)), r) ==
                                Returned(Eval(order, e, Start(EntryOf(old(code), old(lasttarget)), r)))
      ensures forall r: Regs :: var o := Run(M(), code, {}, |code|, BeginOf(old(code), old(lasttarget)), r);
                                o.Returned? && Gives(order, e, Start(EntryOf(old(code), old(lasttarget)), r), o.v)
      ensures forall r: Regs :: var o := Run(M(), code, {}, |code|, BeginOf(old(code), old(lasttarget)), r);
                                o.Returned? && ReturnsLike(order, e, Start(EntryOf(old(code), old(lasttarget)), r), o.v)
      ensures jpc == NO_JUMP && Framed(old(code), code, js, BeginOf(old(code), old(lasttarget))) && old(k) <= k
    {
      hide Tidy, Means, Framed, IsList, Appended, Run, NilSafe, BeginsAt, Gives, ReturnsLike, Eval, Start;
      ghost var s, base, c0 := BeginOf(code, lasttarget), freereg, code;
      entry := EntryOf(code, lasttarget);
      BeginsHere(code, lasttarget);
      NeedOne(e);
      var v; ghost var l;
      v, l := Subexpr(e, s, base, js);
      ghost var ca, ja := code, l.js;
      v, l := Exp2AnyReg(v, e, s, base, l);
      FramedTwice(c0, ca, code, js, ja, s);
      FramedLonger(ca, code, ja, s);
      ghost var c1, jpc1 := code, jpc;
      TidyParts(code, s, NO_JUMP, NO_JUMP, jpc, l);
      var pc := Emit(Return(v.k.r, 2), l.js);
      ReturnRuns(M(), c1, code, s, e, base, v.k.r, jpc1, l, entry);
      TidyAppended(c1, code, s, NO_JUMP, NO_JUMP, jpc1, l);
      FramedTwice(c0, c1, code, js, l.js, s);
      forall r: Regs ensures Gives(order, e, Start(entry, r), Eval(order, e, Start(entry, r)))
                     ensures ReturnsLike(order, e, Start(entry, r), Eval(order, e, Start(entry, r)))
      {
        GivesOne(order, e, Start(entry, r));
        LikeGives(order, e, Start(entry, r), Eval(order, e, Start(entry, r)));
      }
    }

    /** `x = e` for a local variable `x` in register `reg`: the code leaves the value of
        `e` there, and every other register in use as it was. */
    method StoreLocal(e: Expr, reg: nat, ghost js: seq<nat>) returns (ghost l: Lists)
      requires CanBegin(e, js) && reg < nactvar
      modifies this`code, this`jpc, this`k, this`lasttarget, this`freereg, this`entry
      ensures freereg == old(freereg) && IsList(code, jpc, l.js) && l.t == [] && l.f == [] && old(k) <= k
      ensures var s, z := BeginOf(old(code), old(lasttarget)), EntryOf(old(code), old(lasttarget));
              forall r: Regs :: Stored(Start(z, r), RunOf(M(), code, s, Is(VNonReloc(reg)), l, r), l.js, reg, Eval(order, e, Start(z, r)), freereg)
      ensures var s, z := BeginOf(old(code), old(lasttarget)), EntryOf(old(code), old(lasttarget));
              forall r: Regs, v: Val | Gives(order, e, Start(z, r), v) ::
                Stored(Start(z, r), RunOf(M(), code, s, Is(VNonReloc(reg)), l, r), l.js, reg, v, freereg)
      ensures Framed(old(code), code, js, BeginOf(old(code), old(lasttarget)))
    {
      hide Tidy, Means, Framed, IsList, Run, RunOf, NilSafe, BeginsAt, Gives, Eval, Start, Stored;
      ghost var s, base, c0 := BeginOf(code, lasttarget), freereg, code;
      entry := EntryOf(code, lasttarget);
      BeginsHere(code, lasttarget);
      NeedOne(e);
      var v;
      v, l := Subexpr(e, s, base, js);
      FreeExp(v, base);
      ghost var ca, ja := code, l.js;
      v, l := Exp2Reg(v, reg, e, s, base, reg, l);
      FramedTwice(c0, ca, code, js, ja, s);
      TidyParts(code, s, NO_JUMP, NO_JUMP, jpc, l);
      StoredAll(M(), code, s, e, base, reg, l, entry);
      forall r: Regs, v: Val | Gives(order, e, Start(entry, r), v) ensures v == Eval(order, e, Start(entry, r)) {
        EvalGives(order, e, Start(entry, r), v);
      }
    }
  }

  // ----- facts about lists -----

  lemma LastOf(code: seq<Instr>, h: int, l: seq<nat>, i: nat)
    requires IsList(code, h, l) && i < |l| && GetJump(code, l[i]) == NO_JUMP
    ensures i == |l| - 1
  {
  }

  lemma HeadEnd(code: seq<Instr>, l: seq<nat>, i: nat)
    requires i <= |l| && Head(l, i) == NO_JUMP
    ensures i == |l|
  {
  }

  lemma ListParts(code: seq<Instr>, h: int, l: seq<nat>)
    requires IsList(code, h, l)
    ensures NoDup(l) && AllJumps(code, l) && Linked(code, l) && h == Head(l, 0)
  {
  }

  lemma ListStep(code: seq<Instr>, l: seq<nat>, i: nat)
    requires AllJumps(code, l) && Linked(code, l) && i < |l|
    ensures l[i] < |code| && code[l[i]].Jmp? && GetJump(code, l[i]) == Head(l, i + 1)
  {
  }

  lemma PatchedNone(code: seq<Instr>, l: seq<nat>, vtarget: nat, reg: nat, dtarget: int)
    ensures Patched(code, code, l[..0], vtarget, reg, dtarget)
  {
  }

  lemma PatchedStep(code: seq<Instr>, c: seq<Instr>, l: seq<nat>, k: nat, vtarget: nat, reg: nat, dtarget: int, c2: seq<Instr>, c': seq<Instr>)
    requires k < |l| && NoDup(l) && AllJumps(code, l) && Linked(code, l) && Patched(code, c, l[..k], vtarget, reg, dtarget)
    requires l[k] < |c| && c2 == if Carries(c, l[k]) then c[l[k] - 1 := PatchReg(c[l[k] - 1], reg)] else c
    requires c' == c2[l[k] := Jmp((if Carries(c, l[k]) then vtarget else dtarget) - (l[k] + 1))]
    ensures Patched(code, c', l[..k + 1], vtarget, reg, dtarget)
  {
    hide Patched, Linked;
    PatchedRest(code, c, l, k, vtarget, reg, dtarget);
    PatchedMore(code, c, l, k, vtarget, reg, dtarget, c');
  }

  lemma PatchedLength(code: seq<Instr>, c: seq<Instr>, l: seq<nat>, vtarget: nat, reg: nat, dtarget: int)
    requires Patched(code, c, l, vtarget, reg, dtarget)
    ensures |c| == |code|
  {
  }

  /** The TESTSETs of the jumps in `l` have become TESTs. */
  ghost predicate NoValues(code: seq<Instr>, code': seq<Instr>, l: seq<nat>) {
    && |code'| == |code|
    && forall p :: 0 <= p < |code| ==> code'[p] == if p + 1 in l && code[p].TestSet? then Test(code[p].b, code[p].c) else code[p]
  }

  lemma NoValuesNone(code: seq<Instr>, l: seq<nat>)
    ensures NoValues(code, code, l[..0])
  {
  }

  lemma NoValuesRest(code: seq<Instr>, c: seq<Instr>, l: seq<nat>, i: nat)
    requires i < |l| && NoDup(l) && AllJumps(code, l) && NoValues(code, c, l[..i])
    ensures l[i] < |c| == |code| && c[l[i]].Jmp? && c[l[i]] == code[l[i]] && (Carries(c, l[i]) <==> Carries(code, l[i]))
    ensures Carries(code, l[i]) ==> c[l[i] - 1] == code[l[i] - 1]
  {
    assert l[i] !in l[..i];
  }

  lemma NoValuesMore(code: seq<Instr>, c: seq<Instr>, l: seq<nat>, i: nat, c': seq<Instr>)
    requires i < |l| && NoDup(l) && AllJumps(code, l) && NoValues(code, c, l[..i])
    requires c' == if Carries(c, l[i]) then c[l[i] - 1 := PatchReg(c[l[i] - 1], NO_REG)] else c
    ensures NoValues(code, c', l[..i + 1])
  {
    NoValuesRest(code, c, l, i);
    assert l[..i + 1] == l[..i] + [l[i]];
    forall p | 0 <= p < |code|
      ensures c'[p] == if p + 1 in l[..i + 1] && code[p].TestSet? then Test(code[p].b, code[p].c) else code[p]
    {
      assert p + 1 in l[..i + 1] <==> p + 1 in l[..i] || p + 1 == l[i];
    }
  }

  lemma NoValuesJump(code: seq<Instr>, c: seq<Instr>, l: seq<nat>, i: nat, j: nat)
    requires j < |l| && i <= |l| && AllJumps(code, l) && Linked(code, l) && NoValues(code, c, l[..i])
    ensures l[j] < |c| && c[l[j]].Jmp? && c[l[j]] == code[l[j]] && GetJump(c, l[j]) == Head(l, j + 1)
  {
  }

  lemma AppendedNone(code: seq<Instr>, code': seq<Instr>, n: nat)
    requires Appended(code, code', n, []) && n == |code|
    ensures code'[..n] == code
  {
  }

  /** Appending more keeps what was appended. */
  lemma AppendedLonger(code: seq<Instr>, c: seq<Instr>, code': seq<Instr>, n: nat, js: seq<nat>)
    requires Appended(code, c, n, js) && |code'| >= |c| && code'[..|c|] == c
    ensures Appended(code, code', n, js)
  {
  }

  lemma LongerList(code: seq<Instr>, code': seq<Instr>, h: int, l: seq<nat>)
    requires IsList(code, h, l) && |code'| >= |code| && code'[..|code|] == code
    ensures IsList(code', h, l)
  {
    assert forall p :: 0 <= p < |code| ==> code'[p] == code'[..|code|][p];
    ListBelow(code, h, l);
    SameList(code, code', h, l);
  }

  lemma NewJump(code: seq<Instr>, j: nat)
    requires j + 1 == |code| && code[j] == Jmp(NO_JUMP) && Closed(code[..j])
    ensures IsList(code, j, [j])
  {
    if j > 0 { assert code[..j][j - 1] == code[j - 1]; }
  }

  lemma TestedJump(code: seq<Instr>, j: nat)
    requires 0 < j && j + 1 == |code| && code[j] == Jmp(NO_JUMP) && (code[j - 1].TestSet? ==> code[j - 1].a == NO_REG)
    ensures IsList(code, j, [j])
  {
  }

  lemma JumpApart(j: nat, js: seq<nat>)
    requires AllBelow(js, j)
    ensures Disjoint([j], js)
  {
  }

  lemma RelinkedPrefix(code: seq<Instr>, code': seq<Instr>, j: nat)
    requires j + 1 == |code| && Relinked(code, code', [j])
    ensures |code'| == j + 1 && code'[..j] == code[..j] && (code[j].Jmp? ==> code'[j].Jmp?)
  {
    assert forall p :: 0 <= p < j ==> p !in [j];
  }

  /** A local variable is already in its register. */
  lemma LocalMeans(m: Machine, code: seq<Instr>, s: nat, e: Expr, base: nat, w: int, r: nat, l: Lists, z: Entry)
    requires Means(m, code, s, e, base, -1, Is(VLocal(r)), l, z)
    ensures Means(m, code, s, e, base, w, Is(VNonReloc(r)), l, z)
  {
    hide Means;
    MeansWeaker(m, code, s, e, base, Is(VLocal(r)), Is(VNonReloc(r)), l, z);
    MeansWider(m, code, s, e, base, w, Is(VNonReloc(r)), l, z);
  }

  /** A jump more on one side. */
  ghost function AddTo(l: Lists, side: bool, j: nat): Lists {
    if side then Lists(l.t + [j], l.f, l.js) else Lists(l.t, l.f + [j], l.js)
  }

  lemma AddTidy(code: seq<Instr>, s: nat, t: int, f: int, jpc: int, l: Lists, side: bool, j: nat)
    requires Tidy(code, s, t, f, jpc, l) && IsList(code, j, [j]) && j !in l.t && j !in l.f && j !in l.js
    ensures Disjoint(if side then l.t else l.f, [j])
  {
  }

  lemma AddedTidy(code: seq<Instr>, code': seq<Instr>, s: nat, t: int, f: int, jpc: int, l: Lists, side: bool, j: nat, t': int, f': int, k: seq<nat>)
    requires Tidy(code, s, t, f, jpc, l) && IsList(code, j, [j]) && Inside(code, s, [j]) && j !in l.t && j !in l.f && j !in l.js
    requires Relinked(code, code', k) && k == if side then l.t else l.f
    requires if side then f' == f && IsList(code', t', l.t + [j]) else t' == t && IsList(code', f', l.f + [j])
    ensures Tidy(code', s, t', f', jpc, AddTo(l, side, j))
    ensures (forall p :: 0 <= p < s ==> code'[p] == code[p]) && |code'| == |code| > s
    ensures forall p :: 0 <= p < |code| && !code[p].Jmp? ==> code'[p] == code[p]
  {
    hide IsList;
    TidyRelinked(code, code', s, t, f, jpc, l, k);
    RelinkedCarries(code, code', k);
    DisjointFlip(l.t, l.f);
    ListBelow(code, j, [j]);
    assert j in [j];
    assert forall p :: p in k ==> s <= p;
  }

  lemma AddedMeans(m: Machine, code: seq<Instr>, code': seq<Instr>, s: nat, e: Expr, base: nat, g: Goal, l: Lists, side: bool, j: nat, k: seq<nat>, z: Entry)
    requires Means(m, code, s, e, base, -1, g, AddTo(l, side, j), z) && StopOf(g, |code|) == |code| && s <= |code|
    requires Relinked(code, code', k) && k == if side then l.t else l.f
    requires exists t, f, jpc :: Tidy(code, s, t, f, jpc, l)
    requires IsList(code, j, [j])
    ensures Means(m, code', s, e, base, -1, g, AddTo(l, side, j), z)
  {
    hide Means, Relinked, Tidy, IsList;
    var t, f, jpc :| Tidy(code, s, t, f, jpc, l);
    TidyOpen(code, s, t, f, jpc, l);
    var l' := AddTo(l, side, j);
    OpenPend(l);
    OpenPend(l');
    UnsetOne(code, j);
    ExtendsSelf(m);
    forall p ensures p in Elems(k) ==> p in Pend(l') {}
    MeansRelinked(m, m, code, code', s, e, base, -1, g, l', k, z);
  }

  lemma UnsetOne(code: seq<Instr>, j: nat)
    requires IsList(code, j, [j])
    ensures j < |code| && code[j].Jmp? && (Carries(code, j) ==> code[j - 1].a == NO_REG)
  {
    assert j in [j];
    assert [j][0] == j;
  }

  lemma HeadsDiffer(t: int, f: int, l: Lists)
    requires Disjoint(l.t, l.f) && (t == NO_JUMP <==> l.t == []) && (f == NO_JUMP <==> l.f == [])
    requires (l.t != [] ==> t == l.t[0]) && (l.f != [] ==> f == l.f[0])
    ensures t != f <==> l.t != [] || l.f != []
  {
    if l.t != [] && l.f != [] { assert l.t[0] in l.t && l.f[0] in l.f; }
  }

  lemma PrefixSelf(code: seq<Instr>)
    ensures code[..|code|] == code
  {
  }

  lemma LongerCarries(code: seq<Instr>, code2: seq<Instr>, l: Lists)
    requires |code2| >= |code| && code2[..|code|] == code && AllBelow(l.t, |code|) && AllBelow(l.f, |code|)
    ensures forall j :: (j in l.t || j in l.f) ==> (Carries(code2, j) <==> Carries(code, j))
  {
    PrefixSame(code, code2);
  }

  /** What falls out of the expression reaches the end with the value in the register. */
  lemma FinishTail(code: seq<Instr>, code2: seq<Instr>, code3: seq<Instr>, code4: seq<Instr>, l: Lists, js: seq<nat>, g: Goal, reg: nat,
                   pf: int, pt: int, jumped: bool)
    requires AllBelow(l.t, |code|) && AllBelow(l.f, |code|)
    requires Patched(code2, code3, l.f, |code2|, reg, pf) && Patched(code3, code4, l.t, |code2|, reg, pt)
    requires if jumped then g == Is(VFalse) && |code2| > |code| && pf == |code| && Loader(code2, pf, reg, false)
             else g == Is(VNonReloc(reg)) && (|code2| == |code| || (|code2| > |code| && code2[|code|].Jmp? && |code| in js))
    ensures FinalTail(code4, js, g, reg, |code|) && |code4| == |code2|
  {
    var n := |code|;
    if n < |code2| {
      assert code3[n] == PatchAt(code2, l.f, |code2|, reg, pf, n);
      assert code4[n] == PatchAt(code3, l.t, |code2|, reg, pt, n);
    }
  }

  /** The jump of a comparison is in no list yet. */
  lemma JumpFree(code: seq<Instr>, s: nat, v: Exp, jpc: int, l: Lists)
    requires Tidy(code, s, v.t, v.f, jpc, l) && v.k.VJmp? && KindOk(code, s, v.k, l)
    ensures IsList(code, v.k.j, [v.k.j]) && Inside(code, s, [v.k.j]) && v.k.j !in l.t && v.k.j !in l.f && v.k.j !in l.js && Open(code, l, v.k.j - 1)
  {
    TestedJump(code, v.k.j);
    OpenBefore(code, s, v.t, v.f, jpc, l, v.k);
  }

  lemma SameFramed(code: seq<Instr>, code': seq<Instr>, js: seq<nat>, s: nat)
    requires |code'| == |code| > s && forall p :: 0 <= p < s ==> code'[p] == code[p]
    ensures Framed(code, code', js, s)
  {
  }

  lemma JumpBare(code: seq<Instr>, code': seq<Instr>, j: nat, l: Lists)
    requires 0 < j < |code| == |code'| && code[j - 1].Compare? && code'[j - 1] == code[j - 1] && j in l.t
    ensures exists i :: i in l.t && !Carries(code', i)
  {
    assert j in l.t && !Carries(code', j);
  }

  lemma NoLists(code: seq<Instr>, s: nat, v: Exp, jpc: int, l: Lists)
    requires Tidy(code, s, v.t, v.f, jpc, l) && !HasJumps(v)
    ensures l.t == [] && l.f == [] && v.t == NO_JUMP && v.f == NO_JUMP && s <= |code|
  {
    ListBelow(code, v.t, l.t);
    ListBelow(code, v.f, l.f);
    ListParts(code, v.t, l.t);
    ListParts(code, v.f, l.f);
    HeadsDiffer(v.t, v.f, l);
  }

  /** Taking back the last instruction, which nothing jumps past. */
  lemma TidyCut(code: seq<Instr>, code': seq<Instr>, s: nat, t: int, f: int, jpc: int, l: Lists, pc: nat)
    requires Tidy(code, s, t, f, jpc, l) && KindOk(code, s, VRelocable(pc), l) && code' == code[..pc]
    ensures IsList(code', t, l.t) && IsList(code', f, l.f) && IsList(code', NO_JUMP, []) && jpc == NO_JUMP
    ensures Tidy(code', s, t, f, NO_JUMP, Lists(l.t, l.f, []))
  {
    hide IsList;
    ListBelow(code, jpc, l.js);
    EmptyList(code');
    EmptyInside(code', s);
    forall j | j in l.t || j in l.f ensures SameJump(code, code', j) {}
    SameList(code, code', t, l.t);
    SameList(code, code', f, l.f);
    SameInside(code, code', s, l.t);
    SameInside(code, code', s, l.f);
  }

  lemma CutFramed(code: seq<Instr>, code1: seq<Instr>, code': seq<Instr>, s: nat, pc: nat, js: seq<nat>)
    requires pc + 1 == |code| && s <= pc && code1 == code[..pc] && |code'| > pc && code'[..pc] == code1
    ensures Framed(code, code', js, s)
  {
    assert forall p :: 0 <= p < pc ==> code'[p] == code'[..pc][p] && code1[p] == code[p];
  }

  /** The jump just coded is in no list yet. */
  lemma NewJumpFree(code: seq<Instr>, code': seq<Instr>, s: nat, v: Exp, jpc: int, l: Lists, j: nat)
    requires Tidy(code, s, v.t, v.f, jpc, l) && j == |code| + 1 && |code'| == j + 1
    ensures Inside(code', s, [j]) && j !in l.t && j !in l.f && j !in l.js && s <= |code|
  {
    ListBelow(code, v.t, l.t);
    ListBelow(code, v.f, l.f);
    ListBelow(code, jpc, l.js);
  }

  lemma HereTidy(code: seq<Instr>, code': seq<Instr>, s: nat, t: int, f: int, jpc: int, jpc': int, l: Lists, pass: bool, l': Lists)
    requires Tidy(code, s, t, f, jpc, l) && Relinked(code, code', l.js)
    requires l' == if pass then Lists([], l.f, l.js + l.t) else Lists(l.t, [], l.js + l.f)
    requires IsList(code', jpc', l'.js) && ((if pass then l.t else l.f) == [] || l.js == [] ==> code' == code)
    ensures Tidy(code', s, if pass then NO_JUMP else t, if pass then f else NO_JUMP, jpc', l')
    ensures Framed(code, code', l.js, s) && (|code'| == s ==> l' == Lists([], [], l.js))
  {
    hide IsList, Relinked;
    DisjointFlip(l.t, l.js);
    DisjointFlip(l.f, l.js);
    TidyRelinked(code, code', s, t, f, jpc, l, l.js);
    RelinkedCarries(code, code', l.js);
    JumpAfter(code, s, t, l.t);
    JumpAfter(code, s, f, l.f);
    EmptyList(code');
    EmptyInside(code', s);
    if |code| > s { RelinkedFramed(code, code', l.js, s, l.js); }
  }

  /** Negating a comparison keeps the lists. */
  lemma FlipTidy(code: seq<Instr>, code': seq<Instr>, s: nat, v: Exp, jpc: int, l: Lists)
    requires Tidy(code, s, v.t, v.f, jpc, l) && v.k.VJmp? && KindOk(code, s, v.k, l) && code' == code[v.k.j - 1 := Flip(code[v.k.j - 1])]
    ensures Tidy(code', s, v.t, v.f, jpc, l) && KindOk(code', s, v.k, l) && IsList(code', v.k.j, [v.k.j]) && Inside(code', s, [v.k.j])
    ensures forall p :: 0 <= p < s ==> code'[p] == code[p]
  {
    hide IsList;
    ListBelow(code, v.t, l.t);
    ListBelow(code, v.f, l.f);
    ListBelow(code, jpc, l.js);
    forall j | j in l.t || j in l.f || j in l.js ensures SameJump(code, code', j) {}
    SameList(code, code', v.t, l.t);
    SameList(code, code', v.f, l.f);
    SameList(code, code', jpc, l.js);
    SameInside(code, code', s, l.t);
    SameInside(code, code', s, l.f);
    SameInside(code, code', s, l.js);
    TestedJump(code', v.k.j);
  }

  // ----- facts about negation -----

  /** The end of the second code is the negation of the end of the first. */
  ghost predicate Negates(m: Machine, code: seq<Instr>, g: Goal, code': seq<Instr>, g': Goal) {
    forall r: Regs, v: Val :: Holds(m, code, g, r, v) ==> Holds(m, code', g', r, Bool(!Truthy(v)))
  }

  lemma NegatesConst(m: Machine, code: seq<Instr>, k: Kind, k': Kind)
    requires ((k.VNil? || k.VFalse?) && k' == VTrue) || ((k.VK? || k.VKInt? || k.VTrue?) && k' == VFalse && ConstOk(m.k, k))
    ensures Negates(m, code, Is(k), code, Is(k'))
  {
  }

  lemma NegatesJump(m: Machine, code: seq<Instr>, code': seq<Instr>, j: nat)
    requires 0 < j <= |code| && code[j - 1].Compare? && code' == code[j - 1 := Flip(code[j - 1])]
    ensures Negates(m, code, Is(VJmp(j)), code', Is(VJmp(j)))
  {
    forall r: Regs, v: Val | Holds(m, code, Is(VJmp(j)), r, v) ensures Holds(m, code', Is(VJmp(j)), r, Bool(!Truthy(v))) {
      FlipTaken(m, code[j - 1], r);
    }
  }

  lemma NegatesValue(m: Machine, code: seq<Instr>, code': seq<Instr>, r: nat, pc: nat)
    requires pc < |code'| && code'[pc] == Not(0, r)
    ensures Negates(m, code, Is(VNonReloc(r)), code', Is(VRelocable(pc)))
  {
  }

  /** The instructions an end depends on are not TESTSETs. */
  lemma NegatesStill(m: Machine, code: seq<Instr>, g: Goal, code1: seq<Instr>, code': seq<Instr>, s: nat, k: Kind, l: Lists)
    requires Negates(m, code, g, code1, Is(k)) && KindOk(code1, s, k, l) && |code'| == |code1|
    requires forall p :: 0 <= p < |code1| && !code1[p].TestSet? ==> code'[p] == code1[p]
    ensures forall r: Regs, v: Val :: Holds(m, code, g, r, v) ==> Holds(m, code', Is(k), r, Bool(!Truthy(v)))
  {
    forall r: Regs, v: Val | Holds(m, code, g, r, v) ensures Holds(m, code', Is(k), r, Bool(!Truthy(v))) {
      assert Holds(m, code1, Is(k), r, Bool(!Truthy(v)));
    }
  }

  lemma AppendedLength(code: seq<Instr>, code': seq<Instr>, n: nat, js: seq<nat>)
    requires Appended(code, code', n, js)
    ensures n <= |code| && n <= |code'|
  {
  }

  lemma AppendedFlip(code: seq<Instr>, code': seq<Instr>, n: nat)
    requires n <= |code| == |code'| && forall p :: 0 <= p < n ==> code'[p] == code[p]
    ensures Appended(code, code', n, [])
  {
  }

  lemma NoValuesTidy(code: seq<Instr>, code': seq<Instr>, s: nat, t: int, f: int, jpc: int, l: Lists, k: seq<nat>)
    requires Tidy(code, s, t, f, jpc, l) && NoValues(code, code', k)
    ensures Tidy(code', s, t, f, jpc, l)
  {
    hide IsList;
    NoValuesList(code, code', k, t, l.t);
    NoValuesList(code, code', k, f, l.f);
    NoValuesList(code, code', k, jpc, l.js);
  }

  lemma NoValuesList(code: seq<Instr>, code': seq<Instr>, k: seq<nat>, h: int, l: seq<nat>)
    requires IsList(code, h, l) && NoValues(code, code', k)
    ensures IsList(code', h, l)
    ensures forall j :: j in l && Carries(code', j) ==> Carries(code, j)
  {
    forall i | 0 <= i < |l| ensures l[i] < |code'| && code'[l[i]] == code[l[i]] {}
    forall j | j in l && Carries(code', j) ensures code'[j - 1].a == NO_REG { assert Carries(code, j); }
  }

  lemma NoValuesSame(code: seq<Instr>, c: seq<Instr>, code': seq<Instr>, s: nat, v: Exp, jpc: int, l: Lists)
    requires Tidy(code, s, v.t, v.f, jpc, l) && NoValues(code, c, l.t) && NoValues(c, code', l.f)
    ensures |code'| == |code| && forall p :: 0 <= p < |code| && (p < s || !code[p].TestSet?) ==> code'[p] == code[p]
  {
    hide IsList;
    forall p | 0 <= p < |code| && (p < s || !code[p].TestSet?) ensures code'[p] == code[p] {
      assert code[p].TestSet? ==> Carries(code, p + 1);
    }
  }

  lemma KindSwap(code: seq<Instr>, code': seq<Instr>, s: nat, k: Kind, l: Lists)
    requires KindOk(code, s, k, l) && |code'| == |code| && forall p :: 0 <= p < |code| && !code[p].TestSet? ==> code'[p] == code[p]
    ensures KindOk(code', s, k, Lists(l.f, l.t, l.js))
  {
    if k.VRelocable? && k.pc > 0 {
      assert code[..k.pc][k.pc - 1] == code[k.pc - 1];
      assert code'[..k.pc][k.pc - 1] == code'[k.pc - 1];
    }
  }

  lemma SwapTidy(code: seq<Instr>, s: nat, t: int, f: int, jpc: int, l: Lists)
    requires Tidy(code, s, t, f, jpc, l)
    ensures Tidy(code, s, f, t, jpc, Lists(l.f, l.t, l.js))
  {
    hide IsList, Inside;
    DisjointFlip(l.t, l.f);
  }

  lemma NotKind(code: seq<Instr>, code': seq<Instr>, s: nat, t: int, f: int, jpc: int, l: Lists, pc: nat)
    requires Tidy(code, s, t, f, jpc, l) && Appended(code, code', |code|, l.js) && pc == |code| && |code'| == pc + 1 && code'[pc].Not?
    ensures KindOk(code', s, VRelocable(pc), Lists(l.t, l.f, []))
  {
    hide IsList;
    ListBelow(code, t, l.t);
    ListBelow(code, f, l.f);
    if pc > 0 {
      assert code'[..pc][pc - 1] == code'[pc - 1] == PatchAt(code, l.js, pc, NO_REG, pc, pc - 1);
    }
  }

  lemma NotFramed(code: seq<Instr>, code1: seq<Instr>, code': seq<Instr>, s: nat, l: Lists, v: Exp, jpc: int)
    requires Tidy(code, s, v.t, v.f, jpc, l) && |code| == |code1| == |code'|
    requires (forall p :: 0 <= p < |code| && p < s ==> code1[p] == code[p]) && (forall p :: 0 <= p < |code1| && p < s ==> code'[p] == code1[p])
    ensures Framed(code, code', l.js, s) && (|code'| == s ==> l == Lists([], [], l.js))
  {
    hide IsList;
    JumpAfter(code, s, v.t, l.t);
    JumpAfter(code, s, v.f, l.f);
  }

  lemma NilOkSame(code: seq<Instr>, code': seq<Instr>, lasttarget: nat, s: nat, z: Entry)
    requires NilOk(code, lasttarget, s, z) && |code'| == |code| && (code != [] ==> code'[|code| - 1] == code[|code| - 1])
    ensures NilOk(code', lasttarget, s, z)
  {
  }

  lemma JumpKind(code: seq<Instr>, s: nat, k: Kind, l: Lists, lasttarget: nat)
    requires k.VJmp? && KindOk(code, s, k, l)
    ensures |code| == k.j + 1 && s < k.j && code[k.j - 1].Compare? && l.js == [] && NilSafe(code, lasttarget)
    ensures StopOf(Is(k), |code|) == k.j - 1
  {
  }

  /** The last instruction is not a test, and stays what it is. */
  lemma LastSame(code: seq<Instr>, code': seq<Instr>, s: nat, t: int, f: int, jpc: int, l: Lists)
    requires Tidy(code, s, t, f, jpc, l) && |code'| == |code| && forall p :: 0 <= p < |code| && !code[p].TestSet? ==> code'[p] == code[p]
    ensures code != [] ==> code'[|code| - 1] == code[|code| - 1]
  {
    hide IsList;
  }

  /** Patching to the end, then removing values from both lists, strips the tests. */
  lemma StrippedBuilt(code: seq<Instr>, c1: seq<Instr>, c2: seq<Instr>, c3: seq<Instr>, l: Lists, l': Lists, jp: seq<nat>, s: nat, n: nat)
    requires Open(code, l, n) && Disjoint(l.t, l.js) && Disjoint(l.f, l.js) && n <= |code|
    requires l'.t == l.f && l'.f == l.t && ((jp == [] && l'.js == l.js) || (jp == l.js && l'.js == []))
    requires Appended(code, c1, n, jp) && NoValues(c1, c2, l.t) && NoValues(c2, c3, l.f)
    ensures Stripped(code, c3, l, l', s, n)
  {
    OpenPend(l);
    OpenPend(l');
    forall p | 0 <= p < n ensures StripAt(code, c3, l, l', jp, n, p) {
      StripHere(code, c1, c2, c3, l, l', jp, n, p);
    }
    forall p | s <= p < n ensures AgreeAt(code, c3, Pend(l), Pend(l'), n, p) {
      assert StripAt(code, c3, l, l', jp, n, p);
      StripAgree(code, c3, l, l', jp, n, p);
    }
    forall j | j in Pend(l)
      ensures j < n && (Carries(c3, j) ==> c3[j - 1].a == NO_REG)
      ensures (j in l.t || j in l.f) ==> !Carries(c3, j) && (j > 0 ==> IsTest(c3[j - 1]) == IsTest(code[j - 1]))
      ensures j in l.js && l'.js != l.js ==> Sent(c3, j, n)
    {
      assert StripAt(code, c3, l, l', jp, n, j);
      if j > 0 { assert StripAt(code, c3, l, l', jp, n, j - 1); }
    }
  }

  ghost predicate StripAt(code: seq<Instr>, c3: seq<Instr>, l: Lists, l': Lists, jp: seq<nat>, n: nat, p: nat) {
    && p < |code| && p < |c3|
    && c3[p] == if p in jp then Jmp(n - (p + 1))
                else if code[p].TestSet? && (p + 1 in jp || p + 1 in l.t || p + 1 in l.f) then Test(code[p].b, code[p].c)
                else code[p]
  }

  lemma StripHere(code: seq<Instr>, c1: seq<Instr>, c2: seq<Instr>, c3: seq<Instr>, l: Lists, l': Lists, jp: seq<nat>, n: nat, p: nat)
    requires Open(code, l, n) && Disjoint(l.t, l.js) && Disjoint(l.f, l.js) && n <= |code| && p < n && (jp == [] || jp == l.js)
    requires Appended(code, c1, n, jp) && NoValues(c1, c2, l.t) && NoValues(c2, c3, l.f)
    ensures StripAt(code, c3, l, l', jp, n, p)
  {
    OpenPend(l);
    assert c1[p] == PatchAt(code, jp, n, NO_REG, n, p);
  }

  lemma StripAgree(code: seq<Instr>, c3: seq<Instr>, l: Lists, l': Lists, jp: seq<nat>, n: nat, p: nat)
    requires Open(code, l, n) && Disjoint(l.t, l.js) && Disjoint(l.f, l.js) && StripAt(code, c3, l, l', jp, n, p) && p < n
    requires l'.t == l.f && l'.f == l.t && ((jp == [] && l'.js == l.js) || (jp == l.js && l'.js == []))
    ensures AgreeAt(code, c3, Pend(l), Pend(l'), n, p)
  {
    OpenPend(l);
    OpenPend(l');
    assert code[p].TestSet? ==> Carries(code, p + 1);
  }

  // ----- facts about binary operators -----

  /** The lists of the two operands do not meet. */
  lemma LogicLists(c1: seq<Instr>, c2: seq<Instr>, s: nat, v1: Exp, jpc1: int, l1: Lists, v: Exp, jpc: int, l2: Lists, cond: bool)
    requires Tidy(c1, s, v1.t, v1.f, jpc1, l1) && Tidy(c2, |c1|, v.t, v.f, jpc, l2) && Grown(c1, c2, l1.js)
    requires |c2| == |c1| ==> l2 == Lists([], [], l1.js)
    ensures IsList(c2, v1.t, l1.t) && IsList(c2, v1.f, l1.f) && IsList(c2, v.t, l2.t) && IsList(c2, v.f, l2.f) && IsList(c2, jpc, l2.js)
    ensures Disjoint(l2.t, l1.t) && Disjoint(l2.f, l1.f) && Disjoint(l2.t, l1.f) && Disjoint(l2.f, l1.t)
    ensures Disjoint(l1.t, l2.js) && Disjoint(l1.f, l2.js) && Inside(c2, s, l1.t) && Inside(c2, s, l1.f)
    ensures forall j :: j in l1.t || j in l1.f ==> s <= j < |c1|
    ensures |c2| > |c1| ==> forall j :: j in Pend(l2) ==> |c1| <= j
    ensures Open(c1, l1, |c1|) && Disjoint(l1.t, l1.js) && Disjoint(l1.f, l1.js) && s <= |c1| <= |c2|
  {
    hide IsList, Appended;
    TidyOpen(c1, s, v1.t, v1.f, jpc1, l1);
    ListBelow(c1, v1.t, l1.t);
    ListBelow(c1, v1.f, l1.f);
    ListBelow(c1, jpc1, l1.js);
    OpenPend(l2);
    DisjointFlip(l1.t, l1.js);
    DisjointFlip(l1.f, l1.js);
    if |c2| > |c1| {
      AppendedList(c1, c2, |c1|, l1.js, v1.t, l1.t);
      AppendedList(c1, c2, |c1|, l1.js, v1.f, l1.f);
      AppendedInside(c1, c2, |c1|, l1.js, s, l1.t);
      AppendedInside(c1, c2, |c1|, l1.js, s, l1.f);
    }
  }

  lemma LogicSound(m1: Machine, m2: Machine, c1: seq<Instr>, c2: seq<Instr>, s: nat, x: Expr, y: Expr, cond: bool, base: nat, nact: nat,
                   v1: Exp, jpc1: int, l1: Lists, v: Exp, jpc: int, l2: Lists, z: Entry)
    requires Tidy(c1, s, v1.t, v1.f, jpc1, l1) && Tidy(c2, |c1|, v.t, v.f, jpc, l2) && KindOk(c2, |c1|, v.k, l2) && Grown(c1, c2, l1.js)
    requires Means(m1, c1, s, x, base, -1, Passes(cond), l1, z) && Means(m2, c2, |c1|, y, base, -1, Is(v.k), l2, Direct) && Extends(m1, m2)
    requires (if cond then l1.t else l1.f) == [] && Scoped(y, nact) && nact <= base && (|c2| == |c1| ==> l2 == Lists([], [], l1.js))
    ensures Means(m2, c2, s, Logic(cond, x, y), base, -1, Is(v.k), Lists(l2.t + l1.t, l2.f + l1.f, l2.js), z)
  {
    hide Tidy, Means, Grown, KindOk;
    LogicLists(c1, c2, s, v1, jpc1, l1, v, jpc, l2, cond);
    OpenBefore(c2, |c1|, v.t, v.f, jpc, l2, v.k);
    LogicMeans(m1, m2, c1, c2, s, x, y, cond, base, nact, Is(v.k), l1, l2, Lists(l2.t + l1.t, l2.f + l1.f, l2.js), z);
  }

  lemma LogicRelinked(m: Machine, code: seq<Instr>, code': seq<Instr>, s: nat, e: Expr, base: nat, k: Kind, l: Lists, rel: seq<nat>, z: Entry)
    requires Means(m, code, s, e, base, -1, Is(k), l, z) && Relinked(code, code', rel) && Elems(rel) <= Pend(l)
    requires Open(code, l, |code|) && s <= StopOf(Is(k), |code|) <= |code|
    ensures Means(m, code', s, e, base, -1, Is(k), l, z)
  {
    hide Means, Relinked;
    ExtendsSelf(m);
    MeansRelinked(m, m, code, code', s, e, base, -1, Is(k), l, rel, z);
  }

  lemma LogicOpen(c1: seq<Instr>, c2: seq<Instr>, s: nat, v1: Exp, jpc1: int, l1: Lists, v: Exp, jpc: int, l2: Lists, l: Lists, cond: bool)
    requires Tidy(c1, s, v1.t, v1.f, jpc1, l1) && Tidy(c2, |c1|, v.t, v.f, jpc, l2) && KindOk(c2, |c1|, v.k, l2) && Grown(c1, c2, l1.js)
    requires |c2| == |c1| ==> l2 == Lists([], [], l1.js)
    requires l == Lists(l2.t + l1.t, l2.f + l1.f, l2.js)
    ensures Open(c2, l, |c2|) && Elems(l2.t) <= Pend(l) && Elems(l2.f) <= Pend(l) && s <= StopOf(Is(v.k), |c2|) <= |c2|
  {
    hide Tidy, IsList, Grown, Open, KindOk;
    LogicLists(c1, c2, s, v1, jpc1, l1, v, jpc, l2, cond);
    OpenBefore(c2, |c1|, v.t, v.f, jpc, l2, v.k);
    ListOpen(c2, v1.t, l1.t);
    ListOpen(c2, v1.f, l1.f);
    ListOpen(c2, v.t, l2.t);
    ListOpen(c2, v.f, l2.f);
    ListOpen(c2, jpc, l2.js);
    OpenPend(l);
    OpenAll(c2, l);
  }

  lemma ListOpen(code: seq<Instr>, h: int, l: seq<nat>)
    requires IsList(code, h, l)
    ensures forall j :: j in l ==> j < |code| && code[j].Jmp? && (Carries(code, j) ==> code[j - 1].a == NO_REG)
  {
    ListBelow(code, h, l);
  }

  lemma OpenAll(code: seq<Instr>, l: Lists)
    requires forall j :: j in l.t || j in l.f || j in l.js ==> j < |code| && code[j].Jmp? && (Carries(code, j) ==> code[j - 1].a == NO_REG)
    ensures Open(code, l, |code|)
  {
    OpenPend(l);
  }

  /** The lists, the end and the frame after the two operands' lists have been joined. */
  lemma LogicTidy(c1: seq<Instr>, c2: seq<Instr>, code: seq<Instr>, s: nat, v1: Exp, jpc1: int, l1: Lists, t2: int, f2: int, v: Exp, jpc: int,
                  l2: Lists, l: Lists, cond: bool, rel: seq<nat>, lasttarget: nat)
    requires Tidy(c1, s, v1.t, v1.f, jpc1, l1) && Tidy(c2, |c1|, t2, f2, jpc, l2) && KindOk(c2, |c1|, v.k, l2) && Grown(c1, c2, l1.js)
    requires |c2| == |c1| ==> l2 == Lists([], [], l1.js)
    requires l == Lists(l2.t + l1.t, l2.f + l1.f, l2.js) && NilSafe(c2, lasttarget) && Relinked(c2, code, rel)
    requires if cond then rel == l2.f && v.t == t2 && l1.t == [] && IsList(code, v.f, l.f)
             else rel == l2.t && v.f == f2 && l1.f == [] && IsList(code, v.t, l.t)
    ensures Tidy(code, s, v.t, v.f, jpc, l) && KindOk(code, s, v.k, l) && NilSafe(code, lasttarget)
    ensures Framed(c1, code, l1.js, s) && (|code| == s ==> l == Lists([], [], l1.js))
  {
    hide IsList, Grown, Relinked, KindOk, Framed, Inside, NilSafe;
    var v2 := Exp(v.k, t2, f2);
    LogicLists(c1, c2, s, v1, jpc1, l1, v2, jpc, l2, cond);
    TidyRelinked(c2, code, |c1|, t2, f2, jpc, l2, rel);
    RelinkedCarries(c2, code, rel);
    SameInside(c2, code, s, l1.t);
    SameInside(c2, code, s, l1.f);
    DisjointFlip(l2.t, l2.f);
    JoinedParts(l, l1, l2);
    InsideJoined(code, s, |c1|, l1, l2, l);
    if |c2| == |c1| && |c1| > s {
      GrownSame(c1, c2, l1.js);
      SameInside(c2, code, s, l1.js);
    }
    KindJoined(c2, code, s, |c1|, v.k, l1, l2, l, rel);
    RelinkedNil(c2, code, rel, lasttarget);
    GrownFramed(c1, c2, l1.js, s);
    FrameJoined(c1, c2, code, s, l1, l2, l, rel);
  }

  lemma GrownSame(code: seq<Instr>, code': seq<Instr>, js: seq<nat>)
    requires Grown(code, code', js) && |code'| == |code|
    ensures code' == code
  {
  }

  lemma JoinedParts(l: Lists, l1: Lists, l2: Lists)
    requires l == Lists(l2.t + l1.t, l2.f + l1.f, l2.js) && Disjoint(l2.t, l2.f) && Disjoint(l1.t, l1.f) && Disjoint(l2.t, l1.f) && Disjoint(l2.f, l1.t)
    requires Disjoint(l2.t, l2.js) && Disjoint(l2.f, l2.js) && Disjoint(l1.t, l2.js) && Disjoint(l1.f, l2.js)
    ensures Disjoint(l.t, l.f) && Disjoint(l.t, l.js) && Disjoint(l.f, l.js)
    ensures (l1.t == [] ==> l.t == l2.t) && (l1.f == [] ==> l.f == l2.f)
  {
  }

  lemma InsideJoined(code: seq<Instr>, s: nat, n: nat, l1: Lists, l2: Lists, l: Lists)
    requires s <= n && Inside(code, n, l2.t) && Inside(code, n, l2.f) && Inside(code, s, l1.t) && Inside(code, s, l1.f)
    requires l == Lists(l2.t + l1.t, l2.f + l1.f, l2.js)
    ensures Inside(code, s, l.t) && Inside(code, s, l.f) && (Inside(code, n, l2.js) ==> Inside(code, s, l.js))
  {
  }

  lemma KindJoined(code: seq<Instr>, code': seq<Instr>, s: nat, n: nat, k: Kind, l1: Lists, l2: Lists, l: Lists, rel: seq<nat>)
    requires KindOk(code, n, k, l2) && Relinked(code, code', rel) && s <= n && l == Lists(l2.t + l1.t, l2.f + l1.f, l2.js)
    requires rel == l2.t || rel == l2.f
    requires forall j :: j in l1.t || j in l1.f ==> j < n
    ensures KindOk(code', s, k, l)
  {
    if k.VRelocable? && k.pc > 0 {
      assert code[..k.pc][k.pc - 1] == code[k.pc - 1];
      assert code'[..k.pc][k.pc - 1] == code'[k.pc - 1];
    }
  }

  lemma RelinkedNil(code: seq<Instr>, code': seq<Instr>, rel: seq<nat>, lasttarget: nat)
    requires NilSafe(code, lasttarget) && Relinked(code, code', rel)
    ensures NilSafe(code', lasttarget)
  {
  }

  lemma FrameJoined(c1: seq<Instr>, c2: seq<Instr>, code: seq<Instr>, s: nat, l1: Lists, l2: Lists, l: Lists, rel: seq<nat>)
    requires Framed(c1, c2, l1.js, s) && Relinked(c2, code, rel) && (rel == l2.t || rel == l2.f) && s <= |c1| <= |c2|
    requires l == Lists(l2.t + l1.t, l2.f + l1.f, l2.js) && (|c2| == |c1| ==> l2 == Lists([], [], l1.js))
    requires (forall j :: j in l1.t || j in l1.f ==> s <= j < |c1|) && (|c2| > |c1| ==> forall j :: j in Pend(l2) ==> |c1| <= j)
    ensures Framed(c1, code, l1.js, s) && (|code| == s ==> l == Lists([], [], l1.js))
  {
    OpenPend(l2);
    if |c2| == |c1| {
      RelinkedFramed(c2, code, l1.js, s, rel);
      if |c1| == s { NoneBelow(l1.t, s); NoneBelow(l1.f, s); }
    } else {
      assert forall p :: 0 <= p < |c1| ==> code[p] == c2[p];
    }
  }

  /** A list of positions both from `s` on and before it is empty. */
  lemma NoneBelow(l: seq<nat>, s: nat)
    requires forall j :: j in l ==> s <= j < s
    ensures l == []
  {
    var first := if l == [] then s else l[0];
    assert l == [] || first in l;
  }

  // ----- facts about comparisons -----

  lemma MoreConstants(m: Machine, m1: Machine, m2: Machine)
    requires Extends(m, m1) && m1.k <= m2.k && m1.order == m2.order
    ensures Extends(m, m2) && Extends(m1, m2)
  {
  }

  lemma CompareIsTest(op: Relation, a: RK, b: RK)
    ensures CompareFor(op, a, b).Compare?
  {
  }

  lemma CompareGrown(c1: seq<Instr>, c: seq<Instr>, c2: seq<Instr>, js1: seq<nat>, js: seq<nat>, js2: seq<nat>)
    requires Grown(c1, c, js1) && Framed(c, c2, js, |c1|) && (|c| == |c1| ==> js == js1) && (|c2| == |c1| ==> js2 == js)
    ensures Grown(c1, c2, js1) && |c1| <= |c2| && (|c2| == |c1| ==> js2 == js1)
  {
    hide Appended;
    FramedLonger(c, c2, js, |c1|);
    GrownIsFramed(c1, c, js1);
    FramedTwice(c1, c, c2, js1, js, |c1|);
  }

  lemma GrownIsFramed(code: seq<Instr>, code': seq<Instr>, js: seq<nat>)
    requires Grown(code, code', js)
    ensures Framed(code, code', js, |code|)
  {
  }

  /** What was patched to the end of the first operand stays so. */
  lemma AppendedThrough(c1: seq<Instr>, c2: seq<Instr>, code: seq<Instr>, jpc2: int, js1: seq<nat>, l2: Lists)
    requires Grown(c1, c2, js1) && Appended(c2, code, |c2|, l2.js) && Tidy(c2, |c1|, NO_JUMP, NO_JUMP, jpc2, l2)
    requires |c2| == |c1| ==> l2.js == js1
    ensures Appended(c1, code, |c1|, js1)
  {
    hide IsList;
    if |c2| > |c1| {
      forall p | 0 <= p < |c1| ensures code[p] == c2[p] {
        assert code[p] == PatchAt(c2, l2.js, |c2|, NO_REG, |c2|, p);
        assert c2[p].TestSet? ==> Carries(c2, p + 1);
      }
    }
  }

  lemma CompareSound(m1: Machine, m2: Machine, c1: seq<Instr>, c2: seq<Instr>, code: seq<Instr>, s: nat, x: Expr, y: Expr, op: Relation,
                     base: nat, base2: nat, nact: nat, kx: Kind, ky: Kind, a: RK, b: RK, jpc1: int, l1: Lists, jpc2: int, l2: Lists, z: Entry)
    requires Tidy(c1, s, NO_JUMP, NO_JUMP, jpc1, l1) && Means(m1, c1, s, x, base, -1, Is(kx), l1, z) && l1 == Lists([], [], l1.js)
    requires Tidy(c2, |c1|, NO_JUMP, NO_JUMP, jpc2, l2) && Means(m2, c2, |c1|, y, base2, -1, Is(ky), l2, Direct) && l2 == Lists([], [], l2.js)
    requires Extends(m1, m2) && OperandOf(kx, a) && OperandOf(ky, b) && RegsOk(kx, nact, base, base2) && Scoped(y, nact)
    requires Grown(c1, c2, l1.js) && (|c2| == |c1| ==> l2.js == l1.js) && |c1| <= |c2|
    requires Appended(c2, code, |c2|, l2.js) && |code| == |c2| + 2 && code[|c2|] == CompareFor(op, a, b)
    ensures Means(m2, code, s, Rel(op, x, y), base, -1, Is(VJmp(|c2| + 1)), Lists([], [], []), z)
  {
    hide Tidy, Means, Grown, Appended, CompareFor, Extends, Open;
    TidyOpen(c1, s, NO_JUMP, NO_JUMP, jpc1, l1);
    TidyOpen(c2, |c1|, NO_JUMP, NO_JUMP, jpc2, l2);
    TidyParts(c1, s, NO_JUMP, NO_JUMP, jpc1, l1);
    AppendedThrough(c1, c2, code, jpc2, l1.js, l2);
    ExtendsSelf(m2);
    CompareAll(m1, m2, m2, c1, c2, code, s, x, y, op, base, base2, nact, kx, ky, a, b, l1.js, l2.js, z);
  }

  lemma CompareTidy(c1: seq<Instr>, c2: seq<Instr>, code: seq<Instr>, s: nat, jpc1: int, l1: Lists, jpc2: int, l2: Lists,
                    op: Relation, a: RK, b: RK, lasttarget: nat)
    requires Tidy(c1, s, NO_JUMP, NO_JUMP, jpc1, l1) && Tidy(c2, |c1|, NO_JUMP, NO_JUMP, jpc2, l2) && Grown(c1, c2, l1.js)
    requires |c1| <= |c2| && (|c2| == |c1| ==> l2.js == l1.js)
    requires Appended(c2, code, |c2|, l2.js) && |code| == |c2| + 2 && code[|c2|] == CompareFor(op, a, b) && code[|c2| + 1] == Jmp(NO_JUMP)
    ensures Tidy(code, s, NO_JUMP, NO_JUMP, NO_JUMP, Lists([], [], [])) && KindOk(code, s, VJmp(|c2| + 1), Lists([], [], []))
    ensures NilSafe(code, lasttarget) && Framed(c1, code, l1.js, s)
  {
    hide IsList, Grown, Appended, Inside;
    CompareIsTest(op, a, b);
    EmptyList(code);
    EmptyInside(code, s);
    AppendedThrough(c1, c2, code, jpc2, l1.js, l2);
    LongGrown(c1, code, l1.js);
    GrownFramed(c1, code, l1.js, s);
  }

  lemma LongGrown(code: seq<Instr>, code': seq<Instr>, js: seq<nat>)
    requires Appended(code, code', |code|, js) && |code'| > |code|
    ensures Grown(code, code', js)
  {
  }

  lemma CompareFramed(c1: seq<Instr>, c: seq<Instr>, c2: seq<Instr>, js: seq<nat>, s: nat, z: Entry)
    requires Framed(c1, c, [], s) && Framed(c, c2, js, s) && z.AfterNils? && BeginsAt(c1, s, z)
    ensures Framed(c1, c2, [], s) && s < |c2|
  {
    FramedTwice(c1, c, c2, [], js, s);
  }

  lemma CompareSameSound(m1: Machine, m2: Machine, c1: seq<Instr>, c2: seq<Instr>, code: seq<Instr>, s: nat, x: Expr, y: Expr, op: Relation,
                         base: nat, base2: nat, nact: nat, kx: Kind, ky: Kind, a: RK, b: RK, jpc2: int, l2: Lists, z: Entry)
    requires Means(m1, c1, s, x, base, -1, Is(kx), Lists([], [], []), z) && z.AfterNils? && BeginsAt(c1, s, z) && Extends(m1, m2)
    requires Tidy(c2, s, NO_JUMP, NO_JUMP, jpc2, l2) && Means(m2, c2, s, y, base2, -1, Is(ky), l2, z) && l2 == Lists([], [], l2.js)
    requires OperandOf(kx, a) && OperandOf(ky, b) && RegsOk(kx, nact, base, base2)
    requires Appended(c2, code, |c2|, l2.js) && |code| == |c2| + 2 && code[|c2|] == CompareFor(op, a, b)
    ensures Means(m2, code, s, Rel(op, x, y), base, -1, Is(VJmp(|c2| + 1)), Lists([], [], []), z)
  {
    hide Tidy, Means, Appended, CompareFor, Extends, Open, BeginsAt;
    TidyOpen(c2, s, NO_JUMP, NO_JUMP, jpc2, l2);
    TidyParts(c2, s, NO_JUMP, NO_JUMP, jpc2, l2);
    CompareSame(m1, m2, c1, c2, code, s, x, y, op, base, base2, kx, ky, a, b, l2.js, z);
  }

  lemma CompareSameTidy(c1: seq<Instr>, c2: seq<Instr>, code: seq<Instr>, s: nat, jpc2: int, l2: Lists, op: Relation, a: RK, b: RK, lasttarget: nat)
    requires Framed(c1, c2, [], s) && s < |c2| && Tidy(c2, s, NO_JUMP, NO_JUMP, jpc2, l2) && l2 == Lists([], [], l2.js)
    requires Appended(c2, code, |c2|, l2.js) && |code| == |c2| + 2 && code[|c2|] == CompareFor(op, a, b) && code[|c2| + 1] == Jmp(NO_JUMP)
    ensures Tidy(code, s, NO_JUMP, NO_JUMP, NO_JUMP, Lists([], [], [])) && KindOk(code, s, VJmp(|c2| + 1), Lists([], [], []))
    ensures NilSafe(code, lasttarget) && Framed(c1, code, [], s)
  {
    hide IsList, Appended, Inside, Tidy, Framed;
    CompareIsTest(op, a, b);
    TidyAppended(c2, code, s, NO_JUMP, NO_JUMP, jpc2, l2);
    FramedTwice(c1, c2, code, [], l2.js, s);
  }

  // ----- facts about whole expressions -----

  lemma Begun(code: seq<Instr>, s: nat, z: Entry)
    requires BeginsAt(code, s, z)
    ensures s <= |code|
  {
  }

  lemma AtEnd(code: seq<Instr>)
    ensures BeginsAt(code, |code|, Direct)
  {
  }

  lemma BeginsHere(code: seq<Instr>, lasttarget: nat)
    ensures BeginsAt(code, BeginOf(code, lasttarget), EntryOf(code, lasttarget))
    ensures EntryOf(code, lasttarget).Direct? <==> NilSafe(code, lasttarget)
  {
  }

  /** Without an instruction of its own yet, an expression still begins with the LOADNIL. */
  lemma StillAtNil(code: seq<Instr>, lasttarget: nat, s: nat, jpc: int, l: Lists, z: Entry)
    requires NilOk(code, lasttarget, s, z) && !NilSafe(code, lasttarget) && Tidy(code, s, NO_JUMP, NO_JUMP, jpc, l)
    ensures z.AfterNils? && BeginsAt(code, s, z) && l == Lists([], [], [])
  {
    NoJumpsYet(code, s, NO_JUMP, NO_JUMP, jpc, l, z);
  }

  lemma LabelSafe(code: seq<Instr>, lasttarget: nat)
    requires lasttarget == |code|
    ensures NilSafe(code, lasttarget)
  {
  }

  lemma NotConst(k: seq<Val>, d: Kind)
    requires !d.VK?
    ensures ConstOk(k, d)
  {
  }

  // ----- facts about statements -----

  /** A return at the end of an expression whose value is in a register. */
  lemma ReturnRuns(m: Machine, code: seq<Instr>, code': seq<Instr>, s: nat, e: Expr, base: nat, a: nat, jpc: int, l: Lists, z: Entry)
    requires Means(m, code, s, e, base, -1, Is(VNonReloc(a)), l, z) && l.t == [] && l.f == [] && Tidy(code, s, NO_JUMP, NO_JUMP, jpc, l)
    requires Appended(code, code', |code|, l.js) && |code'| == |code| + 1 && code'[|code|] == Return(a, 2)
    ensures forall r: Regs :: Run(m, code', {}, |code'|, s, r) == Returned(Eval(m.order, e, Start(z, r)))
  {
    hide Tidy, Means, Appended, Open, Run;
    TidyOpen(code, s, NO_JUMP, NO_JUMP, jpc, l);
    TidyParts(code, s, NO_JUMP, NO_JUMP, jpc, l);
    forall r: Regs ensures Run(m, code', {}, |code'|, s, r) == Returned(Eval(m.order, e, Start(z, r))) {
      ReturnAt(m, code, code', s, e, base, a, l, r, z);
    }
  }

  lemma ReturnAt(m: Machine, code: seq<Instr>, code': seq<Instr>, s: nat, e: Expr, base: nat, a: nat, l: Lists, r: Regs, z: Entry)
    requires Means(m, code, s, e, base, -1, Is(VNonReloc(a)), l, z) && l.t == [] && l.f == [] && Open(code, l, |code|) && s <= |code|
    requires Appended(code, code', |code|, l.js) && |code'| == |code| + 1 && code'[|code|] == Return(a, 2)
    ensures Run(m, code', {}, |code'|, s, r) == Returned(Eval(m.order, e, Start(z, r)))
  {
    hide Means, Appended, Open, Run, Kept, Eval;
    var n := |code|;
    OpenPend(l);
    ExtendsSelf(m);
    MeansAt(m, code, s, e, base, -1, Is(VNonReloc(a)), l, r, z);
    OpenUnset(code, l, n);
    OpenJumps(code, l, n);
    AppendRun(m, m, code, code', n, Pend(l), l.js, {}, s, n + 1, r);
    ReturnStep(m, code', n, a, RunOf(m, code, s, Is(VNonReloc(a)), l, r).regs);
  }

  lemma OpenJumps(code: seq<Instr>, l: Lists, n: nat)
    requires Open(code, l, n)
    ensures forall j :: j in Pend(l) ==> j < n <= |code| && code[j].Jmp?
    ensures forall j :: j in Pend(l) && Carries(code, j) ==> code[j - 1].a == NO_REG
  {
  }

  lemma ReturnStep(m: Machine, code: seq<Instr>, n: nat, a: nat, r: Regs)
    requires |code| == n + 1 && code[n] == Return(a, 2)
    ensures Run(m, code, {}, n + 1, n, r) == Returned(Get(r, a))
  {
  }

  /** The run reached the end with `v` in `reg` and the rest below `base` as in `r`. */
  ghost predicate Stored(r: Regs, o: Outcome, js: seq<nat>, reg: nat, v: Val, base: nat) {
    Onward(o, js) && Get(RegsAt(o), reg) == v && Kept(r, RegsAt(o), base, reg)
  }

  lemma StoredAll(m: Machine, code: seq<Instr>, s: nat, e: Expr, base: nat, reg: nat, l: Lists, z: Entry)
    requires Means(m, code, s, e, base, reg, Is(VNonReloc(reg)), l, z) && l.t == [] && l.f == []
    ensures forall r: Regs :: Stored(Start(z, r), RunOf(m, code, s, Is(VNonReloc(reg)), l, r), l.js, reg, Eval(m.order, e, Start(z, r)), base)
  {
    hide Means, RunOf, Kept;
    forall r: Regs ensures Stored(Start(z, r), RunOf(m, code, s, Is(VNonReloc(reg)), l, r), l.js, reg, Eval(m.order, e, Start(z, r)), base) {
      MeansAt(m, code, s, e, base, reg, Is(VNonReloc(reg)), l, r, z);
    }
  }
}
