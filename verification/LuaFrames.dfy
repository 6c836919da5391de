/** What the code generator leaves alone: code before the current fragment, and the
    lists of jumps held elsewhere. */
module LuaFrames {
  import opened LuaOpcodes
  import opened LuaJumpLists
  import opened LuaFragments
  import opened LuaCodeLaws

  /** From `code`, whose open fragment begins at `s`, to `code'`: only code from `s` on
      changes, except that jumps to `s` itself are patched when code appears there. */
  ghost predicate Framed(code: seq<Instr>, code': seq<Instr>, js: seq<nat>, s: nat) {
    && s <= |code|
    && if |code| == s then Grown(code, code', js)
       else s < |code'| && forall p :: 0 <= p < s ==> code'[p] == code[p]
  }

  lemma FramedTwice(code: seq<Instr>, code1: seq<Instr>, code2: seq<Instr>, js: seq<nat>, js1: seq<nat>, s: nat)
    requires Framed(code, code1, js, s) && Framed(code1, code2, js1, s) && (|code1| == s ==> js1 == js)
    ensures Framed(code, code2, js, s)
  {
  }

  lemma FramedLonger(code: seq<Instr>, code': seq<Instr>, js: seq<nat>, s: nat)
    requires Framed(code, code', js, s)
    ensures s <= |code'| && (|code'| == s ==> |code| == s && code' == code)
  {
  }

  /** Growing a fragment leaves what lies before it alone. */
  lemma GrownFramed(code: seq<Instr>, code': seq<Instr>, js: seq<nat>, s: nat)
    requires Grown(code, code', js) && s <= |code| && (|code| > s ==> Inside(code, s, js))
    ensures Framed(code, code', js, s)
  {
    if |code| > s {
      forall p | 0 <= p < s ensures code'[p] == code[p] {
        if p + 1 in js && code[p].TestSet? { assert Carries(code, p + 1); }
      }
    }
  }

  /** A jump and its control are the same in both. */
  predicate SameJump(code: seq<Instr>, code': seq<Instr>, j: nat) {
    && j < |code| && j < |code'| && code'[j] == code[j] && (Carries(code', j) <==> Carries(code, j))
    && (Carries(code, j) ==> code'[j - 1] == code[j - 1])
  }

  lemma SameList(code: seq<Instr>, code': seq<Instr>, h: int, l: seq<nat>)
    requires IsList(code, h, l) && forall j :: j in l ==> SameJump(code, code', j)
    ensures IsList(code', h, l)
  {
    forall i | 0 <= i < |l| ensures SameJump(code, code', l[i]) {}
    forall j | j in l && Carries(code', j) ensures code'[j - 1].a == NO_REG { assert SameJump(code, code', j); }
  }

  lemma AppendedJump(code: seq<Instr>, code': seq<Instr>, n: nat, js: seq<nat>, j: nat)
    requires Appended(code, code', n, js) && AllJumps(code, js) && j < n && j !in js
    ensures code[j].Jmp? ==> SameJump(code, code', j)
    ensures Carries(code', j) <==> Carries(code, j)
  {
    if j > 0 && j - 1 in js { AllJumpsAt(code, js, j - 1); }
  }

  /** A list held elsewhere survives. */
  lemma AppendedList(code: seq<Instr>, code': seq<Instr>, n: nat, js: seq<nat>, h: int, l: seq<nat>)
    requires Appended(code, code', n, js) && IsList(code, h, l) && Disjoint(js, l) && AllBelow(l, n) && AllJumps(code, js)
    ensures IsList(code', h, l)
    ensures forall j :: j in l ==> (Carries(code', j) <==> Carries(code, j))
  {
    hide IsList, Appended, AllJumps, Carries;
    forall j | j in l ensures SameJump(code, code', j) && (Carries(code', j) <==> Carries(code, j)) {
      AppendedJump(code, code', n, js, j);
      ListBelow(code, h, l);
    }
    SameList(code, code', h, l);
  }

  lemma AllJumpsAt(code: seq<Instr>, l: seq<nat>, j: nat)
    requires AllJumps(code, l) && j in l
    ensures j < |code| && code[j].Jmp?
  {
  }

  lemma AppendedInside(code: seq<Instr>, code': seq<Instr>, n: nat, js: seq<nat>, s: nat, l: seq<nat>)
    requires Appended(code, code', n, js) && Inside(code, s, l) && AllBelow(l, n) && AllJumps(code, js) && Disjoint(js, l)
    ensures Inside(code', s, l)
  {
    forall j | j in l ensures s <= j && (Carries(code', j) ==> s < j) {
      AppendedJump(code, code', n, js, j);
    }
  }

  lemma RelinkedCarries(code: seq<Instr>, code': seq<Instr>, k: seq<nat>)
    requires Relinked(code, code', k)
    ensures forall j :: 0 <= j <= |code| ==> (Carries(code', j) <==> Carries(code, j))
    ensures |code'| == |code| && (Closed(code) ==> Closed(code'))
  {
  }

  lemma ListBelow(code: seq<Instr>, h: int, l: seq<nat>)
    requires IsList(code, h, l)
    ensures AllBelow(l, |code|) && AllJumps(code, l) && (h == NO_JUMP <==> l == [])
    ensures forall j :: j in l ==> j < |code| && code[j].Jmp?
  {
  }

  lemma TidyOpen(code: seq<Instr>, s: nat, t: int, f: int, jpc: int, l: Lists)
    requires Tidy(code, s, t, f, jpc, l)
    ensures Open(code, l, |code|)
  {
    OpenPend(l);
    ListBelow(code, t, l.t);
    ListBelow(code, f, l.f);
    ListBelow(code, jpc, l.js);
  }

  lemma EmptyList(code: seq<Instr>)
    ensures IsList(code, NO_JUMP, [])
  {
  }

  lemma EmptyInside(code: seq<Instr>, s: nat)
    ensures Inside(code, s, []) && (forall l: seq<nat> :: Disjoint([], l) && Disjoint(l, []))
  {
  }

  /** After the jumps to the end have been patched and code has been added. */
  lemma TidyAppended(code: seq<Instr>, code': seq<Instr>, s: nat, t: int, f: int, jpc: int, l: Lists)
    requires Tidy(code, s, t, f, jpc, l) && Appended(code, code', |code|, l.js) && |code'| > |code| && Closed(code')
    ensures Tidy(code', s, t, f, NO_JUMP, Lists(l.t, l.f, []))
    ensures Framed(code, code', l.js, s)
  {
    hide IsList, Appended, Inside, AllJumps, AllBelow, Disjoint;
    ListBelow(code, t, l.t);
    ListBelow(code, f, l.f);
    ListBelow(code, jpc, l.js);
    DisjointFlip(l.t, l.js);
    DisjointFlip(l.f, l.js);
    AppendedList(code, code', |code|, l.js, t, l.t);
    AppendedList(code, code', |code|, l.js, f, l.f);
    AppendedInside(code, code', |code|, l.js, s, l.t);
    AppendedInside(code, code', |code|, l.js, s, l.f);
    EmptyList(code');
    EmptyInside(code', s);
    GrownFramed(code, code', l.js, s);
  }

  lemma DisjointFlip(l: seq<nat>, m: seq<nat>)
    requires Disjoint(l, m)
    ensures Disjoint(m, l)
  {
  }

  /** After one of the lists has been relinked. */
  lemma TidyRelinked(code: seq<Instr>, code': seq<Instr>, s: nat, t: int, f: int, jpc: int, l: Lists, k: seq<nat>)
    requires Tidy(code, s, t, f, jpc, l) && Relinked(code, code', k)
    ensures (Disjoint(k, l.t) ==> IsList(code', t, l.t)) && Inside(code', s, l.t)
    ensures (Disjoint(k, l.f) ==> IsList(code', f, l.f)) && Inside(code', s, l.f)
    ensures (Disjoint(k, l.js) ==> IsList(code', jpc, l.js)) && (|code'| > s ==> Inside(code', s, l.js))
    ensures Closed(code')
  {
    hide IsList, Relinked, Disjoint;
    RelinkedCarries(code, code', k);
    ListBelow(code, t, l.t);
    ListBelow(code, f, l.f);
    ListBelow(code, jpc, l.js);
    if Disjoint(k, l.t) { RelinkedOther(code, code', k, t, l.t); }
    if Disjoint(k, l.f) { RelinkedOther(code, code', k, f, l.f); }
    if Disjoint(k, l.js) { RelinkedOther(code, code', k, jpc, l.js); }
  }

  lemma RelinkedFramed(code: seq<Instr>, code': seq<Instr>, js: seq<nat>, s: nat, k: seq<nat>)
    requires Relinked(code, code', k) && s <= |code| && (forall j :: j in k ==> s <= j)
    ensures |code| > s ==> Framed(code, code', js, s)
    ensures k == [] ==> code' == code
  {
  }

  // ----- descriptors -----

  /** How the end of the code matches the kind of the descriptor. */
  ghost predicate KindOk(code: seq<Instr>, s: nat, k: Kind, l: Lists) {
    match k
    case VJmp(j) => |code| == j + 1 && s < j && code[j] == Jmp(NO_JUMP) && code[j - 1].Compare? && l.js == [] && AllBelow(l.t, j - 1) && AllBelow(l.f, j - 1)
    case VRelocable(pc) => |code| == pc + 1 && s <= pc && code[pc].Not? && Closed(code[..pc]) && l.js == [] && AllBelow(l.t, pc) && AllBelow(l.f, pc)
    case _ => true
  }

  /** A temporary register is the last one reserved; other kinds hold none. */
  predicate RegsOk(k: Kind, nact: nat, base: nat, freereg: nat) {
    && nact <= base
    && (k.VLocal? ==> k.r < nact)
    && if k.VNonReloc? && k.r >= nact then k.r == base && freereg == base + 1 else freereg == base
  }

  /** Constants that have a place of their own are strings: true as conditions. */
  predicate ConstOk(k: seq<Val>, d: Kind) {
    d.VK? ==> d.k < |k| && Truthy(k[d.k])
  }

  /** No LOADNIL that the next one could be merged into. */
  predicate NilSafe(code: seq<Instr>, lasttarget: nat) {
    |code| > lasttarget ==> !code[|code| - 1].LoadNil?
  }

  /** A LOADNIL before the end is the one the fragment begins with. */
  ghost predicate NilOk(code: seq<Instr>, lasttarget: nat, s: nat, z: Entry) {
    NilSafe(code, lasttarget) || (z.AfterNils? && BeginsAt(code, s, z))
  }

  /** Where code for an expression that is generated now begins: at the end of the code,
      or with a LOADNIL there that it may extend. */
  function BeginOf(code: seq<Instr>, lasttarget: nat): nat {
    if NilSafe(code, lasttarget) then |code| else |code| - 1
  }

  function EntryOf(code: seq<Instr>, lasttarget: nat): Entry {
    if NilSafe(code, lasttarget) then Direct else AfterNils(code[|code| - 1].a, code[|code| - 1].b)
  }

  /** luaK_nil extends the LOADNIL at the end. */
  predicate Merges(code: seq<Instr>, lasttarget: nat, reg: nat, n: nat) {
    && |code| > lasttarget && code[|code| - 1].LoadNil?
    && var prev := code[|code| - 1];
       prev.a <= reg <= prev.a + prev.b + 1 || reg <= prev.a <= reg + n
  }

  /** The LOADNIL at the end now also clears `n` registers from `reg` on. */
  ghost predicate Merged(code: seq<Instr>, code': seq<Instr>, reg: nat, n: nat)
    requires n > 0
  {
    && |code'| == |code| > 0 && code[|code| - 1].LoadNil? && code'[|code| - 1].LoadNil?
    && (forall p :: 0 <= p < |code| - 1 ==> code'[p] == code[p])
    && var i, i' := code[|code| - 1], code'[|code| - 1];
       forall r: Regs :: Clear(r, i'.a, i'.b) == Clear(Clear(r, i.a, i.b), reg, n - 1)
  }

  // ----- the end of an expression -----

  /** The code of `FinalMeans`, as the two patchings leave it. */
  lemma FinalBuilt(code: seq<Instr>, code2: seq<Instr>, code3: seq<Instr>, code4: seq<Instr>, l: Lists, js: seq<nat>, reg: nat, s: nat,
                   pf: int, pt: int)
    requires Open(code, l, |code|) && Disjoint(l.t, l.f) && Disjoint(l.t, l.js) && Disjoint(l.f, l.js)
    requires |code2| >= |code| && code2[..|code|] == code
    requires Patched(code2, code3, l.f, |code2|, reg, pf) && Patched(code3, code4, l.t, |code2|, reg, pt)
    requires forall j :: j in l.f && !Carries(code, j) ==> pf >= |code| && Loader(code2, pf, reg, false)
    requires forall j :: j in l.t && !Carries(code, j) ==> pt >= |code| && Loader(code2, pt, reg, true)
    requires (forall p :: p < |code| ==> (p in js <==> p in l.js)) && reg < MAXREGS
    ensures Final(code, code4, l, Lists([], [], js), reg, s, |code|)
  {
    hide IsTest, Loader;
    var n, l' := |code|, Lists([], [], js);
    OpenPend(l);
    OpenPend(l');
    forall p | 0 <= p < |code2| ensures BuiltAt(code2, code4, l, reg, pf, pt, p) {
      BuiltHere(code, code2, code3, code4, l, reg, pf, pt, p);
    }
    forall p | s <= p < n ensures AgreeAt(code, code4, Pend(l), Pend(l'), n, p) {
      assert BuiltAt(code2, code4, l, reg, pf, pt, p);
      BuiltAgree(code, code2, code4, l, l', reg, pf, pt, p);
    }
    forall j | j in l.t ensures FinalAt(code, code4, j, true, reg, n) && j !in js {
      BuiltFinal(code, code2, code4, l, reg, pf, pt, j, true);
    }
    forall j | j in l.f ensures FinalAt(code, code4, j, false, reg, n) && j !in js {
      BuiltFinal(code, code2, code4, l, reg, pf, pt, j, false);
    }
    forall j | j in l.js ensures j in js && (Carries(code4, j) ==> code4[j - 1].a == NO_REG) {
      BuiltOther(code, code2, code4, l, reg, pf, pt, j);
    }
  }

  /** Position `p` after both patchings. */
  ghost predicate BuiltAt(code2: seq<Instr>, code4: seq<Instr>, l: Lists, reg: nat, pf: int, pt: int, p: nat) {
    && p < |code2| == |code4|
    && code4[p] == if p in l.f then Jmp((if Carries(code2, p) then |code2| else pf) - (p + 1))
                   else if p in l.t then Jmp((if Carries(code2, p) then |code2| else pt) - (p + 1))
                   else if (p + 1 in l.f || p + 1 in l.t) && code2[p].TestSet? then PatchReg(code2[p], reg)
                   else code2[p]
  }

  lemma BuiltHere(code: seq<Instr>, code2: seq<Instr>, code3: seq<Instr>, code4: seq<Instr>, l: Lists, reg: nat, pf: int, pt: int, p: nat)
    requires Open(code, l, |code|) && Disjoint(l.t, l.f) && |code2| >= |code| && code2[..|code|] == code && p < |code2|
    requires Patched(code2, code3, l.f, |code2|, reg, pf) && Patched(code3, code4, l.t, |code2|, reg, pt)
    ensures BuiltAt(code2, code4, l, reg, pf, pt, p)
  {
    OpenPend(l);
    assert forall j :: 0 <= j < |code| ==> code2[j] == code2[..|code|][j];
    assert code3[p] == PatchAt(code2, l.f, |code2|, reg, pf, p);
    assert code4[p] == PatchAt(code3, l.t, |code2|, reg, pt, p);
    if p > 0 { assert code3[p - 1] == PatchAt(code2, l.f, |code2|, reg, pf, p - 1); }
  }

  lemma BuiltAgree(code: seq<Instr>, code2: seq<Instr>, code4: seq<Instr>, l: Lists, l': Lists, reg: nat, pf: int, pt: int, p: nat)
    requires Open(code, l, |code|) && Disjoint(l.t, l.js) && Disjoint(l.f, l.js) && |code2| >= |code| && code2[..|code|] == code && p < |code|
    requires BuiltAt(code2, code4, l, reg, pf, pt, p) && l'.t == [] && l'.f == [] && (forall q :: q < |code| ==> (q in l'.js <==> q in l.js))
    requires reg < MAXREGS
    requires p in l.f && !Carries(code, p) ==> pf >= |code|
    requires p in l.t && !Carries(code, p) ==> pt >= |code|
    ensures AgreeAt(code, code4, Pend(l), Pend(l'), |code|, p)
  {
    OpenPend(l);
    OpenPend(l');
    assert forall j :: 0 <= j < |code| ==> code2[j] == code2[..|code|][j];
    if p + 1 in Pend(l) && code[p].TestSet? { assert Carries(code, p + 1); }
  }

  lemma BuiltFinal(code: seq<Instr>, code2: seq<Instr>, code4: seq<Instr>, l: Lists, reg: nat, pf: int, pt: int, j: nat, side: bool)
    requires Open(code, l, |code|) && Disjoint(l.t, l.f) && |code2| >= |code| && code2[..|code|] == code
    requires forall p :: 0 <= p < |code2| ==> BuiltAt(code2, code4, l, reg, pf, pt, p)
    requires if side then j in l.t else j in l.f
    requires var d := if side then pt else pf; !Carries(code, j) ==> d >= |code| && Loader(code2, d, reg, side)
    ensures FinalAt(code, code4, j, side, reg, |code|)
  {
    OpenPend(l);
    assert forall p :: 0 <= p < |code| ==> code2[p] == code2[..|code|][p];
    assert BuiltAt(code2, code4, l, reg, pf, pt, j);
    if j > 0 { assert BuiltAt(code2, code4, l, reg, pf, pt, j - 1); }
    var d := if side then pt else pf;
    if !Carries(code, j) { assert BuiltAt(code2, code4, l, reg, pf, pt, d); }
  }

  lemma BuiltOther(code: seq<Instr>, code2: seq<Instr>, code4: seq<Instr>, l: Lists, reg: nat, pf: int, pt: int, j: nat)
    requires Open(code, l, |code|) && Disjoint(l.t, l.js) && Disjoint(l.f, l.js) && |code2| >= |code| && code2[..|code|] == code
    requires forall p :: 0 <= p < |code2| ==> BuiltAt(code2, code4, l, reg, pf, pt, p)
    requires j in l.js
    ensures Carries(code4, j) ==> code4[j - 1].a == NO_REG
  {
    OpenPend(l);
    assert forall p :: 0 <= p < |code| ==> code2[p] == code2[..|code|][p];
    if j > 0 { assert BuiltAt(code2, code4, l, reg, pf, pt, j - 1); }
  }

  /** Patching a list from `s` on leaves what is before it alone, and the end closed. */
  lemma PatchedFramed(code: seq<Instr>, code': seq<Instr>, s: nat, h: int, l: seq<nat>, vtarget: nat, reg: nat, dtarget: int)
    requires Patched(code, code', l, vtarget, reg, dtarget) && Inside(code, s, l) && IsList(code, h, l) && s <= |code|
    ensures forall p :: 0 <= p < s ==> code'[p] == code[p]
    ensures Closed(code) ==> Closed(code')
    ensures |code'| == |code|
    ensures forall p :: 0 <= p < |code| && code'[p].LoadNil? ==> code[p].LoadNil?
  {
    ListBelow(code, h, l);
    forall p | 0 <= p < s ensures code'[p] == code[p] {
      assert code[p].TestSet? ==> Carries(code, p + 1);
    }
  }

  /** Choosing the register of an open instruction keeps the lists. */
  lemma TidyRelocated(code: seq<Instr>, code': seq<Instr>, s: nat, t: int, f: int, jpc: int, l: Lists, pc: nat, i: Instr)
    requires Tidy(code, s, t, f, jpc, l) && KindOk(code, s, VRelocable(pc), l) && code' == code[pc := i] && i.Not?
    ensures Tidy(code', s, t, f, jpc, l) && Framed(code, code', l.js, s)
  {
    hide IsList;
    ListBelow(code, t, l.t);
    ListBelow(code, f, l.f);
    forall j | j in l.t || j in l.f ensures SameJump(code, code', j) {}
    SameList(code, code', t, l.t);
    SameList(code, code', f, l.f);
    ListBelow(code, jpc, l.js);
    SameList(code, code', jpc, l.js);
  }

  lemma TidyParts(code: seq<Instr>, s: nat, t: int, f: int, jpc: int, l: Lists)
    requires Tidy(code, s, t, f, jpc, l)
    ensures IsList(code, t, l.t) && IsList(code, f, l.f) && IsList(code, jpc, l.js) && Closed(code) && s <= |code|
    ensures Disjoint(l.t, l.f) && Disjoint(l.t, l.js) && Disjoint(l.f, l.js)
  {
  }

  lemma FramedSelf(code: seq<Instr>, js: seq<nat>, s: nat)
    requires s <= |code|
    ensures Framed(code, code, js, s)
  {
  }

  /** Before the instruction left open, the list of an open fragment is complete. */
  lemma OpenBefore(code: seq<Instr>, s: nat, t: int, f: int, jpc: int, l: Lists, k: Kind)
    requires Tidy(code, s, t, f, jpc, l) && KindOk(code, s, k, l)
    ensures s <= StopOf(Is(k), |code|) <= |code| && Open(code, l, StopOf(Is(k), |code|))
  {
    TidyOpen(code, s, t, f, jpc, l);
    OpenPend(l);
  }

  /** More constants do not change what code means. */
  lemma MeansMore(m: Machine, m': Machine, code: seq<Instr>, s: nat, e: Expr, base: nat, w: int, g: Goal, l: Lists, z: Entry)
    requires Means(m, code, s, e, base, w, g, l, z) && Extends(m, m') && Open(code, l, |code|) && s <= StopOf(g, |code|) <= |code|
    ensures Means(m', code, s, e, base, w, g, l, z)
  {
    hide Means, Relinked;
    RelinkSelf(code);
    MeansRelinked(m, m', code, code, s, e, base, w, g, l, [], z);
  }

  /** The lists after the final patching: only the jumps to the end remain. */
  lemma FinishTidy(code: seq<Instr>, code2: seq<Instr>, code3: seq<Instr>, code4: seq<Instr>, s: nat, t: int, f: int, jpc: int, jpc2: int,
                   l: Lists, js: seq<nat>, reg: nat, pf: int, pt: int)
    requires Tidy(code, s, t, f, jpc, l) && |code2| >= |code| && code2[..|code|] == code && Closed(code2) && (l.t != [] || l.f != [])
    requires IsList(code2, jpc2, js) && (js == l.js || (js == [] && l.js == []) || (js == [|code|] + l.js && |code2| > |code|))
    requires Patched(code2, code3, l.f, |code2|, reg, pf) && Patched(code3, code4, l.t, |code2|, reg, pt)
    ensures Tidy(code4, s, NO_JUMP, NO_JUMP, jpc2, Lists([], [], js)) && Framed(code, code4, l.js, s) && |code4| == |code2|
    ensures |code| > s && forall p :: p < |code| ==> (p in js <==> p in l.js)
  {
    hide IsList, Patched, Carries, Inside;
    JumpAfter(code, s, t, l.t);
    JumpAfter(code, s, f, l.f);
    ListBelow(code, jpc, l.js);
    ListBelow(code2, jpc2, js);
    LongerFrame(code, code2, s, t, l.t);
    LongerFrame(code, code2, s, f, l.f);
    PatchedFramed(code2, code3, s, f, l.f, |code2|, reg, pf);
    ListBelow(code2, f, l.f);
    PatchedOther(code2, code3, l.f, |code2|, reg, pf, t, l.t);
    assert Disjoint(l.f, js) && Disjoint(l.t, js);
    PatchedOther(code2, code3, l.f, |code2|, reg, pf, jpc2, js);
    SameInside(code2, code3, s, l.t);
    PatchedFramed(code3, code4, s, t, l.t, |code2|, reg, pt);
    ListBelow(code3, t, l.t);
    PatchedOther(code3, code4, l.t, |code2|, reg, pt, jpc2, js);
    EmptyList(code4);
    EmptyInside(code4, s);
    InsideAll(code, code2, code4, s, l.js, js);
    PrefixSame(code, code2);
  }

  lemma PrefixSame(code: seq<Instr>, code2: seq<Instr>)
    requires |code2| >= |code| && code2[..|code|] == code
    ensures forall p :: 0 <= p < |code| ==> code2[p] == code[p]
  {
    assert forall p :: 0 <= p < |code| ==> code2[p] == code2[..|code|][p];
  }

  lemma JumpAfter(code: seq<Instr>, s: nat, h: int, l: seq<nat>)
    requires IsList(code, h, l) && Inside(code, s, l)
    ensures l != [] ==> |code| > s
    ensures forall j :: j in l ==> s <= j < |code| && code[j].Jmp?
  {
    ListBelow(code, h, l);
    if l != [] { assert l[0] in l; }
  }

  lemma LongerFrame(code: seq<Instr>, code2: seq<Instr>, s: nat, h: int, l: seq<nat>)
    requires |code2| >= |code| && code2[..|code|] == code && IsList(code, h, l) && Inside(code, s, l)
    ensures IsList(code2, h, l) && Inside(code2, s, l)
  {
    PrefixSame(code, code2);
    ListBelow(code, h, l);
    SameList(code, code2, h, l);
  }

  lemma SameInside(code: seq<Instr>, code': seq<Instr>, s: nat, l: seq<nat>)
    requires Inside(code, s, l) && forall j :: j in l ==> (Carries(code', j) <==> Carries(code, j))
    ensures Inside(code', s, l)
  {
  }

  lemma InsideAll(code: seq<Instr>, code2: seq<Instr>, code4: seq<Instr>, s: nat, js: seq<nat>, js': seq<nat>)
    requires |code2| >= |code| > s && code2[..|code|] == code && Inside(code, s, js) && AllBelow(js, |code|)
    requires js' == js || js' == [] || js' == [|code|] + js
    requires forall j :: j in js' ==> (Carries(code4, j) ==> Carries(code2, j))
    ensures Inside(code4, s, js')
  {
    PrefixSame(code, code2);
  }

  /** Before the first instruction of an expression there are no jumps out of it. */
  lemma NoJumpsYet(code: seq<Instr>, s: nat, t: int, f: int, jpc: int, l: Lists, z: Entry)
    requires Tidy(code, s, t, f, jpc, l) && z.AfterNils? && BeginsAt(code, s, z)
    ensures l == Lists([], [], []) && t == NO_JUMP && f == NO_JUMP && jpc == NO_JUMP
  {
    hide IsList;
    NoJumpHere(code, s, t, l.t);
    NoJumpHere(code, s, f, l.f);
    NoJumpHere(code, s, jpc, l.js);
  }

  lemma NoJumpHere(code: seq<Instr>, s: nat, h: int, l: seq<nat>)
    requires IsList(code, h, l) && Inside(code, s, l) && s + 1 == |code| && code[s].LoadNil?
    ensures l == [] && h == NO_JUMP
  {
    ListBelow(code, h, l);
    var first := if l == [] then s else l[0];
    assert l == [] || first in l;
  }

  /** A nil merged into the LOADNIL before the expression. */
  lemma MergedNil(m: Machine, code: seq<Instr>, code': seq<Instr>, s: nat, e: Expr, base: nat, w: int, v: Exp, jpc: int, l: Lists, reg: nat, z: Entry)
    requires Tidy(code, s, v.t, v.f, jpc, l) && z.AfterNils? && BeginsAt(code, s, z) && Merged(code, code', reg, 1)
    requires Means(m, code, s, e, base, -1, Is(VNil), l, z) && reg < MAXREGS && (reg >= base || reg == w)
    ensures Means(m, code', s, e, base, w, Is(VNonReloc(reg)), l, z)
    ensures Tidy(code', s, v.t, v.f, jpc, l) && Framed(code, code', l.js, s)
  {
    NoJumpsYet(code, s, v.t, v.f, jpc, l, z);
    MergedMeans(m, code, code', s, e, base, w, l, reg, z);
    EmptyList(code');
    EmptyInside(code', s);
  }

  lemma NilOkDirect(code: seq<Instr>, lasttarget: nat, s: nat)
    requires NilOk(code, lasttarget, s, Direct)
    ensures NilSafe(code, lasttarget)
  {
  }

  lemma NilOkSafe(code: seq<Instr>, lasttarget: nat, s: nat, z: Entry)
    requires NilSafe(code, lasttarget)
    ensures NilOk(code, lasttarget, s, z)
  {
  }

  lemma FramedIsGrown(code: seq<Instr>, code': seq<Instr>, js: seq<nat>)
    requires Framed(code, code', js, |code|)
    ensures Grown(code, code', js)
  {
  }
}
