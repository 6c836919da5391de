/** What each step of the code generator does to the meaning of a fragment. */
module LuaCodeLaws {
  import opened LuaOpcodes
  import opened LuaJumpLists
  import opened LuaFragments

  /** Jumps, and the TESTSETs that control them, lie at or after `s`. */
  ghost predicate Inside(code: seq<Instr>, s: nat, l: seq<nat>) {
    forall j :: j in l ==> s <= j && (Carries(code, j) ==> s < j)
  }

  /** No test at the end is still without its jump. */
  predicate Closed(code: seq<Instr>) {
    code == [] || !IsTest(code[|code| - 1])
  }

  ghost predicate Tidy(code: seq<Instr>, s: nat, t: int, f: int, jpc: int, l: Lists) {
    && IsList(code, t, l.t) && IsList(code, f, l.f) && IsList(code, jpc, l.js)
    && Disjoint(l.t, l.f) && Disjoint(l.t, l.js) && Disjoint(l.f, l.js)
    && Inside(code, s, l.t) && Inside(code, s, l.f) && (|code| > s ==> Inside(code, s, l.js))
    && Closed(code) && s <= |code|
  }

  /** Jumps before `n` whose TESTSETs are unset. */
  ghost predicate Open(code: seq<Instr>, l: Lists, n: nat) {
    forall j :: j in Pend(l) ==> j < n <= |code| && code[j].Jmp? && (Carries(code, j) ==> code[j - 1].a == NO_REG)
  }

  lemma OpenPend(l: Lists)
    ensures Elems(l.js) <= Pend(l) && forall j :: j in Pend(l) <==> j in l.t || j in l.f || j in l.js
  {
  }

  // ----- the same code, relinked, or more constants -----

  lemma RelinkRun(m: Machine, m': Machine, code: seq<Instr>, code': seq<Instr>, pend: set<nat>, k: seq<nat>, s: nat, n: nat, r: Regs)
    requires Extends(m, m') && Relinked(code, code', k) && Elems(k) <= pend && s <= n <= |code|
    requires forall j :: j in pend ==> j < |code| && code[j].Jmp? && (Carries(code, j) ==> code[j - 1].a == NO_REG)
    requires Run(m, code, pend, n, s, r) != Stuck
    ensures Run(m', code', pend, n, s, r) == Run(m, code, pend, n, s, r)
  {
    var o := Run(m, code, pend, n, s, r);
    forall p | s <= p < n ensures AgreeAt(code, code', pend, pend, n, p) {
      assert p in k ==> p in Elems(k);
    }
    RunPatched(m, m', code, code', pend, pend, s, n, n, s, r);
    if o.Exit? {
      ExitPend(m, code, pend, n, s, r);
      RelinkLanded(code, code', k, o.jump, o.regs);
    }
  }

  lemma RelinkLanded(code: seq<Instr>, code': seq<Instr>, k: seq<nat>, j: nat, r: Regs)
    requires Relinked(code, code', k) && j < |code| && (Carries(code, j) ==> code[j - 1].a == NO_REG)
    ensures Landed(code', j, r) == r
  {
  }

  lemma MeansRelinked(m: Machine, m': Machine, code: seq<Instr>, code': seq<Instr>, s: nat, e: Expr, base: nat, w: int, g: Goal, l: Lists, k: seq<nat>, z: Entry)
    requires Means(m, code, s, e, base, w, g, l, z) && Extends(m, m') && Relinked(code, code', k) && Elems(k) <= Pend(l)
    requires Open(code, l, |code|) && s <= StopOf(g, |code|) <= |code|
    ensures Means(m', code', s, e, base, w, g, l, z)
  {
    hide Relinked, Start, Run, Holds, ExitHolds, Means;
    forall r: Regs ensures Good(m', code', Eval(m'.order, e, Start(z, r)), base, w, g, l, Start(z, r), RunOf(m', code', s, g, l, r)) {
      MeansAt(m, code, s, e, base, w, g, l, r, z);
      RelinkedLength(code, code', k);
      RelinkRun(m, m', code, code', Pend(l), k, s, StopOf(g, |code|), r);
      var o := RunOf(m, code, s, g, l, r);
      RelinkGood(m, m', code, code', k, g, o.regs, Eval(m.order, e, Start(z, r)));
      if o.Exit? { RelinkExit(code, code', k, o, Eval(m.order, e, Start(z, r))); }
    }
    MeansAll(m', code', s, e, base, w, g, l, z);
  }

  lemma RelinkedLength(code: seq<Instr>, code': seq<Instr>, k: seq<nat>)
    requires Relinked(code, code', k)
    ensures |code'| == |code|
  {
  }

  lemma RelinkGood(m: Machine, m': Machine, code: seq<Instr>, code': seq<Instr>, k: seq<nat>, g: Goal, r: Regs, v: Val)
    requires Extends(m, m') && Relinked(code, code', k)
    ensures Holds(m, code, g, r, v) ==> Holds(m', code', g, r, v)
  {
  }

  lemma RelinkExit(code: seq<Instr>, code': seq<Instr>, k: seq<nat>, o: Outcome, v: Val)
    requires Relinked(code, code', k) && o.Exit?
    ensures forall side :: ExitHolds(code, o.jump, o.regs, o.tested, v, side) ==> ExitHolds(code', o.jump, o.regs, o.tested, v, side)
  {
  }

  lemma MeansAll(m: Machine, code: seq<Instr>, s: nat, e: Expr, base: nat, w: int, g: Goal, l: Lists, z: Entry)
    requires forall r: Regs :: Good(m, code, Eval(m.order, e, Start(z, r)), base, w, g, l, Start(z, r), RunOf(m, code, s, g, l, r))
    ensures Means(m, code, s, e, base, w, g, l, z)
  {
    hide Good, RunOf, Start;
  }

  // ----- code that goes on after the end -----

  /** Whatever left the fragment at its end goes on to a proper end of the new one. */
  ghost predicate TailOk(m: Machine, code: seq<Instr>, g: Goal, w: int, m': Machine, code': seq<Instr>, g': Goal, w': int, l': Lists, n: nat, base: nat) {
    forall r0: Regs, r: Regs, v: Val :: Kept(r0, r, base, w) && Holds(m, code, g, r, v) ==>
      Good(m', code', v, base, w', g', l', r0, Run(m', code', Pend(l'), StopOf(g', |code'|), n, r))
  }

  lemma TailAt(m: Machine, code: seq<Instr>, g: Goal, w: int, m': Machine, code': seq<Instr>, g': Goal, w': int, l': Lists, n: nat, base: nat, r0: Regs, r: Regs, v: Val)
    requires TailOk(m, code, g, w, m', code', g', w', l', n, base) && Kept(r0, r, base, w) && Holds(m, code, g, r, v)
    ensures Good(m', code', v, base, w', g', l', r0, Run(m', code', Pend(l'), StopOf(g', |code'|), n, r))
  {
    hide Good, Kept, Holds;
  }

  /** The jumps out before `n` are the same; the jumps to the end are gone. */
  ghost predicate SameExits(l: Lists, l': Lists, n: nat) {
    forall j :: j < n ==> (j in l'.t <==> j in l.t) && (j in l'.f <==> j in l.f) && j !in l'.js
  }

  lemma ExitsBeyond(l: Lists, l': Lists, n: nat)
    requires SameExits(l, l', n) && Disjoint(l.t, l.js) && Disjoint(l.f, l.js)
    ensures NewBeyond(Pend(l), Pend(l'), l.js, n)
  {
    OpenPend(l);
    OpenPend(l');
  }

  /** Code after a fragment for `x` makes it a fragment for `e`. */
  ghost predicate TailFor(m: Machine, code: seq<Instr>, x: Expr, g: Goal, w: int, m': Machine, code': seq<Instr>, e: Expr, g': Goal, w': int,
                          l': Lists, n: nat, base: nat, z: Entry) {
    forall q: Regs, r: Regs :: Kept(Start(z, q), r, base, w) && Holds(m, code, g, r, Eval(m.order, x, Start(z, q))) ==>
      Good(m', code', Eval(m.order, e, Start(z, q)), base, w', g', l', Start(z, q), Run(m', code', Pend(l'), StopOf(g', |code'|), n, r))
  }

  lemma TailForAt(m: Machine, code: seq<Instr>, x: Expr, g: Goal, w: int, m': Machine, code': seq<Instr>, e: Expr, g': Goal, w': int,
                  l': Lists, n: nat, base: nat, z: Entry, q: Regs, r: Regs)
    requires TailFor(m, code, x, g, w, m', code', e, g', w', l', n, base, z) && Kept(Start(z, q), r, base, w) && Holds(m, code, g, r, Eval(m.order, x, Start(z, q)))
    ensures Good(m', code', Eval(m.order, e, Start(z, q)), base, w', g', l', Start(z, q), Run(m', code', Pend(l'), StopOf(g', |code'|), n, r))
  {
    hide Start, Good, Kept, Holds, Eval;
  }

  /** Where `x` exits, `e` has the value of `x`. */
  ghost predicate ExitValues(o: Order, x: Expr, e: Expr, l: Lists) {
    forall r: Regs :: (if Truthy(Eval(o, x, r)) then l.t else l.f) != [] ==> Eval(o, e, r) == Eval(o, x, r)
  }

  lemma MeansExtended(m: Machine, m': Machine, code: seq<Instr>, code': seq<Instr>, s: nat, x: Expr, e: Expr, base: nat, w: int, w': int,
                      g: Goal, g': Goal, l: Lists, l': Lists, n: nat, z: Entry)
    requires Means(m, code, s, x, base, w, g, l, z) && Extends(m, m') && (w == -1 || w == w')
    requires n == StopOf(g, |code|) && s <= n <= StopOf(g', |code'|) && Open(code, l, n) && Appended(code, code', n, l.js)
    requires SameExits(l, l', n) && Disjoint(l.t, l.js) && Disjoint(l.f, l.js)
    requires TailFor(m, code, x, g, w, m', code', e, g', w', l', n, base, z) && ExitValues(m.order, x, e, l)
    ensures Means(m', code', s, e, base, w', g', l', z)
  {
    hide Start, Run, Holds, Means, TailFor, Appended, SameExits, NewBeyond, Kept, Eval;
    ExitsBeyond(l, l', n);
    OpenPend(l);
    forall r: Regs ensures Good(m', code', Eval(m'.order, e, Start(z, r)), base, w', g', l', Start(z, r), RunOf(m', code', s, g', l', r)) {
      var o := RunOf(m, code, s, g, l, r);
      MeansAt(m, code, s, x, base, w, g, l, r, z);
      OpenUnset(code, l, n);
      AppendRun(m, m', code, code', n, Pend(l), l.js, Pend(l'), s, StopOf(g', |code'|), r);
      if Onward(o, l.js) {
        TailForAt(m, code, x, g, w, m', code', e, g', w', l', n, base, z, r, o.regs);
      } else {
        ExitPend(m, code, Pend(l), n, s, r);
        ExitStays(m, code, code', l, l', n, o, Eval(m.order, x, Start(z, r)));
        KeptWider(Start(z, r), o.regs, base, w, w');
      }
    }
    MeansAll(m', code', s, e, base, w', g', l', z);
  }

  lemma MeansAppended(m: Machine, m': Machine, code: seq<Instr>, code': seq<Instr>, s: nat, e: Expr, base: nat, w: int, w': int,
                      g: Goal, g': Goal, l: Lists, l': Lists, n: nat, z: Entry)
    requires Means(m, code, s, e, base, w, g, l, z) && Extends(m, m') && (w == -1 || w == w')
    requires n == StopOf(g, |code|) && s <= n <= StopOf(g', |code'|) && Open(code, l, n) && Appended(code, code', n, l.js)
    requires SameExits(l, l', n) && Disjoint(l.t, l.js) && Disjoint(l.f, l.js)
    requires TailOk(m, code, g, w, m', code', g', w', l', n, base)
    ensures Means(m', code', s, e, base, w', g', l', z)
  {
    hide Run, Holds, Means, TailOk, Appended, SameExits, Kept, Eval, Good;
    forall r0: Regs, r: Regs | Kept(r0, r, base, w) && Holds(m, code, g, r, Eval(m.order, e, r0))
      ensures Good(m', code', Eval(m.order, e, r0), base, w', g', l', r0, Run(m', code', Pend(l'), StopOf(g', |code'|), n, r))
    {
      TailAt(m, code, g, w, m', code', g', w', l', n, base, r0, r, Eval(m.order, e, r0));
    }
    MeansExtended(m, m', code, code', s, e, e, base, w, w', g, g', l, l', n, z);
  }

  lemma KeptWider(r: Regs, r': Regs, base: nat, w: int, w': int)
    requires Kept(r, r', base, w) && (w == -1 || w == w')
    ensures Kept(r, r', base, w')
  {
  }

  lemma OpenUnset(code: seq<Instr>, l: Lists, n: nat)
    requires Open(code, l, n)
    ensures Unset(code, l.js)
  {
    OpenPend(l);
  }

  lemma ExitStays(m: Machine, code: seq<Instr>, code': seq<Instr>, l: Lists, l': Lists, n: nat, o: Outcome, v: Val)
    requires o.Exit? && o.jump < n && o.jump !in l.js && Appended(code, code', n, l.js) && SameExits(l, l', n) && Open(code, l, n)
    ensures o.jump !in l'.js && (o.jump in l'.t <==> o.jump in l.t) && (o.jump in l'.f <==> o.jump in l.f)
    ensures forall side :: ExitHolds(code, o.jump, o.regs, o.tested, v, side) ==> ExitHolds(code', o.jump, o.regs, o.tested, v, side)
  {
    OpenPend(l);
    if o.jump > 0 {
      assert code'[o.jump - 1] == PatchAt(code, l.js, n, NO_REG, n, o.jump - 1);
      assert o.jump - 1 in l.js ==> code[o.jump - 1].Jmp?;
    }
  }

  // ----- loading a value into a register -----

  /** `i` puts a value of kind `d` into `reg`. */
  predicate Loads(k: seq<Val>, i: Instr, d: Kind, reg: nat) {
    match d
    case VNil => i == LoadNil(reg, 0)
    case VTrue => i == LoadBool(reg, true, false)
    case VFalse => i == LoadBool(reg, false, false)
    case VK(x) => i == LoadK(reg, x)
    case VKInt(n) => i.LoadK? && i.a == reg && i.k < |k| && k[i.k] == Num(n)
    case VNonReloc(r) => i == Move(reg, r)
    case VLocal(r) => i == Move(reg, r)
    case _ => false
  }

  lemma LoadStep(m: Machine, m': Machine, code: seq<Instr>, i: Instr, d: Kind, reg: nat, pc: nat, r: Regs, v: Val)
    requires Extends(m, m') && Loads(m'.k, i, d, reg) && Holds(m, code, Is(d), r, v) && reg < MAXREGS
    ensures Step(m', i, pc, r) == Goto(pc + 1, Put(r, reg, v))
  {
    if d.VNil? { assert Clear(r, reg, 0) == r[reg := Nil]; }
  }

  lemma PutKept(r0: Regs, r: Regs, base: nat, w: int, reg: nat, v: Val)
    requires Kept(r0, r, base, w) && reg < MAXREGS && (reg >= base || reg == w)
    ensures Kept(r0, Put(r, reg, v), base, w) && Get(Put(r, reg, v), reg) == v
  {
  }

  lemma LoadMeans(m: Machine, m': Machine, code: seq<Instr>, code': seq<Instr>, s: nat, e: Expr, base: nat, w: int, d: Kind, l: Lists, reg: nat, z: Entry)
    requires Means(m, code, s, e, base, -1, Is(d), l, z) && Extends(m, m')
    requires !d.VJmp? && !d.VRelocable? && s <= |code| && Open(code, l, |code|) && Appended(code, code', |code|, l.js)
    requires Disjoint(l.t, l.js) && Disjoint(l.f, l.js)
    requires |code'| == |code| + 1 && Loads(m'.k, code'[|code|], d, reg) && reg < MAXREGS && (reg >= base || reg == w)
    ensures Means(m', code', s, e, base, w, Is(VNonReloc(reg)), Lists(l.t, l.f, []), z)
  {
    hide Means, Appended;
    var n, l', g' := |code|, Lists(l.t, l.f, []), Is(VNonReloc(reg));
    forall r0: Regs, r: Regs, v: Val | Kept(r0, r, base, -1) && Holds(m, code, Is(d), r, v)
      ensures Good(m', code', v, base, w, g', l', r0, Run(m', code', Pend(l'), |code'|, n, r))
    {
      hide Loads, Put, Kept;
      LoadStep(m, m', code, code'[n], d, reg, n, r, v);
      KeptWider(r0, r, base, -1, w);
      PutKept(r0, r, base, w, reg, v);
      assert Run(m', code', Pend(l'), |code'|, n, r) == Fall(Put(r, reg, v));
    }
    MeansAppended(m, m', code, code', s, e, base, -1, w, Is(d), g', l, l', n, z);
  }

  lemma MeansWider(m: Machine, code: seq<Instr>, s: nat, e: Expr, base: nat, w: int, g: Goal, l: Lists, z: Entry)
    requires Means(m, code, s, e, base, -1, g, l, z)
    ensures Means(m, code, s, e, base, w, g, l, z)
  {
    hide Start, Run, Holds, Means, Kept;
    forall r: Regs ensures Good(m, code, Eval(m.order, e, Start(z, r)), base, w, g, l, Start(z, r), RunOf(m, code, s, g, l, r)) {
      MeansAt(m, code, s, e, base, -1, g, l, r, z);
      KeptWider(Start(z, r), RunOf(m, code, s, g, l, r).regs, base, -1, w);
    }
    MeansAll(m, code, s, e, base, w, g, l, z);
  }

  /** Choosing the register of an open instruction. */
  lemma RelocateMeans(m: Machine, code: seq<Instr>, code': seq<Instr>, s: nat, e: Expr, base: nat, w: int, pc: nat, l: Lists, reg: nat, z: Entry)
    requires Means(m, code, s, e, base, -1, Is(VRelocable(pc)), l, z) && |code| == pc + 1 && s <= pc && Open(code, l, pc) && l.js == []
    requires code[pc].Not? && code' == code[pc := Not(reg, code[pc].b)] && reg < MAXREGS && (reg >= base || reg == w)
    ensures Means(m, code', s, e, base, w, Is(VNonReloc(reg)), l, z)
  {
    hide Means;
    var g, g' := Is(VRelocable(pc)), Is(VNonReloc(reg));
    OpenPend(l);
    forall r0: Regs, r: Regs, v: Val | Kept(r0, r, base, -1) && Holds(m, code, g, r, v)
      ensures Good(m, code', v, base, w, g', l, r0, Run(m, code', Pend(l), |code'|, pc, r))
    {
      hide Put, Kept;
      KeptWider(r0, r, base, -1, w);
      PutKept(r0, r, base, w, reg, v);
      assert Run(m, code', Pend(l), |code'|, pc, r) == Fall(Put(r, reg, v));
    }
    MeansAppended(m, m, code, code', s, e, base, -1, w, g, g', l, l, pc, z);
  }

  // ----- conditional jumps -----

  /** A test of the value in register `b`, jumping when its truth is `cond`. */
  lemma TestMeans(m: Machine, code: seq<Instr>, code': seq<Instr>, s: nat, e: Expr, base: nat, b: nat, l: Lists, cond: bool, l': Lists, z: Entry)
    requires Means(m, code, s, e, base, -1, Is(VNonReloc(b)), l, z) && s <= |code| && Open(code, l, |code|) && Appended(code, code', |code|, l.js)
    requires Disjoint(l.t, l.js) && Disjoint(l.f, l.js)
    requires var n := |code|; |code'| == n + 2 && code'[n] == TestSet(NO_REG, b, cond) && code'[n + 1].Jmp?
    requires l' == if cond then Lists(l.t + [|code| + 1], l.f, []) else Lists(l.t, l.f + [|code| + 1], [])
    ensures Means(m, code', s, e, base, -1, Passes(!cond), l', z)
  {
    hide Means, Appended;
    var n, g, g' := |code|, Is(VNonReloc(b)), Passes(!cond);
    OpenPend(l);
    OpenPend(l');
    forall r0: Regs, r: Regs, v: Val | Kept(r0, r, base, -1) && Holds(m, code, g, r, v)
      ensures Good(m, code', v, base, -1, g', l', r0, Run(m, code', Pend(l'), |code'|, n, r))
    {
      hide Kept, Get;
      TestRun(m, code', Pend(l'), n, r);
      assert n + 1 !in l.t && n + 1 !in l.f;
      TestExit(code', n, b, cond, r, v);
    }
    MeansAppended(m, m, code, code', s, e, base, -1, -1, g, g', l, l', n, z);
  }

  /** A test at `n` whose jump is still open either leaves by it or goes on. */
  lemma TestRun(m: Machine, code: seq<Instr>, pend: set<nat>, n: nat, r: Regs)
    requires |code| == n + 2 && n + 1 in pend && IsTest(code[n]) && (code[n].TestSet? ==> code[n].a == NO_REG)
    requires code[n].Compare? ==> Valid(m, code[n])
    ensures Run(m, code, pend, n + 2, n, r) == if Jumps(m, code[n], r) then Exit(n + 1, r, true) else Fall(r)
  {
  }

  predicate Jumps(m: Machine, i: Instr, r: Regs) {
    if i.Test? then Truthy(Get(r, i.a)) == i.c
    else if i.TestSet? then Truthy(Get(r, i.b)) == i.c
    else Taken(m, i, r)
  }

  lemma TestExit(code: seq<Instr>, n: nat, b: nat, cond: bool, r: Regs, v: Val)
    requires |code| == n + 2 && code[n] == TestSet(NO_REG, b, cond) && v == Get(r, b)
    ensures Truthy(v) == cond ==> ExitHolds(code, n + 1, r, true, v, cond)
  {
  }

  /** The optimised test of `not x`: the NOT goes, and `x` is tested for the opposite. */
  lemma NotTestMeans(m: Machine, code: seq<Instr>, code': seq<Instr>, s: nat, e: Expr, base: nat, pc: nat, l: Lists, cond: bool, l': Lists, z: Entry)
    requires Means(m, code, s, e, base, -1, Is(VRelocable(pc)), l, z) && s <= pc && pc < |code| && Open(code, l, pc) && l.js == []
    requires code[pc].Not? && |code'| == pc + 2 && code'[..pc] == code[..pc] && code'[pc] == Test(code[pc].b, !cond) && code'[pc + 1].Jmp?
    requires l' == if cond then Lists(l.t + [pc + 1], l.f, []) else Lists(l.t, l.f + [pc + 1], [])
    ensures Means(m, code', s, e, base, -1, Passes(!cond), l', z)
  {
    hide Means;
    var g, g' := Is(VRelocable(pc)), Passes(!cond);
    OpenPend(l);
    OpenPend(l');
    forall r0: Regs, r: Regs, v: Val | Kept(r0, r, base, -1) && Holds(m, code, g, r, v)
      ensures Good(m, code', v, base, -1, g', l', r0, Run(m, code', Pend(l'), |code'|, pc, r))
    {
      hide Kept, Get;
      TestRun(m, code', Pend(l'), pc, r);
      assert pc + 1 !in l.t && pc + 1 !in l.f;
    }
    MeansAppended(m, m, code, code', s, e, base, -1, -1, g, g', l, l', pc, z);
  }

  function Flip(i: Instr): Instr {
    if i.Compare? then i.(want := !i.want) else i
  }

  /** The jump of a comparison joins the list for `side`; with `side` false the
      comparison has been negated first. */
  lemma CompareMeans(m: Machine, code: seq<Instr>, code': seq<Instr>, s: nat, e: Expr, base: nat, j: nat, l: Lists, side: bool, l': Lists, z: Entry)
    requires 0 < j && |code| == j + 1 && s <= j - 1 && Means(m, code, s, e, base, -1, Is(VJmp(j)), l, z) && Open(code, l, j - 1) && l.js == []
    requires code[j].Jmp? && code[j - 1].Compare? && code' == if side then code else code[j - 1 := Flip(code[j - 1])]
    requires l' == if side then Lists(l.t + [j], l.f, []) else Lists(l.t, l.f + [j], [])
    ensures Means(m, code', s, e, base, -1, Is(if side then VFalse else VTrue), l', z)
  {
    hide Means;
    var n, g, g' := j - 1, Is(VJmp(j)), Is(if side then VFalse else VTrue);
    OpenPend(l);
    OpenPend(l');
    forall r0: Regs, r: Regs, v: Val | Kept(r0, r, base, -1) && Holds(m, code, g, r, v)
      ensures Good(m, code', v, base, -1, g', l', r0, Run(m, code', Pend(l'), |code'|, n, r))
    {
      hide Kept, Get;
      FlipTaken(m, code[n], r);
      TestRun(m, code', Pend(l'), n, r);
      assert j !in l.t && j !in l.f;
    }
    MeansAppended(m, m, code, code', s, e, base, -1, -1, g, g', l, l', n, z);
  }

  lemma FlipTaken(m: Machine, i: Instr, r: Regs)
    requires Valid(m, i)
    ensures Valid(m, Flip(i)) && Taken(m, Flip(i), r) == !Taken(m, i, r)
  {
  }

  /** A goal that says less. */
  lemma MeansWeaker(m: Machine, code: seq<Instr>, s: nat, e: Expr, base: nat, g: Goal, g': Goal, l: Lists, z: Entry)
    requires Means(m, code, s, e, base, -1, g, l, z) && StopOf(g', |code|) == StopOf(g, |code|)
    requires forall r: Regs, v: Val :: Holds(m, code, g, r, v) ==> Holds(m, code, g', r, v)
    ensures Means(m, code, s, e, base, -1, g', l, z)
  {
    hide Start, Run, Holds, Means, Kept, ExitHolds;
    forall r: Regs ensures Good(m, code, Eval(m.order, e, Start(z, r)), base, -1, g', l, Start(z, r), RunOf(m, code, s, g', l, r)) {
      MeansAt(m, code, s, e, base, -1, g, l, r, z);
    }
    MeansAll(m, code, s, e, base, -1, g', l, z);
  }

  /** Once the truth is known, the jumps out on that side lead to the end. */
  lemma ToHereMeans(m: Machine, code: seq<Instr>, s: nat, e: Expr, base: nat, cond: bool, l: Lists, l': Lists, z: Entry)
    requires Means(m, code, s, e, base, -1, Passes(cond), l, z) && Disjoint(l.t, l.f) && Disjoint(l.t, l.js) && Disjoint(l.f, l.js)
    requires l' == if cond then Lists([], l.f, l.js + l.t) else Lists(l.t, [], l.js + l.f)
    ensures Means(m, code, s, e, base, -1, Passes(cond), l', z)
  {
    hide Start, Run, Means, Kept;
    assert Pend(l') == Pend(l) by { OpenPend(l); OpenPend(l'); }
    forall r: Regs ensures Good(m, code, Eval(m.order, e, Start(z, r)), base, -1, Passes(cond), l', Start(z, r), RunOf(m, code, s, Passes(cond), l', r)) {
      MeansAt(m, code, s, e, base, -1, Passes(cond), l, r, z);
    }
    MeansAll(m, code, s, e, base, -1, Passes(cond), l', z);
  }

  // ----- negation -----

  predicate Sent(code: seq<Instr>, p: nat, n: nat) {
    p < |code| && code[p].Jmp? && Dest(code, p) == n
  }

  /** The tests of the jumps out deliver no values any more; jumps to the end stay
      open or lead to `n`. */
  ghost predicate Stripped(code: seq<Instr>, code': seq<Instr>, l: Lists, l': Lists, s: nat, n: nat) {
    && n <= |code| && n <= |code'| && Agree(code, code', Pend(l), Pend(l'), s, n)
    && l'.t == l.f && l'.f == l.t && (l'.js == l.js || (l'.js == [] && forall j :: j in l.js ==> Sent(code', j, n)))
    && (forall j :: j in Pend(l) ==> j < n && (Carries(code', j) ==> code'[j - 1].a == NO_REG))
    && (forall j :: (j in l.t || j in l.f) ==> !Carries(code', j) && (j > 0 ==> IsTest(code'[j - 1]) == IsTest(code[j - 1])))
  }

  /** `not` swaps the jumps out when true and when false. */
  lemma NotMeans(m: Machine, code: seq<Instr>, code': seq<Instr>, s: nat, e: Expr, base: nat, g: Goal, g': Goal, l: Lists, l': Lists, n: nat, z: Entry)
    requires Means(m, code, s, e, base, -1, g, l, z) && s <= n && n == StopOf(g, |code|) && n == StopOf(g', |code'|)
    requires Stripped(code, code', l, l', s, n) && Disjoint(l.t, l.f) && Disjoint(l.t, l.js) && Disjoint(l.f, l.js)
    requires forall r: Regs, v: Val :: Holds(m, code, g, r, v) ==> Holds(m, code', g', r, Bool(!Truthy(v)))
    ensures Means(m, code', s, NotOf(e), base, -1, g', l', z)
  {
    hide Start, Run, Means, Kept, Holds, Agree;
    OpenPend(l);
    OpenPend(l');
    forall r: Regs ensures Good(m, code', Eval(m.order, NotOf(e), Start(z, r)), base, -1, g', l', Start(z, r), RunOf(m, code', s, g', l', r)) {
      var o := RunOf(m, code, s, g, l, r);
      MeansAt(m, code, s, e, base, -1, g, l, r, z);
      RunPatched(m, m, code, code', Pend(l), Pend(l'), s, n, n, s, r);
      RunStop(m, code', Pend(l'), n, o.regs);
      if o.Exit? { ExitPend(m, code, Pend(l), n, s, r); }
    }
    MeansAll(m, code', s, NotOf(e), base, -1, g', l', z);
  }

  lemma RunStop(m: Machine, code: seq<Instr>, pend: set<nat>, n: nat, r: Regs)
    ensures Run(m, code, pend, n, n, r) == Fall(r)
  {
  }

  // ----- joining two fragments -----

  /** Code generated after `code`, whose jumps to the end were `js`: nothing, or code
      to which those jumps now lead. */
  ghost predicate Grown(code: seq<Instr>, code': seq<Instr>, js: seq<nat>) {
    if |code'| == |code| then code' == code else |code'| > |code| && Appended(code, code', |code|, js)
  }

  /** Jumps before `n` do not matter from `n` on. */
  lemma {:induction false} PendBeyond(m: Machine, code: seq<Instr>, pend: set<nat>, pend': set<nat>, stop: nat, n: nat, pc: nat, r: Regs)
    requires n <= pc && forall p :: n <= p ==> (p in pend <==> p in pend')
    ensures Run(m, code, pend', stop, pc, r) == Run(m, code, pend, stop, pc, r)
    decreases stop - pc
  {
    if pc < stop && pc < |code| {
      var next := Step(m, code[pc], pc, r);
      if next.Via? { ViaOnce(m, code[pc], pc, r); }
      hide Step;
      if next.Goto? {
        if next.pc > pc { PendBeyond(m, code, pend, pend', stop, n, next.pc, next.regs); }
      } else if next.Via? {
        if next.jump < |code| && code[next.jump].Jmp? && Dest(code, next.jump) > pc {
          PendBeyond(m, code, pend, pend', stop, n, Dest(code, next.jump), next.regs);
        }
      }
    }
  }

  /** Running the second operand from registers the first one left. */
  lemma SecondOperand(m: Machine, code: seq<Instr>, n: nat, y: Expr, base: nat, base2: nat, nact: nat, g: Goal, l2: Lists, l: Lists, r0: Regs, r: Regs)
    requires Means(m, code, n, y, base2, -1, g, l2, Direct) && Scoped(y, nact) && nact <= base <= base2 && Kept(r0, r, base, -1)
    requires forall p :: n <= p ==> (p in l.t <==> p in l2.t) && (p in l.f <==> p in l2.f) && (p in l.js <==> p in l2.js)
    requires forall p :: p in Pend(l2) ==> n <= p
    ensures Good(m, code, Eval(m.order, y, r0), base, -1, g, l, r0, RunOf(m, code, n, g, l, r))
    ensures RunOf(m, code, n, g, l, r) == RunOf(m, code, n, g, l2, r)
  {
    hide Run, Means, Holds, ExitHolds, Eval;
    EvalKept(m.order, y, r0, r, nact);
    MeansAt(m, code, n, y, base2, -1, g, l2, r, Direct);
    OpenPend(l);
    OpenPend(l2);
    PendBeyond(m, code, Pend(l2), Pend(l), StopOf(g, |code|), n, n, r);
    var o := RunOf(m, code, n, g, l2, r);
    if o.Exit? { ExitPend(m, code, Pend(l2), StopOf(g, |code|), n, r); }
    KeptTwice(r0, r, o.regs, base, base2);
  }

  lemma KeptTwice(r0: Regs, r: Regs, r': Regs, base: nat, base2: nat)
    requires Kept(r0, r, base, -1) && Kept(r, r', base2, -1) && base <= base2
    ensures Kept(r0, r', base, -1)
  {
  }

  /** `and` (`cond` true) and `or` (`cond` false): the first operand decides unless its
      truth is `cond`; then the second gives the value. */
  function Logic(cond: bool, x: Expr, y: Expr): Expr {
    if cond then And(x, y) else Or(x, y)
  }

  lemma LogicMeans(m: Machine, m': Machine, code: seq<Instr>, code': seq<Instr>, s: nat, x: Expr, y: Expr, cond: bool,
                   base: nat, nact: nat, g: Goal, l1: Lists, l2: Lists, l: Lists, z: Entry)
    requires Scoped(y, nact) && nact <= base && Extends(m, m')
    requires Means(m, code, s, x, base, -1, Passes(cond), l1, z) && Means(m', code', |code|, y, base, -1, g, l2, Direct)
    requires s <= |code| <= StopOf(g, |code'|) <= |code'| && Grown(code, code', l1.js) && Open(code, l1, |code|)
    requires (if cond then l1.t else l1.f) == [] && Disjoint(l1.t, l1.js) && Disjoint(l1.f, l1.js)
    requires |code'| > |code| ==> forall j :: j in Pend(l2) ==> |code| <= j
    requires |code'| == |code| ==> l2 == Lists([], [], l1.js)
    requires l == Lists(l2.t + l1.t, l2.f + l1.f, l2.js)
    ensures Means(m', code', s, Logic(cond, x, y), base, -1, g, l, z)
  {
    if |code'| == |code| {
      LogicSame(m, m', code, s, x, y, cond, base, nact, g, l1, l, z);
    } else {
      LogicMore(m, m', code, code', s, x, y, cond, base, nact, g, l1, l2, l, z);
    }
  }

  lemma LogicSame(m: Machine, m': Machine, code: seq<Instr>, s: nat, x: Expr, y: Expr, cond: bool, base: nat, nact: nat, g: Goal, l1: Lists, l: Lists, z: Entry)
    requires Scoped(y, nact) && nact <= base && Extends(m, m')
    requires Means(m, code, s, x, base, -1, Passes(cond), l1, z) && Means(m', code, |code|, y, base, -1, g, Lists([], [], l1.js), Direct)
    requires s <= |code| == StopOf(g, |code|) && Open(code, l1, |code|) && (if cond then l1.t else l1.f) == []
    requires l == Lists([] + l1.t, [] + l1.f, l1.js)
    ensures Means(m', code, s, Logic(cond, x, y), base, -1, g, l, z)
  {
    hide Start, Run, Means, Holds, ExitHolds, Eval, Good;
    assert l == l1;
    forall r: Regs ensures Good(m', code, Eval(m'.order, Logic(cond, x, y), Start(z, r)), base, -1, g, l, Start(z, r), RunOf(m', code, s, g, l, r)) {
      LogicSameAt(m, m', code, s, x, y, cond, base, nact, g, l, r, z);
    }
    MeansAll(m', code, s, Logic(cond, x, y), base, -1, g, l, z);
  }

  lemma LogicSameAt(m: Machine, m': Machine, code: seq<Instr>, s: nat, x: Expr, y: Expr, cond: bool, base: nat, nact: nat, g: Goal, l: Lists, r: Regs, z: Entry)
    requires Scoped(y, nact) && nact <= base && Extends(m, m')
    requires Means(m, code, s, x, base, -1, Passes(cond), l, z) && Means(m', code, |code|, y, base, -1, g, Lists([], [], l.js), Direct)
    requires s <= |code| == StopOf(g, |code|) && Open(code, l, |code|) && (if cond then l.t else l.f) == []
    ensures Good(m', code, Eval(m'.order, Logic(cond, x, y), Start(z, r)), base, -1, g, l, Start(z, r), RunOf(m', code, s, g, l, r))
  {
    hide Run, Means, Holds, Kept, ExitHolds, Eval;
    var n, o, v := |code|, RunOf(m, code, s, Passes(cond), l, r), Eval(m.order, x, Start(z, r));
    MeansAt(m, code, s, x, base, -1, Passes(cond), l, r, z);
    RelinkSelf(code);
    RelinkRun(m, m', code, code, Pend(l), [], s, n, r);
    LogicEval(m.order, cond, x, y, Start(z, r));
    if Onward(o, l.js) {
      PassesTruth(m, code, cond, o.regs, v);
      EvalKeptBase(m.order, y, Start(z, r), o.regs, nact, base);
      MeansAt(m', code, n, y, base, -1, g, Lists([], [], l.js), o.regs, Direct);
      RunStop(m', code, Pend(Lists([], [], l.js)), n, o.regs);
    } else {
      ExitTruth(code, l, o, v);
    }
  }

  lemma RelinkSelf(code: seq<Instr>)
    ensures Relinked(code, code, []) && Elems([]) == {}
  {
  }

  lemma PassesTruth(m: Machine, code: seq<Instr>, cond: bool, r: Regs, v: Val)
    requires Holds(m, code, Passes(cond), r, v)
    ensures Truthy(v) == cond
  {
  }

  lemma ExitTruth(code: seq<Instr>, l: Lists, o: Outcome, v: Val)
    requires o.Exit?
    requires if o.jump in l.t then ExitHolds(code, o.jump, o.regs, o.tested, v, true) else o.jump in l.f && ExitHolds(code, o.jump, o.regs, o.tested, v, false)
    ensures if o.jump in l.t then Truthy(v) else !Truthy(v)
  {
  }

  lemma EvalKeptBase(o: Order, e: Expr, r: Regs, r': Regs, nact: nat, base: nat)
    requires Scoped(e, nact) && nact <= base && Kept(r, r', base, -1)
    ensures Eval(o, e, r') == Eval(o, e, r)
  {
    EvalKept(o, e, r, r', nact);
  }

  lemma LogicMore(m: Machine, m': Machine, code: seq<Instr>, code': seq<Instr>, s: nat, x: Expr, y: Expr, cond: bool,
                  base: nat, nact: nat, g: Goal, l1: Lists, l2: Lists, l: Lists, z: Entry)
    requires Scoped(y, nact) && nact <= base && Extends(m, m')
    requires Means(m, code, s, x, base, -1, Passes(cond), l1, z) && Means(m', code', |code|, y, base, -1, g, l2, Direct)
    requires s <= |code| <= StopOf(g, |code'|) && |code| < |code'| && Appended(code, code', |code|, l1.js) && Open(code, l1, |code|)
    requires (if cond then l1.t else l1.f) == [] && Disjoint(l1.t, l1.js) && Disjoint(l1.f, l1.js)
    requires forall j :: j in Pend(l2) ==> |code| <= j
    requires l == Lists(l2.t + l1.t, l2.f + l1.f, l2.js)
    ensures Means(m', code', s, Logic(cond, x, y), base, -1, g, l, z)
  {
    hide Run, Means, Holds, ExitHolds, Appended, Eval, Good, Kept;
    var n, e := |code|, Logic(cond, x, y);
    OpenPend(l1); OpenPend(l2); OpenPend(l);
    forall r0: Regs, r: Regs | Kept(r0, r, base, -1) && Holds(m, code, Passes(cond), r, Eval(m.order, x, r0))
      ensures Good(m', code', Eval(m.order, e, r0), base, -1, g, l, r0, Run(m', code', Pend(l), StopOf(g, |code'|), n, r))
    {
      PassesTruth(m, code, cond, r, Eval(m.order, x, r0));
      LogicEval(m.order, cond, x, y, r0);
      SecondOperand(m', code', n, y, base, base, nact, g, l2, l, r0, r);
    }
    forall r: Regs | (if Truthy(Eval(m.order, x, r)) then l1.t else l1.f) != [] ensures Eval(m.order, e, r) == Eval(m.order, x, r) {
      LogicEval(m.order, cond, x, y, r);
    }
    MeansExtended(m, m', code, code', s, x, e, base, -1, -1, Passes(cond), g, l1, l, n, z);
  }

  lemma LogicEval(o: Order, cond: bool, x: Expr, y: Expr, r: Regs)
    ensures Eval(o, Logic(cond, x, y), r) == if Truthy(Eval(o, x, r)) == cond then Eval(o, y, r) else Eval(o, x, r)
  {
  }

  /** Registers an expression needs above those in use. */
  function Need(e: Expr): nat {
    match e
    case NotOf(x) => Need(x)
    case And(x, y) => if Need(x) < Need(y) then Need(y) else Need(x)
    case Or(x, y) => if Need(x) < Need(y) then Need(y) else Need(x)
    case Rel(_, x, y) => if Need(x) < Need(y) + 1 then Need(y) + 1 else Need(x)
    case _ => 1
  }

  lemma NeedOne(e: Expr)
    ensures Need(e) >= 1
  {
  }

  predicate LeafKind(m: Machine, e: Expr, k: Kind) {
    match e
    case NilLit => k == VNil
    case TrueLit => k == VTrue
    case FalseLit => k == VFalse
    case NumLit(n) => k == VKInt(n)
    case StrLit(id) => k.VK? && k.k < |m.k| && m.k[k.k] == Str(id)
    case Local(r) => k == VLocal(r)
    case _ => false
  }

  /** No code of the expression yet: the fragment is empty, or is the LOADNIL before it. */
  ghost predicate BeginsAt(code: seq<Instr>, s: nat, z: Entry) {
    match z
    case Direct => s == |code|
    case AfterNils(a, b) => s + 1 == |code| && code[s] == LoadNil(a, b)
  }

  lemma NilRun(m: Machine, code: seq<Instr>, pend: set<nat>, s: nat, r: Regs)
    requires s + 1 == |code| && code[s].LoadNil?
    ensures Run(m, code, pend, s + 1, s, r) == Fall(Clear(r, code[s].a, code[s].b))
  {
    hide Clear;
    RunStop(m, code, pend, s + 1, Clear(r, code[s].a, code[s].b));
    assert Step(m, code[s], s, r) == Goto(s + 1, Clear(r, code[s].a, code[s].b));
  }

  /** A literal or a local variable, described without any code. */
  lemma LeafMeans(m: Machine, code: seq<Instr>, s: nat, e: Expr, base: nat, k: Kind, js: seq<nat>, z: Entry)
    requires LeafKind(m, e, k) && BeginsAt(code, s, z)
    ensures Means(m, code, s, e, base, -1, Is(k), Lists([], [], js), z)
  {
    forall r: Regs ensures Good(m, code, Eval(m.order, e, Start(z, r)), base, -1, Is(k), Lists([], [], js), Start(z, r),
                                RunOf(m, code, s, Is(k), Lists([], [], js), r)) {
      if z.AfterNils? { NilRun(m, code, Pend(Lists([], [], js)), s, r); }
    }
  }

  /** A nil put into a register by extending the LOADNIL before the expression. */
  lemma MergedMeans(m: Machine, code: seq<Instr>, code': seq<Instr>, s: nat, e: Expr, base: nat, w: int, l: Lists, reg: nat, z: Entry)
    requires Means(m, code, s, e, base, -1, Is(VNil), l, z) && z.AfterNils? && s + 1 == |code| == |code'| && l == Lists([], [], [])
    requires code[s] == LoadNil(z.a, z.b) && code'[s].LoadNil? && reg < MAXREGS && (reg >= base || reg == w)
    requires forall r: Regs :: Clear(r, code'[s].a, code'[s].b) == Clear(Clear(r, z.a, z.b), reg, 0)
    ensures Means(m, code', s, e, base, w, Is(VNonReloc(reg)), l, z)
  {
    hide Means, Clear;
    var g, g' := Is(VNil), Is(VNonReloc(reg));
    OpenPend(l);
    forall r: Regs ensures Good(m, code', Eval(m.order, e, Start(z, r)), base, w, g', l, Start(z, r), RunOf(m, code', s, g', l, r)) {
      MeansAt(m, code, s, e, base, -1, g, l, r, z);
      NilRun(m, code, Pend(l), s, r);
      NilRun(m, code', Pend(l), s, r);
      ClearOne(Start(z, r), reg);
      KeptSelf(Start(z, r), base);
      KeptWider(Start(z, r), Start(z, r), base, -1, w);
      PutKept(Start(z, r), Start(z, r), base, w, reg, Nil);
    }
    MeansAll(m, code', s, e, base, w, g', l, z);
  }

  lemma ClearOne(r: Regs, reg: nat)
    requires reg < MAXREGS
    ensures Clear(r, reg, 0) == Put(r, reg, Nil)
  {
  }

  lemma KeptSelf(r: Regs, base: nat)
    ensures Kept(r, r, base, -1)
  {
  }

  // ----- comparisons -----

  /** The comparison for a relation: `>` and `>=` swap the operands, `~=` asks for
      the test to fail. */
  function CompareFor(op: Relation, a: RK, b: RK): Instr {
    match op
    case Equal => Compare(EQ, true, a, b)
    case Unequal => Compare(EQ, false, a, b)
    case Less => Compare(LT, true, a, b)
    case LessEqual => Compare(LE, true, a, b)
    case Greater => Compare(LT, true, b, a)
    case GreaterEqual => Compare(LE, true, b, a)
  }

  /** The opcodes of lcode.c, where `a` is the first operand of the relation: `==`, `<`
      and `<=` have their own, `a ~= b` is a failed `==`, `a > b` is `b < a`, and
      `a >= b` is `b <= a`. */
  predicate EmittedFor(op: Relation, i: Instr, a: RK) {
    && i.Compare?
    && match op
       case Equal => i.op == EQ && i.want && i.x == a
       case Unequal => i.op == EQ && !i.want && i.x == a
       case Less => i.op == LT && i.want && i.x == a
       case LessEqual => i.op == LE && i.want && i.x == a
       case Greater => i.op == LT && i.want && i.y == a
       case GreaterEqual => i.op == LE && i.want && i.y == a
  }

  lemma CompareEmitted(op: Relation, a: RK, b: RK)
    ensures EmittedFor(op, CompareFor(op, a, b), a)
  {
  }

  /** The operand for a value of kind `k`. */
  predicate OperandOf(k: Kind, a: RK) {
    (k.VK? && a == Const(k.k)) || (k.VNonReloc? && a == Reg(k.r))
  }

  lemma CompareRight(m: Machine, op: Relation, a: RK, b: RK, r: Regs, x: Val, y: Val)
    requires ValidRK(m, a) && ValidRK(m, b) && RKValue(m, r, a) == x && RKValue(m, r, b) == y
    ensures Valid(m, CompareFor(op, a, b)) && Taken(m, CompareFor(op, a, b), r) == Related(m.order, op, x, y)
  {
  }

  lemma OperandValue(m: Machine, m': Machine, code: seq<Instr>, k: Kind, a: RK, r: Regs, r': Regs, base: nat, v: Val)
    requires Extends(m, m') && Holds(m, code, Is(k), r, v) && OperandOf(k, a) && Kept(r, r', base, -1) && (k.VNonReloc? ==> k.r < base)
    ensures ValidRK(m', a) && RKValue(m', r', a) == v
  {
  }

  /** The code of the second operand, closed at its end. */
  lemma ClosedMeans(m: Machine, code: seq<Instr>, code': seq<Instr>, s: nat, y: Expr, base: nat, k: Kind, js: seq<nat>)
    requires Means(m, code, s, y, base, -1, Is(k), Lists([], [], js), Direct) && (k.VK? || k.VNonReloc?) && s <= |code|
    requires Open(code, Lists([], [], js), |code|) && |code'| == |code| && Appended(code, code', |code|, js)
    ensures Means(m, code', s, y, base, -1, Is(k), Lists([], [], []), Direct)
  {
    hide Means, Appended;
    var g, l, l' := Is(k), Lists([], [], js), Lists([], [], []);
    OpenPend(l); OpenPend(l');
    MeansAppended(m, m, code, code', s, y, base, -1, -1, g, g, l, l', |code|, Direct);
  }

  lemma CompareAll(m: Machine, m1: Machine, m2: Machine, code: seq<Instr>, code2: seq<Instr>, code': seq<Instr>, s: nat, x: Expr, y: Expr, op: Relation,
                   base: nat, base2: nat, nact: nat, kx: Kind, ky: Kind, a: RK, b: RK, js: seq<nat>, js2: seq<nat>, z: Entry)
    requires Extends(m, m1) && Extends(m1, m2) && Scoped(y, nact) && nact <= base <= base2
    requires Means(m, code, s, x, base, -1, Is(kx), Lists([], [], js), z) && OperandOf(kx, a) && (kx.VNonReloc? ==> kx.r < base2) && s <= |code|
    requires Means(m1, code2, |code|, y, base2, -1, Is(ky), Lists([], [], js2), Direct) && OperandOf(ky, b)
    requires |code| <= |code2| && |code'| == |code2| + 2 && Appended(code, code', |code|, js) && Appended(code2, code', |code2|, js2)
    requires Open(code, Lists([], [], js), |code|) && Open(code2, Lists([], [], js2), |code2|)
    requires code'[|code2|] == CompareFor(op, a, b)
    ensures Means(m2, code', s, Rel(op, x, y), base, -1, Is(VJmp(|code2| + 1)), Lists([], [], []), z)
  {
    hide Means, Appended, Eval, CompareFor, Extends, Open;
    var n, n2, e := |code|, |code2|, Rel(op, x, y);
    SameOrder(m, m1);
    SameOrder(m1, m2);
    ExtendsTwice(m, m1, m2);
    var l, l', g' := Lists([], [], js), Lists([], [], []), Is(VJmp(n2 + 1));
    var closed := code'[..n2];
    ClosedPrefix(code2, code', js2);
    ClosedMeans(m1, code2, closed, n, y, base2, ky, js2);
    OpenPend(l); OpenPend(l');
    forall r0: Regs, r: Regs | Kept(r0, r, base, -1) && Holds(m, code, Is(kx), r, Eval(m.order, x, r0))
      ensures Good(m2, code', Eval(m.order, e, r0), base, -1, g', l', r0, Run(m2, code', Pend(l'), n2, n, r))
    {
      hide Run, Kept, Holds, Good;
      CompareTail(m, m1, m2, code, closed, code', x, y, op, base, base2, nact, kx, ky, a, b, r0, r);
    }
    MeansExtended(m, m2, code, code', s, x, e, base, -1, -1, Is(kx), g', l, l', n, z);
  }

  lemma CompareTail(m: Machine, m1: Machine, m2: Machine, code: seq<Instr>, closed: seq<Instr>, code': seq<Instr>, x: Expr, y: Expr, op: Relation,
                    base: nat, base2: nat, nact: nat, kx: Kind, ky: Kind, a: RK, b: RK, r0: Regs, r: Regs)
    requires Extends(m, m1) && Extends(m1, m2) && Scoped(y, nact) && nact <= base <= base2
    requires OperandOf(kx, a) && (kx.VNonReloc? ==> kx.r < base2) && OperandOf(ky, b) && (ky.VK? || ky.VNonReloc?) && |code| <= |closed|
    requires Means(m1, closed, |code|, y, base2, -1, Is(ky), Lists([], [], []), Direct)
    requires |code'| == |closed| + 2 && Begins(code', closed) && code'[|closed|] == CompareFor(op, a, b)
    requires Kept(r0, r, base, -1) && Holds(m, code, Is(kx), r, Eval(m.order, x, r0))
    ensures Good(m2, code', Eval(m.order, Rel(op, x, y), r0), base, -1, Is(VJmp(|closed| + 1)), Lists([], [], []), r0,
                 Run(m2, code', Pend(Lists([], [], [])), |closed|, |code|, r))
  {
    hide Run, Means, Kept, Holds, Eval, OperandOf, CompareFor, Related, Begins, ValidRK, RKValue, Extends, Good;
    SameOrder(m, m1);
    SameOrder(m1, m2);
    ExtendsTwice(m, m1, m2);
    var r' := SecondRun(m1, m2, closed, code', |code|, y, base, base2, nact, ky, r0, r);
    OperandValue(m, m2, code, kx, a, r, r', base2, Eval(m.order, x, r0));
    SecondValue(m1, m2, closed, ky, b, r', Eval(m.order, y, r0));
    CompareHolds(m2, code', |closed|, op, a, b, r', Eval(m.order, x, r0), Eval(m.order, y, r0));
    RelEval(m.order, op, x, y, r0);
    GoodFall(m2, code', Eval(m.order, Rel(op, x, y), r0), base, Is(VJmp(|closed| + 1)), Lists([], [], []), r0, r');
  }

  /** A comparison whose first operand has no code: the second one begins where it does. */
  lemma CompareSame(m1: Machine, m2: Machine, c1: seq<Instr>, c2: seq<Instr>, code: seq<Instr>, s: nat, x: Expr, y: Expr, op: Relation,
                    base: nat, base2: nat, kx: Kind, ky: Kind, a: RK, b: RK, js2: seq<nat>, z: Entry)
    requires Means(m1, c1, s, x, base, -1, Is(kx), Lists([], [], []), z) && z.AfterNils? && BeginsAt(c1, s, z) && Extends(m1, m2)
    requires OperandOf(kx, a) && (kx.VNonReloc? ==> kx.r < base2) && base <= base2 && s <= |c2|
    requires Means(m2, c2, s, y, base2, -1, Is(ky), Lists([], [], js2), z) && OperandOf(ky, b) && Open(c2, Lists([], [], js2), |c2|)
    requires |code| == |c2| + 2 && Appended(c2, code, |c2|, js2) && code[|c2|] == CompareFor(op, a, b)
    ensures Means(m2, code, s, Rel(op, x, y), base, -1, Is(VJmp(|c2| + 1)), Lists([], [], []), z)
  {
    hide Means, Appended, Eval, CompareFor, Extends, Open, BeginsAt, Start;
    var n, e := |c2|, Rel(op, x, y);
    var l, l', g, g' := Lists([], [], js2), Lists([], [], []), Is(ky), Is(VJmp(n + 1));
    OpenPend(l); OpenPend(l');
    SameOrder(m1, m2);
    forall q: Regs, r: Regs | Kept(Start(z, q), r, base2, -1) && Holds(m2, c2, g, r, Eval(m2.order, y, Start(z, q)))
      ensures Good(m2, code, Eval(m2.order, e, Start(z, q)), base2, -1, g', l', Start(z, q), Run(m2, code, Pend(l'), n, n, r))
    {
      hide Run, Kept, Holds, Good, OperandOf;
      var r0 := Start(z, q);
      FirstValue(m1, c1, s, x, base, kx, z, q);
      OperandValue(m1, m2, c1, kx, a, r0, r, base2, Eval(m1.order, x, r0));
      SecondValue(m2, m2, c2, ky, b, r, Eval(m2.order, y, r0));
      CompareHolds(m2, code, n, op, a, b, r, Eval(m2.order, x, r0), Eval(m2.order, y, r0));
      RelEval(m2.order, op, x, y, r0);
      RunStop(m2, code, Pend(l'), n, r);
      GoodFall(m2, code, Eval(m2.order, e, r0), base2, g', l', r0, r);
    }
    ExtendsSelf(m2);
    MeansExtended(m2, m2, c2, code, s, y, e, base2, -1, -1, g, g', l, l', n, z);
    MeansLower(m2, code, s, e, base, base2, g', l', z);
  }

  /** The value of an expression that has no code. */
  lemma FirstValue(m: Machine, code: seq<Instr>, s: nat, x: Expr, base: nat, k: Kind, z: Entry, q: Regs)
    requires Means(m, code, s, x, base, -1, Is(k), Lists([], [], []), z) && z.AfterNils? && BeginsAt(code, s, z) && (k.VK? || k.VNonReloc?)
    ensures Holds(m, code, Is(k), Start(z, q), Eval(m.order, x, Start(z, q)))
  {
    hide Means, Clear, Holds;
    MeansAt(m, code, s, x, base, -1, Is(k), Lists([], [], []), q, z);
    NilRun(m, code, Pend(Lists([], [], [])), s, q);
  }

  lemma MeansLower(m: Machine, code: seq<Instr>, s: nat, e: Expr, base: nat, base2: nat, g: Goal, l: Lists, z: Entry)
    requires Means(m, code, s, e, base2, -1, g, l, z) && base <= base2
    ensures Means(m, code, s, e, base, -1, g, l, z)
  {
    hide Start, Run, Holds, Means, ExitHolds;
    forall r: Regs ensures Good(m, code, Eval(m.order, e, Start(z, r)), base, -1, g, l, Start(z, r), RunOf(m, code, s, g, l, r)) {
      MeansAt(m, code, s, e, base2, -1, g, l, r, z);
    }
    MeansAll(m, code, s, e, base, -1, g, l, z);
  }

  lemma GoodFall(m: Machine, code: seq<Instr>, v: Val, base: nat, g: Goal, l: Lists, r0: Regs, r: Regs)
    requires Kept(r0, r, base, -1) && Holds(m, code, g, r, v)
    ensures Good(m, code, v, base, -1, g, l, r0, Fall(r))
  {
  }

  lemma SameOrder(m: Machine, m': Machine)
    requires Extends(m, m')
    ensures m.order == m'.order
  {
  }

  ghost predicate Begins(code: seq<Instr>, prefix: seq<Instr>) {
    |prefix| <= |code| && code[..|prefix|] == prefix
  }

  lemma CompareHolds(m: Machine, code: seq<Instr>, n: nat, op: Relation, a: RK, b: RK, r: Regs, x: Val, y: Val)
    requires ValidRK(m, a) && ValidRK(m, b) && RKValue(m, r, a) == x && RKValue(m, r, b) == y
    requires n < |code| && code[n] == CompareFor(op, a, b)
    ensures Holds(m, code, Is(VJmp(n + 1)), r, Bool(Related(m.order, op, x, y)))
  {
    CompareRight(m, op, a, b, r, x, y);
  }

  /** Where the second operand leaves the registers. */
  lemma SecondRun(m1: Machine, m2: Machine, closed: seq<Instr>, code': seq<Instr>, n: nat, y: Expr, base: nat, base2: nat, nact: nat, ky: Kind,
                  r0: Regs, r: Regs) returns (r': Regs)
    requires Extends(m1, m2) && Scoped(y, nact) && nact <= base <= base2 && n <= |closed| && (ky.VK? || ky.VNonReloc?)
    requires Means(m1, closed, n, y, base2, -1, Is(ky), Lists([], [], []), Direct)
    requires Begins(code', closed) && Kept(r0, r, base, -1)
    ensures Run(m2, code', Pend(Lists([], [], [])), |closed|, n, r) == Fall(r')
    ensures Kept(r0, r', base, -1) && Kept(r, r', base2, -1) && Holds(m1, closed, Is(ky), r', Eval(m1.order, y, r0))
  {
    hide Run, Means, Kept, Holds, Eval;
    var l := Lists([], [], []);
    EvalKeptBase(m1.order, y, r0, r, nact, base);
    MeansAt(m1, closed, n, y, base2, -1, Is(ky), l, r, Direct);
    PrefixRun(m1, m2, closed, code', n, |closed|, r);
    r' := RunOf(m1, closed, n, Is(ky), l, r).regs;
    KeptTwice(r0, r, r', base, base2);
  }

  lemma RelEval(o: Order, op: Relation, x: Expr, y: Expr, r: Regs)
    ensures Eval(o, Rel(op, x, y), r) == Bool(Related(o, op, Eval(o, x, r), Eval(o, y, r)))
  {
  }

  lemma SecondValue(m: Machine, m': Machine, code: seq<Instr>, k: Kind, a: RK, r: Regs, v: Val)
    requires Extends(m, m') && Holds(m, code, Is(k), r, v) && OperandOf(k, a)
    ensures ValidRK(m', a) && RKValue(m', r, a) == v
  {
  }

  lemma ClosedPrefix(code: seq<Instr>, code': seq<Instr>, js: seq<nat>)
    requires Appended(code, code', |code|, js)
    ensures Appended(code, code'[..|code|], |code|, js)
  {
  }

  /** Without open jumps, a run to the end of a prefix is the same in longer code. */
  lemma PrefixRun(m: Machine, m': Machine, code: seq<Instr>, code': seq<Instr>, pc: nat, n: nat, r: Regs)
    requires Extends(m, m') && pc <= n == |code| && n <= |code'| && code'[..n] == code
    requires Run(m, code, Pend(Lists([], [], [])), n, pc, r) != Stuck
    ensures Run(m', code', Pend(Lists([], [], [])), n, pc, r) == Run(m, code, Pend(Lists([], [], [])), n, pc, r)
  {
    var pend := Pend(Lists([], [], []));
    OpenPend(Lists([], [], []));
    forall p | pc <= p < n ensures AgreeAt(code, code', pend, pend, n, p) { assert code'[..n][p] == code[p]; }
    RunPatched(m, m', code, code', pend, pend, pc, n, n, pc, r);
    var o := Run(m, code, pend, n, pc, r);
    if o.Exit? { ExitPend(m, code, pend, n, pc, r); }
    else if o.Fall? { RunStop(m', code', pend, n, o.regs); }
  }

  // ----- the final value -----

  /** At `d`, `reg` gets the boolean `side` and control reaches the end of the code. */
  predicate Loader(code: seq<Instr>, d: int, reg: nat, side: bool) {
    0 <= d < |code| && code[d] == LoadBool(reg, side, !side) && d + (if side then 1 else 2) == |code|
  }

  /** A jump out: one that delivers a value does so into `reg` and leads to the end,
      any other leads to the load of its boolean. */
  ghost predicate FinalAt(code: seq<Instr>, code': seq<Instr>, j: nat, side: bool, reg: nat, n: nat) {
    && j < n <= |code| && n <= |code'| && code'[j].Jmp?
    && (if Carries(code, j) then code'[j - 1] == PatchReg(code[j - 1], reg) && Sent(code', j, |code'|)
        else !Carries(code', j) && n <= Dest(code', j) && Loader(code', Dest(code', j), reg, side))
  }

  ghost predicate Final(code: seq<Instr>, code': seq<Instr>, l: Lists, l': Lists, reg: nat, s: nat, n: nat) {
    && Agree(code, code', Pend(l), Pend(l'), s, n) && l'.t == [] && l'.f == []
    && (forall j :: j in l.t ==> FinalAt(code, code', j, true, reg, n) && j !in l'.js)
    && (forall j :: j in l.f ==> FinalAt(code, code', j, false, reg, n) && j !in l'.js)
    && (forall j :: j in l.js ==> j in l'.js && (Carries(code', j) ==> code'[j - 1].a == NO_REG))
  }

  /** What falls out of the end: it already is there, or jumps there, or is false. */
  predicate FinalTail(code': seq<Instr>, js: seq<nat>, g: Goal, reg: nat, n: nat) {
    || (g == Is(VNonReloc(reg)) && n == |code'|)
    || (g == Is(VNonReloc(reg)) && n < |code'| && code'[n].Jmp? && n in js)
    || (g == Is(VFalse) && Loader(code', n, reg, false))
  }

  lemma FinalMeans(m: Machine, code: seq<Instr>, code': seq<Instr>, s: nat, e: Expr, base: nat, w: int, g: Goal, l: Lists, l': Lists, reg: nat, z: Entry)
    requires Means(m, code, s, e, base, w, g, l, z) && s <= |code| <= |code'| && reg < MAXREGS && (reg >= base || reg == w)
    requires Final(code, code', l, l', reg, s, |code|) && FinalTail(code', l'.js, g, reg, |code|) && (g == Is(VFalse) ==> l.js == [])
    ensures Means(m, code', s, e, base, w, Is(VNonReloc(reg)), l', z)
  {
    hide Start, Run, Means, Holds, Final, Eval, Good, FinalTail;
    forall r: Regs ensures Good(m, code', Eval(m.order, e, Start(z, r)), base, w, Is(VNonReloc(reg)), l', Start(z, r), RunOf(m, code', s, Is(VNonReloc(reg)), l', r)) {
      FinalRun(m, code, code', s, e, base, w, g, l, l', reg, r, z);
    }
    MeansAll(m, code', s, e, base, w, Is(VNonReloc(reg)), l', z);
  }

  lemma FinalRun(m: Machine, code: seq<Instr>, code': seq<Instr>, s: nat, e: Expr, base: nat, w: int, g: Goal, l: Lists, l': Lists, reg: nat, r: Regs, z: Entry)
    requires Means(m, code, s, e, base, w, g, l, z) && s <= |code| <= |code'| && reg < MAXREGS && (reg >= base || reg == w)
    requires Final(code, code', l, l', reg, s, |code|) && FinalTail(code', l'.js, g, reg, |code|) && (g == Is(VFalse) ==> l.js == [])
    ensures Good(m, code', Eval(m.order, e, Start(z, r)), base, w, Is(VNonReloc(reg)), l', Start(z, r), RunOf(m, code', s, Is(VNonReloc(reg)), l', r))
  {
    hide Start, Run, Means, Kept, Holds, Eval, FinalAt, FinalTail, Agree, Landed, ExitHolds;
    var n, stop, v := |code|, |code'|, Eval(m.order, e, Start(z, r));
    FinalStop(code', l'.js, g, reg, n);
    var o := RunOf(m, code, s, g, l, r);
    MeansAt(m, code, s, e, base, w, g, l, r, z);
    OpenPend(l');
    ExtendsSelf(m);
    RunPatched(m, m, code, code', Pend(l), Pend(l'), s, n, stop, s, r);
    if o.Fall? {
      FinalFall(m, code, code', base, w, g, l', reg, n, Start(z, r), o.regs, v);
    } else if o.jump in l.js {
      LandedOpen(code', o.jump, o.regs);
      FinalHolds(m, code, code', l'.js, g, reg, n, o.regs, v);
    } else {
      FinalExit(m, code, code', base, w, l', reg, n, Start(z, r), o, v, o.jump in l.t);
    }
  }

  lemma ExtendsSelf(m: Machine)
    ensures Extends(m, m)
  {
  }

  lemma FinalStop(code': seq<Instr>, js: seq<nat>, g: Goal, reg: nat, n: nat)
    requires FinalTail(code', js, g, reg, n)
    ensures StopOf(g, n) == n && StopOf(Is(VNonReloc(reg)), |code'|) == |code'|
  {
  }

  lemma LandedOpen(code: seq<Instr>, j: nat, r: Regs)
    requires Carries(code, j) ==> code[j - 1].a == NO_REG
    ensures Landed(code, j, r) == r
  {
  }

  lemma FinalFall(m: Machine, code: seq<Instr>, code': seq<Instr>, base: nat, w: int, g: Goal, l': Lists, reg: nat, n: nat, r0: Regs, r: Regs, v: Val)
    requires FinalTail(code', l'.js, g, reg, n) && Kept(r0, r, base, w) && Holds(m, code, g, r, v) && reg < MAXREGS && (reg >= base || reg == w)
    requires forall p :: p in Pend(l') <==> p in l'.js
    ensures Good(m, code', v, base, w, Is(VNonReloc(reg)), l', r0, Run(m, code', Pend(l'), |code'|, n, r))
  {
    hide Kept;
    PutKept(r0, r, base, w, reg, v);
  }

  /** A jump to the end that was open stays open: the value is in `reg` already. */
  lemma FinalHolds(m: Machine, code: seq<Instr>, code': seq<Instr>, js: seq<nat>, g: Goal, reg: nat, n: nat, r: Regs, v: Val)
    requires FinalTail(code', js, g, reg, n) && Holds(m, code, g, r, v)
    requires g != Is(VFalse)
    ensures Holds(m, code', Is(VNonReloc(reg)), r, v)
  {
  }

  lemma FinalExit(m: Machine, code: seq<Instr>, code': seq<Instr>, base: nat, w: int, l': Lists, reg: nat, n: nat, r0: Regs, o: Outcome, v: Val, side: bool)
    requires o.Exit? && Kept(r0, o.regs, base, w) && reg < MAXREGS && (reg >= base || reg == w)
    requires ExitHolds(code, o.jump, o.regs, o.tested, v, side) && FinalAt(code, code', o.jump, side, reg, n)
    ensures o.jump < |code'| && code'[o.jump].Jmp? && Dest(code', o.jump) >= n
    ensures Good(m, code', v, base, w, Is(VNonReloc(reg)), l', r0,
                 Run(m, code', Pend(l'), |code'|, Dest(code', o.jump), if o.tested then Landed(code', o.jump, o.regs) else o.regs))
  {
    hide Kept;
    if !Carries(code, o.jump) { LandedOpen(code', o.jump, o.regs); }
    PutKept(r0, o.regs, base, w, reg, v);
  }
}
