/** The instructions that conditional expressions compile to, and what they do. */
module LuaOpcodes {

  datatype Val = Nil | Bool(b: bool) | Num(n: int) | Str(id: int)

  predicate Truthy(v: Val) {
    v != Nil && v != Bool(false)
  }

  /** How values compare; metamethods and the errors of ill-typed operands are inside. */
  datatype Order = Order(eq: (Val, Val) -> bool, lt: (Val, Val) -> bool, le: (Val, Val) -> bool)

  datatype CompareOp = EQ | LT | LE

  /** Registers 0 to 254. */
  const MAXREGS: nat := 255

  /** Stands for "no register" in an unfinished TESTSET. */
  const NO_REG: nat := 255

  /** The operand of a comparison: a register or a constant. */
  datatype RK = Reg(r: nat) | Const(k: nat)

  datatype Instr =
    | Move(a: nat, b: nat)
    | LoadK(a: nat, k: nat)
    | LoadBool(a: nat, v: bool, skip: bool)
    | LoadNil(a: nat, b: nat)
    | Not(a: nat, b: nat)
    | Jmp(sbx: int)
    | Compare(op: CompareOp, want: bool, x: RK, y: RK)
    | Test(a: nat, c: bool)
    | TestSet(a: nat, b: nat, c: bool)
    | Return(a: nat, b: nat)

  type Regs = r: seq<Val> | |r| == MAXREGS witness seq(MAXREGS, i => Nil)

  function Get(r: Regs, a: nat): Val {
    if a < MAXREGS then r[a] else Nil
  }

  function Put(r: Regs, a: nat, v: Val): Regs {
    if a < MAXREGS then r[a := v] else r
  }

  /** Registers `a` to `a + b` become nil. */
  function Clear(r: Regs, a: nat, b: nat): Regs {
    seq(MAXREGS, i requires 0 <= i < MAXREGS => if a <= i <= a + b then Nil else r[i])
  }

  /** The constants and the order comparisons use. */
  datatype Machine = Machine(k: seq<Val>, order: Order)

  /** More constants, the same order. */
  ghost predicate Extends(m: Machine, m': Machine) {
    m.k <= m'.k && m.order == m'.order
  }

  lemma ExtendsTwice(m: Machine, m1: Machine, m2: Machine)
    requires Extends(m, m1) && Extends(m1, m2)
    ensures Extends(m, m2)
  {
  }

  predicate ValidRK(m: Machine, x: RK) {
    x.Const? ==> x.k < |m.k|
  }

  function RKValue(m: Machine, r: Regs, x: RK): Val
    requires ValidRK(m, x)
  {
    if x.Reg? then Get(r, x.r) else m.k[x.k]
  }

  function Compares(o: Order, op: CompareOp, x: Val, y: Val): bool {
    match op
    case EQ => o.eq(x, y)
    case LT => o.lt(x, y)
    case LE => o.le(x, y)
  }

  /** An instruction that, when its test succeeds, performs the jump after it. */
  predicate IsTest(i: Instr) {
    i.Compare? || i.Test? || i.TestSet?
  }

  datatype Next = Goto(pc: nat, regs: Regs) | Via(jump: nat, regs: Regs, tested: bool) | Value(v: Val) | Bad

  function Step(m: Machine, i: Instr, pc: nat, r: Regs): Next {
    match i
    case Move(a, b) => Goto(pc + 1, Put(r, a, Get(r, b)))
    case LoadK(a, k) => if k < |m.k| then Goto(pc + 1, Put(r, a, m.k[k])) else Bad
    case LoadBool(a, v, skip) => Goto(if skip then pc + 2 else pc + 1, Put(r, a, Bool(v)))
    case LoadNil(a, b) => Goto(pc + 1, Clear(r, a, b))
    case Not(a, b) => Goto(pc + 1, Put(r, a, Bool(!Truthy(Get(r, b)))))
    case Jmp(_) => Via(pc, r, false)
    case Compare(op, want, x, y) =>
      if !ValidRK(m, x) || !ValidRK(m, y) then Bad
      else if Compares(m.order, op, RKValue(m, r, x), RKValue(m, r, y)) != want then Goto(pc + 2, r)
      else Via(pc + 1, r, true)
    case Test(a, c) => if Truthy(Get(r, a)) == c then Via(pc + 1, r, true) else Goto(pc + 2, r)
    case TestSet(a, b, c) => if Truthy(Get(r, b)) == c then Via(pc + 1, Put(r, a, Get(r, b)), true) else Goto(pc + 2, r)
    case Return(a, b) => if b == 2 then Value(Get(r, a)) else Bad
  }

  /** How a run of code that still has unpatched jumps ends: at the stop, at an
      unpatched jump (taken by the test before it or on its own), or by a return. */
  datatype Outcome = Fall(regs: Regs) | Exit(jump: nat, regs: Regs, tested: bool) | Returned(v: Val) | Stuck

  function Dest(code: seq<Instr>, j: nat): int
    requires j < |code| && code[j].Jmp?
  {
    j + 1 + code[j].sbx
  }

  /** A TESTSET that has not got its register. */
  predicate Hollow(i: Instr) {
    i.TestSet? && i.a == NO_REG
  }

  /** Runs from `pc` until `stop`, or until a jump in `pend`. Jumps lead forward, and
      a TESTSET that still has no register must not jump, unless to an open end. */
  function Run(m: Machine, code: seq<Instr>, pend: set<nat>, stop: nat, pc: nat, r: Regs): Outcome
    decreases stop - pc
  {
    if pc == stop then Fall(r)
    else if pc > stop || pc >= |code| then Stuck
    else match Step(m, code[pc], pc, r)
      case Goto(p, r') => if p > pc then Run(m, code, pend, stop, p, r') else Stuck
      case Via(j, r', tested) =>
        if j >= stop then Stuck
        else if j in pend then Exit(j, r', tested)
        else if Hollow(code[pc]) then Stuck
        else if j < |code| && code[j].Jmp? && Dest(code, j) > pc then Run(m, code, pend, stop, Dest(code, j), r')
        else Stuck
      case Value(v) => Returned(v)
      case Bad => Stuck
  }

  // ----- patching -----

  /** An unfinished TESTSET may become a TEST, or get its register. */
  predicate Settled(i: Instr, i': Instr) {
    i == i' || (i.TestSet? && i.a == NO_REG && (i' == Test(i.b, i.c) || (i'.TestSet? && i'.b == i.b && i'.c == i.c)))
  }

  predicate AgreeAt(code: seq<Instr>, code': seq<Instr>, pend: set<nat>, pend': set<nat>, n: nat, p: nat)
    requires p < |code| && p < |code'|
  {
    if p in pend then code[p].Jmp? && code'[p].Jmp? && (p !in pend' ==> Dest(code', p) >= n)
    else p !in pend' && Settled(code[p], code'[p]) && (p + 1 !in pend ==> code[p] == code'[p])
         && (p + 1 in pend && p + 1 !in pend' ==> !Hollow(code'[p]))
  }

  /** On `[s, n)`, `code'` is `code` with some pending jumps sent to `n` or beyond. */
  ghost predicate Agree(code: seq<Instr>, code': seq<Instr>, pend: set<nat>, pend': set<nat>, s: nat, n: nat) {
    n <= |code| && n <= |code'| && forall p :: s <= p < n ==> AgreeAt(code, code', pend, pend', n, p)
  }

  /** The registers after a pending jump, once its TESTSET may have got a register. */
  function Landed(code: seq<Instr>, j: nat, r: Regs): Regs {
    if 0 < j <= |code| && code[j - 1].TestSet? then Put(r, code[j - 1].a, Get(r, code[j - 1].b)) else r
  }

  /** Where the patched code goes on after the unpatched code has ended. */
  ghost function After(m: Machine, code: seq<Instr>, pend: set<nat>, stop: nat, n: nat, o: Outcome): Outcome {
    match o
    case Fall(r) => Run(m, code, pend, stop, n, r)
    case Exit(j, r, tested) =>
      var r' := if tested then Landed(code, j, r) else r;
      if j in pend then Exit(j, r', tested)
      else if j < |code| && code[j].Jmp? && Dest(code, j) >= n then Run(m, code, pend, stop, Dest(code, j), r')
      else Stuck
    case Returned(v) => o
    case Stuck => o
  }

  lemma AgreeHere(code: seq<Instr>, code': seq<Instr>, pend: set<nat>, pend': set<nat>, s: nat, n: nat, p: nat)
    requires Agree(code, code', pend, pend', s, n) && s <= p < n
    ensures p < |code| && p < |code'| && AgreeAt(code, code', pend, pend', n, p)
  {
  }

  /** A settled instruction does what the unfinished one does, save that a TESTSET
      which jumps may now deliver its value. */
  lemma StepSettled(m: Machine, m': Machine, i: Instr, i': Instr, pc: nat, r: Regs)
    requires Extends(m, m') && Settled(i, i') && Step(m, i, pc, r) != Bad
    ensures i == i' ==> Step(m', i', pc, r) == Step(m, i, pc, r)
    ensures i != i' && Step(m, i, pc, r).Goto? ==> Step(m', i', pc, r) == Step(m, i, pc, r)
    ensures i != i' && Step(m, i, pc, r).Via? ==>
              Step(m, i, pc, r) == Via(pc + 1, r, true)
              && Step(m', i', pc, r) == Via(pc + 1, if i'.TestSet? then Put(r, i'.a, Get(r, i'.b)) else r, true)
    ensures i != i' ==> !Step(m, i, pc, r).Value?
  {
  }

  /** Performing the jump of a TESTSET twice changes nothing more. */
  lemma ViaOnce(m: Machine, i: Instr, pc: nat, r: Regs)
    requires Step(m, i, pc, r).Via?
    ensures Step(m, i, pc, r).jump == (if Step(m, i, pc, r).tested then pc + 1 else pc) && (Step(m, i, pc, r).tested <==> !i.Jmp?)
    ensures i.TestSet? ==> Put(Step(m, i, pc, r).regs, i.a, Get(Step(m, i, pc, r).regs, i.b)) == Step(m, i, pc, r).regs
  {
  }

  /** Running patched code is running the unpatched code and then going on. */
  lemma {:induction false} RunPatched(m: Machine, m': Machine, code: seq<Instr>, code': seq<Instr>, pend: set<nat>, pend': set<nat>,
                                      s: nat, n: nat, stop: nat, pc: nat, r: Regs)
    requires Extends(m, m')
    requires Agree(code, code', pend, pend', s, n)
    requires s <= pc <= n <= stop && Run(m, code, pend, n, pc, r) != Stuck
    ensures Run(m', code', pend', stop, pc, r) == After(m', code', pend', stop, n, Run(m, code, pend, n, pc, r))
    decreases n - pc
  {
    hide Agree, Settled, Step, Get, Put;
    if pc < n {
      AgreeHere(code, code', pend, pend', s, n, pc);
      var next := Step(m, code[pc], pc, r);
      if pc in pend {
        JumpStep(m, m', code[pc], code'[pc], pc, r);
        return;
      }
      StepSettled(m, m', code[pc], code'[pc], pc, r);
      if next.Goto? {
        RunPatched(m, m', code, code', pend, pend', s, n, stop, next.pc, next.regs);
      } else if next.Via? {
        ViaOnce(m, code[pc], pc, r);
        AgreeHere(code, code', pend, pend', s, n, next.jump);
        if next.jump !in pend {
          SettledJump(code[next.jump], code'[next.jump]);
          RunPatched(m, m', code, code', pend, pend', s, n, stop, Dest(code, next.jump), next.regs);
        }
      }
    }
  }

  /** A jump reached other than through its test. */
  lemma JumpStep(m: Machine, m': Machine, i: Instr, i': Instr, pc: nat, r: Regs)
    requires i'.Jmp?
    ensures Step(m', i', pc, r) == Via(pc, r, false) && (i.Jmp? ==> Step(m, i, pc, r) == Via(pc, r, false))
  {
  }

  lemma SettledJump(i: Instr, i': Instr)
    requires Settled(i, i') && i.Jmp?
    ensures i == i'
  {
  }
}
