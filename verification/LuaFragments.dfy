/** What a piece of code compiled so far means: how each of its ends relates to the
    value of the expression it came from. */
module LuaFragments {
  import opened LuaOpcodes
  import opened LuaJumpLists

  // ----- expressions -----

  datatype Relation = Equal | Less | LessEqual | Unequal | Greater | GreaterEqual

  datatype Expr =
    | NilLit | TrueLit | FalseLit | NumLit(n: int) | StrLit(id: int)
    | Local(r: nat)
    | NotOf(x: Expr)
    | And(x: Expr, y: Expr)
    | Or(x: Expr, y: Expr)
    | Rel(op: Relation, x: Expr, y: Expr)

  function Related(o: Order, op: Relation, x: Val, y: Val): bool {
    match op
    case Equal => o.eq(x, y)
    case Unequal => !o.eq(x, y)
    case Less => o.lt(x, y)
    case LessEqual => o.le(x, y)
    case Greater => o.lt(y, x)
    case GreaterEqual => o.le(y, x)
  }

  /** The value of an expression: `and` and `or` yield one of their operands, and do
      not look at the second one when the first decides. */
  function Eval(o: Order, e: Expr, r: Regs): Val {
    match e
    case NilLit => Nil
    case TrueLit => Bool(true)
    case FalseLit => Bool(false)
    case NumLit(n) => Num(n)
    case StrLit(id) => Str(id)
    case Local(a) => Get(r, a)
    case NotOf(x) => Bool(!Truthy(Eval(o, x, r)))
    case And(x, y) => if Truthy(Eval(o, x, r)) then Eval(o, y, r) else Eval(o, x, r)
    case Or(x, y) => if Truthy(Eval(o, x, r)) then Eval(o, x, r) else Eval(o, y, r)
    case Rel(op, x, y) => Bool(Related(o, op, Eval(o, x, r), Eval(o, y, r)))
  }

  // ----- the same as the manual says it -----

  /** Nil and false are false, and nothing else is. */
  predicate Falsy(v: Val) {
    v == Nil || v == Bool(false)
  }

  predicate ComparesTo(o: Order, op: Relation, u: Val, w: Val, v: Val) {
    match op
    case Equal => v == Bool(o.eq(u, w))
    case Unequal => v == Bool(!o.eq(u, w))
    case Less => v == Bool(o.lt(u, w))
    case LessEqual => v == Bool(o.le(u, w))
    case Greater => v == Bool(o.lt(w, u))
    case GreaterEqual => v == Bool(o.le(w, u))
  }

  /** `e` can yield `v`: sections 3.4.4 and 3.4.5 of the Lua 5.3 reference manual,
      operator by operator. */
  ghost predicate Gives(o: Order, e: Expr, r: Regs, v: Val) {
    match e
    case NilLit => v == Nil
    case TrueLit => v == Bool(true)
    case FalseLit => v == Bool(false)
    case NumLit(n) => v == Num(n)
    case StrLit(id) => v == Str(id)
    case Local(a) => v == if a < 255 then r[a] else Nil
    case NotOf(x) => exists u :: Gives(o, x, r, u) && v == Bool(u == Nil || u == Bool(false))
    case And(x, y) => exists u :: Gives(o, x, r, u) && if Falsy(u) then v == u else Gives(o, y, r, v)
    case Or(x, y) => exists u :: Gives(o, x, r, u) && if Falsy(u) then Gives(o, y, r, v) else v == u
    case Rel(op, x, y) => exists u, w :: Gives(o, x, r, u) && Gives(o, y, r, w) && ComparesTo(o, op, u, w, v)
  }

  /** Every expression yields exactly one value. */
  lemma {:induction false} EvalGives(o: Order, e: Expr, r: Regs, v: Val)
    ensures Gives(o, e, r, v) <==> v == Eval(o, e, r)
    decreases e, 0
  {
    match e
    case NotOf(x) => GivesOne(o, x, r);
    case And(x, y) => GivesOne(o, x, r); EvalGives(o, y, r, v);
    case Or(x, y) => GivesOne(o, x, r); EvalGives(o, y, r, v);
    case Rel(_, x, y) => GivesOne(o, x, r); GivesOne(o, y, r);
    case _ =>
  }

  lemma {:induction false} GivesOne(o: Order, e: Expr, r: Regs)
    ensures Gives(o, e, r, Eval(o, e, r)) && forall v :: Gives(o, e, r, v) ==> v == Eval(o, e, r)
    decreases e, 1
  {
    hide Gives, Eval;
    EvalGives(o, e, r, Eval(o, e, r));
    forall v | Gives(o, e, r, v) ensures v == Eval(o, e, r) { EvalGives(o, e, r, v); }
  }

  /** `x > y` is `y < x`, `x >= y` is `y <= x`, and `x ~= y` is `not (x == y)`. */
  lemma ConverseGives(o: Order, x: Expr, y: Expr, r: Regs, v: Val)
    ensures Gives(o, Rel(Greater, x, y), r, v) <==> Gives(o, Rel(Less, y, x), r, v)
    ensures Gives(o, Rel(GreaterEqual, x, y), r, v) <==> Gives(o, Rel(LessEqual, y, x), r, v)
    ensures Gives(o, Rel(Unequal, x, y), r, v) <==> Gives(o, NotOf(Rel(Equal, x, y)), r, v)
  {
    hide Gives, Get;
    EvalGives(o, Rel(Greater, x, y), r, v);
    EvalGives(o, Rel(Less, y, x), r, v);
    EvalGives(o, Rel(GreaterEqual, x, y), r, v);
    EvalGives(o, Rel(LessEqual, y, x), r, v);
    EvalGives(o, Rel(Unequal, x, y), r, v);
    EvalGives(o, NotOf(Rel(Equal, x, y)), r, v);
  }

  /** `v`, which `e` yields, is also what its converse, its negation or its second
      operand yields, as the operator of `e` says. */
  ghost predicate ReturnsLike(o: Order, e: Expr, r: Regs, v: Val) {
    match e
    case Rel(Greater, x, y) => Gives(o, Rel(Less, y, x), r, v)
    case Rel(GreaterEqual, x, y) => Gives(o, Rel(LessEqual, y, x), r, v)
    case Rel(Unequal, x, y) => v.Bool? && Gives(o, Rel(Equal, x, y), r, Bool(!v.b))
    case NotOf(x) => v.Bool? && Gives(o, NotOf(NotOf(x)), r, Bool(!v.b))
    case And(x, y) => if Falsy(v) then Gives(o, x, r, v) || Gives(o, y, r, v) else Gives(o, y, r, v)
    case Or(x, y) => if Falsy(v) then Gives(o, y, r, v) else Gives(o, x, r, v) || Gives(o, y, r, v)
    case _ => true
  }

  lemma LikeGives(o: Order, e: Expr, r: Regs, v: Val)
    requires Gives(o, e, r, v)
    ensures ReturnsLike(o, e, r, v)
  {
    hide Gives, Get;
    EvalGives(o, e, r, v);
    match e
    case Rel(op, x, y) =>
      ConverseGives(o, x, y, r, v);
      if op.Unequal? { EvalGives(o, Rel(Equal, x, y), r, Bool(!v.b)); }
    case NotOf(x) => EvalGives(o, NotOf(NotOf(x)), r, Bool(!v.b));
    case And(x, y) => EvalGives(o, x, r, v); EvalGives(o, y, r, v);
    case Or(x, y) => EvalGives(o, x, r, v); EvalGives(o, y, r, v);
    case _ =>
  }

  /** De Morgan's laws; a double negation leaves the truth of a value. */
  lemma LogicGives(o: Order, x: Expr, y: Expr, r: Regs, v: Val)
    ensures Gives(o, NotOf(And(x, y)), r, v) <==> Gives(o, Or(NotOf(x), NotOf(y)), r, v)
    ensures Gives(o, NotOf(Or(x, y)), r, v) <==> Gives(o, And(NotOf(x), NotOf(y)), r, v)
    ensures Gives(o, NotOf(NotOf(x)), r, v) <==> exists u :: Gives(o, x, r, u) && v == Bool(!Falsy(u))
  {
    hide Gives, Get;
    EvalGives(o, NotOf(And(x, y)), r, v);
    EvalGives(o, Or(NotOf(x), NotOf(y)), r, v);
    EvalGives(o, NotOf(Or(x, y)), r, v);
    EvalGives(o, And(NotOf(x), NotOf(y)), r, v);
    EvalGives(o, NotOf(NotOf(x)), r, v);
    GivesOne(o, x, r);
  }

  /** Its local variables are among the first `nact` registers. */
  predicate Scoped(e: Expr, nact: nat) {
    match e
    case Local(a) => a < nact
    case NotOf(x) => Scoped(x, nact)
    case And(x, y) => Scoped(x, nact) && Scoped(y, nact)
    case Or(x, y) => Scoped(x, nact) && Scoped(y, nact)
    case Rel(_, x, y) => Scoped(x, nact) && Scoped(y, nact)
    case _ => true
  }

  // ----- expression descriptors -----

  datatype Kind =
    | VNil | VTrue | VFalse | VK(k: nat) | VKInt(n: int)
    | VNonReloc(r: nat) | VLocal(r: nat)
    | VJmp(j: nat)         // a comparison and the jump after it
    | VRelocable(pc: nat)  // an instruction whose target register is open

  /** A descriptor: kind, and the lists of jumps out when true and when false. */
  datatype Exp = Exp(k: Kind, t: int, f: int)

  predicate HasJumps(e: Exp) {
    e.t != e.f
  }

  /** What holds when the code is left at its end: the value is as the kind says, or
      the value is known to be true or false. */
  datatype Goal = Is(k: Kind) | Passes(cond: bool)

  /** Where a fragment stops: before the comparison, or the instruction, left open. */
  function StopOf(g: Goal, n: nat): nat {
    if g.Is? && g.k.VJmp? && g.k.j > 0 then g.k.j - 1
    else if g.Is? && g.k.VRelocable? then g.k.pc
    else n
  }

  predicate Taken(m: Machine, i: Instr, r: Regs) {
    i.Compare? && ValidRK(m, i.x) && ValidRK(m, i.y) && Compares(m.order, i.op, RKValue(m, r, i.x), RKValue(m, r, i.y)) == i.want
  }

  predicate Valid(m: Machine, i: Instr) {
    i.Compare? && ValidRK(m, i.x) && ValidRK(m, i.y)
  }

  ghost predicate Holds(m: Machine, code: seq<Instr>, g: Goal, r: Regs, v: Val) {
    match g
    case Passes(cond) => Truthy(v) == cond
    case Is(k) =>
      match k
      case VNil => v == Nil
      case VTrue => v == Bool(true)
      case VFalse => v == Bool(false)
      case VK(i) => i < |m.k| && v == m.k[i]
      case VKInt(n) => v == Num(n)
      case VNonReloc(a) => v == Get(r, a)
      case VLocal(a) => v == Get(r, a)
      case VJmp(j) => 0 < j <= |code| && Valid(m, code[j - 1]) && v == Bool(Taken(m, code[j - 1], r))
      case VRelocable(pc) => pc < |code| && code[pc].Not? && v == Bool(!Truthy(Get(r, code[pc].b)))
  }

  /** A jump out on the side `side`: with a TESTSET the value is in the tested
      register, otherwise it is the boolean itself. */
  ghost predicate ExitHolds(code: seq<Instr>, j: nat, r: Regs, tested: bool, v: Val, side: bool) {
    && tested == (0 < j <= |code| && IsTest(code[j - 1]))
    && Truthy(v) == side
    && v == if tested && Carries(code, j) then Get(r, code[j - 1].b) else Bool(side)
  }

  /** Registers below `base`, except `w`, are as they were. */
  ghost predicate Kept(r: Regs, r': Regs, base: nat, w: int) {
    forall i :: 0 <= i < base && i != w ==> Get(r', i) == Get(r, i)
  }

  /** The open jumps of a fragment: out when true, out when false, and to its end. */
  datatype Lists = Lists(t: seq<nat>, f: seq<nat>, js: seq<nat>)

  ghost function Pend(l: Lists): set<nat> {
    Elems(l.t) + Elems(l.f) + Elems(l.js)
  }

  /** The run ended properly for the value `v`: at the end (also by a jump to it),
      or at a jump of the list for the truth of `v`. */
  ghost predicate Good(m: Machine, code: seq<Instr>, v: Val, base: nat, w: int, g: Goal, l: Lists, r: Regs, o: Outcome) {
    match o
    case Fall(r') => Kept(r, r', base, w) && Holds(m, code, g, r', v)
    case Exit(j, r', tested) =>
      && Kept(r, r', base, w)
      && (if j in l.js then Holds(m, code, g, r', v)
          else if j in l.t then ExitHolds(code, j, r', tested, v, true)
          else j in l.f && ExitHolds(code, j, r', tested, v, false))
    case Returned(_) => false
    case Stuck => false
  }

  ghost function RunOf(m: Machine, code: seq<Instr>, s: nat, g: Goal, l: Lists, r: Regs): Outcome {
    Run(m, code, Pend(l), StopOf(g, |code|), s, r)
  }

  /** How a fragment begins: with the code of the expression, or with a LOADNIL from
      before it, which the expression may have extended. */
  datatype Entry = Direct | AfterNils(a: nat, b: nat)

  /** The registers the expression finds. */
  function Start(z: Entry, r: Regs): Regs {
    match z
    case Direct => r
    case AfterNils(a, b) => Clear(r, a, b)
  }

  /** Running `code` from `s` computes `e`. */
  ghost predicate Means(m: Machine, code: seq<Instr>, s: nat, e: Expr, base: nat, w: int, g: Goal, l: Lists, z: Entry) {
    forall r: Regs :: Good(m, code, Eval(m.order, e, Start(z, r)), base, w, g, l, Start(z, r), RunOf(m, code, s, g, l, r))
  }

  lemma MeansAt(m: Machine, code: seq<Instr>, s: nat, e: Expr, base: nat, w: int, g: Goal, l: Lists, r: Regs, z: Entry)
    requires Means(m, code, s, e, base, w, g, l, z)
    ensures Good(m, code, Eval(m.order, e, Start(z, r)), base, w, g, l, Start(z, r), RunOf(m, code, s, g, l, r))
  {
    hide Good, RunOf, Start;
  }

  lemma {:induction false} EvalKept(o: Order, e: Expr, r: Regs, r': Regs, nact: nat)
    requires Scoped(e, nact) && Kept(r, r', nact, -1)
    ensures Eval(o, e, r') == Eval(o, e, r)
  {
    match e
    case NotOf(x) => EvalKept(o, x, r, r', nact);
    case And(x, y) => EvalKept(o, x, r, r', nact); EvalKept(o, y, r, r', nact);
    case Or(x, y) => EvalKept(o, x, r, r', nact); EvalKept(o, y, r, r', nact);
    case Rel(_, x, y) => EvalKept(o, x, r, r', nact); EvalKept(o, y, r, r', nact);
    case _ =>
  }

  // ----- code that goes on -----

  ghost predicate Onward(o: Outcome, js: seq<nat>) {
    o.Fall? || (o.Exit? && o.jump in js)
  }

  function RegsAt(o: Outcome): Regs
    requires o.Fall? || o.Exit?
  {
    o.regs
  }

  /** Jumps to the end now lead to `n`, and more code follows. */
  ghost predicate Appended(code: seq<Instr>, code': seq<Instr>, n: nat, js: seq<nat>) {
    && n <= |code| && n <= |code'|
    && forall p :: 0 <= p < n ==> code'[p] == PatchAt(code, js, n, NO_REG, n, p)
  }

  ghost predicate AllBelow(l: seq<nat>, n: nat) {
    forall j :: j in l ==> j < n
  }

  ghost predicate NewBeyond(pend: set<nat>, pend': set<nat>, js: seq<nat>, n: nat) {
    forall p :: p < n ==> (p in pend' <==> p in pend && p !in js)
  }

  /** Running longer code: what left the shorter one at its end goes on from there. */
  lemma AppendRun(m: Machine, m': Machine, code: seq<Instr>, code': seq<Instr>, n: nat, pend: set<nat>, js: seq<nat>, pend': set<nat>,
                  s: nat, stop: nat, r: Regs)
    requires Extends(m, m') && s <= n <= stop && Appended(code, code', n, js)
    requires Elems(js) <= pend && (forall j :: j in pend ==> j < n && code[j].Jmp?) && NewBeyond(pend, pend', js, n)
    requires Unset(code, js) && (forall j :: j in pend && j !in js && Carries(code, j) ==> code[j - 1].a == NO_REG)
    requires Run(m, code, pend, n, s, r) != Stuck && !Run(m, code, pend, n, s, r).Returned?
    ensures var o := Run(m, code, pend, n, s, r);
            Run(m', code', pend', stop, s, r) == if Onward(o, js) then Run(m', code', pend', stop, n, RegsAt(o)) else o
  {
    hide Run, Appended, Unset, Landed, Extends, Elems;
    var o := Run(m, code, pend, n, s, r);
    AppendAgree(code, code', n, pend, js, pend', s);
    RunPatched(m, m', code, code', pend, pend', s, n, stop, s, r);
    if o.Exit? {
      ExitPend(m, code, pend, n, s, r);
      UnsetAt(code, pend, js, o.jump);
      LandedSame(code, code', n, js, o.jump, o.regs);
      if o.jump in js { SentOn(code, code', n, js, o.jump); }
    }
  }

  lemma UnsetAt(code: seq<Instr>, pend: set<nat>, js: seq<nat>, j: nat)
    requires Unset(code, js) && j in pend && (j !in js && Carries(code, j) ==> code[j - 1].a == NO_REG)
    ensures Carries(code, j) ==> code[j - 1].a == NO_REG
  {
  }

  lemma SentOn(code: seq<Instr>, code': seq<Instr>, n: nat, js: seq<nat>, j: nat)
    requires Appended(code, code', n, js) && j in js && j < n
    ensures j < |code'| && code'[j].Jmp? && Dest(code', j) == n
  {
  }

  lemma AppendAgree(code: seq<Instr>, code': seq<Instr>, n: nat, pend: set<nat>, js: seq<nat>, pend': set<nat>, s: nat)
    requires Appended(code, code', n, js) && Elems(js) <= pend && (forall j :: j in pend ==> j < n && code[j].Jmp?)
    requires NewBeyond(pend, pend', js, n) && Unset(code, js)
    ensures Agree(code, code', pend, pend', s, n)
  {
    forall p | s <= p < n ensures AgreeAt(code, code', pend, pend', n, p) {
      assert p in js <==> p in Elems(js);
      assert p + 1 in js <==> p + 1 in Elems(js);
      if p + 1 in js && code[p].TestSet? { assert Carries(code, p + 1); }
    }
  }

  lemma LandedSame(code: seq<Instr>, code': seq<Instr>, n: nat, js: seq<nat>, j: nat, r: Regs)
    requires Appended(code, code', n, js) && j < n && (Carries(code, j) ==> code[j - 1].a == NO_REG) && Unset(code, js)
    ensures Landed(code', j, r) == r
  {
    if 0 < j && code'[j - 1].TestSet? { assert code'[j - 1] == PatchAt(code, js, n, NO_REG, n, j - 1); }
  }

  /** A run leaves only at pending jumps before its stop. */
  lemma {:induction false} ExitPend(m: Machine, code: seq<Instr>, pend: set<nat>, stop: nat, pc: nat, r: Regs)
    requires Run(m, code, pend, stop, pc, r).Exit?
    ensures var o := Run(m, code, pend, stop, pc, r); o.jump in pend && o.jump < stop
    decreases stop - pc
  {
    hide Step;
    var next := Step(m, code[pc], pc, r);
    if next.Goto? {
      ExitPend(m, code, pend, stop, next.pc, next.regs);
    } else if next.jump !in pend {
      ExitPend(m, code, pend, stop, Dest(code, next.jump), next.regs);
    }
  }
}
