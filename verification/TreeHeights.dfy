/** The heights recorded in an ordered tree, and what the rotations that follow them
    achieve. */
module TreeHeights {

  /** A tree with nothing but the height recorded in each node. */
  datatype Shape = Empty | Shape(height: int, left: Shape, right: Shape)

  function Ht(s: Shape): int {
    if s.Empty? then 0 else s.height
  }

  function Max(a: int, b: int): int {
    if a > b then a else b
  }

  /** A node over two subtrees, its height just recalculated. */
  function Over(l: Shape, r: Shape): Shape {
    Shape(1 + Max(Ht(l), Ht(r)), l, r)
  }

  /** btree_rotate_left */
  function TurnLeft(s: Shape): Shape {
    if s.Empty? || s.left.Empty? then s else Over(s.left.left, Over(s.left.right, s.right))
  }

  /** btree_rotate_right */
  function TurnRight(s: Shape): Shape {
    if s.Empty? || s.right.Empty? then s else Over(Over(s.left, s.right.left), s.right.right)
  }

  /** The first loop of btree_equilibrate. */
  function LowerLeft(s: Shape): Shape
    decreases if s.Empty? then s else s.left
  {
    if s.Shape? && s.left.Shape? && Ht(s.left) - Ht(s.right) >= 2 then LowerLeft(TurnLeft(s)) else s
  }

  /** The second one. */
  function LowerRight(s: Shape): Shape
    decreases if s.Empty? then s else s.right
  {
    if s.Shape? && s.right.Shape? && Ht(s.right) - Ht(s.left) >= 2 then LowerRight(TurnRight(s)) else s
  }

  lemma LowerLeftStep(s: Shape)
    ensures LowerLeft(s) == if s.Shape? && s.left.Shape? && Ht(s.left) - Ht(s.right) >= 2 then LowerLeft(TurnLeft(s)) else s
  {
  }

  lemma LowerRightStep(s: Shape)
    ensures LowerRight(s) == if s.Shape? && s.right.Shape? && Ht(s.right) - Ht(s.left) >= 2 then LowerRight(TurnRight(s)) else s
  {
  }

  function Equilibrated(s: Shape): Shape {
    LowerRight(LowerLeft(s))
  }

  /** Every recorded height is the real one. */
  predicate True(s: Shape) {
    s.Shape? ==> True(s.left) && True(s.right) && s.height == 1 + Max(Ht(s.left), Ht(s.right))
  }

  lemma {:induction false} TrueHeight(s: Shape)
    requires True(s)
    ensures Ht(s) >= 0 && (s.Shape? ==> s.height >= 1)
  {
    if s.Shape? { TrueHeight(s.left); TrueHeight(s.right); }
  }

  /** The heights of the sides of the root differ by at most one. */
  predicate Even(s: Shape) {
    s.Shape? ==> -1 <= Ht(s.left) - Ht(s.right) <= 1
  }

  // ----- heights stay real -----

  lemma {:induction false} LowerLeftTrue(s: Shape)
    requires True(s)
    ensures True(LowerLeft(s)) && (s.Shape? ==> LowerLeft(s).Shape?)
    decreases if s.Empty? then s else s.left
  {
    if s.Shape? && s.left.Shape? && Ht(s.left) - Ht(s.right) >= 2 { LowerLeftTrue(TurnLeft(s)); }
  }

  lemma {:induction false} LowerRightTrue(s: Shape)
    requires True(s)
    ensures True(LowerRight(s)) && (s.Shape? ==> LowerRight(s).Shape?)
    decreases if s.Empty? then s else s.right
  {
    if s.Shape? && s.right.Shape? && Ht(s.right) - Ht(s.left) >= 2 { LowerRightTrue(TurnRight(s)); }
  }

  lemma EquilibratedTrue(s: Shape)
    requires True(s)
    ensures True(Equilibrated(s))
  {
    LowerLeftTrue(s);
    LowerRightTrue(LowerLeft(s));
  }

  // ----- when the sides come out even -----

  /** Going down the outer edge of a side that is too high, no node that will be rotated
      is higher on its inner side; `other` is the height of what collects opposite. */
  predicate LeftOut(x: Shape, other: int) {
    x.Shape? && Ht(x) - other >= 2 ==> Ht(x.left) >= Ht(x.right) && LeftOut(x.left, 1 + Max(Ht(x.right), other))
  }

  predicate RightOut(y: Shape, other: int) {
    y.Shape? && Ht(y) - other >= 2 ==> Ht(y.right) >= Ht(y.left) && RightOut(y.right, 1 + Max(Ht(y.left), other))
  }

  predicate Outward(s: Shape) {
    s.Shape? ==> if Ht(s.left) - Ht(s.right) >= 2 then LeftOut(s.left, Ht(s.right)) else RightOut(s.right, Ht(s.left))
  }

  lemma {:induction false} RightEven(s: Shape)
    requires True(s) && s.Shape? && Ht(s.left) - Ht(s.right) <= 1
    ensures LowerRight(s).Shape? && (Even(LowerRight(s)) <==> RightOut(s.right, Ht(s.left)))
    decreases s.right
  {
    if s.right.Shape? && Ht(s.right) - Ht(s.left) >= 2 && Ht(s.right.right) >= Ht(s.right.left) {
      RightEven(TurnRight(s));
    } else {
      TrueHeight(s.left);
    }
  }

  /** The left side ends even, or the second loop undoes the last rotation. */
  lemma {:induction false} LeftEven(s: Shape)
    requires True(s) && s.Shape? && Ht(s.right) - Ht(s.left) <= 1
    ensures Equilibrated(s).Shape? && (Even(Equilibrated(s)) <==> LeftOut(s.left, Ht(s.right)))
    decreases s.left
  {
    TrueHeight(s.right);
    if s.left.Shape? && Ht(s.left) - Ht(s.right) >= 2 {
      var t := TurnLeft(s);
      if Ht(s.left.left) >= Ht(s.left.right) {
        LeftEven(t);
      } else {
        TrueHeight(s.left.left);
        assert LowerLeft(s) == t && t.right.left == s.left.right && t.right.right == s.right;
        assert LowerRight(t) == TurnRight(t);
      }
    }
  }

  /** Exactly when equilibrating a tree with real heights makes its sides even: no node
      it rotates is higher on its inner side. */
  lemma EvenExactly(s: Shape)
    requires True(s)
    ensures Even(Equilibrated(s)) <==> Outward(s)
  {
    if s.Shape? {
      TrueHeight(s.left);
      TrueHeight(s.right);
      if Ht(s.left) - Ht(s.right) >= 2 {
        LeftEven(s);
      } else {
        RightEven(s);
      }
    }
  }

  /** After one insertion the sides differ by two at most: then it is the inner side of
      the higher one that decides. */
  lemma OneInsertion(s: Shape)
    requires True(s) && s.Shape? && -2 <= Ht(s.left) - Ht(s.right) <= 2
    ensures Even(Equilibrated(s)) <==>
      && (Ht(s.left) - Ht(s.right) == 2 ==> s.left.Shape? && Ht(s.left.left) >= Ht(s.left.right))
      && (Ht(s.right) - Ht(s.left) == 2 ==> s.right.Shape? && Ht(s.right.right) >= Ht(s.right.left))
  {
    EvenExactly(s);
    TrueHeight(s.left);
    TrueHeight(s.right);
    if Ht(s.left) - Ht(s.right) == 2 {
      TrueHeight(s.left.right);
      assert LeftOut(s.left.left, 1 + Max(Ht(s.left.right), Ht(s.right)));
    }
    if Ht(s.right) - Ht(s.left) == 2 {
      TrueHeight(s.right.left);
      assert RightOut(s.right.right, 1 + Max(Ht(s.right.left), Ht(s.left)));
    }
  }

  /** The tree after 1, 3 and 2 are inserted in this order: the rotation leaves sides
      of heights 2 and 0. */
  lemma LeansIn()
    ensures var s := Over(Empty, Over(Over(Empty, Empty), Empty));
      && True(s) && Equilibrated(s).Shape?
      && Ht(Equilibrated(s).left) == 2 && Ht(Equilibrated(s).right) == 0 && Equilibrated(s).right.Empty?
  {
    var s := Over(Empty, Over(Over(Empty, Empty), Empty));
    var t := Over(Over(Empty, Over(Empty, Empty)), Empty);
    assert LowerLeft(s) == s && TurnRight(s) == t && LowerRight(t) == t;
  }

  /** Whatever the recorded heights, the right side is not left too high. */
  lemma {:induction false} NotRight(s: Shape)
    requires s.Shape?
    ensures LowerRight(s).Shape?
    ensures LowerRight(s).right.Shape? ==> Ht(LowerRight(s).right) - Ht(LowerRight(s).left) <= 1
    decreases s.right
  {
    if s.right.Shape? && Ht(s.right) - Ht(s.left) >= 2 { NotRight(TurnRight(s)); }
  }
}
