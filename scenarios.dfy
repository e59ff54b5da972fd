/** Concrete graphs from the engine's worked examples, with the gradients a
    backward pass must leave in them. */
module Scenarios {
  import opened Graph
  import opened Rules
  import opened Adjoint
  import opened Engine

  /** `L = (a * b + c) * f` with `a = 2`, `b = -3`, `c = 10`, `f = -2`,
      nodes numbered in the order the source's test builds them: `a, b, c,
      e = a * b, d = e + c, f, L = d * f`. */
  function WorkedPass(): (p: Pass)
    ensures p.Valid()
  {
    Pass([Op.Leaf, Op.Leaf, Op.Leaf, Op.Mul(0, 1), Op.Add(3, 2), Op.Leaf, Op.Mul(4, 5)],
         [2.0, -3.0, 10.0, -6.0, 4.0, -2.0, -8.0],
         [0.0, 0.0, 0.0, 0.0, 0.0, 0.0, 0.0],
         6)
  }

  lemma WorkedReach()
    ensures WorkedPass().Traversed() == {0, 1, 2, 3, 4, 5, 6}
  {
    var ops := WorkedPass().ops;
    assert Reach(ops, 3) == {0, 1, 3};
    assert Reach(ops, 4) == {0, 1, 2, 3, 4};
  }

  /** A node with a single traversed consumer `x` below the output ends
      with its held gradient plus `x`'s contribution. */
  lemma OneConsumer(p: Pass, f: seq<real>, u: nat, x: nat)
    requires p.Valid() && |f| == |p.ops| && u < x <= p.out && x in p.Traversed()
    requires forall y :: u < y <= p.out && u in Operands(p.ops[y]) ==> y == x
    ensures Local(p, f, u) == p.g0[u] + Contrib(p.ops, p.data, x, u) * f[x]
  {
    SumSame(p, p.Traversed(), {x}, f, u, u + 1);
    SumSingle(p, f, u, x, u + 1);
  }

  /** A graph without `exp` nodes is always safe to replay. */
  lemma ExpFree(p: Pass)
    requires p.Valid()
    requires forall i :: 0 <= i < |p.ops| ==> !p.ops[i].Exp?
    ensures ExpSafe(p)
  {
  }

  /** The chain-rule equations of the worked example hold at `u`. */
  lemma WorkedLocal(u: nat)
    requires u < 7
    ensures [6.0, -4.0, -2.0, -2.0, -2.0, 4.0, 1.0][u] == Local(WorkedPass(), [6.0, -4.0, -2.0, -2.0, -2.0, 4.0, 1.0], u)
  {
    var p := WorkedPass();
    var f := [6.0, -4.0, -2.0, -2.0, -2.0, 4.0, 1.0];
    WorkedReach();
    if u == 6 {
    } else if u < 2 {
      OneConsumer(p, f, u, 3);
    } else if u < 4 {
      OneConsumer(p, f, u, 4);
    } else {
      OneConsumer(p, f, u, 6);
    }
  }

  /** The gradients of the worked example: dL/da = 6, dL/db = -4,
      dL/dc = dL/de = dL/dd = -2, dL/df = 4, dL/dL = 1. */
  lemma WorkedGradients()
    ensures ExpSafe(WorkedPass())
    ensures Adjoints(WorkedPass(), [6.0, -4.0, -2.0, -2.0, -2.0, 4.0, 1.0])
    ensures FinalVec(WorkedPass()) == [6.0, -4.0, -2.0, -2.0, -2.0, 4.0, 1.0]
  {
    var p := WorkedPass();
    var f := [6.0, -4.0, -2.0, -2.0, -2.0, 4.0, 1.0];
    ExpFree(p);
    forall u | 0 <= u < |f|
      ensures f[u] == Local(p, f, u)
    {
      WorkedLocal(u);
    }
    AdjointsUnique(p, f);
  }

  /** `b = a * a` at `a = 3`: both operands are `a`, so `a` receives both
      contributions, `dB/da = 6`. */
  lemma FanOut()
    ensures ExpSafe(Pass([Op.Leaf, Op.Mul(0, 0)], [3.0, 9.0], [0.0, 0.0], 1))
    ensures FinalVec(Pass([Op.Leaf, Op.Mul(0, 0)], [3.0, 9.0], [0.0, 0.0], 1)) == [6.0, 1.0]
  {
    var p := Pass([Op.Leaf, Op.Mul(0, 0)], [3.0, 9.0], [0.0, 0.0], 1);
    var f := [6.0, 1.0];
    assert p.Valid();
    ExpFree(p);
    assert p.Traversed() == {0, 1};
    OneConsumer(p, f, 0, 1);
    assert Local(p, f, 1) == 1.0;
    AdjointsUnique(p, f);
  }

  /** `y = exp(x)` on a leaf: the traversal stops at `y`, yet `y`'s rule
      still writes `exp(x)` into the leaf. */
  lemma ExpOfLeaf(exp: PosFn, x: real)
    ensures ExpSafe(Pass([Op.Leaf, Op.Exp(0)], [x, exp(x)], [0.0, 0.0], 1))
    ensures FinalVec(Pass([Op.Leaf, Op.Exp(0)], [x, exp(x)], [0.0, 0.0], 1)) == [exp(x), 1.0]
  {
    var p := Pass([Op.Leaf, Op.Exp(0)], [x, exp(x)], [0.0, 0.0], 1);
    var f := [exp(x), 1.0];
    assert p.Valid();
    assert p.Traversed() == {1};
    OneConsumer(p, f, 0, 1);
    assert Local(p, f, 1) == 1.0;
    AdjointsUnique(p, f);
  }

  /** `z = exp(x * x)`: `z` records no children, so the traversal never
      reaches `y = x * x` and the gradient stops at `y`; `x` keeps
      gradient 0 although `z` depends on it. */
  lemma ExpCutsTraversal(exp: PosFn, x: real)
    ensures ExpSafe(Pass([Op.Leaf, Op.Mul(0, 0), Op.Exp(1)], [x, x * x, exp(x * x)], [0.0, 0.0, 0.0], 2))
    ensures FinalVec(Pass([Op.Leaf, Op.Mul(0, 0), Op.Exp(1)], [x, x * x, exp(x * x)], [0.0, 0.0, 0.0], 2))
      == [0.0, exp(x * x), 1.0]
  {
    var p := Pass([Op.Leaf, Op.Mul(0, 0), Op.Exp(1)], [x, x * x, exp(x * x)], [0.0, 0.0, 0.0], 2);
    var f := [0.0, exp(x * x), 1.0];
    assert p.Valid();
    assert p.Traversed() == {2};
    SumSame(p, p.Traversed(), {}, f, 0, 1);
    SumNone(p, f, 0, 1);
    OneConsumer(p, f, 1, 2);
    assert Local(p, f, 2) == 1.0;
    AdjointsUnique(p, f);
  }

  /** The worked example built on a fresh tape with the engine's own
      operations, in the source's order. */
  method BuildWorked() returns (t: Tape, l: nat)
    ensures fresh(t) && t.Valid() && l == 6
    ensures t.ops == WorkedPass().ops && t.data == WorkedPass().data && t.grads == WorkedPass().g0
  {
    t := new Tape();
    var a := t.Leaf(2.0);
    var b := t.Leaf(-3.0);
    var c := t.Leaf(10.0);
    assert t.ops == [Op.Leaf, Op.Leaf, Op.Leaf] && t.data == [2.0, -3.0, 10.0] && t.grads == [0.0, 0.0, 0.0];
    var e := t.Mul(a, Node(b));
    assert t.ops == [Op.Leaf, Op.Leaf, Op.Leaf, Op.Mul(0, 1)] && t.data == [2.0, -3.0, 10.0, -6.0];
    assert t.grads == [0.0, 0.0, 0.0, 0.0];
    var d := t.Add(e, Node(c));
    assert t.ops == [Op.Leaf, Op.Leaf, Op.Leaf, Op.Mul(0, 1), Op.Add(3, 2)];
    assert t.data == [2.0, -3.0, 10.0, -6.0, 4.0];
    assert t.grads == [0.0, 0.0, 0.0, 0.0, 0.0];
    var f := t.Leaf(-2.0);
    l := t.Mul(d, Node(f));
    assert t.ops == WorkedPass().ops;
    assert t.data == WorkedPass().data;
    assert t.grads == WorkedPass().g0;
  }

  /** The worked example run through `backward()` ends with the gradients
      of `WorkedGradients`. */
  method WorkedBackward() returns (t: Tape)
    ensures t.ops == WorkedPass().ops && t.data == WorkedPass().data
    ensures t.grads == [6.0, -4.0, -2.0, -2.0, -2.0, 4.0, 1.0]
  {
    var l;
    t, l := BuildWorked();
    ghost var p := WorkedPass();
    WorkedGradients();
    WorkedReach();
    assert forall w :: w in Reach(t.ops, l) ==> DivisorNonzero(t.ops, t.data, w) by {
      forall w | w in Reach(t.ops, l)
        ensures DivisorNonzero(t.ops, t.data, w)
      {
        assert w < 7;
      }
    }
    t.Backward(l);
    assert Pass(t.ops, t.data, p.g0, l) == p;
    AdjointsUnique(p, t.grads);
  }

  /** `5 - Value(3)` (`__rsub__`) is 2. */
  method RSubExample() returns (y: real)
    ensures y == 2.0
  {
    var t := new Tape();
    var a := t.Leaf(3.0);
    var v := t.RSub(a, 5.0);
    y := t.data[v];
  }

  /** `4 / Value(2)` (`__rtruediv__`) is 2. */
  method RDivExample() returns (y: real)
    ensures y == 2.0
  {
    var t := new Tape();
    var a := t.Leaf(2.0);
    var v := t.RDiv(a, 4.0);
    y := t.data[v];
  }

  /** `5 - a` with `a = x`, numbered as `__rsub__` builds it: `a`, the leaf
      -1, `-a = a * -1`, the leaf 5, `(-a) + 5`. */
  function RSubPass(x: real): (p: Pass)
    ensures p.Valid()
  {
    Pass([Op.Leaf, Op.Leaf, Op.Mul(0, 1), Op.Leaf, Op.Add(2, 3)],
         [x, -1.0, -x, 5.0, 5.0 - x],
         [0.0, 0.0, 0.0, 0.0, 0.0],
         4)
  }

  /** The gradients of `5 - a`: `a` gets -1, the -1 leaf gets `x`, and the
      negation, the leaf 5 and the output get 1. */
  lemma RSubGradients(x: real)
    ensures ExpSafe(RSubPass(x))
    ensures FinalVec(RSubPass(x)) == [-1.0, x, 1.0, 1.0, 1.0]
  {
    var p := RSubPass(x);
    var f := [-1.0, x, 1.0, 1.0, 1.0];
    ExpFree(p);
    assert Reach(p.ops, 2) == {0, 1, 2};
    assert p.Traversed() == {0, 1, 2, 3, 4};
    OneConsumer(p, f, 0, 2);
    OneConsumer(p, f, 1, 2);
    OneConsumer(p, f, 2, 4);
    OneConsumer(p, f, 3, 4);
    assert Local(p, f, 4) == 1.0;
    AdjointsUnique(p, f);
  }

  /** `(5 - a).backward()` on a fresh tape leaves `a` with gradient -1,
      derived from the contracts of `Leaf`, `RSub` and `Backward` alone. */
  method RSubBackward(x: real) returns (g: real)
    ensures g == -1.0
  {
    var t := new Tape();
    var a := t.Leaf(x);
    var v := t.RSub(a, 5.0);
    ghost var p := RSubPass(x);
    assert t.ops == p.ops && t.data == p.data && t.grads == p.g0;
    assert forall w :: w in Reach(t.ops, v) ==> DivisorNonzero(t.ops, t.data, w) by {
      forall w | w in Reach(t.ops, v)
        ensures DivisorNonzero(t.ops, t.data, w)
      {
        assert w < 5;
      }
    }
    RSubGradients(x);
    t.Backward(v);
    assert Pass(t.ops, t.data, p.g0, v) == p;
    AdjointsUnique(p, t.grads);
    g := t.grads[a];
  }

  /** `a ** m * a ** n` and `a ** (m + n)`, built on one tape, hold the
      same value. */
  method PowSplit(x: real, m: nat, n: nat) returns (y: real, z: real)
    ensures y == z
  {
    var t := new Tape();
    var a := t.Leaf(x);
    var pm := t.Pow(a, m);
    var pn := t.Pow(a, n);
    var prod := t.Mul(pm, Node(pn));
    var whole := t.Pow(a, m + n);
    PowerAdd(x, m, n);
    y, z := t.data[prod], t.data[whole];
  }
}
