/** The scalar autodiff engine. A `Tape` is the arena holding every scalar
    node built so far: a node is an index into it, with its operation, its
    forward value (`data`) and its accumulated gradient (`grads`). Every
    operation builds a new node at the end of the tape; the backward pass
    updates gradients in place. */
module Engine {
  import opened Graph
  import opened Rules
  import opened Adjoint

  /** An operand of an arithmetic operation: an existing node, or a bare
      number that the operation first promotes to a fresh leaf. */
  datatype Operand = Node(i: nat) | Num(x: real)

  /** The nodes listed from position `k` of `s` on. */
  ghost function Done(s: seq<nat>, k: nat): set<nat>
    requires k <= |s|
  {
    set x | x in s[k..]
  }

  /** One replay step of a backward pass: when `s` lists the traversed
      nodes in post-order and the nodes after position `k - 1` have run
      their rules, the node at `k - 1` already holds its final gradient,
      because every traversed consumer of it comes later in `s`. */
  lemma ReplayStep(p: Pass, f: seq<real>, s: seq<nat>, k: nat)
    requires p.Valid() && ExpSafe(p) && Adjoints(p, f)
    requires PostOrdered(p.ops, s) && (set x | x in s) == p.Traversed()
    requires 0 < k <= |s|
    ensures s[k - 1] <= p.out
    ensures p.Seeded(s[k - 1]) + Sum(p, Done(s, k), f, s[k - 1], 0) == f[s[k - 1]]
  {
    var w := s[k - 1];
    var d := Done(s, k);
    assert w in p.Traversed();
    SumFrom(p, d, f, w, 0);
    assert f[w] == Local(p, f, w);
    if w < p.out {
      forall x | w + 1 <= x <= p.out && w in Operands(p.ops[x])
        ensures x in d <==> x in p.Traversed()
      {
        if x in p.Traversed() {
          if p.ops[x].Exp? {
            assert false;
          }
          assert w in Prev(p.ops[x]);
          ConsumerAfter(p.ops, s, k - 1, x);
        }
      }
      SumSame(p, d, p.Traversed(), f, w, w + 1);
    }
  }

  /** Running the rule of one more node `w` that already holds its final
      gradient adds `w`'s contribution to the gradient of `u`. */
  lemma ReplayInsertAt(p: Pass, f: seq<real>, d: set<nat>, w: nat, u: nat, before: seq<real>, after: seq<real>)
    requires p.Valid() && |f| == |p.ops| && w <= p.out && w !in d
    requires |before| == |p.ops| && |after| == |p.ops| && u < |p.ops|
    requires before[u] == p.Seeded(u) + Sum(p, d, f, u, 0)
    requires before[w] == f[w]
    requires after[u] == before[u] + Contrib(p.ops, p.data, w, u) * before[w]
    ensures after[u] == p.Seeded(u) + Sum(p, d + {w}, f, u, 0)
  {
    SumSingle(p, before, u, w, 0);
    SumAgree(p, {w}, before, f, u, 0);
    SumUnion(p, d, {w}, f, u, 0);
  }

  /** Before any rule runs, the gradients are the seeded ones. */
  lemma ReplayStart(p: Pass, f: seq<real>, gs: seq<real>)
    requires p.Valid() && |f| == |p.ops| && gs == p.g0[p.out := 1.0]
    ensures Accumulated(p, f, gs, {})
  {
    forall u | 0 <= u < |gs|
      ensures gs[u] == p.Seeded(u) + Sum(p, {}, f, u, 0)
    {
      SumNone(p, f, u, 0);
    }
  }

  /** Stepping back one position in a list without duplicates adds
      exactly the node at that position. */
  lemma DoneStep(s: seq<nat>, k: nat)
    requires NoDup(s) && 0 < k <= |s|
    ensures s[k - 1] !in Done(s, k)
    ensures Done(s, k - 1) == Done(s, k) + {s[k - 1]}
  {
    assert s[k - 1..] == [s[k - 1]] + s[k..];
  }

  /** Running the rule of a node `w` that holds its final gradient moves
      it into the processed set. */
  lemma ReplayInsert(p: Pass, f: seq<real>, d: set<nat>, w: nat, before: seq<real>, after: seq<real>)
    requires p.Valid() && |f| == |p.ops| && w <= p.out && w !in d
    requires Accumulated(p, f, before, d) && before[w] == f[w]
    requires RuleApplied(p.ops, p.data, before, after, w)
    ensures Accumulated(p, f, after, d + {w})
  {
    forall u | 0 <= u < |after|
      ensures after[u] == p.Seeded(u) + Sum(p, d + {w}, f, u, 0)
    {
      ReplayInsertAt(p, f, d, w, u, before, after);
    }
  }

  /** One replay step: the node at position `k - 1` holds its final
      gradient, and running its rule extends the processed nodes by it. */
  lemma ReplayAdvance(p: Pass, f: seq<real>, s: seq<nat>, k: nat, before: seq<real>, after: seq<real>)
    requires p.Valid() && ExpSafe(p) && Adjoints(p, f)
    requires PostOrdered(p.ops, s) && (set x | x in s) == p.Traversed()
    requires 0 < k <= |s| && s[k - 1] < |p.ops|
    requires Accumulated(p, f, before, Done(s, k))
    requires RuleApplied(p.ops, p.data, before, after, s[k - 1])
    ensures Accumulated(p, f, after, Done(s, k - 1))
  {
    ReplayStep(p, f, s, k);
    DoneStep(s, k);
    ReplayInsert(p, f, Done(s, k), s[k - 1], before, after);
  }

  /** Once every traversed node has run its rule, every gradient is final. */
  lemma ReplayComplete(p: Pass, f: seq<real>, gs: seq<real>)
    requires p.Valid() && Adjoints(p, f)
    requires Accumulated(p, f, gs, p.Traversed())
    ensures gs == f
  {
    forall u | 0 <= u < |gs|
      ensures gs[u] == f[u]
    {
      SumFrom(p, p.Traversed(), f, u, 0);
      assert f[u] == Local(p, f, u);
    }
  }

  /** `(ops, data, grads)` extends `(ops0, data0, grads0)`: earlier nodes
      keep their operation, value and gradient, and new nodes start with
      gradient 0. */
  ghost predicate Grows(ops0: seq<Op>, data0: seq<real>, grads0: seq<real>, ops: seq<Op>, data: seq<real>, grads: seq<real>) {
    && |ops0| <= |ops| && |data0| == |ops0| && |grads0| == |ops0|
    && |data| == |ops| && |grads| == |ops|
    && ops[..|ops0|] == ops0
    && data[..|ops0|] == data0
    && grads[..|ops0|] == grads0
    && forall i :: |ops0| <= i < |grads| ==> grads[i] == 0.0
  }

  /** Growing twice is growing once. */
  lemma GrowsTrans(ops0: seq<Op>, data0: seq<real>, grads0: seq<real>,
                   ops1: seq<Op>, data1: seq<real>, grads1: seq<real>,
                   ops2: seq<Op>, data2: seq<real>, grads2: seq<real>)
    requires Grows(ops0, data0, grads0, ops1, data1, grads1)
    requires Grows(ops1, data1, grads1, ops2, data2, grads2)
    ensures Grows(ops0, data0, grads0, ops2, data2, grads2)
  {
    var n := |ops0|;
    assert ops2[..n] == ops2[..|ops1|][..n];
    assert data2[..n] == data2[..|ops1|][..n];
    assert grads2[..n] == grads2[..|ops1|][..n];
    forall i | n <= i < |grads2|
      ensures grads2[i] == 0.0
    {
      if i < |ops1| {
        assert grads2[i] == grads2[..|ops1|][i];
      }
    }
  }

  /** A grown state keeps every earlier entry. */
  lemma GrowsKeeps(ops0: seq<Op>, data0: seq<real>, grads0: seq<real>, ops: seq<Op>, data: seq<real>, grads: seq<real>)
    requires Grows(ops0, data0, grads0, ops, data, grads)
    ensures forall i :: 0 <= i < |ops0| ==> ops[i] == ops0[i] && data[i] == data0[i] && grads[i] == grads0[i]
  {
    forall i | 0 <= i < |ops0|
      ensures ops[i] == ops0[i] && data[i] == data0[i] && grads[i] == grads0[i]
    {
      assert ops[..|ops0|][i] == ops[i];
      assert data[..|ops0|][i] == data[i];
      assert grads[..|ops0|][i] == grads[i];
    }
  }

  class Tape {
    var ops: seq<Op>
    var data: seq<real>
    var grads: seq<real>

    /** Every operand is an earlier node; the three columns have one entry
        per node. */
    ghost predicate Valid()
      reads this
    {
      && WellFormed(ops)
      && |data| == |ops|
      && |grads| == |ops|
    }

    /** The tape extends an earlier state: earlier nodes keep their
        operation, value and gradient, and new nodes start with gradient 0. */
    ghost predicate Extends(ops0: seq<Op>, data0: seq<real>, grads0: seq<real>)
      reads this
    {
      Grows(ops0, data0, grads0, ops, data, grads)
    }

    /** The value an operand stands for. */
    function ValueOf(o: Operand): real
      reads this
      requires o.Node? ==> o.i < |data|
    {
      match o
      case Node(i) => data[i]
      case Num(x) => x
    }

    constructor ()
      ensures Valid()
      ensures ops == [] && data == [] && grads == []
    {
      ops, data, grads := [], [], [];
    }

    /** Appends a node with gradient 0 (`Value.__init__`). */
    method Push(op: Op, x: real) returns (v: nat)
      requires Valid()
      requires forall u :: u in Operands(op) ==> u < |ops|
      modifies this
      ensures Valid()
      ensures ops == old(ops) + [op] && data == old(data) + [x] && grads == old(grads) + [0.0]
      ensures v == old(|ops|)
    {
      v := |ops|;
      ops, data, grads := ops + [op], data + [x], grads + [0.0];
    }

    /** A leaf node: no children, a rule that does nothing, gradient 0. */
    method Leaf(x: real) returns (v: nat)
      requires Valid()
      modifies this
      ensures Valid() && Extends(old(ops), old(data), old(grads))
      ensures |ops| == old(|ops|) + 1 && v == old(|ops|)
      ensures ops[v] == Op.Leaf && data[v] == x && grads[v] == 0.0
      ensures Prev(ops[v]) == {} && forall u :: Contrib(ops, data, v, u) == 0.0
    {
      v := Push(Op.Leaf, x);
    }

    /** A node for an operand: the node itself, or a fresh leaf for a bare
        number. */
    method Promote(o: Operand) returns (v: nat)
      requires Valid() && (o.Node? ==> o.i < |ops|)
      modifies this
      ensures Valid() && Extends(old(ops), old(data), old(grads))
      ensures v < |ops| && data[v] == old(ValueOf(o))
      ensures o.Node? ==> v == o.i && ops == old(ops)
      ensures o.Num? ==> v == old(|ops|) && |ops| == v + 1 && ops[v] == Op.Leaf
    {
      match o
      case Node(i) => v := i;
      case Num(x) => v := Leaf(x);
    }

    /** `a + o`: a new node holding the sum, recording both operands. */
    method Add(a: nat, o: Operand) returns (v: nat)
      requires Valid() && a < |ops| && (o.Node? ==> o.i < |ops|)
      modifies this
      ensures Valid() && Extends(old(ops), old(data), old(grads))
      ensures v == |ops| - 1 && old(|ops|) <= v
      ensures ops[v].Add? && ops[v].a == a && (o.Node? ==> ops[v].b == o.i)
      ensures |ops| == old(|ops|) + (if o.Num? then 2 else 1)
      ensures o.Num? ==> ops[v].b == v - 1 && ops[v - 1] == Op.Leaf && data[v - 1] == o.x
      ensures data[v] == old(data[a]) + old(ValueOf(o))
    {
      var b := Promote(o);
      v := Push(Op.Add(a, b), data[a] + data[b]);
    }

    /** `n + a` (`__radd__`): computed as `a + n`. */
    method RAdd(a: nat, n: real) returns (v: nat)
      requires Valid() && a < |ops|
      modifies this
      ensures Valid() && Extends(old(ops), old(data), old(grads))
      ensures v == |ops| - 1 && old(|ops|) <= v
      ensures |ops| == old(|ops|) + 2 && ops[v] == Op.Add(a, v - 1)
      ensures ops[v - 1] == Op.Leaf && data[v - 1] == n
      ensures data[v] == n + old(data[a])
    {
      v := Add(a, Num(n));
    }

    /** `a * o`. */
    method Mul(a: nat, o: Operand) returns (v: nat)
      requires Valid() && a < |ops| && (o.Node? ==> o.i < |ops|)
      modifies this
      ensures Valid() && Extends(old(ops), old(data), old(grads))
      ensures v == |ops| - 1 && old(|ops|) <= v
      ensures ops[v].Mul? && ops[v].a == a && (o.Node? ==> ops[v].b == o.i)
      ensures |ops| == old(|ops|) + (if o.Num? then 2 else 1)
      ensures o.Num? ==> ops[v].b == v - 1 && ops[v - 1] == Op.Leaf && data[v - 1] == o.x
      ensures data[v] == old(data[a]) * old(ValueOf(o))
    {
      var b := Promote(o);
      v := Push(Op.Mul(a, b), data[a] * data[b]);
    }

    /** `n * a` (`__rmul__`): computed as `a * n`. */
    method RMul(a: nat, n: real) returns (v: nat)
      requires Valid() && a < |ops|
      modifies this
      ensures Valid() && Extends(old(ops), old(data), old(grads))
      ensures v == |ops| - 1 && old(|ops|) <= v
      ensures |ops| == old(|ops|) + 2 && ops[v] == Op.Mul(a, v - 1)
      ensures ops[v - 1] == Op.Leaf && data[v - 1] == n
      ensures data[v] == n * old(data[a])
    {
      v := Mul(a, Num(n));
    }

    /** `-a`: multiplication by the number -1. */
    method Neg(a: nat) returns (v: nat)
      requires Valid() && a < |ops|
      modifies this
      ensures Valid() && Extends(old(ops), old(data), old(grads))
      ensures v == |ops| - 1 && old(|ops|) <= v
      ensures v == old(|ops|) + 1
      ensures ops[v] == Op.Mul(a, v - 1) && ops[v - 1] == Op.Leaf && data[v - 1] == -1.0
      ensures data[v] == -old(data[a])
    {
      v := Mul(a, Num(-1.0));
    }

    /** `a - o`: `a + (-o)`, where a bare number is negated as a number and
        a node through `Neg`. */
    method Sub(a: nat, o: Operand) returns (v: nat)
      requires Valid() && a < |ops| && (o.Node? ==> o.i < |ops|)
      modifies this
      ensures Valid() && Extends(old(ops), old(data), old(grads))
      ensures v == |ops| - 1 && old(|ops|) <= v
      ensures ops[v].Add? && ops[v].a == a
      ensures |ops| == old(|ops|) + (if o.Num? then 2 else 3)
      ensures o.Num? ==> ops[v].b == v - 1 && ops[v - 1] == Op.Leaf && data[v - 1] == -o.x
      ensures o.Node? ==> 2 <= v && ops[v].b == v - 1 && ops[v - 1] == Op.Mul(o.i, v - 2)
      ensures o.Node? ==> ops[v - 2] == Op.Leaf && data[v - 2] == -1.0
      ensures o.Node? ==> data[v - 1] == -old(data[o.i])
      ensures data[v] == old(data[a]) - old(ValueOf(o))
    {
      match o
      case Num(x) =>
        v := Add(a, Num(-x));
      case Node(b) =>
        var nb := Neg(b);
        v := Add(a, Node(nb));
    }

    /** `n - a` (`__rsub__`): `(-a) + n`. */
    method RSub(a: nat, n: real) returns (v: nat)
      requires Valid() && a < |ops|
      modifies this
      ensures Valid() && Extends(old(ops), old(data), old(grads))
      ensures v == |ops| - 1 && old(|ops|) <= v
      ensures v == old(|ops|) + 3
      ensures ops[v] == Op.Add(v - 2, v - 1) && ops[v - 2] == Op.Mul(a, v - 3)
      ensures ops[v - 3] == Op.Leaf && data[v - 3] == -1.0
      ensures ops[v - 1] == Op.Leaf && data[v - 1] == n
      ensures data[v - 2] == -old(data[a])
      ensures data[v] == n - old(data[a])
    {
      var na := Neg(a);
      v := Add(na, Num(n));
    }

    /** `a / o`: `a * o ** -1`; the divisor must be nonzero. */
    method Div(a: nat, o: Operand) returns (v: nat)
      requires Valid() && a < |ops| && (o.Node? ==> o.i < |ops|)
      requires ValueOf(o) != 0.0
      modifies this
      ensures Valid() && Extends(old(ops), old(data), old(grads))
      ensures v == |ops| - 1 && old(|ops|) <= v
      ensures ops[v].Div? && ops[v].a == a && (o.Node? ==> ops[v].b == o.i)
      ensures ops[v].b < v && data[ops[v].b] == old(ValueOf(o))
      ensures |ops| == old(|ops|) + (if o.Num? then 2 else 1)
      ensures o.Num? ==> ops[v].b == v - 1 && ops[v - 1] == Op.Leaf
      ensures data[v] * old(ValueOf(o)) == old(data[a])
    {
      var b := Promote(o);
      var divisor := Recip(data[b]);
      v := Push(Op.Div(a, b), data[a] * divisor);
    }

    /** `n / a` (`__rtruediv__`): `Value(n) / a`, the number on the left. */
    method RDiv(a: nat, n: real) returns (v: nat)
      requires Valid() && a < |ops| && data[a] != 0.0
      modifies this
      ensures Valid() && Extends(old(ops), old(data), old(grads))
      ensures v == |ops| - 1 && old(|ops|) <= v
      ensures v == old(|ops|) + 1
      ensures ops[v] == Op.Div(old(|ops|), a) && ops[old(|ops|)] == Op.Leaf
      ensures data[old(|ops|)] == n
      ensures data[v] * old(data[a]) == n
    {
      var l := Leaf(n);
      v := Div(l, Node(a));
    }

    /** `a.tanh()`, computed from the exponential of `2x`. */
    method Tanh(a: nat, exp: PosFn) returns (v: nat)
      requires Valid() && a < |ops|
      modifies this
      ensures Valid() && Extends(old(ops), old(data), old(grads))
      ensures v == |ops| - 1 && v == old(|ops|)
      ensures ops[v] == Op.Tanh(a)
      ensures data[v] == TanhExp(exp, old(data[a]))
      ensures -1.0 < data[v] < 1.0
    {
      var x := data[a];
      var t := TanhExp(exp, x);
      v := Push(Op.Tanh(a), t);
    }

    /** `a.exp()`. The node records no children. */
    method Exp(a: nat, exp: PosFn) returns (v: nat)
      requires Valid() && a < |ops|
      modifies this
      ensures Valid() && Extends(old(ops), old(data), old(grads))
      ensures v == |ops| - 1 && v == old(|ops|)
      ensures ops[v] == Op.Exp(a) && Prev(ops[v]) == {}
      ensures data[v] == exp(old(data[a])) && data[v] > 0.0
    {
      v := Push(Op.Exp(a), exp(data[a]));
    }

    /** `a.pow(p)` for a natural exponent `p`. */
    method Pow(a: nat, p: nat) returns (v: nat)
      requires Valid() && a < |ops|
      modifies this
      ensures Valid() && Extends(old(ops), old(data), old(grads))
      ensures v == |ops| - 1 && v == old(|ops|)
      ensures ops[v] == Op.Pow(a, p)
      ensures data[v] == Power(old(data[a]), p)
    {
      v := Push(Op.Pow(a, p), Power(data[a], p));
    }

    /** The two `+=` lines of a binary rule: `ca * g` into operand `a`,
        then `cb * g` into operand `b` (the same slot twice when `a == b`). */
    method AddInto2(a: nat, b: nat, ca: real, cb: real, g: real)
      requires a < |grads| && b < |grads|
      modifies this`grads
      ensures |grads| == old(|grads|)
      ensures forall u :: 0 <= u < |grads| ==>
        grads[u] == old(grads[u]) + ((if a == u then ca else 0.0) + (if b == u then cb else 0.0)) * g
    {
      var da, db := ca * g, cb * g;
      grads := grads[a := grads[a] + da];
      grads := grads[b := grads[b] + db];
      forall u | 0 <= u < |grads|
        ensures grads[u] == old(grads[u]) + ((if a == u then ca else 0.0) + (if b == u then cb else 0.0)) * g
      {
        var xa, xb := (if a == u then ca else 0.0), (if b == u then cb else 0.0);
        assert xa * g == (if a == u then da else 0.0);
        assert xb * g == (if b == u then db else 0.0);
        assert (xa + xb) * g == xa * g + xb * g;
      }
    }

    /** The one `+=` line of a unary rule: `c * g` into operand `a`. */
    method AddInto1(a: nat, c: real, g: real)
      requires a < |grads|
      modifies this`grads
      ensures |grads| == old(|grads|)
      ensures forall u :: 0 <= u < |grads| ==> grads[u] == old(grads[u]) + (if a == u then c else 0.0) * g
    {
      grads := grads[a := grads[a] + c * g];
    }

    /** The rule of `+` (engine.py's `_backward` of `__add__`): the output
        gradient flows unchanged into both operands. */
    method AddRule(w: nat)
      requires Valid() && w < |ops| && ops[w].Add?
      modifies this`grads
      ensures Valid()
      ensures RuleApplied(ops, data, old(grads), grads, w)
    {
      var a, b := ops[w].a, ops[w].b;
      assert a in Operands(ops[w]) && b in Operands(ops[w]);
      AddInto2(a, b, 1.0, 1.0, grads[w]);
      forall u | 0 <= u < |grads|
        ensures grads[u] == old(grads[u]) + Contrib(ops, data, w, u) * old(grads[w])
      {
        Rescale(Contrib(ops, data, w, u), (if a == u then 1.0 else 0.0) + (if b == u then 1.0 else 0.0), old(grads[w]), old(grads[w]));
      }
    }

    /** The rule of `*`: each operand receives the other operand's value
        times the output gradient. */
    method MulRule(w: nat)
      requires Valid() && w < |ops| && ops[w].Mul?
      modifies this`grads
      ensures Valid()
      ensures RuleApplied(ops, data, old(grads), grads, w)
    {
      var a, b := ops[w].a, ops[w].b;
      assert a in Operands(ops[w]) && b in Operands(ops[w]);
      AddInto2(a, b, data[b], data[a], grads[w]);
      forall u | 0 <= u < |grads|
        ensures grads[u] == old(grads[u]) + Contrib(ops, data, w, u) * old(grads[w])
      {
        Rescale(Contrib(ops, data, w, u), (if a == u then data[b] else 0.0) + (if b == u then data[a] else 0.0), old(grads[w]), old(grads[w]));
      }
    }

    /** The rule of `/`: the dividend receives `1/y` and the divisor
        `x * (-1/y^2)` times the output gradient; the divisor is nonzero. */
    method DivRule(w: nat)
      requires Valid() && w < |ops| && ops[w].Div?
      requires DivisorNonzero(ops, data, w)
      modifies this`grads
      ensures Valid()
      ensures RuleApplied(ops, data, old(grads), grads, w)
    {
      var a, b := ops[w].a, ops[w].b;
      assert a in Operands(ops[w]) && b in Operands(ops[w]);
      var r := Recip(data[b]);
      var cb := data[a] * (-1.0 * (r * r));
      AddInto2(a, b, r, cb, grads[w]);
      forall u | 0 <= u < |grads|
        ensures grads[u] == old(grads[u]) + Contrib(ops, data, w, u) * old(grads[w])
      {
        Rescale(Contrib(ops, data, w, u), (if a == u then r else 0.0) + (if b == u then cb else 0.0), old(grads[w]), old(grads[w]));
      }
    }

    /** The rule of a unary operation (`pow`, `tanh`, `exp`): the operand
        receives the local slope `c` times the output gradient. */
    method UnaryRule(w: nat, c: real)
      requires Valid() && w < |ops|
      requires ops[w].Pow? || ops[w].Tanh? || ops[w].Exp?
      requires forall u :: Contrib(ops, data, w, u) == (if ops[w].a == u then c else 0.0)
      modifies this`grads
      ensures Valid()
      ensures RuleApplied(ops, data, old(grads), grads, w)
    {
      var a := ops[w].a;
      assert a in Operands(ops[w]);
      AddInto1(a, c, grads[w]);
      forall u | 0 <= u < |grads|
        ensures grads[u] == old(grads[u]) + Contrib(ops, data, w, u) * old(grads[w])
      {
        Rescale(Contrib(ops, data, w, u), (if a == u then c else 0.0), old(grads[w]), old(grads[w]));
      }
    }

    /** Runs node `w`'s backward rule (its `_backward` closure): it adds
        into each operand's gradient, never overwriting, and every other
        gradient stays as it was. The rule reads the node's own gradient,
        which it never writes. */
    method ApplyRule(w: nat)
      requires Valid() && w < |ops|
      requires DivisorNonzero(ops, data, w)
      modifies this`grads
      ensures Valid()
      ensures RuleApplied(ops, data, old(grads), grads, w)
      ensures forall u :: 0 <= u < |grads| && u !in Operands(ops[w]) ==> grads[u] == old(grads[u])
    {
      match ops[w] {
      case Leaf =>
        assert RuleApplied(ops, data, grads, grads, w);
      case Add(_, _) =>
        AddRule(w);
      case Mul(_, _) =>
        MulRule(w);
      case Div(_, _) =>
        DivRule(w);
      case Pow(a, p) =>
        assert a in Operands(ops[w]);
        UnaryRule(w, PowSlope(data[a], p));
      case Tanh(_) =>
        UnaryRule(w, 1.0 - data[w] * data[w]);
      case Exp(_) =>
        UnaryRule(w, data[w]);
      }
    }

    /** The depth-first post-order traversal (`build_topo`). `visited` and
        `topo` are the lists the source's closure updates; the recorded
        children of a node are taken in an arbitrary order. Nodes in
        `visited` but not yet in `topo` are the ones still being explored,
        all above `v`. Afterwards `topo` has grown by exactly the nodes
        reached from `v` that it lacked, each once and after its children. */
    method BuildTopo(v: nat, visited: set<nat>, topo: seq<nat>) returns (visited': set<nat>, topo': seq<nat>)
      requires Valid() && v < |ops|
      requires PostOrdered(ops, topo)
      requires forall x :: x in topo ==> x in visited
      requires forall x :: x in visited && x !in topo ==> v < x
      ensures PostOrdered(ops, topo')
      ensures |topo| <= |topo'| && topo'[..|topo|] == topo
      ensures v in topo'
      ensures forall x :: x in topo' ==> x in topo || x in Reach(ops, v)
      ensures forall x :: x in visited' <==> x in visited || x in topo'
      decreases v
    {
      if v in visited {
        return visited, topo;
      }
      visited' := visited + {v};
      topo' := topo;
      var todo := Prev(ops[v]);
      while todo != {}
        invariant todo <= Prev(ops[v])
        invariant PostOrdered(ops, topo')
        invariant |topo| <= |topo'| && topo'[..|topo|] == topo
        invariant forall c :: c in Prev(ops[v]) && c !in todo ==> c in topo'
        invariant forall x :: x in topo' ==> x in topo || (x in Reach(ops, v) && x < v)
        invariant forall x :: x in visited' <==> x in visited || x == v || x in topo'
        decreases todo
      {
        var c :| c in todo;
        ReachChild(ops, v, c);
        visited', topo' := BuildTopo(c, visited', topo');
        todo := todo - {c};
      }
      assert v !in topo';
      ghost var before := topo';
      topo' := topo' + [v];
      assert topo'[..|before|] == before;
    }

    /** `backward()`: traverse from `out`, seed its gradient with 1 (by
        assignment), then replay the rules in reverse post-order. The output
        ends at exactly 1 and later nodes are untouched. When no traversed
        `exp` node has a traversed operand, the gradients solve the
        chain-rule equations of the pass (so they are `FinalVec`, whatever
        order the children were visited in). */
    method Backward(out: nat)
      requires Valid() && out < |ops|
      requires forall w :: w in Reach(ops, out) ==> DivisorNonzero(ops, data, w)
      modifies this`grads
      ensures Valid()
      ensures grads[out] == 1.0
      ensures forall u :: out < u < |grads| ==> grads[u] == old(grads[u])
      ensures ExpSafe(Pass(ops, data, old(grads), out)) ==> Adjoints(Pass(ops, data, old(grads), out), grads)
    {
      ghost var p := Pass(ops, data, grads, out);
      ghost var f := AdjointsExist(p);
      var visited, topo := BuildTopo(out, {}, []);
      PostOrderedClosed(ops, topo, out);
      assert (set x | x in topo) == p.Traversed();
      grads := grads[out := 1.0];
      ReplayStart(p, f, grads);
      assert Done(topo, |topo|) == {};
      Replay(topo, p, f);
      assert Done(topo, 0) == p.Traversed() by {
        assert topo[0..] == topo;
      }
      if ExpSafe(p) {
        ReplayComplete(p, f, grads);
      }
    }

    /** The replay loop of `backward()`: runs the rules of the nodes of
        `topo` from last to first. */
    method Replay(topo: seq<nat>, ghost p: Pass, ghost f: seq<real>)
      requires Valid() && p.Valid() && p.ops == ops && p.data == data && Adjoints(p, f)
      requires PostOrdered(ops, topo) && (set x | x in topo) == p.Traversed()
      requires forall w :: w in p.Traversed() ==> DivisorNonzero(ops, data, w)
      requires grads[p.out] == 1.0
      requires ExpSafe(p) ==> Accumulated(p, f, grads, Done(topo, |topo|))
      modifies this`grads
      ensures Valid()
      ensures grads[p.out] == 1.0
      ensures forall u :: p.out < u < |grads| ==> grads[u] == old(grads[u])
      ensures ExpSafe(p) ==> Accumulated(p, f, grads, Done(topo, 0))
    {
      var k := |topo|;
      while k > 0
        invariant 0 <= k <= |topo|
        invariant Valid()
        invariant grads[p.out] == 1.0
        invariant forall u :: p.out < u < |grads| ==> grads[u] == old(grads[u])
        invariant ExpSafe(p) ==> Accumulated(p, f, grads, Done(topo, k))
      {
        var w := topo[k - 1];
        assert w in p.Traversed();
        ghost var before := grads;
        ApplyRule(w);
        if ExpSafe(p) {
          ReplayAdvance(p, f, topo, k, before, grads);
        }
        k := k - 1;
      }
    }
  }
}
