/** Forward values and local derivative rules of the scalar operations.
    `math.exp` is not interpreted: it is any positive real function, and
    only the relations the rules rely on are used. */
module Rules {
  import opened Graph

  /** Stand-in for `math.exp`: a real function with positive values. */
  type PosFn = f: real -> real | forall x :: f(x) > 0.0 witness x => 1.0

  /** `x ** n` for a natural exponent. */
  function Power(x: real, n: nat): real {
    if n == 0 then 1.0 else x * Power(x, n - 1)
  }

  /** `x ** -1`; the engine only applies it to nonzero values. */
  function Recip(x: real): (r: real)
    ensures x != 0.0 ==> r * x == 1.0
  {
    if x == 0.0 then 0.0 else 1.0 / x
  }

  /** Hyperbolic tangent written through the exponential, as
      `(e^{2x} - 1) / (e^{2x} + 1)` with `e2x` standing for `e^{2x}`. */
  function TanhOf(e2x: real): (t: real)
    requires e2x > 0.0
    ensures -1.0 < t < 1.0
    ensures 1.0 - t * t > 0.0
  {
    (e2x - 1.0) / (e2x + 1.0)
  }

  /** `tanh(x)` as the source computes it, from `exp(2x)`. */
  function TanhExp(exp: PosFn, x: real): (t: real)
    ensures -1.0 < t < 1.0
  {
    TanhOf(exp(2.0 * x))
  }

  /** The factor `p * x ** (p - 1)` of the power rule. With exponent 0 the
      factor is 0 (the source's `0 * x ** -1`). */
  function PowSlope(x: real, p: nat): real {
    if p == 0 then 0.0 else (p as real) * Power(x, p - 1)
  }

  /** How much node `w`'s backward rule adds into the gradient of `u`, per
      unit of `w`'s own gradient. A node used twice by the same operation
      (`a * a`, `a + a`) receives both contributions. */
  function Contrib(ops: seq<Op>, data: seq<real>, w: nat, u: nat): (c: real)
    requires w < |ops| && |data| == |ops| && WellFormed(ops)
    ensures u !in Operands(ops[w]) ==> c == 0.0
  {
    assert forall x :: x in Operands(ops[w]) ==> x < w;
    match ops[w]
    case Leaf => 0.0
    case Add(a, b) => (if a == u then 1.0 else 0.0) + (if b == u then 1.0 else 0.0)
    case Mul(a, b) => (if a == u then data[b] else 0.0) + (if b == u then data[a] else 0.0)
    case Div(a, b) =>
      (if a == u then Recip(data[b]) else 0.0)
      + (if b == u then data[a] * (-1.0 * (Recip(data[b]) * Recip(data[b]))) else 0.0)
    case Pow(a, p) => if a == u then PowSlope(data[a], p) else 0.0
    case Tanh(a) => if a == u then 1.0 - data[w] * data[w] else 0.0
    case Exp(a) => if a == u then data[w] else 0.0
  }

  /** The gradients `g1` are the gradients `g0` after node `w`'s backward
      rule added its contributions, each scaled by `w`'s own gradient. */
  ghost predicate RuleApplied(ops: seq<Op>, data: seq<real>, g0: seq<real>, g1: seq<real>, w: nat)
    requires w < |ops| && |data| == |ops| && WellFormed(ops)
  {
    && |g0| == |ops| && |g1| == |ops|
    && forall u :: 0 <= u < |g1| ==> g1[u] == g0[u] + Contrib(ops, data, w, u) * g0[w]
  }

  /** A division node's divisor is nonzero; the source raises otherwise. */
  predicate DivisorNonzero(ops: seq<Op>, data: seq<real>, w: nat)
    requires w < |ops| && |data| == |ops| && WellFormed(ops)
  {
    match ops[w]
    case Div(_, b) => assert b in Operands(ops[w]); data[b] != 0.0
    case _ => true
  }

  /** `x ** (m + n) == x ** m * x ** n`. */
  lemma {:induction false} PowerAdd(x: real, m: nat, n: nat)
    ensures Power(x, m + n) == Power(x, m) * Power(x, n)
  {
    if m > 0 {
      PowerAdd(x, m - 1, n);
      assert Power(x, m + n) == x * Power(x, m - 1 + n);
    }
  }

  /** The power rule agrees with the product rule: the slope of `x ** (n+1)`
      is `x ** n` plus `x` times the slope of `x ** n`. */
  lemma {:induction false} PowSlopeProduct(x: real, n: nat)
    ensures PowSlope(x, n + 1) == Power(x, n) + x * PowSlope(x, n)
  {
    if n > 0 {
      PowSlopeProduct(x, n - 1);
      calc {
        PowSlope(x, n + 1);
        (n + 1) as real * Power(x, n);
        (n + 1) as real * (x * Power(x, n - 1));
        Power(x, n) + x * ((n as real) * Power(x, n - 1));
      }
    }
  }

  /** An algebraic identity about the tanh rule's factor: with
      `t = (e - 1)/(e + 1)`, `1 - t^2 = 4e/(e+1)^2`. */
  lemma TanhSlope(e2x: real)
    requires e2x > 0.0
    ensures 1.0 - TanhOf(e2x) * TanhOf(e2x) == 4.0 * e2x / ((e2x + 1.0) * (e2x + 1.0))
  {
    var t := TanhOf(e2x);
    var d := e2x + 1.0;
    assert t * d == e2x - 1.0;
    assert (1.0 - t * t) * (d * d) == d * d - (e2x - 1.0) * (e2x - 1.0);
  }

  /** Equal factors give equal products (a congruence step the solver is
      slow to find on its own among many products). */
  lemma Rescale(c1: real, c2: real, g1: real, g2: real)
    requires c1 == c2 && g1 == g2
    ensures c1 * g1 == c2 * g2
  {
  }
}
