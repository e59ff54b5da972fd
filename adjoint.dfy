/** What a backward pass must leave in every gradient slot, defined without
    reference to any traversal order: the output is seeded with 1, and
    every other node receives, on top of the gradient it already held, the
    contribution of each traversed consumer's rule, scaled by that
    consumer's own final gradient (the chain rule, accumulated over fan-out). */
module Adjoint {
  import opened Graph
  import opened Rules

  /** A graph, its forward values, the gradients held before the pass and
      the node the pass is started from. */
  datatype Pass = Pass(ops: seq<Op>, data: seq<real>, g0: seq<real>, out: nat) {
    ghost predicate Valid() {
      && WellFormed(ops)
      && |data| == |ops| && |g0| == |ops|
      && out < |ops|
    }

    /** The nodes the traversal reaches from the output. */
    ghost function Traversed(): set<nat>
      requires Valid()
    {
      Reach(ops, out)
    }

    /** The gradient a node holds once the output is seeded and before any
        rule runs. */
    function Seeded(u: nat): real
      requires Valid() && u < |ops|
    {
      if u == out then 1.0 else g0[u]
    }
  }

  /** Every traversed `exp` node's operand is itself not traversed. Then no
      rule writes into a traversed node from outside the traversal order. */
  ghost predicate ExpSafe(p: Pass)
    requires p.Valid()
  {
    forall x :: x in p.Traversed() && p.ops[x].Exp? ==> p.ops[x].a !in p.Traversed()
  }

  /** The contributions to `u` from the rules of the nodes of `done` with
      index in `w..p.out`, when each such node `x` holds gradient `f[x]`. */
  ghost function Sum(p: Pass, done: set<nat>, f: seq<real>, u: nat, w: nat): real
    requires p.Valid() && u < |p.ops| && |f| == |p.ops|
    decreases |p.ops| - w
  {
    if w > p.out then 0.0
    else (if w in done then Contrib(p.ops, p.data, w, u) * f[w] else 0.0) + Sum(p, done, f, u, w + 1)
  }

  /** The gradient node `k` ends with, given the final gradients `f` of
      the nodes above it. */
  ghost function Local(p: Pass, f: seq<real>, k: nat): real
    requires p.Valid() && k < |p.ops| && |f| == |p.ops|
  {
    if k < p.out then p.g0[k] + Sum(p, p.Traversed(), f, k, k + 1) else p.Seeded(k)
  }

  /** The final gradients of the nodes from `k` on (entries below `k` still
      hold the gradients from before the pass). */
  ghost function Finals(p: Pass, k: nat): (f: seq<real>)
    requires p.Valid() && k <= |p.ops|
    ensures |f| == |p.ops|
    decreases |p.ops| - k
  {
    if k == |p.ops| then p.g0
    else
      var above := Finals(p, k + 1);
      above[k := Local(p, above, k)]
  }

  /** The gradient of every node after a backward pass from `p.out`. */
  ghost function FinalVec(p: Pass): (f: seq<real>)
    requires p.Valid()
    ensures |f| == |p.ops|
  {
    Finals(p, 0)
  }

  /** `f` satisfies the chain-rule equations of the pass: each entry is its
      node's `Local` value computed from the entries above it. */
  ghost predicate Adjoints(p: Pass, f: seq<real>)
    requires p.Valid()
  {
    && |f| == |p.ops|
    && forall u :: 0 <= u < |f| ==> f[u] == Local(p, f, u)
  }

  /** `gs` holds, for every node, its seeded gradient plus the
      contributions of the nodes of `d`, each at its gradient in `f`. */
  ghost predicate Accumulated(p: Pass, f: seq<real>, gs: seq<real>, d: set<nat>)
    requires p.Valid() && |f| == |p.ops|
  {
    && |gs| == |p.ops|
    && forall u :: 0 <= u < |gs| ==> gs[u] == p.Seeded(u) + Sum(p, d, f, u, 0)
  }

  /** The sum only reads the gradients of nodes from `w` on. */
  lemma {:induction false} SumReads(p: Pass, done: set<nat>, f1: seq<real>, f2: seq<real>, u: nat, w: nat)
    requires p.Valid() && u < |p.ops| && |f1| == |p.ops| && |f2| == |p.ops|
    requires forall x :: w <= x < |p.ops| ==> f1[x] == f2[x]
    ensures Sum(p, done, f1, u, w) == Sum(p, done, f2, u, w)
    decreases |p.ops| - w
  {
    if w <= p.out {
      SumReads(p, done, f1, f2, u, w + 1);
    }
  }

  /** Computing further down leaves the entries from `j` on alone. */
  lemma {:induction false} FinalsStable(p: Pass, k: nat, j: nat, i: nat)
    requires p.Valid() && k <= j <= i < |p.ops|
    ensures Finals(p, k)[i] == Finals(p, j)[i]
    decreases j - k
  {
    if k < j {
      FinalsStable(p, k + 1, j, i);
    }
  }

  /** Each node's final gradient: the seed 1 at the output, the gradient it
      held before for nodes not below the output, and otherwise the held
      gradient plus every traversed consumer's contribution, scaled by that
      consumer's final gradient. */
  lemma FinalEq(p: Pass, u: nat)
    requires p.Valid() && u < |p.ops|
    ensures FinalVec(p)[u] == Local(p, FinalVec(p), u)
  {
    var f := FinalVec(p);
    var above := Finals(p, u + 1);
    FinalsStable(p, 0, u, u);
    forall x | u + 1 <= x < |p.ops|
      ensures f[x] == above[x]
    {
      FinalsStable(p, 0, u + 1, x);
    }
    SumReads(p, p.Traversed(), f, above, u, u + 1);
  }

  /** The contributions of two disjoint sets of nodes add up. */
  lemma {:induction false} SumUnion(p: Pass, d: set<nat>, e: set<nat>, f: seq<real>, u: nat, w: nat)
    requires p.Valid() && u < |p.ops| && |f| == |p.ops| && d !! e
    ensures Sum(p, d + e, f, u, w) == Sum(p, d, f, u, w) + Sum(p, e, f, u, w)
    decreases |p.ops| - w
  {
    if w <= p.out {
      SumUnion(p, d, e, f, u, w + 1);
    }
  }

  /** The sum only reads the gradients of the nodes in the set. */
  lemma {:induction false} SumAgree(p: Pass, d: set<nat>, f1: seq<real>, f2: seq<real>, u: nat, w: nat)
    requires p.Valid() && u < |p.ops| && |f1| == |p.ops| && |f2| == |p.ops|
    requires forall x :: x in d && x < |p.ops| ==> f1[x] == f2[x]
    ensures Sum(p, d, f1, u, w) == Sum(p, d, f2, u, w)
    decreases |p.ops| - w
  {
    if w <= p.out {
      SumAgree(p, d, f1, f2, u, w + 1);
      if w in d {
        Rescale(Contrib(p.ops, p.data, w, u), Contrib(p.ops, p.data, w, u), f1[w], f2[w]);
      }
    }
  }

  /** A single node contributes its rule's coefficient times its gradient. */
  lemma {:induction false} SumSingle(p: Pass, f: seq<real>, u: nat, x: nat, w: nat)
    requires p.Valid() && u < |p.ops| && |f| == |p.ops| && w <= x <= p.out
    ensures Sum(p, {x}, f, u, w) == Contrib(p.ops, p.data, x, u) * f[x]
    decreases x - w
  {
    if w < x {
      SumSingle(p, f, u, x, w + 1);
    } else {
      SumSame(p, {x}, {}, f, u, w + 1);
      SumNone(p, f, u, w + 1);
    }
  }

  /** Two sets that agree on every node writing into `u` give the same sum. */
  lemma {:induction false} SumSame(p: Pass, d1: set<nat>, d2: set<nat>, f: seq<real>, u: nat, w: nat)
    requires p.Valid() && u < |p.ops| && |f| == |p.ops|
    requires forall x :: w <= x <= p.out && u in Operands(p.ops[x]) ==> (x in d1 <==> x in d2)
    ensures Sum(p, d1, f, u, w) == Sum(p, d2, f, u, w)
    decreases |p.ops| - w
  {
    if w <= p.out {
      SumSame(p, d1, d2, f, u, w + 1);
    }
  }

  /** Nodes with index up to `u` never write into `u`. */
  lemma {:induction false} SumFrom(p: Pass, done: set<nat>, f: seq<real>, u: nat, w: nat)
    requires p.Valid() && u < |p.ops| && |f| == |p.ops| && w <= u + 1
    ensures Sum(p, done, f, u, w) == Sum(p, done, f, u, u + 1)
    decreases u + 1 - w
  {
    if w <= u && w <= p.out {
      assert u !in Operands(p.ops[w]);
      SumFrom(p, done, f, u, w + 1);
    }
  }

  /** With nothing processed, no contribution has arrived. */
  lemma {:induction false} SumNone(p: Pass, f: seq<real>, u: nat, w: nat)
    requires p.Valid() && u < |p.ops| && |f| == |p.ops|
    ensures Sum(p, {}, f, u, w) == 0.0
    decreases |p.ops| - w
  {
    if w <= p.out {
      SumNone(p, f, u, w + 1);
    }
  }

  /** The output's final gradient is the seed 1, and a node no traversed
      rule writes into keeps the gradient it held. */
  lemma FinalUntouched(p: Pass, u: nat)
    requires p.Valid() && u < |p.ops|
    requires forall x :: x in p.Traversed() ==> u !in Operands(p.ops[x])
    ensures FinalVec(p)[u] == p.Seeded(u)
  {
    FinalEq(p, u);
    if u < p.out {
      SumSame(p, p.Traversed(), {}, FinalVec(p), u, u + 1);
      SumNone(p, FinalVec(p), u, u + 1);
    }
  }

  /** `FinalVec` solves the chain-rule equations. */
  lemma FinalAdjoints(p: Pass)
    requires p.Valid()
    ensures Adjoints(p, FinalVec(p))
  {
    forall u | 0 <= u < |p.ops|
      ensures FinalVec(p)[u] == Local(p, FinalVec(p), u)
    {
      FinalEq(p, u);
    }
  }

  /** The chain-rule equations have exactly one solution: two solutions
      agree on every entry from `k` on, for every `k`. */
  lemma {:induction false} AdjointsAgree(p: Pass, f1: seq<real>, f2: seq<real>, k: nat)
    requires p.Valid() && Adjoints(p, f1) && Adjoints(p, f2) && k <= |p.ops|
    ensures forall x :: k <= x < |p.ops| ==> f1[x] == f2[x]
    decreases |p.ops| - k
  {
    if k < |p.ops| {
      AdjointsAgree(p, f1, f2, k + 1);
      SumReads(p, p.Traversed(), f1, f2, k, k + 1);
      assert f1[k] == Local(p, f1, k) && f2[k] == Local(p, f2, k);
    }
  }

  /** Any solution of the chain-rule equations is `FinalVec`. */
  lemma AdjointsUnique(p: Pass, f: seq<real>)
    requires p.Valid() && Adjoints(p, f)
    ensures f == FinalVec(p)
  {
    FinalAdjoints(p);
    AdjointsAgree(p, f, FinalVec(p), 0);
  }

  /** Some vector solves the chain-rule equations. */
  lemma AdjointsExist(p: Pass) returns (f: seq<real>)
    requires p.Valid()
    ensures Adjoints(p, f)
  {
    f := FinalVec(p);
    FinalAdjoints(p);
  }
}
