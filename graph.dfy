/** The shape of a computation graph: every scalar node lives in an arena
    (a sequence) and refers to its operands by index. An operation only ever
    refers to nodes built before it, so every operand index is smaller than
    the index of the node that uses it and the graph is acyclic by
    construction. */
module Graph {

  /** The operation that produced a node, with the arena indices of its
      operands. `Pow` carries its plain-number exponent, restricted here to
      a natural number. */
  datatype Op =
    | Leaf
    | Add(a: nat, b: nat)
    | Mul(a: nat, b: nat)
    | Div(a: nat, b: nat)
    | Pow(a: nat, p: nat)
    | Tanh(a: nat)
    | Exp(a: nat)

  /** The nodes whose gradient the node's backward rule adds into. */
  function Operands(op: Op): (s: set<nat>)
    ensures op.Leaf? <==> s == {}
  {
    match op
    case Leaf => {}
    case Add(a, b) => {a, b}
    case Mul(a, b) => {a, b}
    case Div(a, b) => {a, b}
    case Pow(a, _) => {a}
    case Tanh(a) => {a}
    case Exp(a) => {a}
  }

  /** The children recorded for the traversal (the node's `_prev` set).
      They coincide with the operands, except that an `Exp` node records
      none: its rule still writes into its operand, but the traversal never
      descends through it. Being a set, `a * a` records `a` once. This is
      a definition; its ensures only spell it out for callers. */
  function Prev(op: Op): (s: set<nat>)
    ensures s <= Operands(op)
    ensures !op.Exp? ==> s == Operands(op)
    ensures op.Exp? ==> s == {}
  {
    match op
    case Exp(_) => {}
    case _ => Operands(op)
  }

  /** Every node refers only to nodes built before it. */
  ghost predicate WellFormed(ops: seq<Op>) {
    forall i, u :: 0 <= i < |ops| && u in Operands(ops[i]) ==> u < i
  }

  /** The nodes the traversal reaches from `v`, `v` included. */
  ghost function Reach(ops: seq<Op>, v: nat): (r: set<nat>)
    requires WellFormed(ops) && v < |ops|
    ensures v in r
    ensures forall u :: u in r ==> u <= v
    decreases v
  {
    assert forall u :: u in Operands(ops[v]) ==> u < v;
    match ops[v]
    case Leaf => {v}
    case Exp(_) => {v}
    case Add(a, b) => {v} + Reach(ops, a) + Reach(ops, b)
    case Mul(a, b) => {v} + Reach(ops, a) + Reach(ops, b)
    case Div(a, b) => {v} + Reach(ops, a) + Reach(ops, b)
    case Pow(a, _) => {v} + Reach(ops, a)
    case Tanh(a) => {v} + Reach(ops, a)
  }

  /** Appending nodes does not change what the traversal reaches from an
      existing node. */
  lemma {:induction false} ReachKept(ops0: seq<Op>, ops: seq<Op>, v: nat)
    requires WellFormed(ops0) && WellFormed(ops)
    requires |ops0| <= |ops| && ops[..|ops0|] == ops0 && v < |ops0|
    ensures Reach(ops0, v) == Reach(ops, v)
    decreases v
  {
    assert ops[v] == ops0[v];
    assert forall u :: u in Operands(ops[v]) ==> u < v;
    match ops[v]
    case Leaf =>
    case Exp(_) =>
    case Add(a, b) => ReachKept(ops0, ops, a); ReachKept(ops0, ops, b);
    case Mul(a, b) => ReachKept(ops0, ops, a); ReachKept(ops0, ops, b);
    case Div(a, b) => ReachKept(ops0, ops, a); ReachKept(ops0, ops, b);
    case Pow(a, _) => ReachKept(ops0, ops, a);
    case Tanh(a) => ReachKept(ops0, ops, a);
  }

  /** No node appears twice in `s`. */
  ghost predicate NoDup(s: seq<nat>) {
    forall i, j :: 0 <= i < j < |s| ==> s[i] != s[j]
  }

  /** `s` lists arena nodes, each after all of its recorded children
      (a post-order prefix of a depth-first traversal). */
  ghost predicate PostOrdered(ops: seq<Op>, s: seq<nat>) {
    && NoDup(s)
    && (forall i :: 0 <= i < |s| ==> s[i] < |ops|)
    && (forall i, c :: 0 <= i < |s| && c in Prev(ops[s[i]]) ==> c in s[..i])
  }

  /** The traversal from `v` continues into exactly the recorded children. */
  lemma ReachChild(ops: seq<Op>, v: nat, c: nat)
    requires WellFormed(ops) && v < |ops|
    requires c in Prev(ops[v])
    ensures c < v && Reach(ops, c) <= Reach(ops, v)
  {
    assert c in Operands(ops[v]);
  }

  /** A list that keeps every node after its children contains, with each
      node, everything the traversal reaches from it. */
  lemma {:induction false} PostOrderedClosed(ops: seq<Op>, s: seq<nat>, v: nat)
    requires WellFormed(ops) && PostOrdered(ops, s)
    requires v in s
    ensures v < |ops| && Reach(ops, v) <= set x | x in s
    decreases v
  {
    var i :| 0 <= i < |s| && s[i] == v;
    forall c | c in Prev(ops[v])
      ensures c < v && Reach(ops, c) <= set x | x in s
    {
      assert c in s[..i];
      assert c in Operands(ops[v]);
      PostOrderedClosed(ops, s, c);
    }
    match ops[v]
    case Leaf =>
    case Exp(_) =>
    case Add(a, b) => assert a in Prev(ops[v]) && b in Prev(ops[v]);
    case Mul(a, b) => assert a in Prev(ops[v]) && b in Prev(ops[v]);
    case Div(a, b) => assert a in Prev(ops[v]) && b in Prev(ops[v]);
    case Pow(a, _) => assert a in Prev(ops[v]);
    case Tanh(a) => assert a in Prev(ops[v]);
  }

  /** In a post-order list, a node that has `s[k]` as a recorded child
      comes after position `k`; replaying the list backwards therefore runs
      every consumer's rule before the rule of the node it consumes. */
  lemma ConsumerAfter(ops: seq<Op>, s: seq<nat>, k: nat, x: nat)
    requires PostOrdered(ops, s) && k < |s|
    requires x in s && s[k] in Prev(ops[x])
    ensures x in s[k + 1..]
  {
    var i :| 0 <= i < |s| && s[i] == x;
    assert s[k] in s[..i];
    var j :| 0 <= j < i && s[j] == s[k];
    assert j == k;
    assert s[i] in s[k + 1..];
  }
}
