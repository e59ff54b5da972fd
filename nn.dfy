/** The network layer built on the engine: neurons, layers and multi-layer
    perceptrons whose parameters are nodes of a tape, their forward pass,
    and the optimizer that updates parameters in place. The random initial
    values are a given sequence of draws, consumed in the order the
    source draws them. */
module Nn {
  import opened Graph
  import opened Rules
  import opened Engine

  /** A neuron: its weight nodes and its bias node. */
  datatype Neuron = Neuron(w: seq<nat>, b: nat)

  /** A layer: its neurons, in order. */
  datatype Layer = Layer(neurons: seq<Neuron>)

  /** A multi-layer perceptron: its layers, in order. */
  datatype Mlp = Mlp(layers: seq<Layer>)

  /** What calling a layer returns: the lone output node of a one-neuron
      layer, or otherwise the list of output nodes. */
  datatype Output = Single(v: nat) | Many(vs: seq<nat>)

  /** The same at the level of values. */
  datatype Act = One(x: real) | List(xs: seq<real>)

  /** The Python exceptions a call can raise. */
  datatype Failure = IndexError | TypeError

  datatype Result<T> = Ok(value: T) | Err(failure: Failure)

  // ---------------------------------------------------------------------
  // Parameters

  /** The node indices `lo, lo + 1, ..., lo + n - 1`. */
  function Range(lo: nat, n: nat): (r: seq<nat>)
    ensures |r| == n
    ensures forall i :: 0 <= i < n ==> r[i] == lo + i
  {
    if n == 0 then [] else Range(lo, n - 1) + [lo + n - 1]
  }

  /** Every listed node is a node of a tape of `n` nodes. */
  predicate ParamsIn(ps: seq<nat>, n: nat) {
    forall i :: 0 <= i < |ps| ==> ps[i] < n
  }

  /** `Neuron.parameters`: the weights, then the bias. */
  function NeuronParams(n: Neuron): (ps: seq<nat>)
    ensures |ps| == |n.w| + 1
  {
    n.w + [n.b]
  }

  /** The parameters of a list of neurons, flattened in neuron order. */
  function NeuronsParams(ns: seq<Neuron>): seq<nat>
    decreases |ns|
  {
    if ns == [] then [] else NeuronsParams(ns[..|ns| - 1]) + NeuronParams(ns[|ns| - 1])
  }

  /** `Layer.parameters`. */
  function LayerParams(l: Layer): seq<nat> {
    NeuronsParams(l.neurons)
  }

  /** The parameters of a list of layers, flattened in layer order. */
  function LayersParams(ls: seq<Layer>): seq<nat>
    decreases |ls|
  {
    if ls == [] then [] else LayersParams(ls[..|ls| - 1]) + LayerParams(ls[|ls| - 1])
  }

  /** `MLP.parameters`. */
  function MlpParams(m: Mlp): seq<nat> {
    LayersParams(m.layers)
  }

  /** The number of parameters of a layer of `nout` neurons with `nin`
      inputs each. */
  function LayerCount(nin: nat, nout: nat): nat {
    nout * (nin + 1)
  }

  /** The number of parameters of a perceptron with layer sizes `sz`:
      `sz[i+1] * (sz[i] + 1)` summed over consecutive sizes. */
  function ParamCount(sz: seq<nat>): nat
    decreases |sz|
  {
    if |sz| < 2 then 0 else ParamCount(sz[..|sz| - 1]) + LayerCount(sz[|sz| - 2], sz[|sz| - 1])
  }

  /** Every neuron of `ns` has `nin` weights. */
  ghost predicate NeuronsShaped(ns: seq<Neuron>, nin: nat) {
    forall j :: 0 <= j < |ns| ==> |ns[j].w| == nin
  }

  /** Layer `i` of `ls` has `sz[i+1]` neurons of `sz[i]` weights each. */
  ghost predicate LayersShaped(ls: seq<Layer>, sz: seq<nat>) {
    && |sz| == |ls| + 1
    && forall i :: 0 <= i < |ls| ==> |ls[i].neurons| == sz[i + 1] && NeuronsShaped(ls[i].neurons, sz[i])
  }

  /** A layer of `nout` neurons with `nin` weights each has
      `nout * (nin + 1)` parameters. */
  lemma {:induction false} LayerParamCount(ns: seq<Neuron>, nin: nat)
    requires NeuronsShaped(ns, nin)
    ensures |NeuronsParams(ns)| == LayerCount(nin, |ns|)
    decreases |ns|
  {
    if ns != [] {
      LayerParamCount(ns[..|ns| - 1], nin);
      assert |ns| * (nin + 1) == (|ns| - 1) * (nin + 1) + (nin + 1);
    }
  }

  /** A perceptron shaped by `sz` has `ParamCount(sz)` parameters. */
  lemma {:induction false} MlpParamCount(ls: seq<Layer>, sz: seq<nat>)
    requires LayersShaped(ls, sz)
    ensures |LayersParams(ls)| == ParamCount(sz)
    decreases |ls|
  {
    if ls != [] {
      var n := |ls|;
      assert LayersShaped(ls[..n - 1], sz[..n]);
      MlpParamCount(ls[..n - 1], sz[..n]);
      LayerParamCount(ls[n - 1].neurons, sz[n - 1]);
      assert sz[..n + 1][..n] == sz[..n];
      assert sz == sz[..n + 1];
    }
  }

  // ---------------------------------------------------------------------
  // Construction from given draws

  /** The nodes from `lo` on are fresh leaves holding `vals`, in order. */
  ghost predicate FreshLeaves(ops: seq<Op>, data: seq<real>, lo: nat, vals: seq<real>) {
    && lo + |vals| <= |ops| && |data| == |ops|
    && forall j :: lo <= j < lo + |vals| ==> ops[j] == Op.Leaf && data[j] == vals[j - lo]
  }

  /** Two runs of fresh leaves side by side form one run. */
  lemma FreshConcat(ops: seq<Op>, data: seq<real>, lo: nat, v1: seq<real>, v2: seq<real>)
    requires FreshLeaves(ops, data, lo, v1) && FreshLeaves(ops, data, lo + |v1|, v2)
    ensures FreshLeaves(ops, data, lo, v1 + v2)
  {
    forall j | lo <= j < lo + |v1 + v2|
      ensures ops[j] == Op.Leaf && data[j] == (v1 + v2)[j - lo]
    {
      if j >= lo + |v1| {
        assert data[j] == v2[j - (lo + |v1|)];
      }
    }
  }

  /** The leaves holding the first `c` draws, followed by leaves holding
      the next `k`, hold the first `c + k` draws. */
  lemma FreshAppend(ops: seq<Op>, data: seq<real>, lo: nat, draws: seq<real>, c: nat, k: nat)
    requires c + k <= |draws|
    requires FreshLeaves(ops, data, lo, draws[..c]) && FreshLeaves(ops, data, lo + c, draws[c..][..k])
    ensures FreshLeaves(ops, data, lo, draws[..c + k])
  {
    FreshConcat(ops, data, lo, draws[..c], draws[c..][..k]);
    assert draws[..c] + draws[c..][..k] == draws[..c + k];
  }

  /** Fresh leaves stay as they are while the tape grows. */
  lemma FreshKept(ops0: seq<Op>, data0: seq<real>, grads0: seq<real>, ops: seq<Op>, data: seq<real>, grads: seq<real>,
                  lo: nat, vals: seq<real>)
    requires FreshLeaves(ops0, data0, lo, vals)
    requires Grows(ops0, data0, grads0, ops, data, grads)
    ensures FreshLeaves(ops, data, lo, vals)
  {
    GrowsKeeps(ops0, data0, grads0, ops, data, grads);
  }

  /** Two consecutive ranges form one range. */
  lemma RangeConcat(lo: nat, m: nat, n: nat)
    ensures Range(lo, m) + Range(lo + m, n) == Range(lo, m + n)
  {
    var r := Range(lo, m) + Range(lo + m, n);
    forall i | 0 <= i < m + n
      ensures r[i] == Range(lo, m + n)[i]
    {
      if i >= m {
        assert r[i] == Range(lo + m, n)[i - m];
      }
    }
  }

  /** `Neuron.__init__` with the draws in place of `random.uniform(-1, 1)`:
      `nin` weight leaves, then the bias leaf, holding the first `nin + 1`
      draws in order. */
  method NewNeuron(t: Tape, nin: nat, draws: seq<real>) returns (n: Neuron)
    requires t.Valid() && nin + 1 <= |draws|
    modifies t
    ensures t.Valid() && t.Extends(old(t.ops), old(t.data), old(t.grads))
    ensures |t.ops| == old(|t.ops|) + nin + 1
    ensures |n.w| == nin && NeuronParams(n) == Range(old(|t.ops|), nin + 1)
    ensures FreshLeaves(t.ops, t.data, old(|t.ops|), draws[..nin + 1])
  {
    ghost var ops0, data0, grads0 := t.ops, t.data, t.grads;
    var lo := |t.ops|;
    var ws: seq<nat> := [];
    var i := 0;
    while i < nin
      invariant 0 <= i <= nin
      invariant t.Valid() && t.Extends(ops0, data0, grads0)
      invariant |t.ops| == lo + i
      invariant ws == Range(lo, i)
      invariant FreshLeaves(t.ops, t.data, lo, draws[..i])
    {
      ghost var ops1, data1, grads1 := t.ops, t.data, t.grads;
      var v := t.Leaf(draws[i]);
      GrowsTrans(ops0, data0, grads0, ops1, data1, grads1, t.ops, t.data, t.grads);
      FreshKept(ops1, data1, grads1, t.ops, t.data, t.grads, lo, draws[..i]);
      FreshConcat(t.ops, t.data, lo, draws[..i], [draws[i]]);
      assert draws[..i] + [draws[i]] == draws[..i + 1];
      ws := ws + [v];
      i := i + 1;
    }
    ghost var ops1, data1, grads1 := t.ops, t.data, t.grads;
    var b := t.Leaf(draws[nin]);
    GrowsTrans(ops0, data0, grads0, ops1, data1, grads1, t.ops, t.data, t.grads);
    FreshKept(ops1, data1, grads1, t.ops, t.data, t.grads, lo, draws[..nin]);
    FreshConcat(t.ops, t.data, lo, draws[..nin], [draws[nin]]);
    assert draws[..nin] + [draws[nin]] == draws[..nin + 1];
    n := Neuron(ws, b);
  }

  /** `Layer.__init__`: `nout` neurons built one after the other, each
      taking the next `nin + 1` draws. */
  method NewLayer(t: Tape, nin: nat, nout: nat, draws: seq<real>) returns (l: Layer)
    requires t.Valid() && LayerCount(nin, nout) <= |draws|
    modifies t
    ensures t.Valid() && t.Extends(old(t.ops), old(t.data), old(t.grads))
    ensures |t.ops| == old(|t.ops|) + LayerCount(nin, nout)
    ensures |l.neurons| == nout && NeuronsShaped(l.neurons, nin)
    ensures LayerParams(l) == Range(old(|t.ops|), LayerCount(nin, nout))
    ensures FreshLeaves(t.ops, t.data, old(|t.ops|), draws[..LayerCount(nin, nout)])
  {
    ghost var ops0, data0, grads0 := t.ops, t.data, t.grads;
    var lo := |t.ops|;
    var ns: seq<Neuron> := [];
    var j, c := 0, 0;
    while j < nout
      invariant 0 <= j <= nout && c == j * (nin + 1) && c <= |draws|
      invariant t.Valid() && t.Extends(ops0, data0, grads0)
      invariant |t.ops| == lo + c
      invariant |ns| == j && NeuronsShaped(ns, nin)
      invariant NeuronsParams(ns) == Range(lo, c)
      invariant FreshLeaves(t.ops, t.data, lo, draws[..c])
    {
      NextBlock(j, nout, nin + 1);
      assert c + nin + 1 <= LayerCount(nin, nout);
      ghost var ops1, data1, grads1 := t.ops, t.data, t.grads;
      var n := NewNeuron(t, nin, draws[c..]);
      GrowsTrans(ops0, data0, grads0, ops1, data1, grads1, t.ops, t.data, t.grads);
      FreshKept(ops1, data1, grads1, t.ops, t.data, t.grads, lo, draws[..c]);
      FreshAppend(t.ops, t.data, lo, draws, c, nin + 1);
      RangeConcat(lo, c, nin + 1);
      assert (ns + [n])[..|ns|] == ns;
      ns := ns + [n];
      j, c := j + 1, c + nin + 1;
    }
    l := Layer(ns);
  }

  /** The block after the `j`-th of `n` blocks of size `k` ends within
      the `n` blocks. */
  lemma NextBlock(j: nat, n: nat, k: nat)
    requires j < n
    ensures (j + 1) * k == j * k + k && (j + 1) * k <= n * k
  {
  }

  /** `MLP.__init__`: the sizes `[nin] + nouts` chain, layer `i` mapping
      `sz[i]` inputs to `sz[i+1]` outputs, built in order. */
  method NewMlp(t: Tape, nin: nat, nouts: seq<nat>, draws: seq<real>) returns (m: Mlp)
    requires t.Valid() && ParamCount([nin] + nouts) <= |draws|
    modifies t
    ensures t.Valid() && t.Extends(old(t.ops), old(t.data), old(t.grads))
    ensures |t.ops| == old(|t.ops|) + ParamCount([nin] + nouts)
    ensures LayersShaped(m.layers, [nin] + nouts)
    ensures MlpParams(m) == Range(old(|t.ops|), ParamCount([nin] + nouts))
    ensures FreshLeaves(t.ops, t.data, old(|t.ops|), draws[..ParamCount([nin] + nouts)])
  {
    ghost var ops0, data0, grads0 := t.ops, t.data, t.grads;
    var sz := [nin] + nouts;
    var lo := |t.ops|;
    var ls: seq<Layer> := [];
    var i, c := 0, 0;
    while i < |nouts|
      invariant 0 <= i <= |nouts| && c == ParamCount(sz[..i + 1])
      invariant t.Valid() && t.Extends(ops0, data0, grads0)
      invariant |t.ops| == lo + c
      invariant LayersShaped(ls, sz[..i + 1])
      invariant LayersParams(ls) == Range(lo, c)
      invariant c <= |draws| && FreshLeaves(t.ops, t.data, lo, draws[..c])
    {
      var l, c' := NextLayer(t, sz, i, c, draws, ops0, data0, grads0, ls, lo);
      ls := ls + [l];
      i, c := i + 1, c';
    }
    assert sz[..i + 1] == sz;
    m := Mlp(ls);
  }

  /** One pass of the comprehension in `MLP.__init__`: layer `i`, mapping
      `sz[i]` inputs to `sz[i+1]` outputs, built from the draws after the
      `c` already taken by the earlier layers. */
  method NextLayer(t: Tape, sz: seq<nat>, i: nat, c: nat, draws: seq<real>,
                   ghost ops0: seq<Op>, ghost data0: seq<real>, ghost grads0: seq<real>,
                   ghost ls: seq<Layer>, ghost lo: nat)
    returns (l: Layer, c': nat)
    requires i + 2 <= |sz| && c == ParamCount(sz[..i + 1]) && ParamCount(sz) <= |draws|
    requires t.Valid() && t.Extends(ops0, data0, grads0) && |t.ops| == lo + c
    requires LayersShaped(ls, sz[..i + 1]) && LayersParams(ls) == Range(lo, c)
    requires c <= |draws| && FreshLeaves(t.ops, t.data, lo, draws[..c])
    modifies t
    ensures c' == ParamCount(sz[..i + 2]) && c' <= |draws|
    ensures t.Valid() && t.Extends(ops0, data0, grads0) && |t.ops| == lo + c'
    ensures LayersShaped(ls + [l], sz[..i + 2]) && LayersParams(ls + [l]) == Range(lo, c')
    ensures FreshLeaves(t.ops, t.data, lo, draws[..c'])
  {
    var k := LayerCount(sz[i], sz[i + 1]);
    CountStep(sz, i);
    ghost var ops1, data1, grads1 := t.ops, t.data, t.grads;
    l := NewLayer(t, sz[i], sz[i + 1], draws[c..]);
    GrowsTrans(ops0, data0, grads0, ops1, data1, grads1, t.ops, t.data, t.grads);
    FreshKept(ops1, data1, grads1, t.ops, t.data, t.grads, lo, draws[..c]);
    FreshAppend(t.ops, t.data, lo, draws, c, k);
    ShapedStep(ls, l, sz, i, lo, c, k);
    c' := c + k;
  }

  /** Adding layer `i` to the sizes up to `i` adds its parameters. */
  lemma CountStep(sz: seq<nat>, i: nat)
    requires i + 2 <= |sz|
    ensures ParamCount(sz[..i + 2]) == ParamCount(sz[..i + 1]) + LayerCount(sz[i], sz[i + 1])
    ensures ParamCount(sz[..i + 2]) <= ParamCount(sz)
  {
    assert sz[..i + 2][..i + 1] == sz[..i + 1];
    ParamPrefix(sz, i + 2);
  }

  /** Appending a layer of the next shape keeps the layers shaped. */
  lemma ShapedStep(ls: seq<Layer>, l: Layer, sz: seq<nat>, i: nat, lo: nat, c: nat, k: nat)
    requires i + 2 <= |sz| && LayersShaped(ls, sz[..i + 1])
    requires |l.neurons| == sz[i + 1] && NeuronsShaped(l.neurons, sz[i])
    requires LayersParams(ls) == Range(lo, c) && LayerParams(l) == Range(lo + c, k)
    ensures LayersShaped(ls + [l], sz[..i + 2]) && LayersParams(ls + [l]) == Range(lo, c + k)
  {
    assert (ls + [l])[..|ls|] == ls;
    RangeConcat(lo, c, k);
  }

  /** The parameter count of a prefix of the sizes never exceeds the
      whole count. */
  lemma {:induction false} ParamPrefix(sz: seq<nat>, n: nat)
    requires n <= |sz|
    ensures ParamCount(sz[..n]) <= ParamCount(sz)
    decreases |sz| - n
  {
    if n < |sz| {
      ParamPrefix(sz, n + 1);
      assert sz[..n + 1][..n] == sz[..n];
    } else {
      assert sz[..n] == sz;
    }
  }

  // ---------------------------------------------------------------------
  // Forward pass

  /** The values held by the nodes `vs`. */
  function Vals(data: seq<real>, vs: seq<nat>): (r: seq<real>)
    requires ParamsIn(vs, |data|)
    ensures |r| == |vs|
    ensures forall i :: 0 <= i < |vs| ==> r[i] == data[vs[i]]
  {
    seq(|vs|, i requires 0 <= i < |vs| => data[vs[i]])
  }

  /** Every operand node is on a tape of `n` nodes. */
  predicate OperandsIn(xs: seq<Operand>, n: nat) {
    forall i :: 0 <= i < |xs| && xs[i].Node? ==> xs[i].i < n
  }

  /** The values the operands stand for. */
  function InVals(data: seq<real>, xs: seq<Operand>): (r: seq<real>)
    requires OperandsIn(xs, |data|)
    ensures |r| == |xs|
    ensures forall i :: 0 <= i < |xs| ==> r[i] == (if xs[i].Node? then data[xs[i].i] else xs[i].x)
  {
    seq(|xs|, i requires 0 <= i < |xs| => if xs[i].Node? then data[xs[i].i] else xs[i].x)
  }

  /** The nodes as operands of a further operation. */
  function AsOperands(vs: seq<nat>): (xs: seq<Operand>)
    ensures |xs| == |vs|
    ensures forall i :: 0 <= i < |vs| ==> xs[i] == Node(vs[i])
  {
    seq(|vs|, i requires 0 <= i < |vs| => Node(vs[i]))
  }

  /** The products `w * x` over `zip(ws, xs)`, which stops at the shorter
      of the two. This is a definition; its ensures only spell it out for
      callers. */
  function ZipProducts(ws: seq<real>, xs: seq<real>): (ps: seq<real>)
    ensures |ps| == if |ws| < |xs| then |ws| else |xs|
    ensures forall i :: 0 <= i < |ps| ==> ps[i] == ws[i] * xs[i]
  {
    var k := if |ws| < |xs| then |ws| else |xs|;
    seq(k, i requires 0 <= i < k => ws[i] * xs[i])
  }

  /** `sum(ps, b)`: `b`, then each element added on the right in turn. */
  function SumStart(b: real, ps: seq<real>): real
    decreases |ps|
  {
    if ps == [] then b else SumStart(b, ps[..|ps| - 1]) + ps[|ps| - 1]
  }

  /** A neuron's output `tanh(b + w_0 x_0 + w_1 x_1 + ...)`. */
  function NeuronOut(exp: PosFn, b: real, ws: seq<real>, xs: seq<real>): (y: real)
    ensures -1.0 < y < 1.0
  {
    TanhExp(exp, SumStart(b, ZipProducts(ws, xs)))
  }

  /** The start value of `sum` is added once to the plain sum. */
  lemma {:induction false} SumStartShift(b: real, ps: seq<real>)
    ensures SumStart(b, ps) == b + SumStart(0.0, ps)
    decreases |ps|
  {
    if ps != [] {
      SumStartShift(b, ps[..|ps| - 1]);
    }
  }

  /** Inputs beyond the number of weights are ignored (`zip` truncates). */
  lemma ZipIgnoresExtra(exp: PosFn, b: real, ws: seq<real>, xs: seq<real>)
    requires |ws| <= |xs|
    ensures NeuronOut(exp, b, ws, xs) == NeuronOut(exp, b, ws, xs[..|ws|])
  {
    var p1, p2 := ZipProducts(ws, xs), ZipProducts(ws, xs[..|ws|]);
    assert |p1| == |p2|;
    forall i | 0 <= i < |p1|
      ensures p1[i] == p2[i]
    {
      Rescale(ws[i], ws[i], xs[i], xs[..|ws|][i]);
    }
    assert p1 == p2;
  }

  /** A neuron with no inputs (or no weights) outputs `tanh(b)`. */
  lemma NeuronNoInputs(exp: PosFn, b: real, ws: seq<real>)
    ensures NeuronOut(exp, b, ws, []) == TanhExp(exp, b)
  {
  }

  /** Every node of the neuron is on a tape of `n` nodes. */
  predicate NeuronIn(nr: Neuron, n: nat) {
    nr.b < n && ParamsIn(nr.w, n)
  }

  /** The value of a neuron on inputs `xs`, its parameters read from `data`. */
  function NeuronEval(exp: PosFn, data: seq<real>, nr: Neuron, xs: seq<real>): real
    requires NeuronIn(nr, |data|)
  {
    NeuronOut(exp, data[nr.b], Vals(data, nr.w), xs)
  }

  /** The tape kept every value below `n`. */
  ghost predicate KeptBelow(data0: seq<real>, data: seq<real>) {
    |data0| <= |data| && forall i :: 0 <= i < |data0| ==> data[i] == data0[i]
  }

  /** The nodes `vs` hold the values `vals`, in order. */
  ghost predicate Holds(data: seq<real>, vs: seq<nat>, vals: seq<real>) {
    |vs| == |vals| && forall j :: 0 <= j < |vs| ==> vs[j] < |data| && data[vs[j]] == vals[j]
  }

  /** What nodes hold stays true while the tape grows. */
  lemma HoldsKept(data0: seq<real>, data: seq<real>, vs: seq<nat>, vals: seq<real>)
    requires Holds(data0, vs, vals) && KeptBelow(data0, data)
    ensures Holds(data, vs, vals)
  {
  }

  /** Nodes holding `vals` have exactly those values. */
  lemma HoldsVals(data: seq<real>, vs: seq<nat>, vals: seq<real>)
    requires Holds(data, vs, vals)
    ensures ParamsIn(vs, |data|) && Vals(data, vs) == vals
  {
  }

  /** Growing a prefix by the next element. */
  lemma SliceSnoc<T>(s: seq<T>, j: nat)
    requires j < |s|
    ensures s[..j] + [s[j]] == s[..j + 1]
  {
  }

  /** One more node holding the next value. */
  lemma HoldsSnoc(data: seq<real>, vs: seq<nat>, vals: seq<real>, v: nat, x: real)
    requires Holds(data, vs, vals) && v < |data| && data[v] == x
    ensures Holds(data, vs + [v], vals + [x])
  {
  }

  /** The tape's values before a growth are kept by it. */
  lemma GrowsKept(ops0: seq<Op>, data0: seq<real>, grads0: seq<real>, ops: seq<Op>, data: seq<real>, grads: seq<real>)
    requires Grows(ops0, data0, grads0, ops, data, grads)
    ensures KeptBelow(data0, data)
  {
    GrowsKeeps(ops0, data0, grads0, ops, data, grads);
  }

  /** The product built from kept values is the `i`-th zipped product. */
  lemma ProductValue(data0: seq<real>, data: seq<real>, ws: seq<nat>, xs: seq<Operand>, i: nat, w: real, x: real)
    requires KeptBelow(data0, data) && ParamsIn(ws, |data0|) && OperandsIn(xs, |data0|)
    requires i < |ws| && i < |xs|
    requires w == data[ws[i]] && x == (if xs[i].Node? then data[xs[i].i] else xs[i].x)
    ensures w * x == ZipProducts(Vals(data0, ws), InVals(data0, xs))[i]
  {
    Rescale(w, Vals(data0, ws)[i], x, InVals(data0, xs)[i]);
  }

  /** Node `v`, built at or after position `n0`, is the product `w * x`:
      a multiplication of the weight node `w` and the input node, or of `w`
      and a new leaf holding the number input, built just before `v`. */
  ghost predicate ProductNode(ops: seq<Op>, data: seq<real>, n0: nat, v: nat, w: nat, x: Operand) {
    && n0 <= v < |ops| && |data| == |ops|
    && ops[v].Mul? && ops[v].a == w
    && (x.Node? ==> ops[v].b == x.i)
    && (x.Num? ==> n0 < v && ops[v].b == v - 1 && ops[v - 1] == Op.Leaf && data[v - 1] == x.x)
  }

  /** A product node stays one while the tape grows. */
  lemma ProductNodeKept(ops0: seq<Op>, data0: seq<real>, grads0: seq<real>, ops: seq<Op>, data: seq<real>, grads: seq<real>,
                        n0: nat, v: nat, w: nat, x: Operand)
    requires Grows(ops0, data0, grads0, ops, data, grads)
    requires ProductNode(ops0, data0, n0, v, w, x)
    ensures ProductNode(ops, data, n0, v, w, x)
  {
    assert ops[v] == ops0[v];
    if x.Num? {
      assert ops[v - 1] == ops0[v - 1] && data[v - 1] == data0[v - 1];
    }
  }

  /** The products `w * x` over `zip(ws, xs)`, one new node each, in order
      (a number input first becomes a leaf of its own). */
  method Products(t: Tape, ws: seq<nat>, xs: seq<Operand>) returns (prods: seq<nat>)
    requires t.Valid() && ParamsIn(ws, |t.ops|) && OperandsIn(xs, |t.ops|)
    modifies t
    ensures t.Valid() && t.Extends(old(t.ops), old(t.data), old(t.grads))
    ensures Holds(t.data, prods, ZipProducts(Vals(old(t.data), ws), InVals(old(t.data), xs)))
    ensures |prods| == if |ws| < |xs| then |ws| else |xs|
    ensures forall j :: 0 <= j < |prods| ==> ProductNode(t.ops, t.data, old(|t.ops|), prods[j], ws[j], xs[j])
  {
    ghost var ops0, data0, grads0 := t.ops, t.data, t.grads;
    ghost var ps := ZipProducts(Vals(data0, ws), InVals(data0, xs));
    var k := if |ws| < |xs| then |ws| else |xs|;
    prods := [];
    var i := 0;
    while i < k
      invariant 0 <= i <= k
      invariant t.Valid() && t.Extends(ops0, data0, grads0)
      invariant Holds(t.data, prods, ps[..i])
      invariant |prods| == i
      invariant forall j :: 0 <= j < i ==> ProductNode(t.ops, t.data, |ops0|, prods[j], ws[j], xs[j])
    {
      GrowsKept(ops0, data0, grads0, t.ops, t.data, t.grads);
      ghost var ops1, data1, grads1 := t.ops, t.data, t.grads;
      var v := t.Mul(ws[i], xs[i]);
      forall j | 0 <= j < i
        ensures ProductNode(t.ops, t.data, |ops0|, prods[j], ws[j], xs[j])
      {
        ProductNodeKept(ops1, data1, grads1, t.ops, t.data, t.grads, |ops0|, prods[j], ws[j], xs[j]);
      }
      ProductValue(data0, data1, ws, xs, i, data1[ws[i]], if xs[i].Node? then data1[xs[i].i] else xs[i].x);
      GrowsTrans(ops0, data0, grads0, ops1, data1, grads1, t.ops, t.data, t.grads);
      GrowsKept(ops1, data1, grads1, t.ops, t.data, t.grads);
      HoldsKept(data1, t.data, prods, ps[..i]);
      HoldsSnoc(t.data, prods, ps[..i], v, ps[i]);
      SliceSnoc(ps, i);
      prods := prods + [v];
      i := i + 1;
    }
    assert ps[..k] == ps;
  }

  /** `sum(prods, b)`: `b + p_0`, then `+ p_1`, and so on, one new node per
      addition; with no products, the node `b` itself. */
  method SumNodes(t: Tape, b: nat, prods: seq<nat>, ghost ps: seq<real>) returns (acc: nat)
    requires t.Valid() && b < |t.ops| && Holds(t.data, prods, ps)
    modifies t
    ensures t.Valid() && t.Extends(old(t.ops), old(t.data), old(t.grads))
    ensures acc < |t.ops| && t.data[acc] == SumStart(old(t.data[b]), ps)
    ensures |prods| == 0 ==> acc == b
    ensures |prods| > 0 ==> old(|t.ops|) <= acc && t.ops[acc].Add? && t.ops[acc].b == prods[|prods| - 1]
    ensures Reach(t.ops, b) <= Reach(t.ops, acc)
    ensures forall j :: 0 <= j < |prods| ==> prods[j] < |t.ops| && Reach(t.ops, prods[j]) <= Reach(t.ops, acc)
  {
    ghost var ops0, data0, grads0 := t.ops, t.data, t.grads;
    acc := b;
    var i := 0;
    while i < |prods|
      invariant 0 <= i <= |prods|
      invariant t.Valid() && t.Extends(ops0, data0, grads0)
      invariant Holds(t.data, prods, ps)
      invariant acc < |t.ops| && t.data[acc] == SumStart(data0[b], ps[..i])
      invariant i == 0 ==> acc == b
      invariant i > 0 ==> |ops0| <= acc && t.ops[acc].Add? && t.ops[acc].b == prods[i - 1]
      invariant Reach(t.ops, b) <= Reach(t.ops, acc)
      invariant forall j :: 0 <= j < i ==> Reach(t.ops, prods[j]) <= Reach(t.ops, acc)
    {
      ghost var ops1, data1, grads1 := t.ops, t.data, t.grads;
      var s := t.Add(acc, Node(prods[i]));
      ReachKept(ops1, t.ops, acc);
      ReachKept(ops1, t.ops, b);
      ReachKept(ops1, t.ops, prods[i]);
      forall j | 0 <= j < i
        ensures Reach(t.ops, prods[j]) <= Reach(t.ops, s)
      {
        ReachKept(ops1, t.ops, prods[j]);
      }
      GrowsTrans(ops0, data0, grads0, ops1, data1, grads1, t.ops, t.data, t.grads);
      GrowsKept(ops1, data1, grads1, t.ops, t.data, t.grads);
      HoldsKept(data1, t.data, prods, ps);
      assert ps[..i + 1][..i] == ps[..i];
      acc := s;
      i := i + 1;
    }
    assert ps[..i] == ps;
  }

  /** The traversal from `v` reaches the bias, every weight zipped with an
      input, and every input node so zipped. */
  ghost predicate ReachesNeuron(ops: seq<Op>, nr: Neuron, xs: seq<Operand>, v: nat)
    requires WellFormed(ops) && v < |ops|
  {
    && nr.b in Reach(ops, v)
    && (forall j :: 0 <= j < |nr.w| && j < |xs| ==> nr.w[j] in Reach(ops, v))
    && (forall j :: 0 <= j < |nr.w| && j < |xs| && xs[j].Node? ==> xs[j].i in Reach(ops, v))
  }

  /** The weighted sum inside `Neuron.__call__`: the products `w * x` in
      order, then their sum started at the bias. */
  method WeightedSum(t: Tape, nr: Neuron, xs: seq<Operand>) returns (acc: nat)
    requires t.Valid() && NeuronIn(nr, |t.ops|) && OperandsIn(xs, |t.ops|)
    modifies t
    ensures t.Valid() && t.Extends(old(t.ops), old(t.data), old(t.grads))
    ensures acc < |t.ops|
    ensures t.data[acc] == SumStart(old(t.data[nr.b]), ZipProducts(Vals(old(t.data), nr.w), InVals(old(t.data), xs)))
    ensures (|nr.w| == 0 || |xs| == 0) ==> acc == nr.b
    ensures ReachesNeuron(t.ops, nr, xs, acc)
  {
    ghost var ops0, data0, grads0 := t.ops, t.data, t.grads;
    ghost var ps := ZipProducts(Vals(data0, nr.w), InVals(data0, xs));
    var prods := Products(t, nr.w, xs);
    GrowsKept(ops0, data0, grads0, t.ops, t.data, t.grads);
    ghost var ops1, data1, grads1 := t.ops, t.data, t.grads;
    acc := SumNodes(t, nr.b, prods, ps);
    GrowsTrans(ops0, data0, grads0, ops1, data1, grads1, t.ops, t.data, t.grads);
    forall j | 0 <= j < |nr.w| && j < |xs|
      ensures nr.w[j] in Reach(t.ops, acc) && (xs[j].Node? ==> xs[j].i in Reach(t.ops, acc))
    {
      ProductNodeKept(ops1, data1, grads1, t.ops, t.data, t.grads, |ops0|, prods[j], nr.w[j], xs[j]);
      assert t.ops[prods[j]].a in Operands(t.ops[prods[j]]);
      assert nr.w[j] in Reach(t.ops, prods[j]);
    }
  }

  /** `Neuron.__call__`: `tanh` of the weighted sum. */
  method NeuronCall(t: Tape, nr: Neuron, xs: seq<Operand>, exp: PosFn) returns (y: nat)
    requires t.Valid() && NeuronIn(nr, |t.ops|) && OperandsIn(xs, |t.ops|)
    modifies t
    ensures t.Valid() && t.Extends(old(t.ops), old(t.data), old(t.grads))
    ensures old(|t.ops|) <= y < |t.ops| && t.ops[y].Tanh?
    ensures t.data[y] == NeuronEval(exp, old(t.data), nr, InVals(old(t.data), xs))
    ensures (|nr.w| == 0 || |xs| == 0) ==> t.ops[y] == Op.Tanh(nr.b)
    ensures ReachesNeuron(t.ops, nr, xs, y)
  {
    ghost var ops0, data0, grads0 := t.ops, t.data, t.grads;
    var acc := WeightedSum(t, nr, xs);
    ghost var ops1, data1, grads1 := t.ops, t.data, t.grads;
    y := t.Tanh(acc, exp);
    GrowsTrans(ops0, data0, grads0, ops1, data1, grads1, t.ops, t.data, t.grads);
    ReachKept(ops1, t.ops, acc);
    assert Reach(t.ops, acc) <= Reach(t.ops, y);
  }

  /** The values of the neurons `ns` on inputs `xs`, in order. */
  function LayerEval(exp: PosFn, data: seq<real>, ns: seq<Neuron>, xs: seq<real>): (ys: seq<real>)
    requires forall j :: 0 <= j < |ns| ==> NeuronIn(ns[j], |data|)
    ensures |ys| == |ns|
    ensures forall j :: 0 <= j < |ns| ==> ys[j] == NeuronEval(exp, data, ns[j], xs)
    decreases |ns|
  {
    if ns == [] then [] else LayerEval(exp, data, ns[..|ns| - 1], xs) + [NeuronEval(exp, data, ns[|ns| - 1], xs)]
  }

  /** The shape `Layer.__call__` gives its outputs: one value on its own,
      any other number as a list. This is a definition; its ensures only
      spell it out for callers. */
  function Shape(ys: seq<real>): (a: Act)
    ensures a.One? <==> |ys| == 1
    ensures a.One? ==> a.x == ys[0]
    ensures a.List? ==> a.xs == ys
  {
    if |ys| == 1 then One(ys[0]) else List(ys)
  }

  /** The values of an output. */
  function OutVals(data: seq<real>, out: Output): Act
    requires out.Single? ==> out.v < |data|
    requires out.Many? ==> forall i :: 0 <= i < |out.vs| ==> out.vs[i] < |data|
  {
    match out
    case Single(v) => One(data[v])
    case Many(vs) => List(Vals(data, vs))
  }

  /** Every node of the output is on a tape of `n` nodes. */
  predicate OutputIn(out: Output, n: nat) {
    match out
    case Single(v) => v < n
    case Many(vs) => forall i :: 0 <= i < |vs| ==> vs[i] < n
  }

  /** Every parameter node of the layer is on a tape of `n` nodes. */
  predicate LayerIn(l: Layer, n: nat) {
    forall j :: 0 <= j < |l.neurons| ==> NeuronIn(l.neurons[j], n)
  }

  /** Neuron values only read the parameters, which a growing tape keeps. */
  lemma NeuronEvalKept(exp: PosFn, data0: seq<real>, data: seq<real>, nr: Neuron, xs: seq<real>)
    requires KeptBelow(data0, data) && NeuronIn(nr, |data0|)
    ensures NeuronEval(exp, data, nr, xs) == NeuronEval(exp, data0, nr, xs)
  {
    assert Vals(data, nr.w) == Vals(data0, nr.w);
  }

  /** Operand values are read from nodes a growing tape keeps. */
  lemma InValsKept(data0: seq<real>, data: seq<real>, xs: seq<Operand>)
    requires KeptBelow(data0, data) && OperandsIn(xs, |data0|)
    ensures InVals(data, xs) == InVals(data0, xs)
  {
  }

  /** A neuron called on a grown tape computes what it would have
      computed before the growth. */
  lemma CallKept(exp: PosFn, data0: seq<real>, data: seq<real>, nr: Neuron, xs: seq<Operand>)
    requires KeptBelow(data0, data) && NeuronIn(nr, |data0|) && OperandsIn(xs, |data0|)
    ensures NeuronEval(exp, data, nr, InVals(data, xs)) == NeuronEval(exp, data0, nr, InVals(data0, xs))
  {
    InValsKept(data0, data, xs);
    NeuronEvalKept(exp, data0, data, nr, InVals(data0, xs));
  }

  /** `Layer.__call__`: every neuron called on the same inputs, in order;
      a single output is returned on its own. */
  method LayerCall(t: Tape, l: Layer, xs: seq<Operand>, exp: PosFn) returns (out: Output)
    requires t.Valid() && LayerIn(l, |t.ops|) && OperandsIn(xs, |t.ops|)
    modifies t
    ensures t.Valid() && t.Extends(old(t.ops), old(t.data), old(t.grads))
    ensures OutputIn(out, |t.ops|)
    ensures OutVals(t.data, out) == Shape(LayerEval(exp, old(t.data), l.neurons, InVals(old(t.data), xs)))
  {
    ghost var ops0, data0, grads0 := t.ops, t.data, t.grads;
    ghost var ys := LayerEval(exp, data0, l.neurons, InVals(data0, xs));
    var outs: seq<nat> := [];
    var j := 0;
    while j < |l.neurons|
      invariant 0 <= j <= |l.neurons|
      invariant t.Valid() && t.Extends(ops0, data0, grads0)
      invariant Holds(t.data, outs, ys[..j])
    {
      GrowsKept(ops0, data0, grads0, t.ops, t.data, t.grads);
      CallKept(exp, data0, t.data, l.neurons[j], xs);
      ghost var ops1, data1, grads1 := t.ops, t.data, t.grads;
      var y := NeuronCall(t, l.neurons[j], xs, exp);
      GrowsTrans(ops0, data0, grads0, ops1, data1, grads1, t.ops, t.data, t.grads);
      GrowsKept(ops1, data1, grads1, t.ops, t.data, t.grads);
      HoldsKept(data1, t.data, outs, ys[..j]);
      HoldsSnoc(t.data, outs, ys[..j], y, ys[j]);
      SliceSnoc(ys, j);
      outs := outs + [y];
      j := j + 1;
    }
    assert ys[..j] == ys;
    HoldsVals(t.data, outs, ys);
    if |outs| == 1 {
      out := Single(outs[0]);
    } else {
      out := Many(outs);
    }
  }

  /** One later layer applied to the previous layer's result. A lone value
      cannot be zipped with the weights (`TypeError`), unless the layer
      has no neuron to zip it with. */
  function Feed(exp: PosFn, data: seq<real>, l: Layer, input: Act): (r: Result<Act>)
    requires LayerIn(l, |data|)
    ensures input.One? ==> (r.Err? <==> |l.neurons| > 0)
    ensures r.Err? ==> r.failure == TypeError
  {
    match input
    case One(_) => if |l.neurons| == 0 then Ok(List([])) else Err(TypeError)
    case List(xs) => Ok(Shape(LayerEval(exp, data, l.neurons, xs)))
  }

  /** The rest of a run: layers `i..` applied in turn to `a`, index order;
      the first failure ends the run. */
  function Through(exp: PosFn, data: seq<real>, ls: seq<Layer>, i: nat, a: Act): (r: Result<Act>)
    requires i <= |ls| && LayersIn(ls, |data|)
    ensures r.Err? ==> r.failure == TypeError
    decreases |ls| - i
  {
    if i == |ls| then Ok(a)
    else
      match Feed(exp, data, ls[i], a)
      case Err(e) => Err(e)
      case Ok(b) => Through(exp, data, ls, i + 1, b)
  }

  /** Every parameter node of the layers is on a tape of `n` nodes. */
  predicate LayersIn(ls: seq<Layer>, n: nat) {
    forall i :: 0 <= i < |ls| ==> LayerIn(ls[i], n)
  }

  /** Every parameter node of the perceptron is on a tape of `n` nodes. */
  predicate MlpIn(m: Mlp, n: nat) {
    LayersIn(m.layers, n)
  }

  /** The value of `MLP.__call__`: no layers raise `IndexError` (the
      source reads `self.layers[0]`); otherwise every layer in turn. */
  function MlpEval(exp: PosFn, data: seq<real>, m: Mlp, xs: seq<real>): (r: Result<Act>)
    requires MlpIn(m, |data|)
    ensures r == Err(IndexError) <==> |m.layers| == 0
    ensures r.Err? ==> r.failure == IndexError || r.failure == TypeError
  {
    if |m.layers| == 0 then Err(IndexError) else Through(exp, data, m.layers, 0, List(xs))
  }

  /** Layers whose hidden ones all have other than one neuron, fed a
      list, never fail; the result is a lone value exactly when the last
      layer has one neuron. */
  lemma {:induction false} ThroughOk(exp: PosFn, data: seq<real>, ls: seq<Layer>, i: nat, a: Act)
    requires i <= |ls| && LayersIn(ls, |data|) && (a.List? || i == |ls|)
    requires forall j :: i <= j && j + 1 < |ls| ==> |ls[j].neurons| != 1
    ensures Through(exp, data, ls, i, a).Ok?
    ensures i < |ls| ==> (Through(exp, data, ls, i, a).value.One? <==> |ls[|ls| - 1].neurons| == 1)
    decreases |ls| - i
  {
    if i < |ls| {
      var b := Shape(LayerEval(exp, data, ls[i].neurons, a.xs));
      assert Feed(exp, data, ls[i], a) == Ok(b);
      ThroughOk(exp, data, ls, i + 1, b);
    }
  }

  /** From any point up to a one-neuron layer `k` followed by a layer
      with neurons, the run fails with `TypeError`: either earlier, or at
      layer `k` when a lone value reaches it, or at layer `k + 1`, which
      cannot zip the lone value layer `k` hands it. */
  lemma {:induction false} ThroughFails(exp: PosFn, data: seq<real>, ls: seq<Layer>, i: nat, a: Act, k: nat)
    requires LayersIn(ls, |data|) && i <= k && k + 1 < |ls|
    requires |ls[k].neurons| == 1 && |ls[k + 1].neurons| > 0
    ensures Through(exp, data, ls, i, a) == Err(TypeError)
    decreases k - i
  {
    match Feed(exp, data, ls[i], a)
    case Err(e) =>
    case Ok(b) =>
      if i < k {
        ThroughFails(exp, data, ls, i + 1, b, k);
      } else {
        assert b.One?;
        assert Feed(exp, data, ls[k + 1], b) == Err(TypeError);
      }
  }

  /** A hidden layer of one neuron hands a lone value to the next layer,
      which fails to zip it with its weights: the whole call fails with
      `TypeError` whenever that next layer has neurons. */
  lemma HiddenSingleFails(exp: PosFn, data: seq<real>, m: Mlp, xs: seq<real>, k: nat)
    requires MlpIn(m, |data|) && k + 1 < |m.layers|
    requires |m.layers[k].neurons| == 1 && |m.layers[k + 1].neurons| > 0
    ensures MlpEval(exp, data, m, xs) == Err(TypeError)
  {
    ThroughFails(exp, data, m.layers, 0, List(xs), k);
  }

  /** The values of a call's result. */
  function ResultVals(data: seq<real>, r: Result<Output>): Result<Act>
    requires r.Ok? ==> OutputIn(r.value, |data|)
  {
    match r
    case Err(e) => Err(e)
    case Ok(out) => Ok(OutVals(data, out))
  }

  /** The values of an output, read as the operands of the next layer. */
  lemma OutputAsOperands(data: seq<real>, vs: seq<nat>)
    requires forall i :: 0 <= i < |vs| ==> vs[i] < |data|
    ensures OperandsIn(AsOperands(vs), |data|)
    ensures InVals(data, AsOperands(vs)) == Vals(data, vs)
  {
  }

  /** A layer's values only read its parameters, which a growing tape
      keeps. */
  lemma FeedKept(exp: PosFn, data0: seq<real>, data: seq<real>, l: Layer, a: Act)
    requires KeptBelow(data0, data) && LayerIn(l, |data0|)
    ensures Feed(exp, data, l, a) == Feed(exp, data0, l, a)
  {
    if a.List? {
      var y1, y0 := LayerEval(exp, data, l.neurons, a.xs), LayerEval(exp, data0, l.neurons, a.xs);
      forall j | 0 <= j < |l.neurons|
        ensures y1[j] == y0[j]
      {
        NeuronEvalKept(exp, data0, data, l.neurons[j], a.xs);
      }
      assert y1 == y0;
    }
  }

  /** A later layer called on the previous layer's output: a lone node
      cannot be zipped with the weights unless there are no neurons. */
  method FeedCall(t: Tape, l: Layer, out: Output, exp: PosFn) returns (r: Result<Output>)
    requires t.Valid() && LayerIn(l, |t.ops|) && OutputIn(out, |t.ops|)
    modifies t
    ensures t.Valid() && t.Extends(old(t.ops), old(t.data), old(t.grads))
    ensures r.Ok? ==> OutputIn(r.value, |t.ops|)
    ensures ResultVals(t.data, r) == Feed(exp, old(t.data), l, OutVals(old(t.data), out))
  {
    match out {
      case Single(v) =>
        if |l.neurons| == 0 {
          r := Ok(Many([]));
        } else {
          r := Err(TypeError);
        }
      case Many(vs) =>
        OutputAsOperands(t.data, vs);
        var o := LayerCall(t, l, AsOperands(vs), exp);
        r := Ok(o);
    }
  }

  /** One pass of the loop in `MLP.__call__`: layer `idx` on the output so
      far, `a` being its values. A failure is the result of the rest of the
      run; otherwise the rest of the run goes on from the new output. */
  method Advance(t: Tape, ls: seq<Layer>, idx: nat, out: Output, exp: PosFn, ghost data0: seq<real>, ghost a: Act)
    returns (next: Result<Output>)
    requires t.Valid() && idx < |ls| && LayersIn(ls, |data0|) && KeptBelow(data0, t.data)
    requires OutputIn(out, |t.ops|) && a == OutVals(t.data, out)
    modifies t
    ensures t.Valid() && t.Extends(old(t.ops), old(t.data), old(t.grads))
    ensures next.Ok? ==> OutputIn(next.value, |t.ops|)
    ensures next.Err? ==> Through(exp, data0, ls, idx, a) == ResultVals(t.data, next)
    ensures next.Ok? ==> Through(exp, data0, ls, idx, a) == Through(exp, data0, ls, idx + 1, OutVals(t.data, next.value))
  {
    FeedKept(exp, data0, t.data, ls[idx], a);
    next := FeedCall(t, ls[idx], out, exp);
  }

  /** `MLP.__call__`: layer 0 on the inputs, then each later layer on the
      previous layer's output, in index order. */
  method MlpCall(t: Tape, m: Mlp, xs: seq<Operand>, exp: PosFn) returns (r: Result<Output>)
    requires t.Valid() && MlpIn(m, |t.ops|) && OperandsIn(xs, |t.ops|)
    modifies t
    ensures t.Valid() && t.Extends(old(t.ops), old(t.data), old(t.grads))
    ensures r.Ok? ==> OutputIn(r.value, |t.ops|)
    ensures ResultVals(t.data, r) == MlpEval(exp, old(t.data), m, InVals(old(t.data), xs))
  {
    if |m.layers| == 0 {
      return Err(IndexError);
    }
    ghost var ops0, data0, grads0 := t.ops, t.data, t.grads;
    ghost var xv := InVals(data0, xs);
    var out := LayerCall(t, m.layers[0], xs, exp);
    assert Feed(exp, data0, m.layers[0], List(xv)) == Ok(OutVals(t.data, out));
    var idx := 1;
    while idx < |m.layers|
      invariant 1 <= idx <= |m.layers|
      invariant t.Valid() && t.Extends(ops0, data0, grads0)
      invariant OutputIn(out, |t.ops|)
      invariant MlpEval(exp, data0, m, xv) == Through(exp, data0, m.layers, idx, OutVals(t.data, out))
    {
      GrowsKept(ops0, data0, grads0, t.ops, t.data, t.grads);
      ghost var ops1, data1, grads1 := t.ops, t.data, t.grads;
      var next := Advance(t, m.layers, idx, out, exp, data0, OutVals(t.data, out));
      GrowsTrans(ops0, data0, grads0, ops1, data1, grads1, t.ops, t.data, t.grads);
      if next.Err? {
        return next;
      }
      out := next.value;
      idx := idx + 1;
    }
    r := Ok(out);
  }

  // ---------------------------------------------------------------------
  // Optimizer

  /** The values after `p.data -= lr * p.grad` for each `p` of `ps` in
      turn; a parameter listed twice is updated twice. */
  function Descend(data: seq<real>, grads: seq<real>, ps: seq<nat>, lr: real): (r: seq<real>)
    requires |grads| == |data| && ParamsIn(ps, |data|)
    ensures |r| == |data|
    decreases |ps|
  {
    if ps == [] then data
    else
      var d := Descend(data, grads, ps[..|ps| - 1], lr);
      var p := ps[|ps| - 1];
      d[p := d[p] - lr * grads[p]]
  }

  /** The gradients after `p.grad = 0.0` for each `p` of `ps`. */
  function ZeroAt(grads: seq<real>, ps: seq<nat>): (r: seq<real>)
    requires ParamsIn(ps, |grads|)
    ensures |r| == |grads|
    decreases |ps|
  {
    if ps == [] then grads
    else
      var g := ZeroAt(grads, ps[..|ps| - 1]);
      g[ps[|ps| - 1] := 0.0]
  }

  /** How many times `i` is listed in `ps`. */
  function Count(ps: seq<nat>, i: nat): nat
    decreases |ps|
  {
    if ps == [] then 0 else Count(ps[..|ps| - 1], i) + (if ps[|ps| - 1] == i then 1 else 0)
  }

  /** `q` added up `n` times. */
  function Times(n: nat, q: real): real {
    if n == 0 then 0.0 else Times(n - 1, q) + q
  }

  /** Adding `q` up `n` times is multiplying it by `n`. */
  lemma {:induction false} TimesProduct(n: nat, q: real)
    ensures Times(n, q) == (n as real) * q
  {
    if n > 0 {
      TimesProduct(n - 1, q);
      assert (n as real) * q == ((n - 1) as real) * q + q;
    }
  }

  /** A step subtracts `lr * grad` from a node once per time it is listed. */
  lemma {:induction false} DescendTimes(data: seq<real>, grads: seq<real>, ps: seq<nat>, lr: real, i: nat)
    requires |grads| == |data| && ParamsIn(ps, |data|) && i < |data|
    ensures Descend(data, grads, ps, lr)[i] == data[i] - Times(Count(ps, i), lr * grads[i])
    decreases |ps|
  {
    if ps != [] {
      DescendTimes(data, grads, ps[..|ps| - 1], lr, i);
    }
  }

  /** A step moves each node against its gradient by its multiplicity in
      the list times `lr * grad`, and leaves every unlisted node alone. */
  lemma DescendEach(data: seq<real>, grads: seq<real>, ps: seq<nat>, lr: real, i: nat)
    requires |grads| == |data| && ParamsIn(ps, |data|) && i < |data|
    ensures Descend(data, grads, ps, lr)[i] == data[i] - (Count(ps, i) as real) * lr * grads[i]
  {
    DescendTimes(data, grads, ps, lr, i);
    TimesProduct(Count(ps, i), lr * grads[i]);
    assert (Count(ps, i) as real) * (lr * grads[i]) == (Count(ps, i) as real) * lr * grads[i];
  }

  /** A node listed once counts once, and an unlisted node not at all. */
  lemma {:induction false} CountNoDup(ps: seq<nat>, i: nat)
    requires NoDup(ps)
    ensures Count(ps, i) == if i in ps then 1 else 0
    decreases |ps|
  {
    if ps != [] {
      var init := ps[..|ps| - 1];
      assert ps == init + [ps[|ps| - 1]];
      assert NoDup(init);
      CountNoDup(init, i);
    }
  }

  /** With every parameter listed once, a step is plain gradient descent
      on the parameters and the identity elsewhere. */
  lemma DescendOnce(data: seq<real>, grads: seq<real>, ps: seq<nat>, lr: real, i: nat)
    requires |grads| == |data| && ParamsIn(ps, |data|) && i < |data|
    requires NoDup(ps)
    ensures i in ps ==> Descend(data, grads, ps, lr)[i] == data[i] - lr * grads[i]
    ensures i !in ps ==> Descend(data, grads, ps, lr)[i] == data[i]
  {
    DescendEach(data, grads, ps, lr, i);
    CountNoDup(ps, i);
  }

  /** Zeroing clears exactly the listed gradients. */
  lemma {:induction false} ZeroAtEach(grads: seq<real>, ps: seq<nat>, i: nat)
    requires ParamsIn(ps, |grads|) && i < |grads|
    ensures ZeroAt(grads, ps)[i] == if i in ps then 0.0 else grads[i]
    decreases |ps|
  {
    if ps != [] {
      ZeroAtEach(grads, ps[..|ps| - 1], i);
      assert ps == ps[..|ps| - 1] + [ps[|ps| - 1]];
    }
  }

  /** Zeroing twice is zeroing once. */
  lemma ZeroAtIdem(grads: seq<real>, ps: seq<nat>)
    requires ParamsIn(ps, |grads|)
    ensures ZeroAt(ZeroAt(grads, ps), ps) == ZeroAt(grads, ps)
  {
    var z := ZeroAt(grads, ps);
    forall i | 0 <= i < |grads|
      ensures ZeroAt(z, ps)[i] == z[i]
    {
      ZeroAtEach(grads, ps, i);
      ZeroAtEach(z, ps, i);
    }
  }

  /** The optimizer: a list of parameter nodes of one tape and a learning
      rate. */
  class Optimizer {
    const tape: Tape
    var params: seq<nat>
    var lr: real

    /** Every parameter is a node of the tape. */
    ghost predicate Valid()
      reads this, tape
    {
      tape.Valid() && ParamsIn(params, |tape.ops|)
    }

    /** `Optimizer.__init__`: keeps the list and the rate as given. */
    constructor (t: Tape, ps: seq<nat>, rate: real)
      requires t.Valid() && ParamsIn(ps, |t.ops|)
      ensures Valid()
      ensures tape == t && params == ps && lr == rate
    {
      tape := t;
      params := ps;
      lr := rate;
    }

    /** `Optimizer.step`: each parameter in list order takes
        `p.data -= lr * p.grad`; gradients and the graph are untouched. */
    method Step()
      requires Valid()
      modifies tape`data
      ensures Valid()
      ensures tape.data == Descend(old(tape.data), tape.grads, params, lr)
    {
      var k := 0;
      while k < |params|
        invariant 0 <= k <= |params|
        invariant tape.Valid()
        invariant tape.grads == old(tape.grads)
        invariant tape.data == Descend(old(tape.data), tape.grads, params[..k], lr)
      {
        var p := params[k];
        ghost var ps := params[..k + 1];
        assert ps[..|ps| - 1] == params[..k] && ps[|ps| - 1] == p;
        ghost var d, g := tape.data, tape.grads;
        ghost var r := Descend(old(tape.data), g, ps, lr);
        assert d == Descend(old(tape.data), g, ps[..|ps| - 1], lr);
        assert r[p] == d[p] - lr * g[p];
        assert forall i :: 0 <= i < |r| && i != p ==> r[i] == d[i];
        tape.data := tape.data[p := tape.data[p] - lr * tape.grads[p]];
        assert tape.data[p] == r[p];
        assert forall i :: 0 <= i < |r| && i != p ==> r[i] == tape.data[i];
        k := k + 1;
      }
      assert params[..k] == params;
    }

    /** `Optimizer.zero_grad`: each parameter's gradient becomes 0;
        values and the graph are untouched. */
    method ZeroGrad()
      requires Valid()
      modifies tape`grads
      ensures Valid()
      ensures tape.grads == ZeroAt(old(tape.grads), params)
    {
      var k := 0;
      while k < |params|
        invariant 0 <= k <= |params|
        invariant tape.Valid()
        invariant tape.grads == ZeroAt(old(tape.grads), params[..k])
      {
        assert params[..k + 1][..k] == params[..k];
        tape.grads := tape.grads[params[k] := 0.0];
        k := k + 1;
      }
      assert params[..k] == params;
    }
  }
}
