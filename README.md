# micrograd in Dafny

A model of micrograd, a scalar reverse-mode automatic-differentiation
engine and the small neural-network layer built on it.

- **Values.** Every `Value` is a node of a computation graph. An arithmetic
  operation computes its forward value eagerly and builds a new node. That
  node records its children (`_prev`) and a backward rule that adds into
  its operands' gradients.
- **`backward()`.** It sorts the graph depth-first into post-order and seeds
  the output's gradient with 1. It then runs the rules in reverse order.
- **Network.** Neurons compute `tanh(b + sum of w*x)`. Layers and
  multi-layer perceptrons hold neurons and chain them. An optimizer moves
  each parameter against its gradient and clears gradients.

## Modules

- `graph.dfy` (`Graph`):
  - The arena holds every node built so far. A node is an index into it,
    and its `Op` names its operands by index.
  - An operand is always an earlier node, so the graph is acyclic by
    construction.
  - `Operands` is what a rule writes into. `Prev` is what the traversal
    follows; it is empty for `exp`, whose node records no children.
  - `Reach` is the set of traversed nodes. `PostOrdered` is the property
    `build_topo`'s list has: no node twice, and each node after its
    traversed children. Many orders have it.
- `rules.dfy` (`Rules`):
  - Forward formulas and the local derivative of every rule (`Contrib`).
  - `math.exp` is any positive real function (`PosFn`). `tanh` is computed
    from it exactly as the source does.
- `adjoint.dfy` (`Adjoint`): what a backward pass must produce, stated
  without any traversal order.
  - The output is seeded with 1.
  - Every other node gets, on top of the gradient it already held, every
    traversed consumer's rule coefficient times that consumer's final
    gradient.
  - `FinalVec` computes this vector. `Adjoints` states the equations, and
    `AdjointsUnique` shows they have exactly one solution.
- `engine.dfy` (`Engine`): the `Tape` class, which is the arena as mutable
  state (`ops`, `data`, `grads`).
  - Each operator is a method that appends nodes.
  - Each rule is a method that adds into `grads`.
  - `BuildTopo` is the recursive depth-first traversal with its `visited`
    set and `topo` list.
  - `Backward` traverses, seeds and replays.
- `nn.dfy` (`Nn`):
  - Neurons, layers and perceptrons over parameter nodes of a tape.
  - Their construction from a given sequence of initial draws.
  - Their forward pass as tape methods, each proved against a pure value
    function.
  - The `Optimizer` class, whose `Step` and `ZeroGrad` update the tape in
    place.
- `scenarios.dfy` (`Scenarios`): the source's concrete examples, proved.

Three behaviours of the code that a reader may not expect, all of which the
model follows:

- `exp` builds its output with no children (engine.py:85). The traversal
  therefore stops at every `exp` node, although the node's rule still
  writes into its operand.
- Division computes `other.data**-1` (engine.py:58). In Python this raises
  on a zero divisor rather than producing an IEEE infinity. The model
  requires a nonzero divisor.
- Calling a layer that has neurons on a lone `Value` raises `TypeError`,
  because `zip` cannot iterate it. A one-neuron hidden layer followed by a
  layer with neurons therefore makes the whole call fail
  (`HiddenSingleFails`, for a hidden layer at any position).

## Model

| member | source | states |
|---|---|---|
| Graph.Prev | micrograd/engine.py:9 | the recorded children are the operands as a set (so `a*a` records `a` once), except that an `exp` node records none |
| Graph.Operands | micrograd/engine.py:21-23 | the slots a node's `_backward` writes into; only a leaf writes nothing |
| Graph.ReachKept | micrograd/engine.py:5-12 | appending nodes leaves what the traversal reaches from an existing node unchanged |
| Graph.Reach | micrograd/engine.py:109-116 | every node the traversal reaches from `v` is `v` or built before it |
| Graph.PostOrderedClosed | micrograd/engine.py:109-116 | a list in which every node comes after its recorded children contains everything reachable from each of its nodes |
| Graph.ConsumerAfter | micrograd/engine.py:116-123 | in post-order, every traversed consumer of the node at position `k` comes later, so the reversed replay runs each consumer's rule before that node's rule |
| Rules.Power | micrograd/engine.py:96 | `x ** n` for natural `n`, as repeated multiplication; `PowerAdd` states its exponent law |
| Rules.PowSlope | micrograd/engine.py:99 | the power rule's factor `p * x ** (p-1)`, 0 for exponent 0; `PowSlopeProduct` relates it to the product rule |
| Rules.Recip | micrograd/engine.py:58 | `x**-1` times `x` is 1 for a nonzero `x` |
| Rules.TanhOf | micrograd/engine.py:73-74 | `(e-1)/(e+1)` lies strictly between -1 and 1, and `1 - t^2` is positive, for every positive `e` |
| Rules.TanhExp | micrograd/engine.py:72-75 | the forward value of `tanh` lies strictly between -1 and 1 |
| Rules.Contrib | micrograd/engine.py:21-23 | a rule adds nothing into a node that is not one of its operands |
| Rules.PowerAdd | micrograd/engine.py:96 | `x**(m+n) == x**m * x**n` for natural exponents |
| Rules.PowSlopeProduct | micrograd/engine.py:98-99 | the power rule's slope `(n+1) x**n` agrees with the product rule applied to `x * x**n` |
| Rules.TanhSlope | micrograd/engine.py:77-78 | with `t = (e-1)/(e+1)`, the tanh rule's factor `1 - t^2` equals `4e/(e+1)^2`, an algebraic identity |
| Adjoint.FinalEq | micrograd/engine.py:105-123 | every entry of `FinalVec` satisfies its chain-rule equation |
| Adjoint.FinalUntouched | micrograd/engine.py:120 | the output's final gradient is 1, and a node that no traversed rule writes into keeps the gradient it held |
| Adjoint.FinalAdjoints | micrograd/engine.py:105-123 | `FinalVec` solves the chain-rule equations |
| Adjoint.AdjointsAgree | micrograd/engine.py:105-123 | two solutions of the chain-rule equations agree on every node from `k` on |
| Adjoint.AdjointsUnique | micrograd/engine.py:105-123 | the chain-rule equations have exactly one solution, `FinalVec`, so, when no traversed `exp` node has a traversed operand, the result of `backward()` cannot depend on the order children are visited |
| Adjoint.AdjointsExist | micrograd/engine.py:105-123 | the chain-rule equations have a solution |
| Adjoint.SumReads | micrograd/engine.py:122-123 | the contributions into a node only read the gradients of later nodes |
| Adjoint.FinalsStable | micrograd/engine.py:122-123 | computing lower nodes' gradients leaves the higher nodes' gradients unchanged |
| Adjoint.SumUnion | micrograd/engine.py:21-23 | the contributions of two disjoint sets of rules add up (accumulation with `+=`) |
| Adjoint.SumAgree | micrograd/engine.py:122-123 | the contributions only read the gradients of the contributing nodes |
| Adjoint.SumSingle | micrograd/engine.py:45-47 | one rule contributes its coefficient times its own gradient, with both `+=` lines counted when an operand repeats |
| Adjoint.SumSame | micrograd/engine.py:122-123 | only the rules that write into a node affect its gradient |
| Adjoint.SumFrom | micrograd/engine.py:122-123 | no node built at or before `u` writes into `u` |
| Adjoint.SumNone | micrograd/engine.py:120 | with no rule run yet, no contribution has arrived |
| Engine.ReplayStep | micrograd/engine.py:122-123 | when no traversed `exp` node has a traversed operand: when the replay reaches a node, that node already holds its final gradient |
| Engine.ReplayInsertAt | micrograd/engine.py:122-123 | running one more rule adds exactly that rule's contribution into the gradient of `u` |
| Engine.ReplayStart | micrograd/engine.py:120 | after the output is seeded with 1, the gradients are the seeded ones with no contributions |
| Engine.DoneStep | micrograd/engine.py:122 | stepping back one position in the reversed list adds exactly the node at that position to the processed set |
| Engine.ReplayInsert | micrograd/engine.py:122-123 | running the rule of a node that holds its final gradient adds that node to the processed set |
| Engine.ReplayAdvance | micrograd/engine.py:122-123 | when no traversed `exp` node has a traversed operand: one replay step keeps the invariant "seed plus the contributions of every processed rule" |
| Engine.ReplayComplete | micrograd/engine.py:122-123 | when the gradients are the seed plus every traversed rule's contribution taken at its node's final gradient, they are the solution of the chain-rule equations |
| Engine.GrowsTrans | micrograd/engine.py:5-12 | a tape extended twice is extended once: earlier nodes keep operation, value and gradient, and new nodes start at gradient 0 |
| Engine.GrowsKeeps | micrograd/engine.py:5-12 | an extended tape keeps every earlier node's operation, value and gradient |
| Engine.Tape.constructor | micrograd/engine.py:5-12 | an empty arena |
| Engine.Tape.Push | micrograd/engine.py:5-12 | `Value.__init__`: a new node is appended with its value and gradient 0, and nothing else changes |
| Engine.Tape.Leaf | micrograd/engine.py:5-12 | a leaf has no children, a rule that adds nothing and gradient 0 |
| Engine.Tape.Promote | micrograd/engine.py:18 | an existing node is used as it is, and a bare number becomes a fresh leaf holding that number |
| Engine.Tape.Add | micrograd/engine.py:17-27 | a new node holds `a + o`, with both operands recorded and earlier nodes untouched |
| Engine.Tape.RAdd | micrograd/engine.py:29-30 | `n + a` appends a leaf holding `n` and then an addition node of `a` and that leaf, holding `n + a` |
| Engine.Tape.Mul | micrograd/engine.py:41-51 | a new node holds `a * o`, with both operands recorded and earlier nodes untouched |
| Engine.Tape.RMul | micrograd/engine.py:53-54 | `n * a` appends a leaf holding `n` and then a multiplication node of `a` and that leaf, holding `n * a` |
| Engine.Tape.Neg | micrograd/engine.py:32-33 | `-a` appends a new leaf holding -1 and then the node `a` times that leaf, holding `-a` |
| Engine.Tape.Sub | micrograd/engine.py:35-36 | `a - o` holds the difference; a number operand becomes a new leaf holding its negation (two new nodes), and a node operand is negated through a new -1 leaf and a multiplication node holding `-o` (three new nodes) |
| Engine.Tape.RSub | micrograd/engine.py:38-39 | `n - a` appends a -1 leaf, the negation `a * -1` holding `-a`, a leaf holding `n`, and their sum holding `n - a` |
| Engine.Tape.Div | micrograd/engine.py:56-67 | for a nonzero divisor, a new division node whose value times the divisor is the dividend; a number divisor becomes a new leaf just before it |
| Engine.Tape.RDiv | micrograd/engine.py:69-70 | `n / a` appends a leaf holding `n` and then the division of that leaf by `a`; its value times `a` is `n` |
| Engine.Tape.Tanh | micrograd/engine.py:72-82 | a new node records `a` and holds `tanh(a)` computed from `exp(2a)`, strictly between -1 and 1 |
| Engine.Tape.Exp | micrograd/engine.py:84-92 | a new node holds `exp(a)`, which is positive, and records no children |
| Engine.Tape.Pow | micrograd/engine.py:94-103 | a new node records `a` and holds `a ** p` |
| Engine.Tape.AddInto2 | micrograd/engine.py:22-23 | the two `+=` lines add `ca*g` into `a` and `cb*g` into `b` (both into one slot when `a == b`), and every other gradient is unchanged |
| Engine.Tape.AddInto1 | micrograd/engine.py:78 | one `+=` line adds `c*g` into `a`, and every other gradient is unchanged |
| Engine.Tape.AddRule | micrograd/engine.py:21-23 | the `+` rule adds the output gradient into each operand |
| Engine.Tape.MulRule | micrograd/engine.py:45-47 | the `*` rule adds the other operand's value times the output gradient into each operand |
| Engine.Tape.DivRule | micrograd/engine.py:61-63 | the `/` rule adds `g/b` into the dividend and `a*(-b^-2)*g` into the divisor |
| Engine.Tape.UnaryRule | micrograd/engine.py:77-99 | the `tanh`, `exp` and `pow` rules add their slope times the output gradient into the operand |
| Engine.Tape.ApplyRule | micrograd/engine.py:21-23 | a node's rule adds into its operands' gradients, never overwrites, and leaves every other gradient unchanged |
| Engine.Tape.BuildTopo | micrograd/engine.py:109-116 | `topo` grows by exactly the nodes reachable from `v` that it lacked, each once and after its children, whatever order the children are visited in |
| Engine.Tape.Backward | micrograd/engine.py:105-123 | the output's gradient becomes exactly 1 and later nodes are untouched; when no traversed `exp` node has a traversed operand, the gradients solve the chain-rule equations, accumulated on top of the gradients held before |
| Engine.Tape.Replay | micrograd/engine.py:122-123 | when no traversed `exp` node has a traversed operand, running the rules in reverse post-order turns "seeded" into "seeded plus every traversed rule's contribution" |
| Nn.Range | micrograd/nn.py:6-7 | consecutive node indices from `lo` on |
| Nn.NeuronParams | micrograd/nn.py:18-19 | a neuron has `nin + 1` parameters |
| Nn.NeuronsParams | micrograd/nn.py:33 | the parameters of a list of neurons, each neuron's weights then bias, flattened in neuron order |
| Nn.LayerParams | micrograd/nn.py:32-33 | `Layer.parameters`: the flattened parameters of its neurons |
| Nn.LayersParams | micrograd/nn.py:59 | the parameters of a list of layers, flattened in layer order |
| Nn.MlpParams | micrograd/nn.py:58-59 | `MLP.parameters`: the flattened parameters of its layers |
| Nn.LayerParamCount | micrograd/nn.py:32-33 | a layer of `nout` neurons with `nin` weights each has `nout * (nin + 1)` parameters |
| Nn.MlpParamCount | micrograd/nn.py:58-59 | a perceptron shaped by `sz` has `sum sz[i+1] * (sz[i] + 1)` parameters |
| Nn.NewNeuron | micrograd/nn.py:5-7 | `nin` weight leaves then a bias leaf, holding the next `nin + 1` draws in order, with `nin + 1` parameters |
| Nn.NewLayer | micrograd/nn.py:22-23 | `nout` neurons of `nin` weights each, holding the next `nout * (nin + 1)` draws in order, with parameters in neuron order |
| Nn.NewMlp | micrograd/nn.py:36-42 | `len(nouts)` layers chaining `[nin] + nouts`, whose parameters are the fresh leaves in order, `ParamCount([nin] + nouts)` of them |
| Nn.NextLayer | micrograd/nn.py:42 | layer `i` maps `sz[i]` inputs to `sz[i+1]` outputs and takes the next draws; the layers so far stay shaped and their parameters stay consecutive |
| Nn.ParamPrefix | micrograd/nn.py:41-42 | the parameter count of a prefix of the sizes is at most that of all the sizes |
| Nn.ZipProducts | micrograd/nn.py:13 | `zip` stops at the shorter list; each entry is a weight times an input |
| Nn.NeuronOut | micrograd/nn.py:13-14 | a neuron's output lies strictly between -1 and 1 |
| Nn.SumStart | micrograd/nn.py:13 | `sum(ps, b)`: the left fold of additions that starts from the bias |
| Nn.NeuronEval | micrograd/nn.py:12-16 | a neuron's value on the inputs, read from the current values of its parameter nodes |
| Nn.SumStartShift | micrograd/nn.py:13 | the start value of `sum` is added once to the plain sum |
| Nn.ZipIgnoresExtra | micrograd/nn.py:13 | inputs beyond the number of weights do not affect the output |
| Nn.NeuronNoInputs | micrograd/nn.py:13-14 | with no inputs, a neuron outputs `tanh(b)` |
| Nn.ProductNodeKept | micrograd/nn.py:13 | a product node stays the same product as the tape grows |
| Nn.Products | micrograd/nn.py:13 | one new multiplication node per zipped pair, in order, of the weight and the input node (or a new leaf holding the number input), holding `w * x` |
| Nn.SumNodes | micrograd/nn.py:13 | the result holds `sum(ps, b)`; it is `b` itself when there are no products, otherwise a new addition node whose second operand is the last product, and it reaches `b` and every product |
| Nn.WeightedSum | micrograd/nn.py:13 | the accumulated node holds `b + sum of w*x` over `zip`, is the bias node when nothing is zipped, and reaches the bias, the zipped weights and the zipped input nodes |
| Nn.NeuronCall | micrograd/nn.py:12-16 | the new `tanh` node holds the neuron's value on the inputs, is `tanh` of the bias when nothing is zipped, and reaches the bias, the zipped weights and the zipped input nodes, so `backward()` from it visits them |
| Nn.LayerEval | micrograd/nn.py:29 | one value per neuron, in neuron order, each that neuron on the same inputs |
| Nn.Shape | micrograd/nn.py:30 | a lone value exactly when there is one output, otherwise the list itself |
| Nn.LayerCall | micrograd/nn.py:28-30 | the outputs hold the layer's values in neuron order, a lone output returned on its own |
| Nn.Feed | micrograd/nn.py:49 | a lone value fails with `TypeError` exactly when the layer has neurons |
| Nn.Through | micrograd/nn.py:48-49 | the layers from `i` on applied in turn; the only failure is `TypeError` |
| Nn.MlpEval | micrograd/nn.py:44-56 | `MLP.__call__` as a value: `IndexError` exactly when there are no layers, otherwise layer 0 on the inputs then the later layers; any other failure is `TypeError` |
| Nn.ThroughFails | micrograd/nn.py:48-49 | from any layer up to a one-neuron hidden layer that a layer with neurons follows, the run fails with `TypeError` |
| Nn.ThroughOk | micrograd/nn.py:44-56 | with no one-neuron hidden layer, a list input never fails, and the result is a lone value exactly when the last layer has one neuron |
| Nn.HiddenSingleFails | micrograd/nn.py:46-49 | a one-neuron layer at any hidden position followed by a layer with neurons makes the call fail with `TypeError` |
| Nn.FeedKept | micrograd/nn.py:49 | a layer's values are unchanged by nodes added to the tape since |
| Nn.CallKept | micrograd/nn.py:29 | a neuron called later on a grown tape computes what it would have computed before |
| Nn.FeedCall | micrograd/nn.py:49 | a later layer on the previous output gives the value function's result, including the `TypeError` case |
| Nn.Advance | micrograd/nn.py:48-49 | one pass of the loop: a failure is the result of the rest of the run, otherwise the rest of the run continues from the new output |
| Nn.MlpCall | micrograd/nn.py:44-56 | `MLP.__call__` gives layer 0 on the inputs, then each later layer in order, or `IndexError` when there are no layers, or the first `TypeError` |
| Nn.Descend | micrograd/nn.py:78-80 | the values after `p.data -= lr * p.grad` for each listed parameter in turn, a repeated parameter updated each time |
| Nn.ZeroAt | micrograd/nn.py:82-84 | the gradients after `p.grad = 0.0` for each listed parameter |
| Nn.DescendEach | micrograd/nn.py:78-80 | a step moves each node by `-(k * lr * grad)`, where `k` is how many times it is listed, and leaves unlisted nodes alone |
| Nn.TimesProduct | micrograd/nn.py:80 | adding `lr*grad` up `k` times is adding `k*lr*grad` |
| Nn.DescendTimes | micrograd/nn.py:78-80 | a step subtracts `lr*grad` from a node once per time it is listed |
| Nn.CountNoDup | micrograd/nn.py:79 | in a list without repeats, a node is listed once or not at all |
| Nn.DescendOnce | micrograd/nn.py:78-80 | with every parameter listed once, a step is `data - lr*grad` on parameters and the identity elsewhere |
| Nn.ZeroAtEach | micrograd/nn.py:82-84 | zeroing clears exactly the listed gradients |
| Nn.ZeroAtIdem | micrograd/nn.py:82-84 | zeroing twice is zeroing once |
| Nn.Optimizer.constructor | micrograd/nn.py:71-73 | the optimizer keeps the parameter list and the rate as given |
| Nn.Optimizer.Step | micrograd/nn.py:78-80 | values become `Descend` of the old values; gradients, the graph, the list and the rate are unchanged |
| Nn.Optimizer.ZeroGrad | micrograd/nn.py:82-84 | gradients become `ZeroAt` of the old gradients; values, the graph, the list and the rate are unchanged |
| Scenarios.WorkedGradients | test/test_engine.py:212-230 | for `L = (a*b + c)*f` with a=2, b=-3, c=10, f=-2, the gradients are a=6, b=-4, c=-2, e=-2, d=-2, f=4, L=1 |
| Scenarios.BuildWorked | test/test_engine.py:213-219 | the engine's own operations build the worked example's graph and values |
| Scenarios.WorkedBackward | test/test_engine.py:212-230 | `backward()` on the worked example leaves exactly those gradients |
| Scenarios.FanOut | micrograd/engine.py:45-47 | `a*a` at 3 gives `a` gradient 6, although `a` is recorded once |
| Scenarios.ExpOfLeaf | test/test_engine.py:171-183 | `exp` of a leaf `x` gives `x` gradient `exp(x)` |
| Scenarios.ExpCutsTraversal | micrograd/engine.py:85-88 | for `exp(x*x)`, the gradient stops at `x*x`, and `x` keeps gradient 0 |
| Scenarios.RSubExample | micrograd/engine.py:38-39 | `5 - Value(3)` is 2 |
| Scenarios.RSubPass | micrograd/engine.py:38-39 | `5 - a` as `__rsub__` builds it: `a`, the -1 leaf, `a * -1`, the leaf 5, and their sum |
| Scenarios.RSubGradients | micrograd/engine.py:38-39 | the gradients of `5 - a`: `a` gets -1, the -1 leaf gets `a`, and the other nodes get 1 |
| Scenarios.RSubBackward | micrograd/engine.py:38-39 | `backward()` on `5 - a` built with the tape's own operators leaves `a` with gradient -1 |
| Scenarios.PowSplit | micrograd/engine.py:94-96 | `a.pow(m) * a.pow(n)` and `a.pow(m + n)` hold the same value |
| Scenarios.RDivExample | micrograd/engine.py:69-70 | `4 / Value(2)` is 2 |

## Left out

- Floating point: values and gradients are reals. Rounding, overflow of
  `math.exp` for large arguments, infinities and NaN are not modelled.
- `math.exp` is only a positive real function. No property of the true
  exponential beyond positivity is used.
- Engine.Tape.Pow: the exponent is a natural number. Fractional and
  negative exponents are not modelled, and neither are the float
  exceptions of `0 ** -1` in the exponent-0 slope. The slope for exponent 0
  is taken to be 0.
- Engine.Tape.Div: a zero divisor is excluded by a precondition, where the
  source raises `ZeroDivisionError`. The same precondition appears in
  `Engine.Tape.RDiv` (a nonzero `a`), and as `Rules.DivisorNonzero` for
  every traversed division node in `Engine.Tape.DivRule`,
  `Engine.Tape.ApplyRule`, `Engine.Tape.Replay` and `Engine.Tape.Backward`.
- The `int`/`float` type assertions of `Value.__init__` and `pow` are
  implied by the types.
- Engine.Tape.Backward: when a traversed `exp` node's operand is itself
  traversed, the result can depend on the order the children are visited in.
  The contract then states only the seed and the frame, not the gradients.
- Engine.Tape.Replay: the same condition. Without it, the contract states
  only that the output keeps gradient 1 and later nodes are untouched;
  the accumulated gradients are not stated.
- The source's in-place mutation of `data` between a forward pass and
  `backward()` is not modelled; `data` is fixed during a pass.
- Random initialisation is replaced by a given sequence of draws.
- `__repr__`, `label`, `_op` and the unused numpy import: diagnostic only.
- `relu` is called by the tests but not defined in the engine, so it is
  not modelled.
- `MSELoss` applies `**` to a `Value`, which the engine does not define, so
  it is not modelled. The training script `main.py` is not part of this
  model.
- The recursion-depth limit of the recursive traversal.
- Nn.MlpCall: an exception becomes an `Err` result.
