/**
 * What the optimizer step builder emits for one trainable variable: either
 * the accumulation of its gradient into a buffer, or its update (flush of the
 * buffer, the chain of named gradient transforms, rezero scaling, decoupled
 * weight decay for large tensors, and one final write of the variable).
 *
 * Emitted assignments are records on named slots; their values are computed
 * from the store as it was when the step was built.
 */
module OptimizerUpdate {

  import opened Wrappers
  import opened Text
  import opened Shapes

  // ---------------------------------------------------------------------------
  // Emitted assignments
  // ---------------------------------------------------------------------------

  /** A variable's own slot, or the gradient-accumulation buffer owned by the named variable. */
  datatype Target = VariableSlot(name: string) | BufferSlot(name: string)

  datatype UpdateOp =
    | Assign(target: Target, value: real)
    | AssignSub(target: Target, value: real)
    | AssignAdd(target: Target, value: real)

  /** Current values of variables and buffers; a buffer not yet written holds zeros. */
  type Store = map<Target, real>

  function Read(store: Store, t: Target): real
  {
    if t in store then store[t] else 0.0
  }

  /** The effect of one assignment. */
  function Apply(store: Store, op: UpdateOp): (r: Store)
    ensures forall t :: t != op.target ==> Read(r, t) == Read(store, t)
  {
    match op
    case Assign(t, v) => store[t := v]
    case AssignSub(t, v) => store[t := Read(store, t) - v]
    case AssignAdd(t, v) => store[t := Read(store, t) + v]
  }

  /** The effect of a list of assignments, in order. */
  function Execute(store: Store, ops: seq<UpdateOp>): Store
    decreases |ops|
  {
    if ops == [] then store else Apply(Execute(store, ops[..|ops| - 1]), ops[|ops| - 1])
  }

  /** How many of the assignments write `t`. */
  function WritesTo(ops: seq<UpdateOp>, t: Target): nat
    decreases |ops|
  {
    if ops == [] then 0
    else WritesTo(ops[..|ops| - 1], t) + if ops[|ops| - 1].target == t then 1 else 0
  }

  /** Slots no assignment writes keep their values. */
  lemma {:induction false} ExecuteKeeps(store: Store, ops: seq<UpdateOp>, t: Target)
    requires WritesTo(ops, t) == 0
    ensures Read(Execute(store, ops), t) == Read(store, t)
    decreases |ops|
  {
    if ops != [] {
      ExecuteKeeps(store, ops[..|ops| - 1], t);
    }
  }

  // ---------------------------------------------------------------------------
  // Gradient accumulation
  // ---------------------------------------------------------------------------

  /** `assign_add(buffer, grad + buffer)`. */
  function AccumulateOps(buffer: string, store: Store, grad: real): (r: seq<UpdateOp>)
    ensures |r| == 1 && WritesTo(r, BufferSlot(buffer)) == 1
  {
    [AssignAdd(BufferSlot(buffer), grad + Read(store, BufferSlot(buffer)))]
  }

  /** Accumulating writes only the buffer, which becomes twice its old value plus the gradient. */
  lemma AccumulateEffect(buffer: string, store: Store, grad: real)
    ensures var after := Execute(store, AccumulateOps(buffer, store, grad));
      Read(after, BufferSlot(buffer)) == 2.0 * Read(store, BufferSlot(buffer)) + grad
      && forall t :: t != BufferSlot(buffer) ==> Read(after, t) == Read(store, t)
  {
    var ops := AccumulateOps(buffer, store, grad);
    assert ops[..0] == [];
  }

  /** The buffer after `k` accumulations of the same gradient into a zeroed buffer. */
  function AccumulateTimes(buffer: string, store: Store, grad: real, k: nat): Store
    decreases k
  {
    if k == 0 then store
    else
      var before := AccumulateTimes(buffer, store, grad, k - 1);
      Execute(before, AccumulateOps(buffer, before, grad))
  }

  function Pow2(k: nat): nat
  {
    if k == 0 then 1 else 2 * Pow2(k - 1)
  }

  /** What `k` doublings-plus-`g` make of an empty buffer. */
  function Doubled(k: nat, g: real): real
  {
    if k == 0 then 0.0 else 2.0 * Doubled(k - 1, g) + g
  }

  /** `k` accumulations of the same gradient into a zeroed buffer leave `Doubled(k, grad)` in it. */
  lemma {:induction false} AccumulateDoubles(buffer: string, store: Store, grad: real, k: nat)
    requires Read(store, BufferSlot(buffer)) == 0.0
    ensures Read(AccumulateTimes(buffer, store, grad, k), BufferSlot(buffer)) == Doubled(k, grad)
    decreases k
  {
    if k > 0 {
      var before := AccumulateTimes(buffer, store, grad, k - 1);
      AccumulateDoubles(buffer, store, grad, k - 1);
      AccumulateEffect(buffer, before, grad);
    }
  }

  /** The closed form of `Doubled`: `(2^k - 1) g`. */
  lemma {:induction false} DoubledClosedForm(k: nat, g: real)
    ensures Doubled(k, g) == (Pow2(k) as real - 1.0) * g
    decreases k
  {
    if k > 0 {
      DoubledClosedForm(k - 1, g);
      DoubleAndAdd(Pow2(k - 1) as real, Pow2(k) as real, g, Doubled(k - 1, g));
    }
  }

  /** Doubling `(p - 1) g` and adding `g` gives `(q - 1) g` when `q = 2p`. */
  lemma DoubleAndAdd(p: real, q: real, g: real, x: real)
    requires x == (p - 1.0) * g && q == 2.0 * p
    ensures 2.0 * x + g == (q - 1.0) * g
  {
  }

  /**
   * Each accumulation doubles what is in the buffer, so `k` accumulations of
   * `g` into an empty buffer leave `(2^k - 1) g`, not `k g`.
   */
  lemma AccumulateGeometric(buffer: string, store: Store, grad: real, k: nat)
    requires Read(store, BufferSlot(buffer)) == 0.0
    ensures Read(AccumulateTimes(buffer, store, grad, k), BufferSlot(buffer)) == (Pow2(k) as real - 1.0) * grad
  {
    AccumulateDoubles(buffer, store, grad, k);
    DoubledClosedForm(k, grad);
  }

  // ---------------------------------------------------------------------------
  // Optimizer spec string
  // ---------------------------------------------------------------------------

  /** One token of the optimizer spec: a transform name and its string arguments. */
  datatype Step = Step(name: string, args: seq<string>)

  /** `opt, *args = token.split(':')`. */
  function ParseToken(token: string): Step
  {
    var parts := Split(token, ":");
    Step(parts[0], parts[1..])
  }

  /** The spec split on '-' into tokens, each split on ':'. */
  function ParseSpec(spec: string): (r: seq<Step>)
    ensures |r| >= 1
  {
    var tokens := Split(spec, "-");
    seq(|tokens|, i requires 0 <= i < |tokens| => ParseToken(tokens[i]))
  }

  function RenderToken(step: Step): string
  {
    Join([step.name] + step.args, ":")
  }

  /** The spec string that lists these steps. */
  function Render(steps: seq<Step>): string
    requires |steps| >= 1
  {
    Join(seq(|steps|, i requires 0 <= i < |steps| => RenderToken(steps[i])), "-")
  }

  /** Names and arguments free of the two separators. */
  predicate PlainStep(step: Step)
  {
    '-' !in step.name && ':' !in step.name
    && forall j :: 0 <= j < |step.args| ==> '-' !in step.args[j] && ':' !in step.args[j]
  }

  /** Joining pieces that lack a character with a separator that is not that character does not introduce it. */
  lemma {:induction false} JoinLacks(parts: seq<string>, sep: char, c: char)
    requires |parts| >= 1 && sep != c
    requires forall k :: 0 <= k < |parts| ==> c !in parts[k]
    ensures c !in Join(parts, [sep])
    decreases |parts|
  {
    if |parts| > 1 {
      JoinLacks(parts[1..], sep, c);
    }
  }

  /** Parsing a rendered spec gives back its steps. */
  lemma ParseRender(steps: seq<Step>)
    requires |steps| >= 1
    requires forall i :: 0 <= i < |steps| ==> PlainStep(steps[i])
    ensures ParseSpec(Render(steps)) == steps
  {
    var tokens := seq(|steps|, i requires 0 <= i < |steps| => RenderToken(steps[i]));
    forall i | 0 <= i < |steps| ensures '-' !in tokens[i] && ParseToken(tokens[i]) == steps[i] {
      var pieces := [steps[i].name] + steps[i].args;
      assert forall k :: 0 <= k < |pieces| ==> '-' !in pieces[k] && ':' !in pieces[k] by {
        forall k | 0 <= k < |pieces| ensures '-' !in pieces[k] && ':' !in pieces[k] {
          if k > 0 {
            assert pieces[k] == steps[i].args[k - 1];
          }
        }
      }
      JoinLacks(pieces, ':', '-');
      SplitJoin(pieces, ':');
    }
    SplitJoin(tokens, '-');
  }

  // ---------------------------------------------------------------------------
  // The transform chain
  // ---------------------------------------------------------------------------

  /** A named gradient transform: the current gradient and the token's arguments give the new gradient. */
  type Transform = (real, seq<string>) -> real

  /** The lookup of a name absent from the transform registry. */
  datatype UpdateError = UnknownOptimizer(name: string)

  /** The transforms applied left to right, each result replacing the gradient. */
  function Chain(grad: real, steps: seq<Step>, registry: map<string, Transform>): (r: Result<real, UpdateError>)
    ensures r.Failure? ==> exists k :: 0 <= k < |steps| && steps[k].name !in registry && r.error == UnknownOptimizer(steps[k].name)
    decreases |steps|
  {
    if steps == [] then Success(grad)
    else if steps[0].name !in registry then Failure(UnknownOptimizer(steps[0].name))
    else Chain(registry[steps[0].name](grad, steps[0].args), steps[1..], registry)
  }

  /** The chain fails exactly when some name is not registered, and it names the first such. */
  lemma {:induction false} ChainFails(grad: real, steps: seq<Step>, registry: map<string, Transform>)
    ensures Chain(grad, steps, registry).Failure? <==> exists k :: 0 <= k < |steps| && steps[k].name !in registry
    ensures Chain(grad, steps, registry).Failure? ==>
      exists k :: 0 <= k < |steps| && Chain(grad, steps, registry).error == UnknownOptimizer(steps[k].name)
        && steps[k].name !in registry && forall j :: 0 <= j < k ==> steps[j].name in registry
    decreases |steps|
  {
    if steps != [] && steps[0].name in registry {
      var rest := steps[1..];
      ChainFails(registry[steps[0].name](grad, steps[0].args), rest, registry);
      assert forall k :: 0 <= k < |rest| ==> rest[k] == steps[k + 1];
      if exists k :: 0 <= k < |steps| && steps[k].name !in registry {
        var k :| 0 <= k < |steps| && steps[k].name !in registry;
        assert rest[k - 1].name !in registry;
      }
      if Chain(grad, steps, registry).Failure? {
        var k :| 0 <= k < |rest| && Chain(grad, steps, registry).error == UnknownOptimizer(rest[k].name)
          && rest[k].name !in registry && forall j :: 0 <= j < k ==> rest[j].name in registry;
        assert steps[k + 1] == rest[k];
        assert forall j :: 0 <= j < k + 1 ==> steps[j].name in registry by {
          forall j | 0 <= j < k + 1 ensures steps[j].name in registry {
            if j > 0 {
              assert steps[j] == rest[j - 1];
            }
          }
        }
      }
    }
  }

  // ---------------------------------------------------------------------------
  // Variables and the large-tensor rule
  // ---------------------------------------------------------------------------

  type DimSize = n: nat | n >= 1 witness 1

  /**
   * A trainable variable: its name, its dimension sizes, whether it uses the
   * model's feature dimensions, and the sizes of its fan-in dimensions.
   */
  datatype Variable = Variable(name: string, dims: seq<DimSize>, featuresUsed: bool, fanIn: seq<DimSize>)

  /** The configuration the update reads. */
  datatype UpdateParams = UpdateParams(
    optimizer: string,
    rezeroMultiplier: real,
    featureDims: nat,
    weightDecay: real,
    learningRate: real,
    weightStandardisation: bool,
    scaleByDepth: bool,
    nBlocks: nat)

  /**
   * A variable takes weight decay and standardisation when it is a
   * multi-dimensional weight (beyond the feature dimensions when it uses
   * them), has more than one entry, is no embedding, and is no input or
   * output projection other than the language and video ones.
   */
  function IsLarge(v: Variable, featureDims: nat): (r: bool)
    ensures r ==> |v.dims| >= 1 && Size(v.dims) >= 2 && !Contains(v.name, "embed")
  {
    var large := v.featuresUsed && |v.dims| > featureDims;
    var large := large || (!v.featuresUsed && |v.dims| >= 2);
    var large := large && Size(v.dims) > 1;
    var large := large && !Contains(v.name, "embed");
    var large := large && (!Contains(v.name, "input") || Contains(v.name, "lang_in") || Contains(v.name, "vid_in"));
    large && (!Contains(v.name, "output") || Contains(v.name, "lang_out") || Contains(v.name, "vid_out"))
  }

  /** The variables the rule excludes. */
  lemma LargeExclusions(v: Variable, featureDims: nat)
    ensures Size(v.dims) <= 1 ==> !IsLarge(v, featureDims)
    ensures Contains(v.name, "embed") ==> !IsLarge(v, featureDims)
    ensures Contains(v.name, "input") && !Contains(v.name, "lang_in") && !Contains(v.name, "vid_in") ==> !IsLarge(v, featureDims)
    ensures Contains(v.name, "output") && !Contains(v.name, "lang_out") && !Contains(v.name, "vid_out") ==> !IsLarge(v, featureDims)
    ensures !v.featuresUsed && |v.dims| <= 1 ==> !IsLarge(v, featureDims)
    ensures v.featuresUsed && |v.dims| <= featureDims ==> !IsLarge(v, featureDims)
  {
  }

  /** A single-entry variable is never large: every dimension of it has size one. */
  lemma SingleEntryNotLarge(v: Variable, featureDims: nat)
    requires forall i :: 0 <= i < |v.dims| ==> v.dims[i] == 1
    ensures !IsLarge(v, featureDims)
  {
    AllOnes(v.dims);
  }

  lemma {:induction false} AllOnes(dims: seq<nat>)
    requires forall i :: 0 <= i < |dims| ==> dims[i] == 1
    ensures Size(dims) == 1
    decreases |dims|
  {
    if dims != [] {
      AllOnes(dims[..|dims| - 1]);
    }
  }

  // ---------------------------------------------------------------------------
  // Weight-standardisation target
  // ---------------------------------------------------------------------------

  /** `max(fan_in_size, size // fan_in_size)`. */
  function MaxFan(fanIn: nat, size: nat): (m: nat)
    requires fanIn >= 1
    ensures m >= fanIn && m >= size / fanIn
    ensures m == fanIn || m == size / fanIn
  {
    if fanIn >= size / fanIn then fanIn else size / fanIn
  }

  /**
   * The target variance of a standardised weight:
   * `(1 - 1/m) / size^2 + 2/m - 2/size` with `m` the larger fan, scaled by
   * the block count when scaling by depth.
   */
  function TargetVariance(fanIn: nat, size: nat, scaleByDepth: bool, nBlocks: nat): (r: real)
    requires fanIn >= 1 && size >= 1
    ensures scaleByDepth ==> r == nBlocks as real * TargetVariance(fanIn, size, false, nBlocks)
    decreases scaleByDepth
  {
    var m := MaxFan(fanIn, size) as real;
    var s := size as real;
    var variance := (1.0 - 1.0 / m) / (s * s) + 1.0 / m - 2.0 / s + 1.0 / m;
    if scaleByDepth then variance * nBlocks as real else variance
  }

  lemma RecipAntitone(x: real, y: real)
    requires 0.0 < x <= y
    ensures 0.0 < 1.0 / y <= 1.0 / x
  {
    assert (1.0 / y) * y == 1.0;
    assert (1.0 / x) * x == 1.0;
    assert 1.0 / x - 1.0 / y == (y - x) / (x * y);
  }

  /** The larger fan is at most the variable's size when the fan-in is. */
  lemma MaxFanBound(fanIn: nat, size: nat)
    requires 1 <= fanIn <= size
    ensures 1 <= MaxFan(fanIn, size) <= size
  {
    var q := size / fanIn;
    assert size == q * fanIn + size % fanIn;
    MulMonotonic(1, fanIn, q);
  }

  /** `(1 - a) b^2 + 2a - 2b` lies in [0, 2a] when `0 < b <= a <= 1`. */
  lemma VarianceShape(a: real, b: real)
    requires 0.0 < b <= a <= 1.0
    ensures 0.0 <= (1.0 - a) * b * b + 2.0 * a - 2.0 * b <= 2.0 * a
  {
    assert 0.0 <= b * b <= b by {
      assert b * b <= 1.0 * b;
    }
    assert 0.0 <= (1.0 - a) * (b * b) <= b * b;
  }

  /** Dividing by `s^2` is multiplying twice by `1/s`. */
  lemma OverSquare(x: real, s: real)
    requires s > 0.0
    ensures x / (s * s) == x * (1.0 / s) * (1.0 / s)
  {
  }

  /** A fan-in no larger than the variable keeps the target variance within [0, 2/m]. */
  lemma VarianceBounds(fanIn: nat, size: nat)
    requires 1 <= fanIn <= size
    ensures var m := MaxFan(fanIn, size) as real;
      0.0 <= TargetVariance(fanIn, size, false, 0) <= 2.0 / m
  {
    MaxFanBound(fanIn, size);
    var m := MaxFan(fanIn, size) as real;
    var s := size as real;
    var a := 1.0 / m;
    var b := 1.0 / s;
    RecipAntitone(m, s);
    RecipAntitone(1.0, m);
    OverSquare(1.0 - a, s);
    VarianceShape(a, b);
    assert TargetVariance(fanIn, size, false, 0) == (1.0 - a) * b * b + 2.0 * a - 2.0 * b;
  }

  // ---------------------------------------------------------------------------
  // The update
  // ---------------------------------------------------------------------------

  /** Flushing the attached buffer: it is assigned zeros. */
  function FlushOps(buffer: Option<string>): seq<UpdateOp>
  {
    if buffer.Some? then [Assign(BufferSlot(buffer.value), 0.0)] else []
  }

  /** With a buffer attached the update starts from the buffer's value instead of the gradient. */
  function StartGrad(store: Store, grad: real, buffer: Option<string>): real
  {
    if buffer.Some? then Read(store, BufferSlot(buffer.value)) else grad
  }

  /** Rezero weights have their gradient scaled by the rezero multiplier. */
  function Rezero(v: Variable, p: UpdateParams, grad: real): real
  {
    if Contains(v.name, "rezero") then p.rezeroMultiplier * grad else grad
  }

  /** Decoupled weight decay `weight_decay * value * learning_rate`, for large tensors only. */
  function WithDecay(v: Variable, p: UpdateParams, store: Store, grad: real): real
  {
    if IsLarge(v, p.featureDims) && p.weightDecay > 0.0
    then grad + p.weightDecay * Read(store, VariableSlot(v.name)) * p.learningRate
    else grad
  }

  /** The single write of the variable: subtract the gradient, or assign the standardised new value. */
  function WriteOp(v: Variable, p: UpdateParams, standardise: (real, real) -> real, store: Store, grad: real): UpdateOp
  {
    if !IsLarge(v, p.featureDims) || !p.weightStandardisation then AssignSub(VariableSlot(v.name), grad)
    else
      var fanIn := Size(v.fanIn);
      var size := Size(v.dims);
      SizePositive(v.fanIn);
      SizePositive(v.dims);
      var variance := TargetVariance(fanIn, size, p.scaleByDepth, p.nBlocks);
      Assign(VariableSlot(v.name), standardise(Read(store, VariableSlot(v.name)) - grad, variance))
  }

  /** The gradient that reaches the final write, or the unknown transform that stops the update. */
  function FinalGrad(v: Variable, p: UpdateParams, registry: map<string, Transform>,
                     store: Store, grad: real, buffer: Option<string>): Result<real, UpdateError>
  {
    match Chain(StartGrad(store, grad, buffer), ParseSpec(p.optimizer), registry)
    case Failure(e) => Failure(e)
    case Success(g) => Success(WithDecay(v, p, store, Rezero(v, p, g)))
  }

  /** Everything `update` emits for one variable. */
  function UpdateOps(v: Variable, p: UpdateParams, registry: map<string, Transform>, standardise: (real, real) -> real,
                     store: Store, grad: real, buffer: Option<string>): (r: Result<seq<UpdateOp>, UpdateError>)
    ensures r.Failure? <==> exists k :: 0 <= k < |ParseSpec(p.optimizer)| && ParseSpec(p.optimizer)[k].name !in registry
  {
    ChainFails(StartGrad(store, grad, buffer), ParseSpec(p.optimizer), registry);
    match FinalGrad(v, p, registry, store, grad, buffer)
    case Failure(e) => Failure(e)
    case Success(g) => Success(FlushOps(buffer) + [WriteOp(v, p, standardise, store, g)])
  }

  /**
   * The update writes the variable exactly once, as its last assignment, by
   * subtraction unless the tensor is large and standardisation is on; an
   * attached buffer is zeroed first; nothing else is written.
   */
  lemma UpdateWritesOnce(v: Variable, p: UpdateParams, registry: map<string, Transform>, standardise: (real, real) -> real,
                         store: Store, grad: real, buffer: Option<string>)
    requires UpdateOps(v, p, registry, standardise, store, grad, buffer).Success?
    ensures var ops := UpdateOps(v, p, registry, standardise, store, grad, buffer).value;
      WritesTo(ops, VariableSlot(v.name)) == 1
      && ops[|ops| - 1].target == VariableSlot(v.name)
      && (ops[|ops| - 1].AssignSub? <==> !IsLarge(v, p.featureDims) || !p.weightStandardisation)
      && (buffer.Some? ==> |ops| == 2 && ops[0] == Assign(BufferSlot(buffer.value), 0.0))
      && (buffer.None? ==> |ops| == 1)
  {
    var ops := UpdateOps(v, p, registry, standardise, store, grad, buffer).value;
    var n := |ops| - 1;
    assert ops[..n] == FlushOps(buffer);
    if buffer.Some? {
      assert FlushOps(buffer)[..0] == [];
    }
    assert WritesTo(ops[..n], VariableSlot(v.name)) == 0;
  }

  /** Accumulation never writes the variable. */
  lemma AccumulateNeverWritesVariable(buffer: string, store: Store, grad: real, name: string)
    ensures WritesTo(AccumulateOps(buffer, store, grad), VariableSlot(name)) == 0
  {
    assert AccumulateOps(buffer, store, grad)[..0] == [];
  }

  /** With a buffer attached the raw gradient has no influence on the update. */
  lemma FlushDiscardsGradient(v: Variable, p: UpdateParams, registry: map<string, Transform>, standardise: (real, real) -> real,
                              store: Store, grad1: real, grad2: real, buffer: string)
    ensures UpdateOps(v, p, registry, standardise, store, grad1, Some(buffer))
         == UpdateOps(v, p, registry, standardise, store, grad2, Some(buffer))
  {
  }

  /**
   * After the update a plain (not standardised) variable holds its value less
   * the final gradient, and the buffer it flushed holds zero.
   */
  lemma UpdateEffect(v: Variable, p: UpdateParams, registry: map<string, Transform>, standardise: (real, real) -> real,
                     store: Store, grad: real, buffer: Option<string>)
    requires FinalGrad(v, p, registry, store, grad, buffer).Success?
    requires !IsLarge(v, p.featureDims) || !p.weightStandardisation
    ensures var after := Execute(store, UpdateOps(v, p, registry, standardise, store, grad, buffer).value);
      Read(after, VariableSlot(v.name))
      == Read(store, VariableSlot(v.name)) - FinalGrad(v, p, registry, store, grad, buffer).value
      && (buffer.Some? ==> Read(after, BufferSlot(buffer.value)) == 0.0)
  {
    var ops := UpdateOps(v, p, registry, standardise, store, grad, buffer).value;
    var n := |ops| - 1;
    assert ops[..n] == FlushOps(buffer);
    if buffer.Some? {
      assert FlushOps(buffer)[..0] == [];
      assert Read(Execute(store, ops[..n]), VariableSlot(v.name)) == Read(store, VariableSlot(v.name));
    }
  }

  /** The context the step builder hands to `update` and `gradient_accumulation`. */
  class OptimizerCtx {
    var variable: Variable
    var grad: real
    /** The variable whose accumulation buffer is attached, if any. */
    var buffer: Option<string>
    var updateOps: seq<UpdateOp>
    const params: UpdateParams
    const store: Store

    constructor (variable: Variable, grad: real, params: UpdateParams, store: Store, updateOps: seq<UpdateOp>)
      ensures this.variable == variable && this.grad == grad && this.buffer == None
      ensures this.params == params && this.store == store && this.updateOps == updateOps
    {
      this.variable := variable;
      this.grad := grad;
      this.buffer := None;
      this.params := params;
      this.store := store;
      this.updateOps := updateOps;
    }

    /** `gradient_accumulation`: appends the buffer's accumulation and changes nothing else. */
    method GradientAccumulation()
      requires buffer.Some?
      modifies this
      ensures variable == old(variable) && grad == old(grad) && buffer == old(buffer)
      ensures updateOps == old(updateOps) + AccumulateOps(old(buffer).value, store, grad)
    {
      var b := buffer.value;
      updateOps := updateOps + [AssignAdd(BufferSlot(b), grad + Read(store, BufferSlot(b)))];
    }

    /** The transform loop: each named transform in turn replaces the gradient. */
    method ApplyTransforms(registry: map<string, Transform>) returns (r: Result<(), UpdateError>)
      modifies this
      ensures variable == old(variable) && buffer == old(buffer) && updateOps == old(updateOps)
      ensures var chain := Chain(old(grad), ParseSpec(params.optimizer), registry);
        (r.Success? <==> chain.Success?)
        && (chain.Success? ==> grad == chain.value)
        && (chain.Failure? ==> r.error == chain.error)
    {
      var steps := ParseSpec(params.optimizer);
      for k := 0 to |steps|
        invariant Chain(grad, steps[k..], registry) == Chain(old(grad), steps, registry)
        invariant variable == old(variable) && buffer == old(buffer) && updateOps == old(updateOps)
      {
        var step := steps[k];
        if step.name !in registry {
          return Failure(UnknownOptimizer(step.name));
        }
        assert steps[k..][1..] == steps[k + 1..];
        grad := registry[step.name](grad, step.args);
      }
      assert steps[|steps|..] == [];
      r := Success(());
    }

    /**
     * `update`: the flush, the transform loop, rezero, decay and the final
     * write. An unknown transform stops it after the flush was emitted.
     */
    method Update(registry: map<string, Transform>, standardise: (real, real) -> real)
      returns (r: Result<(), UpdateError>)
      modifies this
      ensures variable == old(variable) && buffer == old(buffer)
      ensures var spec := UpdateOps(variable, params, registry, standardise, store, old(grad), buffer);
        (r.Success? <==> spec.Success?)
        && (spec.Success? ==> updateOps == old(updateOps) + spec.value)
        && (spec.Failure? ==> r.error == spec.error && updateOps == old(updateOps) + FlushOps(buffer))
      ensures FinalGrad(variable, params, registry, store, old(grad), buffer).Success? ==>
        grad == FinalGrad(variable, params, registry, store, old(grad), buffer).value
    {
      if buffer.Some? {
        grad := Read(store, BufferSlot(buffer.value));
        updateOps := updateOps + [Assign(BufferSlot(buffer.value), 0.0)];
      }
      assert grad == StartGrad(store, old(grad), buffer);
      assert updateOps == old(updateOps) + FlushOps(buffer);
      var chained := ApplyTransforms(registry);
      if chained.Failure? {
        return chained;
      }
      Finish(standardise);
      assert FinalGrad(variable, params, registry, store, old(grad), buffer) == Success(grad);
      r := Success(());
    }

    /** Rezero scaling, weight decay and the single write of the variable. */
    method Finish(standardise: (real, real) -> real)
      modifies this
      ensures variable == old(variable) && buffer == old(buffer)
      ensures grad == WithDecay(variable, params, store, Rezero(variable, params, old(grad)))
      ensures updateOps == old(updateOps) + [WriteOp(variable, params, standardise, store, grad)]
    {
      ScaleGradient();
      Write(standardise);
    }

    /** The rezero multiplier, then the decoupled weight decay of large tensors. */
    method ScaleGradient()
      modifies this
      ensures variable == old(variable) && buffer == old(buffer) && updateOps == old(updateOps)
      ensures grad == WithDecay(variable, params, store, Rezero(variable, params, old(grad)))
    {
      ghost var start := grad;
      if Contains(variable.name, "rezero") {
        grad := params.rezeroMultiplier * grad;
      }
      assert grad == Rezero(variable, params, start);
      ghost var scaled := grad;
      if IsLarge(variable, params.featureDims) && params.weightDecay > 0.0 {
        grad := grad + params.weightDecay * Read(store, VariableSlot(variable.name)) * params.learningRate;
      }
      assert grad == WithDecay(variable, params, store, scaled);
    }

    /** The single write of the variable: `assign_sub`, or the standardised value for large tensors. */
    method Write(standardise: (real, real) -> real)
      modifies this
      ensures variable == old(variable) && buffer == old(buffer) && grad == old(grad)
      ensures updateOps == old(updateOps) + [WriteOp(variable, params, standardise, store, grad)]
    {
      if !IsLarge(variable, params.featureDims) || !params.weightStandardisation {
        updateOps := updateOps + [AssignSub(VariableSlot(variable.name), grad)];
        return;
      }
      var value := Read(store, VariableSlot(variable.name)) - grad;
      SizePositive(variable.fanIn);
      SizePositive(variable.dims);
      var variance := TargetVariance(Size(variable.fanIn), Size(variable.dims), params.scaleByDepth, params.nBlocks);
      updateOps := updateOps + [Assign(VariableSlot(variable.name), standardise(value, variance))];
    }

    /**
     * The dispatch for one yielded variable: a buffer is attached when
     * accumulating or when the variable already has one; then "accumulate"
     * accumulates and every other mode updates.
     */
    method Dispatch(fn: string, bufferExists: bool, registry: map<string, Transform>, standardise: (real, real) -> real)
      returns (r: Result<(), UpdateError>)
      modifies this
      ensures buffer == if fn == "accumulate" || bufferExists then Some(variable.name) else old(buffer)
      ensures variable == old(variable)
      ensures fn == "accumulate" ==> r.Success? && updateOps == old(updateOps) + AccumulateOps(variable.name, store, old(grad))
      ensures fn != "accumulate" ==>
        var spec := UpdateOps(variable, params, registry, standardise, store, old(grad), buffer);
        (r.Success? <==> spec.Success?) && (spec.Success? ==> updateOps == old(updateOps) + spec.value)
    {
      if fn == "accumulate" || bufferExists {
        buffer := Some(variable.name);
      }
      if fn == "accumulate" {
        GradientAccumulation();
        r := Success(());
      } else {
        r := Update(registry, standardise);
      }
    }
  }

  // ---------------------------------------------------------------------------
  // Two micro-steps with an accumulation window of two
  // ---------------------------------------------------------------------------

  /** A registry whose "sgd" transform passes the gradient through. */
  function PlainSgd(): map<string, Transform>
  {
    map["sgd" := (g: real, args: seq<string>) => g]
  }

  lemma SgdSpec()
    ensures ParseSpec("sgd") == [Step("sgd", [])]
  {
    NoOccurrence("sgd", '-');
    NoOccurrence("sgd", ':');
    assert Split("sgd", "-") == ["sgd"];
    assert Split("sgd", ":") == ["sgd"];
    assert ParseToken("sgd") == Step("sgd", []);
  }

  /** After the first micro-step the buffer holds the gradient and the variable is untouched. */
  lemma FirstMicroStep()
    ensures var store0 := map[VariableSlot("w") := 1.0];
      var store1 := Execute(store0, AccumulateOps("w", store0, 0.2));
      Read(store1, BufferSlot("w")) == 0.2 && Read(store1, VariableSlot("w")) == 1.0
  {
    var store0 := map[VariableSlot("w") := 1.0];
    assert Read(store0, BufferSlot("w")) == 0.0;
    AccumulateEffect("w", store0, 0.2);
  }

  /** With "sgd" passing the gradient through and no decay, a one-entry variable's final gradient is the buffer's value. */
  lemma SgdFinalGrad(p: UpdateParams, store: Store, grad: real)
    requires p.optimizer == "sgd" && p.weightDecay == 0.0
    ensures FinalGrad(Variable("w", [1], false, [1]), p, PlainSgd(), store, grad, Some("w"))
         == Success(Read(store, BufferSlot("w")))
  {
    var v := Variable("w", [1], false, [1]);
    var b := Read(store, BufferSlot("w"));
    SgdSpec();
    assert !Contains("w", "rezero") by {
      ContainsIffOccurs("w", "rezero");
    }
    assert Chain(b, [Step("sgd", [])], PlainSgd()) == Chain(b, [], PlainSgd());
    assert Rezero(v, p, b) == b;
    assert WithDecay(v, p, store, b) == b;
  }

  /**
   * A one-entry variable holding 1.0 and a gradient of 0.2 on both
   * micro-steps: the first accumulates 0.2 into the buffer, the second
   * applies the buffer, discarding its own gradient, and leaves 0.8 with a
   * zeroed buffer.
   */
  lemma TwoStepWindow(p: UpdateParams, standardise: (real, real) -> real)
    requires p.optimizer == "sgd" && p.weightDecay == 0.0
    ensures var v := Variable("w", [1], false, [1]);
      var store0 := map[VariableSlot("w") := 1.0];
      var store1 := Execute(store0, AccumulateOps("w", store0, 0.2));
      var update := UpdateOps(v, p, PlainSgd(), standardise, store1, 0.2, Some("w"));
      Read(store1, BufferSlot("w")) == 0.2 && Read(store1, VariableSlot("w")) == 1.0
      && update.Success?
      && Read(Execute(store1, update.value), VariableSlot("w")) == 0.8
      && Read(Execute(store1, update.value), BufferSlot("w")) == 0.0
  {
    var v := Variable("w", [1], false, [1]);
    var store0 := map[VariableSlot("w") := 1.0];
    var store1 := Execute(store0, AccumulateOps("w", store0, 0.2));
    FirstMicroStep();
    SgdFinalGrad(p, store1, 0.2);
    LargeExclusions(v, p.featureDims);
    UpdateEffect(v, p, PlainSgd(), standardise, store1, 0.2, Some("w"));
  }
}
