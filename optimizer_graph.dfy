/**
 * The graph bookkeeping of the optimizer step builder: the forward scan that
 * marks which tensors depend on a trainable variable, and the reverse walk
 * over the operations that hands each operation the gradients of its outputs
 * from the gradient table and retires table entries once they are used up.
 */
module OptimizerGraph {

  import opened Wrappers

  type TensorId = nat

  /** An operation of the graph: the tensors it reads, the tensors it writes, whether it has a gradient rule. */
  datatype Op = Op(inputs: seq<TensorId>, outputs: seq<TensorId>, hasGradient: bool)

  /** `set(op.inputs) & downstream` is not empty. */
  predicate ReadsFrom(op: Op, downstream: set<TensorId>)
  {
    exists i :: 0 <= i < |op.inputs| && op.inputs[i] in downstream
  }

  function Outputs(op: Op): set<TensorId>
  {
    set i | 0 <= i < |op.outputs| :: op.outputs[i]
  }

  // ---------------------------------------------------------------------------
  // Downstream scan
  // ---------------------------------------------------------------------------

  /**
   * The downstream set after scanning `ops` in graph order from `seeds`: an
   * operation's outputs join when it has a gradient and reads a tensor that
   * is already in the set.
   */
  function DownstreamAfter(ops: seq<Op>, seeds: set<TensorId>): set<TensorId>
    decreases |ops|
  {
    if ops == [] then seeds
    else
      var before := DownstreamAfter(ops[..|ops| - 1], seeds);
      var op := ops[|ops| - 1];
      if op.hasGradient && ReadsFrom(op, before) then before + Outputs(op) else before
  }

  /** The scan loop of the step builder, from the trainable-variable tensors `xs`. */
  method Downstream(ops: seq<Op>, xs: seq<TensorId>) returns (downstream: set<TensorId>)
    ensures downstream == DownstreamAfter(ops, set i | 0 <= i < |xs| :: xs[i])
  {
    downstream := set i | 0 <= i < |xs| :: xs[i];
    ghost var seeds := downstream;
    for k := 0 to |ops|
      invariant downstream == DownstreamAfter(ops[..k], seeds)
    {
      assert ops[..k + 1][..k] == ops[..k];
      var op := ops[k];
      if op.hasGradient && exists i :: 0 <= i < |op.inputs| && op.inputs[i] in downstream {
        downstream := downstream + set i | 0 <= i < |op.outputs| :: op.outputs[i];
      }
    }
    assert ops[..|ops|] == ops;
  }

  /** The set only grows: what is downstream after a prefix of the scan stays downstream. */
  lemma {:induction false} DownstreamGrows(ops: seq<Op>, seeds: set<TensorId>, k: nat)
    requires k <= |ops|
    ensures seeds <= DownstreamAfter(ops[..k], seeds) <= DownstreamAfter(ops, seeds)
    decreases |ops|
  {
    if k < |ops| {
      var init := ops[..|ops| - 1];
      assert init[..k] == ops[..k];
      DownstreamGrows(init, seeds, k);
    } else {
      assert ops[..k] == ops;
      if ops != [] {
        DownstreamGrows(ops[..|ops| - 1], seeds, |ops| - 1);
      }
    }
  }

  /** Scanning operation `k` adds its outputs exactly when it has a gradient and reads a downstream tensor, and adds nothing else. */
  lemma ScanStep(ops: seq<Op>, seeds: set<TensorId>, k: nat)
    requires k < |ops|
    ensures var before := DownstreamAfter(ops[..k], seeds);
      DownstreamAfter(ops[..k + 1], seeds)
      == if ops[k].hasGradient && ReadsFrom(ops[k], before) then before + Outputs(ops[k]) else before
  {
    assert ops[..k + 1][..k] == ops[..k];
  }

  /** Every downstream tensor is a seed or an output of a scanned operation with a gradient that read a downstream tensor. */
  lemma {:induction false} DownstreamSound(ops: seq<Op>, seeds: set<TensorId>, t: TensorId)
    requires t in DownstreamAfter(ops, seeds)
    ensures t in seeds || exists k :: (0 <= k < |ops| && t in Outputs(ops[k]) && ops[k].hasGradient
      && ReadsFrom(ops[k], DownstreamAfter(ops[..k], seeds)))
    decreases |ops|
  {
    if ops != [] {
      var n := |ops| - 1;
      var init := ops[..n];
      var before := DownstreamAfter(init, seeds);
      if t in before {
        DownstreamSound(init, seeds, t);
        if t !in seeds {
          var k :| 0 <= k < |init| && t in Outputs(init[k]) && init[k].hasGradient
            && ReadsFrom(init[k], DownstreamAfter(init[..k], seeds));
          assert init[..k] == ops[..k];
        }
      } else {
        assert t in Outputs(ops[n]) && ops[n].hasGradient && ReadsFrom(ops[n], DownstreamAfter(ops[..n], seeds));
      }
    }
  }

  /** Every operation that has a gradient and reads a tensor downstream at its turn puts all its outputs downstream. */
  lemma DownstreamClosed(ops: seq<Op>, seeds: set<TensorId>, k: nat)
    requires k < |ops| && ops[k].hasGradient && ReadsFrom(ops[k], DownstreamAfter(ops[..k], seeds))
    ensures Outputs(ops[k]) <= DownstreamAfter(ops, seeds)
  {
    ScanStep(ops, seeds, k);
    DownstreamGrows(ops, seeds, k + 1);
  }

  // ---------------------------------------------------------------------------
  // Gradient table
  // ---------------------------------------------------------------------------

  /**
   * An entry of `tensor_to_gradient`: how often it has been handed out, the
   * gradient, and the input count of the operation that produced that
   * gradient, at which count the entry is retired.
   */
  datatype Entry = Entry(count: nat, grad: real, arity: nat)

  type Table = map<TensorId, Entry>

  /** One lookup: a present entry is handed out, its count bumped, and it is removed when the count reaches its arity. */
  function LookUp(table: Table, out: TensorId): (r: (Option<real>, Table))
    ensures r.0.Some? <==> out in table
    ensures r.0.Some? ==> r.0.value == table[out].grad
    ensures out in r.1 ==> out in table && r.1[out] == table[out].(count := table[out].count + 1)
    ensures out in table && out !in r.1 ==> table[out].count + 1 == table[out].arity
    ensures forall t :: t != out ==> (t in r.1 <==> t in table) && (t in r.1 ==> r.1[t] == table[t])
  {
    if out !in table then (None, table)
    else
      var e := table[out];
      var bumped := e.(count := e.count + 1);
      (Some(e.grad), if bumped.count == e.arity then table - {out} else table[out := bumped])
  }

  /** The lookups for an operation's outputs, in order: the gradients handed out and the table afterwards. */
  function Gather(table: Table, outs: seq<TensorId>): (r: (seq<Option<real>>, Table))
    ensures |r.0| == |outs|
    decreases |outs|
  {
    if outs == [] then ([], table)
    else
      var before := Gather(table, outs[..|outs| - 1]);
      var step := LookUp(before.1, outs[|outs| - 1]);
      (before.0 + [step.0], step.1)
  }

  /** Entries for tensors that are not among the outputs are left as they were. */
  lemma {:induction false} GatherKeepsOthers(table: Table, outs: seq<TensorId>)
    ensures var r := Gather(table, outs);
      forall t :: t !in outs ==> (t in r.1 <==> t in table) && (t in table ==> r.1[t] == table[t])
    decreases |outs|
  {
    if outs != [] {
      var init := outs[..|outs| - 1];
      GatherKeepsOthers(table, init);
      assert forall t :: t !in outs ==> t !in init && t != outs[|outs| - 1];
    }
  }

  /** With distinct outputs, output `i` is handed the gradient the table held for it before the gather. */
  lemma {:induction false} GatherHandsOut(table: Table, outs: seq<TensorId>)
    requires forall i, j :: 0 <= i < j < |outs| ==> outs[i] != outs[j]
    ensures var r := Gather(table, outs);
      forall i :: 0 <= i < |outs| ==>
        (r.0[i].Some? <==> outs[i] in table) && (r.0[i].Some? ==> r.0[i].value == table[outs[i]].grad)
    decreases |outs|
  {
    if outs != [] {
      var n := |outs| - 1;
      var init := outs[..n];
      GatherHandsOut(table, init);
      GatherKeepsOthers(table, init);
      assert outs[n] !in init;
    }
  }

  /** With distinct outputs, each output's entry is bumped once, and retired when that reaches its arity. */
  lemma {:induction false} GatherBumps(table: Table, outs: seq<TensorId>)
    requires forall i, j :: 0 <= i < j < |outs| ==> outs[i] != outs[j]
    ensures var r := Gather(table, outs);
      forall t :: t in outs && t in table ==>
        if table[t].count + 1 == table[t].arity then t !in r.1
        else t in r.1 && r.1[t] == table[t].(count := table[t].count + 1)
    decreases |outs|
  {
    if outs != [] {
      var n := |outs| - 1;
      var init := outs[..n];
      GatherBumps(table, init);
      GatherKeepsOthers(table, init);
      assert outs[n] !in init;
      assert forall t :: t in outs <==> t in init || t == outs[n];
    }
  }

  /** An entry whose gradient came from an operation without inputs is never retired. */
  lemma NeverRetired(table: Table, outs: seq<TensorId>, t: TensorId)
    requires forall i, j :: 0 <= i < j < |outs| ==> outs[i] != outs[j]
    requires t in table && table[t].arity == 0
    ensures t in Gather(table, outs).1
  {
    GatherKeepsOthers(table, outs);
    GatherBumps(table, outs);
  }

  /** The step builder's gradient table. */
  class GradientTable {
    var entries: Table

    constructor (loss: TensorId, lossGrad: real)
      ensures entries == map[loss := Entry(0, lossGrad, 0)]
    {
      entries := map[loss := Entry(0, lossGrad, 0)];
    }

    /** The lookup loop over one operation's outputs. */
    method GatherOutputs(outs: seq<TensorId>) returns (gradOutputs: seq<Option<real>>)
      modifies this
      ensures (gradOutputs, entries) == Gather(old(entries), outs)
    {
      gradOutputs := [];
      for k := 0 to |outs|
        invariant (gradOutputs, entries) == Gather(old(entries), outs[..k])
      {
        assert outs[..k + 1][..k] == outs[..k];
        var out := outs[k];
        if out !in entries {
          gradOutputs := gradOutputs + [None];
          continue;
        }
        var e := entries[out];
        ghost var before := entries;
        gradOutputs := gradOutputs + [Some(e.grad)];
        var bumped := e.(count := e.count + 1);
        entries := entries[out := bumped];
        if bumped.count == e.arity {
          entries := entries - {out};
          assert entries == before - {out};
        }
      }
      assert outs[..|outs|] == outs;
    }

    /**
     * The reverse walk: operations from last to first; each gathers its
     * output gradients and, unless skipped, runs the gradient rule `rule`,
     * which may add entries for its inputs.
     */
    method Walk(ops: seq<Op>, downstream: set<TensorId>, rule: (Op, seq<Option<real>>, Table) -> Table)
      returns (visits: seq<Visit>)
      modifies this
      ensures (visits, entries) == WalkFrom(ops, |ops|, downstream, rule, old(entries))
    {
      ghost var whole := WalkFrom(ops, |ops|, downstream, rule, entries);
      visits := [];
      var k := |ops|;
      assert visits + whole.0 == whole.0;
      while k > 0
        invariant 0 <= k <= |ops|
        invariant WalkResumes(ops, k, downstream, rule, entries, visits, whole)
        decreases k
      {
        WalkAdvance(ops, k, downstream, rule, entries, visits, whole);
        ghost var g := Gather(entries, ops[k - 1].outputs);
        k := k - 1;
        var op := ops[k];
        var gradOutputs := GatherOutputs(op.outputs);
        assert gradOutputs == g.0 && entries == g.1;
        if Skip(op, gradOutputs, downstream) {
          continue;
        }
        entries := rule(op, gradOutputs, entries);
        visits := visits + [Visit(k, gradOutputs)];
      }
      assert visits + [] == visits;
    }
  }

  /** The visits so far, followed by the walk of the first `k` operations from `table`, make up the whole walk. */
  ghost predicate WalkResumes(ops: seq<Op>, k: nat, downstream: set<TensorId>,
                              rule: (Op, seq<Option<real>>, Table) -> Table, table: Table,
                              visits: seq<Visit>, whole: (seq<Visit>, Table))
    requires k <= |ops|
  {
    var rest := WalkFrom(ops, k, downstream, rule, table);
    visits + rest.0 == whole.0 && rest.1 == whole.1
  }

  /** One step of the reverse walk keeps `WalkResumes`, whether the operation is skipped or visited. */
  lemma WalkAdvance(ops: seq<Op>, k: nat, downstream: set<TensorId>,
                    rule: (Op, seq<Option<real>>, Table) -> Table, table: Table,
                    visits: seq<Visit>, whole: (seq<Visit>, Table))
    requires 0 < k <= |ops| && WalkResumes(ops, k, downstream, rule, table, visits, whole)
    ensures var g := Gather(table, ops[k - 1].outputs);
      if Skip(ops[k - 1], g.0, downstream) then WalkResumes(ops, k - 1, downstream, rule, g.1, visits, whole)
      else WalkResumes(ops, k - 1, downstream, rule, rule(ops[k - 1], g.0, g.1), visits + [Visit(k - 1, g.0)], whole)
  {
    WalkStep(ops, k, downstream, rule, table);
    var g := Gather(table, ops[k - 1].outputs);
    if !Skip(ops[k - 1], g.0, downstream) {
      SnocAssoc(visits, Visit(k - 1, g.0), WalkFrom(ops, k - 1, downstream, rule, rule(ops[k - 1], g.0, g.1)).0);
    }
  }

  lemma SnocAssoc<T>(a: seq<T>, x: T, t: seq<T>)
    ensures a + ([x] + t) == (a + [x]) + t
  {
  }

  /** `not op.has_gradient or not any(grad_outputs) or not (set(op.inputs) & downstream)`. */
  predicate Skip(op: Op, gradOutputs: seq<Option<real>>, downstream: set<TensorId>)
  {
    !op.hasGradient || (forall i :: 0 <= i < |gradOutputs| ==> gradOutputs[i].None?) || !ReadsFrom(op, downstream)
  }

  /** An operation the walk hands to the gradient rule, with the gradients of its outputs. */
  datatype Visit = Visit(index: nat, gradOutputs: seq<Option<real>>)

  /** The walk over `ops[..k]`, last operation first, from `table`. */
  function WalkFrom(ops: seq<Op>, k: nat, downstream: set<TensorId>,
                    rule: (Op, seq<Option<real>>, Table) -> Table, table: Table): (r: (seq<Visit>, Table))
    requires k <= |ops|
    ensures forall v :: v in r.0 ==> v.index < k
    decreases k
  {
    if k == 0 then ([], table)
    else
      var op := ops[k - 1];
      var g := Gather(table, op.outputs);
      if Skip(op, g.0, downstream) then WalkFrom(ops, k - 1, downstream, rule, g.1)
      else
        var rest := WalkFrom(ops, k - 1, downstream, rule, rule(op, g.0, g.1));
        ([Visit(k - 1, g.0)] + rest.0, rest.1)
  }

  /** A visit the skip rule lets through: the operation has a gradient rule, an output gradient and an input downstream. */
  predicate Admitted(ops: seq<Op>, downstream: set<TensorId>, v: Visit)
  {
    v.index < |ops| && ops[v.index].hasGradient && ReadsFrom(ops[v.index], downstream)
    && |v.gradOutputs| == |ops[v.index].outputs|
    && exists j :: 0 <= j < |v.gradOutputs| && v.gradOutputs[j].Some?
  }

  predicate Descending(visits: seq<Visit>)
  {
    forall i, j :: 0 <= i < j < |visits| ==> visits[i].index > visits[j].index
  }

  /** One step of the walk: operation `k - 1` gathers its output gradients and is skipped or handed to the rule. */
  lemma WalkStep(ops: seq<Op>, k: nat, downstream: set<TensorId>,
                 rule: (Op, seq<Option<real>>, Table) -> Table, table: Table)
    requires 0 < k <= |ops|
    ensures var g := Gather(table, ops[k - 1].outputs);
      var next := rule(ops[k - 1], g.0, g.1);
      WalkFrom(ops, k, downstream, rule, table) ==
        if Skip(ops[k - 1], g.0, downstream) then WalkFrom(ops, k - 1, downstream, rule, g.1)
        else ([Visit(k - 1, g.0)] + WalkFrom(ops, k - 1, downstream, rule, next).0, WalkFrom(ops, k - 1, downstream, rule, next).1)
  {
  }

  /** Every operation the walk visits passes the skip rule. */
  lemma {:induction false} WalkAdmitted(ops: seq<Op>, k: nat, downstream: set<TensorId>,
                                        rule: (Op, seq<Option<real>>, Table) -> Table, table: Table)
    requires k <= |ops|
    ensures forall v :: v in WalkFrom(ops, k, downstream, rule, table).0 ==> Admitted(ops, downstream, v)
    decreases k
  {
    if k > 0 {
      WalkStep(ops, k, downstream, rule, table);
      var g := Gather(table, ops[k - 1].outputs);
      if Skip(ops[k - 1], g.0, downstream) {
        WalkAdmitted(ops, k - 1, downstream, rule, g.1);
      } else {
        WalkAdmitted(ops, k - 1, downstream, rule, rule(ops[k - 1], g.0, g.1));
        assert Admitted(ops, downstream, Visit(k - 1, g.0));
      }
    }
  }

  /** Descending visits stay descending under a visit whose index is above all of theirs. */
  lemma DescendingCons(v: Visit, rest: seq<Visit>)
    requires Descending(rest) && forall w :: w in rest ==> w.index < v.index
    ensures Descending([v] + rest)
  {
    var visits := [v] + rest;
    forall i, j | 0 <= i < j < |visits| ensures visits[i].index > visits[j].index {
      assert visits[j] == rest[j - 1] && rest[j - 1] in rest;
      if i > 0 {
        assert visits[i] == rest[i - 1];
      }
    }
  }

  /** The walk visits operations last first. */
  lemma {:induction false} WalkDescending(ops: seq<Op>, k: nat, downstream: set<TensorId>,
                                          rule: (Op, seq<Option<real>>, Table) -> Table, table: Table)
    requires k <= |ops|
    ensures Descending(WalkFrom(ops, k, downstream, rule, table).0)
    decreases k
  {
    if k > 0 {
      WalkStep(ops, k, downstream, rule, table);
      var g := Gather(table, ops[k - 1].outputs);
      if Skip(ops[k - 1], g.0, downstream) {
        WalkDescending(ops, k - 1, downstream, rule, g.1);
      } else {
        var next := rule(ops[k - 1], g.0, g.1);
        WalkDescending(ops, k - 1, downstream, rule, next);
        DescendingCons(Visit(k - 1, g.0), WalkFrom(ops, k - 1, downstream, rule, next).0);
      }
    }
  }

  /**
   * The walk visits operations in reverse graph order, and every visited
   * operation has a gradient rule, at least one output gradient, and an
   * input downstream of a trainable variable.
   */
  lemma WalkVisits(ops: seq<Op>, k: nat, downstream: set<TensorId>,
                   rule: (Op, seq<Option<real>>, Table) -> Table, table: Table)
    requires k <= |ops|
    ensures forall v :: v in WalkFrom(ops, k, downstream, rule, table).0 ==> Admitted(ops, downstream, v)
    ensures Descending(WalkFrom(ops, k, downstream, rule, table).0)
  {
    WalkAdmitted(ops, k, downstream, rule, table);
    WalkDescending(ops, k, downstream, rule, table);
  }
}
