/**
 The fixed-point solvers for forward and backward dataflow problems over a join
 semilattice, on the blocks reachable from the entry.
 */
module Dataflow {
  import opened Basics
  import opened Cfgs

  /** A dataflow problem.  `ok` delimits the states that can arise; their `rank` grows
      strictly along the order and is bounded by `height`. */
  datatype Problem<!S> = Problem(bottom: S, join: (S, S) -> S, transfer: (nat, S) -> S,
                                 ok: S -> bool, rank: S -> nat, height: nat) {
    ghost predicate Leq(a: S, b: S) {
      join(a, b) == b
    }
  }

  ghost predicate Semilattice<S(!new)>(pr: Problem<S>) {
    && pr.ok(pr.bottom)
    && (forall a, b :: pr.ok(a) && pr.ok(b) ==> pr.ok(pr.join(a, b)) && pr.join(a, b) == pr.join(b, a))
    && (forall a, b, c :: pr.ok(a) && pr.ok(b) && pr.ok(c) ==>
          pr.join(pr.join(a, b), c) == pr.join(a, pr.join(b, c)))
    && (forall a :: pr.ok(a) ==> pr.join(a, a) == a && pr.join(pr.bottom, a) == a)
  }

  ghost predicate Monotone<S(!new)>(pr: Problem<S>) {
    && (forall n: nat, a :: pr.ok(a) ==> pr.ok(pr.transfer(n, a)))
    && (forall n: nat, a, b :: pr.ok(a) && pr.ok(b) && pr.Leq(a, b) ==> pr.Leq(pr.transfer(n, a), pr.transfer(n, b)))
  }

  ghost predicate FiniteHeight<S(!new)>(pr: Problem<S>) {
    && (forall a :: pr.ok(a) ==> pr.rank(a) <= pr.height)
    && (forall a, b :: pr.ok(a) && pr.ok(b) && pr.Leq(a, b) && a != b ==> pr.rank(a) < pr.rank(b))
  }

  ghost predicate Valid<S(!new)>(pr: Problem<S>) {
    Semilattice(pr) && Monotone(pr) && FiniteHeight(pr)
  }

  lemma {:induction false} LeqTrans<S(!new)>(pr: Problem<S>, a: S, b: S, c: S)
    requires Semilattice(pr) && pr.ok(a) && pr.ok(b) && pr.ok(c) && pr.Leq(a, b) && pr.Leq(b, c)
    ensures pr.Leq(a, c)
  {
  }

  // ---- joins over the neighbours of a block ----

  ghost predicate AllOk<S>(pr: Problem<S>, res: seq<S>) {
    forall x :: 0 <= x < |res| ==> pr.ok(res[x])
  }

  ghost function JoinAll<S>(pr: Problem<S>, deps: seq<nat>, res: seq<S>): S
    requires InBounds(deps, |res|)
  {
    if deps == [] then pr.bottom
    else pr.join(JoinAll(pr, deps[..|deps| - 1], res), res[deps[|deps| - 1]])
  }

  lemma {:induction false} JoinAllOk<S(!new)>(pr: Problem<S>, deps: seq<nat>, res: seq<S>)
    requires Semilattice(pr) && InBounds(deps, |res|) && AllOk(pr, res)
    ensures pr.ok(JoinAll(pr, deps, res))
  {
    if deps != [] {
      JoinAllOk(pr, deps[..|deps| - 1], res);
    }
  }

  ghost predicate Below<S>(pr: Problem<S>, a: seq<S>, b: seq<S>) {
    |a| == |b| && forall x :: 0 <= x < |a| ==> pr.Leq(a[x], b[x])
  }

  lemma {:induction false} JoinMonotone<S(!new)>(pr: Problem<S>, a: S, b: S, a': S, b': S)
    requires Semilattice(pr) && pr.ok(a) && pr.ok(b) && pr.ok(a') && pr.ok(b') && pr.Leq(a, a') && pr.Leq(b, b')
    ensures pr.Leq(pr.join(a, b), pr.join(a', b'))
  {
  }

  lemma {:induction false} JoinAllMonotone<S(!new)>(pr: Problem<S>, deps: seq<nat>, res: seq<S>, res': seq<S>)
    requires Semilattice(pr) && InBounds(deps, |res|) && AllOk(pr, res) && AllOk(pr, res') && Below(pr, res, res')
    ensures pr.Leq(JoinAll(pr, deps, res), JoinAll(pr, deps, res'))
  {
    if deps != [] {
      var init, last := deps[..|deps| - 1], deps[|deps| - 1];
      JoinAllMonotone(pr, init, res, res');
      JoinAllOk(pr, init, res);
      JoinAllOk(pr, init, res');
      JoinMonotone(pr, JoinAll(pr, init, res), res[last], JoinAll(pr, init, res'), res'[last]);
    }
  }

  // ---- solutions ----

  ghost predicate WellFormed(deps: seq<seq<nat>>, order: seq<nat>) {
    && (forall x :: 0 <= x < |deps| ==> InBounds(deps[x], |deps|))
    && (forall k :: 0 <= k < |order| ==> order[k] < |deps|)
  }

  /** The value the equations give block `x` from the results of its neighbours. */
  ghost function Recomputed<S>(pr: Problem<S>, deps: seq<seq<nat>>, res: seq<S>, x: nat): S
    requires |res| == |deps| && x < |deps| && InBounds(deps[x], |deps|)
  {
    pr.transfer(x, JoinAll(pr, deps[x], res))
  }

  /** `res` satisfies the inequations on the blocks of `order`. */
  ghost predicate PostFixed<S>(pr: Problem<S>, deps: seq<seq<nat>>, order: seq<nat>, res: seq<S>)
    requires WellFormed(deps, order)
  {
    && |res| == |deps| && AllOk(pr, res)
    && forall k :: 0 <= k < |order| ==> pr.Leq(Recomputed(pr, deps, res, order[k]), res[order[k]])
  }

  /** Below every solution, and recomputing any block moves it up. */
  ghost predicate Rising<S(!new)>(pr: Problem<S>, deps: seq<seq<nat>>, order: seq<nat>, res: seq<S>)
    requires WellFormed(deps, order)
  {
    && |res| == |deps| && AllOk(pr, res)
    && (forall x :: 0 <= x < |deps| && x !in order ==> res[x] == pr.bottom)
    && (forall k :: 0 <= k < |order| ==> pr.Leq(res[order[k]], Recomputed(pr, deps, res, order[k])))
    && (forall u :: PostFixed(pr, deps, order, u) ==> Below(pr, res, u))
  }

  lemma {:induction false} RisingStart<S(!new)>(pr: Problem<S>, deps: seq<seq<nat>>, order: seq<nat>, res: seq<S>)
    requires Valid(pr) && WellFormed(deps, order)
    requires |res| == |deps| && forall x :: 0 <= x < |res| ==> res[x] == pr.bottom
    ensures Rising(pr, deps, order, res)
  {
    forall k | 0 <= k < |order| ensures pr.Leq(res[order[k]], Recomputed(pr, deps, res, order[k])) {
      JoinAllOk(pr, deps[order[k]], res);
    }
  }

  lemma {:induction false} RecomputedMonotone<S(!new)>(pr: Problem<S>, deps: seq<seq<nat>>, res: seq<S>, res': seq<S>,
                                                x: nat)
    requires Valid(pr) && |res| == |res'| == |deps| && x < |deps| && InBounds(deps[x], |deps|)
    requires AllOk(pr, res) && AllOk(pr, res') && Below(pr, res, res')
    ensures pr.ok(Recomputed(pr, deps, res, x)) && pr.ok(Recomputed(pr, deps, res', x))
    ensures pr.Leq(Recomputed(pr, deps, res, x), Recomputed(pr, deps, res', x))
  {
    JoinAllMonotone(pr, deps[x], res, res');
    JoinAllOk(pr, deps[x], res);
    JoinAllOk(pr, deps[x], res');
  }

  lemma {:induction false} UpdateAbove<S(!new)>(pr: Problem<S>, res: seq<S>, x: nat, v: S)
    requires Semilattice(pr) && AllOk(pr, res) && x < |res| && pr.ok(v) && pr.Leq(res[x], v)
    ensures AllOk(pr, res[x := v]) && Below(pr, res, res[x := v])
  {
  }

  lemma {:induction false} RisingStep<S(!new)>(pr: Problem<S>, deps: seq<seq<nat>>, order: seq<nat>, res: seq<S>,
                                        x: nat)
    requires Valid(pr) && WellFormed(deps, order) && Rising(pr, deps, order, res) && x in order
    ensures pr.Leq(res[x], Recomputed(pr, deps, res, x)) && pr.ok(Recomputed(pr, deps, res, x))
    ensures Rising(pr, deps, order, res[x := Recomputed(pr, deps, res, x)])
  {
    var v := Recomputed(pr, deps, res, x);
    JoinAllOk(pr, deps[x], res);
    var res' := res[x := v];
    UpdateAbove(pr, res, x, v);
    forall k | 0 <= k < |order| ensures pr.Leq(res'[order[k]], Recomputed(pr, deps, res', order[k])) {
      var y := order[k];
      RecomputedMonotone(pr, deps, res, res', y);
      if y != x {
        LeqTrans(pr, res[y], Recomputed(pr, deps, res, y), Recomputed(pr, deps, res', y));
      }
    }
    forall u | PostFixed(pr, deps, order, u) ensures Below(pr, res', u) {
      RecomputedMonotone(pr, deps, res, u, x);
      LeqTrans(pr, v, Recomputed(pr, deps, u, x), u[x]);
    }
  }

  // ---- the solver ends ----

  ghost function Slack<S>(pr: Problem<S>, res: seq<S>, n: nat): int
    requires n <= |res|
  {
    if n == 0 then 0 else Slack(pr, res, n - 1) + (pr.height - pr.rank(res[n - 1]))
  }

  lemma {:induction false} SlackUpdate<S>(pr: Problem<S>, res: seq<S>, n: nat, x: nat, v: S)
    requires n <= |res| && x < |res|
    ensures Slack(pr, res[x := v], n) == Slack(pr, res, n) - if x < n then pr.rank(v) - pr.rank(res[x]) else 0
  {
    if n > 0 {
      SlackUpdate(pr, res, n - 1, x, v);
    }
  }

  lemma {:induction false} SlackNat<S(!new)>(pr: Problem<S>, res: seq<S>, n: nat)
    requires FiniteHeight(pr) && AllOk(pr, res) && n <= |res|
    ensures Slack(pr, res, n) >= 0
  {
    if n > 0 {
      SlackNat(pr, res, n - 1);
    }
  }

  lemma {:induction false} SlackDrops<S(!new)>(pr: Problem<S>, res: seq<S>, x: nat, v: S)
    requires FiniteHeight(pr) && AllOk(pr, res) && x < |res| && pr.ok(v) && pr.Leq(res[x], v) && v != res[x]
    ensures 0 <= Slack(pr, res[x := v], |res|) < Slack(pr, res, |res|)
  {
    SlackUpdate(pr, res, |res|, x, v);
    SlackNat(pr, res[x := v], |res|);
  }

  /** The equations hold at the first blocks of the order. */
  ghost predicate SolvedTo<S>(pr: Problem<S>, deps: seq<seq<nat>>, order: seq<nat>, i: nat, acc: seq<S>, res: seq<S>)
    requires WellFormed(deps, order)
  {
    && |res| == |acc| == |deps|
    && forall k :: 0 <= k < i && k < |order| ==>
         acc[order[k]] == JoinAll(pr, deps[order[k]], res) && res[order[k]] == Recomputed(pr, deps, res, order[k])
  }

  method JoinNeighbours<S>(pr: Problem<S>, deps: seq<nat>, res: seq<S>) returns (r: S)
    requires InBounds(deps, |res|)
    ensures r == JoinAll(pr, deps, res)
  {
    r := pr.bottom;
    for k := 0 to |deps|
      invariant r == JoinAll(pr, deps[..k], res)
    {
      assert deps[..k + 1][..k] == deps[..k];
      r := pr.join(r, res[deps[k]]);
    }
    assert deps[..|deps|] == deps;
  }

  ghost predicate Untouched<S>(pr: Problem<S>, order: seq<nat>, acc: seq<S>) {
    forall x :: 0 <= x < |acc| && x !in order ==> acc[x] == pr.bottom
  }

  lemma {:induction false} SolvedNext<S>(pr: Problem<S>, deps: seq<seq<nat>>, order: seq<nat>, i: nat, acc: seq<S>,
                                         res: seq<S>)
    requires WellFormed(deps, order) && SolvedTo(pr, deps, order, i, acc, res) && i < |order|
    requires res[order[i]] == Recomputed(pr, deps, res, order[i])
    ensures SolvedTo(pr, deps, order, i + 1, acc[order[i] := JoinAll(pr, deps[order[i]], res)], res)
  {
  }

  /** Recomputes one block. */
  method Visit<S(==,!new)>(pr: Problem<S>, deps: seq<seq<nat>>, order: seq<nat>, acc: seq<S>, res: seq<S>, x: nat)
    returns (acc': seq<S>, res': seq<S>, changed: bool)
    requires Valid(pr) && WellFormed(deps, order) && Rising(pr, deps, order, res) && |acc| == |deps|
    requires Untouched(pr, order, acc) && x in order
    ensures Rising(pr, deps, order, res') && |acc'| == |deps| && Untouched(pr, order, acc')
    ensures changed ==> 0 <= Slack(pr, res', |deps|) < Slack(pr, res, |deps|)
    ensures !changed ==> res' == res && res[x] == Recomputed(pr, deps, res, x)
    ensures acc' == acc[x := JoinAll(pr, deps[x], res)]
  {
    var input := JoinNeighbours(pr, deps[x], res);
    var output := pr.transfer(x, input);
    RisingStep(pr, deps, order, res, x);
    acc', res', changed := acc[x := input], res, output != res[x];
    if changed {
      SlackDrops(pr, res, x, output);
      res' := res[x := output];
    }
  }

  /** One pass over the blocks in `order`. */
  method Pass<S(==,!new)>(pr: Problem<S>, deps: seq<seq<nat>>, order: seq<nat>, acc: seq<S>, res: seq<S>)
    returns (acc': seq<S>, res': seq<S>, changed: bool)
    requires Valid(pr) && WellFormed(deps, order) && Rising(pr, deps, order, res) && |acc| == |deps|
    requires Untouched(pr, order, acc)
    ensures Rising(pr, deps, order, res') && |acc'| == |deps| && Untouched(pr, order, acc')
    ensures changed ==> 0 <= Slack(pr, res', |deps|) < Slack(pr, res, |deps|)
    ensures !changed ==> res' == res && SolvedTo(pr, deps, order, |order|, acc', res')
  {
    acc', res', changed := acc, res, false;
    for i := 0 to |order|
      invariant Rising(pr, deps, order, res') && |acc'| == |deps| && Untouched(pr, order, acc')
      invariant changed ==> 0 <= Slack(pr, res', |deps|) < Slack(pr, res, |deps|)
      invariant !changed ==> res' == res && SolvedTo(pr, deps, order, i, acc', res')
    {
      ghost var was := acc';
      var c;
      acc', res', c := Visit(pr, deps, order, acc', res', order[i]);
      if !changed && !c {
        SolvedNext(pr, deps, order, i, was, res);
      }
      changed := changed || c;
    }
  }

  /** Iterates passes until nothing changes: the least solution on the blocks of `order`,
      bottom elsewhere. */
  method Solve<S(==,!new)>(pr: Problem<S>, deps: seq<seq<nat>>, order: seq<nat>) returns (acc: seq<S>, res: seq<S>)
    requires Valid(pr) && WellFormed(deps, order)
    ensures SolvedTo(pr, deps, order, |order|, acc, res)
    ensures forall x :: 0 <= x < |deps| && x !in order ==> acc[x] == res[x] == pr.bottom
    ensures forall u :: PostFixed(pr, deps, order, u) ==> Below(pr, res, u)
    ensures AllOk(pr, res)
  {
    acc, res := seq(|deps|, _ => pr.bottom), seq(|deps|, _ => pr.bottom);
    RisingStart(pr, deps, order, res);
    var changed := true;
    SlackNat(pr, res, |deps|);
    while changed
      invariant Rising(pr, deps, order, res) && |acc| == |deps|
      invariant Untouched(pr, order, acc)
      invariant !changed ==> SolvedTo(pr, deps, order, |order|, acc, res)
      invariant Slack(pr, res, |deps|) >= 0
      decreases changed, Slack(pr, res, |deps|)
    {
      acc, res, changed := Pass(pr, deps, order, acc, res);
    }
  }

  // ---- the two directions ----

  /** Forward: blocks read the outputs of their predecessors. */
  method SolveForward<S(==,!new)>(pr: Problem<S>, g: Cfg) returns (ins: seq<S>, outs: seq<S>)
    requires Valid(pr) && Closed(g)
    ensures |ins| == |outs| == g.len
    ensures forall x: nat :: g.Reachable(x) ==>
      x < g.len && ins[x] == JoinAll(pr, g.Predecessors(x), outs) && outs[x] == pr.transfer(x, ins[x])
    ensures forall x: nat :: x < g.len && !g.Reachable(x) ==> ins[x] == outs[x] == pr.bottom
    ensures forall u :: Above(pr, g, g.preds, u) ==> Below(pr, outs, u)
  {
    var rpo := ReversePostOrder(g);
    var deps := seq(g.len, i requires 0 <= i < g.len => g.Predecessors(i));
    ins, outs := Solve(pr, deps, rpo);
    forall x: nat | g.Reachable(x)
      ensures x < g.len && ins[x] == JoinAll(pr, deps[x], outs) && outs[x] == pr.transfer(x, ins[x])
    {
      assert x in rpo;
    }
    forall u | Above(pr, g, g.preds, u) ensures Below(pr, outs, u) {
      AboveIsPostFixed(pr, g, g.preds, deps, rpo, u);
    }
  }

  /** Backward: blocks read the inputs of their successors. */
  method SolveBackward<S(==,!new)>(pr: Problem<S>, g: Cfg) returns (ins: seq<S>, outs: seq<S>)
    requires Valid(pr) && Closed(g)
    ensures |ins| == |outs| == g.len && AllOk(pr, ins)
    ensures forall x: nat :: g.Reachable(x) ==>
      x < g.len && outs[x] == JoinAll(pr, g.Successors(x), ins) && ins[x] == pr.transfer(x, outs[x])
    ensures forall x: nat :: x < g.len && !g.Reachable(x) ==> ins[x] == outs[x] == pr.bottom
    ensures forall u :: Above(pr, g, g.succs, u) ==> Below(pr, ins, u)
  {
    var rpo := ReversePostOrder(g);
    var order := Reversed(rpo);
    var deps := seq(g.len, i requires 0 <= i < g.len => g.Successors(i));
    outs, ins := Solve(pr, deps, order);
    forall x: nat ensures x in order <==> g.Reachable(x) {
      ReversedMembers(rpo, x);
      assert x in rpo <==> g.Reachable(x);
    }
    forall x: nat | g.Reachable(x)
      ensures x < g.len && outs[x] == JoinAll(pr, deps[x], ins) && ins[x] == pr.transfer(x, outs[x])
    {
      assert x in order;
    }
    forall u | Above(pr, g, g.succs, u) ensures Below(pr, ins, u) {
      AboveIsPostFixed(pr, g, g.succs, deps, order, u);
    }
  }

  /** `u` satisfies the inequations at every reachable block. */
  ghost predicate Above<S>(pr: Problem<S>, g: Cfg, nbrs: map<nat, seq<nat>>, u: seq<S>) {
    && |u| == g.len && AllOk(pr, u)
    && forall x: nat :: g.Reachable(x) ==>
         var deps := if x in nbrs then nbrs[x] else [];
         x < g.len && InBounds(deps, g.len) && pr.Leq(pr.transfer(x, JoinAll(pr, deps, u)), u[x])
  }

  lemma {:induction false} AboveIsPostFixed<S(!new)>(pr: Problem<S>, g: Cfg, nbrs: map<nat, seq<nat>>,
                                              deps: seq<seq<nat>>, order: seq<nat>, u: seq<S>)
    requires WellFormed(deps, order) && |deps| == g.len && Above(pr, g, nbrs, u)
    requires forall x: nat :: x < g.len ==> deps[x] == if x in nbrs then nbrs[x] else []
    requires forall k :: 0 <= k < |order| ==> g.Reachable(order[k])
    ensures PostFixed(pr, deps, order, u)
  {
  }
}
