/**
 The scheduler as a whole: a permutation of the block that keeps dependences and
 latencies, and computes what the block computed.
 */
module Scheduler {
  import opened Basics
  import opened Registers
  import opened DepGraphs
  import opened Dependences
  import opened ListSchedule

  /** The instructions of `code` in the order of `sched`. */
  function Picked(code: seq<Inst>, sched: seq<nat>): seq<Inst>
    requires forall k :: 0 <= k < |sched| ==> sched[k] < |code|
  {
    seq(|sched|, k requires 0 <= k < |sched| => code[sched[k]])
  }

  ghost predicate IsPermutation(sched: seq<nat>, n: nat) {
    && (forall a, b :: 0 <= a < b < |sched| ==> sched[a] != sched[b])
    && (forall k :: 0 <= k < |sched| ==> sched[k] < n)
    && (forall i: nat :: i < n ==> i in sched)
  }

  /** Where `i` is in `sched`. */
  ghost function PositionOf(sched: seq<nat>, i: nat): (k: int)
    ensures i in sched ==> 0 <= k < |sched| && sched[k] == i
  {
    if i in sched then
      var k :| 0 <= k < |sched| && sched[k] == i;
      k
    else -1
  }

  ghost function Positions(sched: seq<nat>): nat -> int {
    (i: nat) => PositionOf(sched, i)
  }

  /** Instructions end, counting back from the end of the block, late enough for each other. */
  ghost predicate MeetsLatencies(es: Edges, end: Times) {
    forall i: nat, j: nat, l: nat :: HasEdge(es, i, j, l) ==> i in end && j in end && end[i] >= end[j] + l
  }

  lemma {:induction false} ReversedPermutes(order: seq<nat>, n: nat)
    requires forall a, b :: 0 <= a < b < |order| ==> order[a] != order[b]
    requires forall i: nat :: i in order <==> i < n
    ensures IsPermutation(Reversed<nat>(order), n)
  {
    var r := Reversed<nat>(order);
    forall i: nat ensures i in r <==> i in order {
      if i in order {
        var k :| 0 <= k < |order| && order[k] == i;
        assert r[|order| - 1 - k] == i;
      }
    }
    assert forall k :: 0 <= k < |r| ==> r[k] in r;
  }

  /** The reversed order places every node after the ones it leads to were placed. */
  lemma {:induction false} OrderRespects(es: Edges, rg: Edges, first: seq<Label>, order: seq<nat>, cycles: nat,
                                         end: Times)
    requires Scheduled(rg, first, order, cycles, end) && |rg| == |es|
    requires forall i: nat, j: nat, l: nat :: HasEdge(rg, j, i, l) <==> HasEdge(es, i, j, l)
    ensures IsPermutation(Reversed<nat>(order), |es|)
    ensures Respects(es, Positions(Reversed<nat>(order))) && MeetsLatencies(es, end)
  {
    ReversedPermutes(order, |es|);
    var r := Reversed<nat>(order);
    forall i: nat, j: nat, l: nat | HasEdge(es, i, j, l)
      ensures i in end && j in end && end[i] >= end[j] + l && PositionOf(r, i) < PositionOf(r, j)
    {
      assert HasEdge(rg, j, i, l);
      assert i in order;
      var k := |order| - 1 - PositionOf(r, i);
      assert order[k] == i;
      assert PlacedWell(rg, first, order, end, k);
      assert j in order[..k];
      var m :| 0 <= m < k && order[m] == j;
      assert r[|order| - 1 - m] == j;
      assert j in r;
    }
  }

  /** No path is longer than the time its first instruction ends. */
  lemma {:induction false} EndBoundsPaths(es: Edges, end: Times, i: nat, p: seq<Edge>)
    requires MeetsLatencies(es, end) && i in end && Walk(es, i, p)
    ensures end[i] >= Latency(p)
    decreases |p|
  {
    if p != [] {
      assert HasEdge(es, i, p[0].head, p[0].latency);
      EndBoundsPaths(es, end, p[0].head, p[1..]);
    }
  }

  /** An instruction ends at least its execution time after the one that follows it. */
  ghost predicate Spaced(sm: Target, code: seq<Inst>, sched: seq<nat>, end: Times, k: nat) {
    k + 1 < |sched| ==>
      && sched[k] in end && sched[k + 1] in end && sched[k] < |code|
      && end[sched[k]] >= end[sched[k + 1]] + sm.exec(code[sched[k]])
  }

  /** Counting back from the end of the block, the instruction ends no earlier than its results need:
      the worst latency of each destination, and its variable latency with the execution of the last
      instruction. */
  ghost predicate EndsInTime(sm: Target, code: seq<Inst>, i: nat, end: nat)
    requires i < |code|
  {
    && (forall d: nat :: d < |code[i].dsts| ==> sm.worst(code[i], d) <= end)
    && sm.variable(code[i]) + sm.exec(code[|code| - 1]) <= end
  }

  /** What scheduling a block guarantees; `es` are its dependences, `end` its timing counted
      back from the end of the block, `cycles` when the first instruction ends counted so. */
  ghost predicate GoodSchedule(sm: Target, code: seq<Inst>, sched: seq<nat>, cycles: nat, es: Edges, end: Times) {
    && IsPermutation(sched, |code|)
    && AllNodesOk(sm, code, es)
    && Respects(es, Positions(sched))
    && MeetsLatencies(es, end)
    && (forall i: nat :: i < |code| ==> i in end && EndsInTime(sm, code, i, end[i]) && end[i] <= cycles)
    && (forall k: nat :: Spaced(sm, code, sched, end, k))
    && cycles == (if sched != [] && sched[0] in end then end[sched[0]] else 0)
  }

  lemma {:induction false} TimesAreGood(sm: Target, code: seq<Inst>, rg: Edges, first: seq<Label>, order: seq<nat>,
                                        cycles: nat, end: Times)
    requires Scheduled(rg, first, order, cycles, end) && |rg| == |first| == |code|
    requires forall i :: 0 <= i < |code| ==> Labelled(sm, code, i, first[i])
    ensures forall i: nat :: i < |code| ==> i in end && EndsInTime(sm, code, i, end[i]) && end[i] <= cycles
    ensures forall k: nat :: Spaced(sm, code, Reversed<nat>(order), end, k)
  {
    forall i: nat | i < |code| ensures i in end && EndsInTime(sm, code, i, end[i]) && end[i] <= cycles {
      assert i in order;
      var k :| 0 <= k < |order| && order[k] == i;
      assert PlacedWell(rg, first, order, end, k);
      assert Labelled(sm, code, i, first[i]);
    }
    var r := Reversed<nat>(order);
    forall k: nat | k + 1 < |r| ensures Spaced(sm, code, r, end, k) {
      var m := |order| - 1 - k;
      assert order[m] == r[k] && order[m - 1] == r[k + 1];
      assert PlacedWell(rg, first, order, end, m);
      assert order[m] in order && order[m - 1] in order;
      assert Labelled(sm, code, order[m], first[order[m]]);
    }
  }

  lemma {:induction false} JustifiedIsForward(sm: Target, code: seq<Inst>, es: Edges)
    requires AllNodesOk(sm, code, es)
    ensures Forward(es)
  {
  }

  lemma {:induction false} ReversedIsBackward(es: Edges, rg: Edges)
    requires Forward(es) && forall i: nat, j: nat, l: nat :: HasEdge(rg, j, i, l) <==> HasEdge(es, i, j, l)
    ensures Backward(rg)
  {
  }

  ghost predicate Reversal(es: Edges, rg: Edges) {
    |es| == |rg| && forall i: nat, j: nat, l: nat :: HasEdge(rg, j, i, l) <==> HasEdge(es, i, j, l)
  }

  lemma {:induction false} OrderIsGood(sm: Target, code: seq<Inst>, es: Edges, initial: seq<Label>, rg: Edges,
                                       first: seq<Label>, order: seq<nat>, cycles: nat, end: Times)
    requires GraphFrom(sm, code, 0, initial, es) && SameTimes(initial, first) && Reversal(es, rg)
    requires Scheduled(rg, first, order, cycles, end)
    ensures GoodSchedule(sm, code, Reversed<nat>(order), cycles, es, end)
    ensures forall i: nat, p :: i < |code| && Walk(es, i, p) ==> Latency(p) <= cycles
  {
    OrderRespects(es, rg, first, order, cycles, end);
    forall i | 0 <= i < |code| ensures Labelled(sm, code, i, first[i]) {
      assert Labelled(sm, code, i, initial[i]);
    }
    TimesAreGood(sm, code, rg, first, order, cycles, end);
    forall i: nat, p | i < |code| && Walk(es, i, p) ensures Latency(p) <= cycles {
      EndBoundsPaths(es, end, i, p);
    }
  }

  /** The labels that the scheduler works with: the longest paths, the distances to the end of the
      block, and the execution times. */
  ghost predicate FinalLabels(sm: Target, code: seq<Inst>, es: Edges, first: seq<Label>) {
    InitialTimes(sm, code, first) && forall i: nat :: i < |code| ==> IsLongest(es, i, first[i].cyclesToEnd)
  }

  ghost predicate InitialTimes(sm: Target, code: seq<Inst>, first: seq<Label>) {
    |first| == |code| && forall i: nat :: i < |code| ==> Labelled(sm, code, i, first[i])
  }

  /** A run of the scheduler: `order` lists the instructions from the last one on, each the best of
      those that are ready; none waits while one is. */
  ghost predicate ScheduleRun(sm: Target, code: seq<Inst>, order: seq<nat>, cycles: nat, es: Edges, rg: Edges,
                              first: seq<Label>, end: Times) {
    && GoodSchedule(sm, code, Reversed<nat>(order), cycles, es, end)
    && (forall i: nat, p :: i < |code| && Walk(es, i, p) ==> Latency(p) <= cycles)
    && Reversal(es, rg) && FinalLabels(sm, code, es, first) && Scheduled(rg, first, order, cycles, end)
  }

  /** `sched` is how the scheduler arranges `code`; the last instruction ends after `cycles`. */
  ghost predicate Arranges(sm: Target, code: seq<Inst>, sched: seq<nat>, cycles: nat) {
    exists order, es, rg, first, end ::
      ScheduleRun(sm, code, order, cycles, es, rg, first, end) && sched == Reversed<nat>(order)
  }

  /** `out` is a schedule of `code` in which the last instruction ends after `cycles`: a permutation
      that keeps every dependence and meets every latency, made greedily, and no dependence path takes longer. */
  ghost predicate IsSchedule(sm: Target, code: seq<Inst>, out: seq<Inst>, cycles: nat) {
    exists sched :: Arranges(sm, code, sched, cycles) && IsPermutation(sched, |code|) && out == Picked(code, sched)
  }

  /** Schedules a block. */
  method SchedBuffer(sm: Target, code: seq<Inst>) returns (out: seq<Inst>, cycles: nat)
    ensures IsSchedule(sm, code, out, cycles)
  {
    var order;
    ghost var es, rg, first, end;
    order, cycles, es, rg, first, end := OrderBlock(sm, code);
    out := Picked(code, Reversed<nat>(order));
    assert Arranges(sm, code, Reversed<nat>(order), cycles);
  }

  /** The order in which the list scheduler places the instructions, last one first. */
  method OrderBlock(sm: Target, code: seq<Inst>)
    returns (order: seq<nat>, cycles: nat, ghost es: Edges, ghost rg: Edges, ghost first: seq<Label>, ghost end: Times)
    ensures ScheduleRun(sm, code, order, cycles, es, rg, first, end)
  {
    var g := GenerateDepGraph(sm, code);
    ghost var initial := g.labels;
    es := g.edges;
    JustifiedIsForward(sm, code, es);
    var ready := CalcStatistics(g);
    g.Reverse();
    rg, first := g.edges, g.labels;
    ReversedIsBackward(es, rg);
    order, cycles, end := GenerateOrder(g, ready);
    OrderIsGood(sm, code, es, initial, rg, first, order, cycles, end);
    LabelsAreFinal(sm, code, es, initial, first);
  }

  lemma {:induction false} LabelsAreFinal(sm: Target, code: seq<Inst>, es: Edges, initial: seq<Label>,
                                          first: seq<Label>)
    requires GraphFrom(sm, code, 0, initial, es) && SameTimes(initial, first)
    requires forall i :: 0 <= i < |first| ==> IsLongest(es, i, first[i].cyclesToEnd)
    ensures FinalLabels(sm, code, es, first)
  {
    forall i: nat | i < |code| ensures Labelled(sm, code, i, first[i]) {
      assert Labelled(sm, code, i, initial[i]);
    }
  }

  // ---- what the instructions compute ----

  datatype State<!V, !M> = State(regs: Reg -> V, mem: M)

  /** Any meaning of instructions: the value each destination register gets and the new
      memory, from the values of the registers named and, unless the instruction has no
      effect, the memory. */
  datatype Meaning<!V, !M> = Meaning(value: (Inst, seq<V>, Option<M>, Reg) -> V, store: (Inst, seq<V>, M) -> M)

  ghost function Regs(cells: seq<(nat, Reg)>): seq<Reg> {
    seq(|cells|, k requires 0 <= k < |cells| => cells[k].1)
  }

  /** Everything an instruction may look at: its sources, its guard, and what its destinations
      held, which a guarded instruction may leave in place. */
  ghost function Inputs(a: Inst): seq<Reg> {
    Regs(Cells(a.srcs)) + (if a.guard.Some? then [a.guard.value] else []) + Regs(Cells(a.dsts))
  }

  ghost function Values<V, M>(rs: seq<Reg>, s: State<V, M>): seq<V> {
    seq(|rs|, k requires 0 <= k < |rs| => s.regs(rs[k]))
  }

  ghost predicate WritesReg(a: Inst, r: Reg) {
    r in Regs(Cells(a.dsts))
  }

  ghost function Execute<V, M>(m: Meaning<V, M>, a: Inst, s: State<V, M>): State<V, M> {
    var vs := Values(Inputs(a), s);
    var seen := if a.effect == NoEffect then None else Some(s.mem);
    State(r => if WritesReg(a, r) then m.value(a, vs, seen, r) else s.regs(r),
          if a.effect == NoEffect then s.mem else m.store(a, vs, s.mem))
  }

  ghost predicate Same<V(!new), M(!new)>(s: State<V, M>, t: State<V, M>) {
    s.mem == t.mem && forall r: Reg :: s.regs(r) == t.regs(r)
  }

  /** The two instructions may influence each other. */
  ghost predicate Conflict(a: Inst, b: Inst) {
    || (exists r: Reg :: WritesReg(a, r) && r in Inputs(b))
    || (exists r: Reg :: r in Inputs(a) && WritesReg(b, r))
    || (a.effect != NoEffect && b.effect != NoEffect)
  }

  lemma {:induction false} ExecuteSame<V(!new), M(!new)>(m: Meaning<V, M>, a: Inst, s: State<V, M>, t: State<V, M>)
    requires Same(s, t)
    ensures Same(Execute(m, a, s), Execute(m, a, t))
  {
    assert Values(Inputs(a), s) == Values(Inputs(a), t);
  }

  lemma {:induction false} InputsUnchanged<V(!new), M(!new)>(m: Meaning<V, M>, a: Inst, b: Inst, s: State<V, M>)
    requires forall r: Reg :: WritesReg(a, r) ==> r !in Inputs(b)
    ensures Values(Inputs(b), Execute(m, a, s)) == Values(Inputs(b), s)
  {
  }

  lemma {:induction false} Commute<V(!new), M(!new)>(m: Meaning<V, M>, a: Inst, b: Inst, s: State<V, M>)
    requires !Conflict(a, b)
    ensures Same(Execute(m, b, Execute(m, a, s)), Execute(m, a, Execute(m, b, s)))
  {
    InputsUnchanged(m, a, b, s);
    InputsUnchanged(m, b, a, s);
    forall r: Reg ensures !(WritesReg(a, r) && WritesReg(b, r)) {
      if WritesReg(b, r) { assert r in Inputs(b); }
    }
  }

  /** Runs the instructions of `code` in the order of `idx`. */
  ghost function Run<V, M>(m: Meaning<V, M>, code: seq<Inst>, idx: seq<nat>, s: State<V, M>): State<V, M>
    requires forall k :: 0 <= k < |idx| ==> idx[k] < |code|
    decreases |idx|
  {
    if idx == [] then s else Run(m, code, idx[1..], Execute(m, code[idx[0]], s))
  }

  ghost predicate AllIn(idx: seq<nat>, n: nat) {
    forall k :: 0 <= k < |idx| ==> idx[k] < n
  }

  lemma {:induction false} RunSame<V(!new), M(!new)>(m: Meaning<V, M>, code: seq<Inst>, idx: seq<nat>, s: State<V, M>,
                                     t: State<V, M>)
    requires AllIn(idx, |code|) && Same(s, t)
    ensures Same(Run(m, code, idx, s), Run(m, code, idx, t))
    decreases |idx|
  {
    if idx != [] {
      ExecuteSame(m, code[idx[0]], s, t);
      RunSame(m, code, idx[1..], Execute(m, code[idx[0]], s), Execute(m, code[idx[0]], t));
    }
  }

  /** An instruction may be moved before others that it does not conflict with. */
  lemma {:induction false} MoveToFront<V(!new), M(!new)>(m: Meaning<V, M>, code: seq<Inst>, before: seq<nat>, x: nat,
                                         after: seq<nat>, s: State<V, M>)
    requires AllIn(before, |code|) && x < |code| && AllIn(after, |code|)
    requires forall k :: 0 <= k < |before| ==> !Conflict(code[before[k]], code[x])
    ensures Same(Run(m, code, before + [x] + after, s), Run(m, code, [x] + before + after, s))
    decreases |before|
  {
    var l, r := before + [x] + after, [x] + before + after;
    if before == [] {
      assert l == r;
    } else {
      var y, rest := before[0], before[1..];
      var t := Execute(m, code[y], s);
      assert l[0] == y && l[1..] == rest + [x] + after;
      MoveToFront(m, code, rest, x, after, t);
      assert ([x] + rest + after)[1..] == rest + after;
      SwapFirst(m, code, y, x, rest + after, s);
      assert r == [x, y] + (rest + after);
    }
  }

  lemma {:induction false} SwapFirst<V(!new), M(!new)>(m: Meaning<V, M>, code: seq<Inst>, y: nat, x: nat,
                                       rest: seq<nat>, s: State<V, M>)
    requires x < |code| && y < |code| && AllIn(rest, |code|) && !Conflict(code[y], code[x])
    ensures Same(Run(m, code, rest, Execute(m, code[x], Execute(m, code[y], s))), Run(m, code, [x, y] + rest, s))
  {
    var all := [x, y] + rest;
    assert all[0] == x && all[1..] == [y] + rest && ([y] + rest)[0] == y && ([y] + rest)[1..] == rest;
    Commute(m, code[y], code[x], s);
    RunSame(m, code, rest, Execute(m, code[x], Execute(m, code[y], s)), Execute(m, code[y], Execute(m, code[x], s)));
  }

  /** Positions that keep conflicting instructions in order. */
  ghost predicate KeepsConflicts(code: seq<Inst>, pos: nat -> int) {
    forall i: nat, j: nat :: i < j < |code| && Conflict(code[i], code[j]) ==> pos(i) < pos(j)
  }

  ghost predicate Increasing(xs: seq<nat>) {
    forall a, b :: 0 <= a < b < |xs| ==> xs[a] < xs[b]
  }

  ghost predicate IncreasingBy(ys: seq<nat>, pos: nat -> int) {
    forall a, b :: 0 <= a < b < |ys| ==> pos(ys[a]) < pos(ys[b])
  }

  /** Running `ys` is running its element `x == xs[0]` first and then the others. */
  lemma {:induction false} BringFirst<V(!new), M(!new)>(m: Meaning<V, M>, code: seq<Inst>, xs: seq<nat>, ys: seq<nat>,
                                        pos: nat -> int, k: nat, s: State<V, M>)
    requires xs != [] && AllIn(xs, |code|) && AllIn(ys, |code|) && KeepsConflicts(code, pos)
    requires Increasing(xs) && IncreasingBy(ys, pos) && (forall i: nat :: i in xs <==> i in ys)
    requires k < |ys| && ys[k] == xs[0]
    ensures Same(Run(m, code, ys, s), Run(m, code, ys[..k] + ys[k + 1..], Execute(m, code[xs[0]], s)))
  {
    var before, x, after := ys[..k], xs[0], ys[k + 1..];
    assert ys == before + [x] + after;
    forall c | 0 <= c < |before| ensures !Conflict(code[before[c]], code[x]) {
      FirstMayMove(code, xs, ys, pos, k, c);
    }
    MoveToFront(m, code, before, x, after, s);
    var front := [x] + before + after;
    assert front[0] == x && front[1..] == before + after;
  }

  lemma {:induction false} NothingLeft(ys: seq<nat>)
    requires forall i: nat :: i !in ys
    ensures ys == []
  {
    if ys != [] { FirstIn(ys); }
  }

  lemma {:induction false} FirstIn(ys: seq<nat>)
    requires ys != []
    ensures ys[0] in ys
  {
  }

  /** Any two orders of the same instructions that agree on conflicting ones compute the same. */
  lemma {:induction false} ReorderSame<V(!new), M(!new)>(m: Meaning<V, M>, code: seq<Inst>, xs: seq<nat>, ys: seq<nat>,
                                         pos: nat -> int, s: State<V, M>)
    requires AllIn(xs, |code|) && AllIn(ys, |code|) && KeepsConflicts(code, pos)
    requires Increasing(xs) && IncreasingBy(ys, pos) && (forall i: nat :: i in xs <==> i in ys)
    ensures Same(Run(m, code, xs, s), Run(m, code, ys, s))
    decreases |xs|
  {
    if xs == [] {
      NothingLeft(ys);
    } else {
      assert xs[0] in ys;
      var k :| 0 <= k < |ys| && ys[k] == xs[0];
      BringFirst(m, code, xs, ys, pos, k, s);
      WithoutFirst(xs, ys, pos, k);
      ReorderSame(m, code, xs[1..], ys[..k] + ys[k + 1..], pos, Execute(m, code[xs[0]], s));
    }
  }

  lemma {:induction false} FirstMayMove(code: seq<Inst>, xs: seq<nat>, ys: seq<nat>, pos: nat -> int, k: nat, c: nat)
    requires xs != [] && AllIn(xs, |code|) && AllIn(ys, |code|) && KeepsConflicts(code, pos)
    requires Increasing(xs) && IncreasingBy(ys, pos) && (forall i: nat :: i in xs <==> i in ys)
    requires c < k < |ys| && ys[k] == xs[0]
    ensures !Conflict(code[ys[c]], code[xs[0]])
  {
    var x, y := xs[0], ys[c];
    assert y in ys && y in xs;
    var a :| 0 <= a < |xs| && xs[a] == y;
    assert pos(y) < pos(x);
    assert y != x;
    ConflictSymmetric(code[x], code[y]);
  }

  lemma {:induction false} ConflictSymmetric(a: Inst, b: Inst)
    ensures Conflict(a, b) <==> Conflict(b, a)
  {
  }

  lemma {:induction false} WithoutFirst(xs: seq<nat>, ys: seq<nat>, pos: nat -> int, k: nat)
    requires xs != [] && Increasing(xs) && IncreasingBy(ys, pos) && (forall i: nat :: i in xs <==> i in ys)
    requires k < |ys| && ys[k] == xs[0]
    ensures Increasing(xs[1..]) && IncreasingBy(ys[..k] + ys[k + 1..], pos)
    ensures forall i: nat :: i in xs[1..] <==> i in ys[..k] + ys[k + 1..]
  {
    var rest := ys[..k] + ys[k + 1..];
    assert forall a :: 0 <= a < |rest| ==> rest[a] == ys[if a < k then a else a + 1];
    forall i: nat ensures i in xs[1..] <==> i in rest {
      assert i in xs <==> i == xs[0] || i in xs[1..];
      assert ys == ys[..k] + [ys[k]] + ys[k + 1..];
      assert i in ys <==> i in rest || i == ys[k];
      if i in rest {
        var a :| 0 <= a < |rest| && rest[a] == i;
        assert pos(ys[k]) != pos(i);
      }
      if i in xs[1..] {
        var a :| 0 <= a < |xs[1..]| && xs[1..][a] == i;
        assert xs[a + 1] == i;
      }
    }
  }

  // ---- guards ----

  /** A run of dependences leads from `i` to `j`. */
  ghost predicate Chain(code: seq<Inst>, p: seq<nat>, i: nat, j: nat) {
    && |p| > 0 && p[0] == i && p[|p| - 1] == j
    && (forall k :: 0 <= k < |p| ==> p[k] < |code|)
    && (forall k :: 0 <= k < |p| - 1 ==> p[k] < p[k + 1] && Depends(code[p[k]], code[p[k + 1]]))
  }

  ghost predicate Chained(code: seq<Inst>, i: nat, j: nat) {
    exists p :: Chain(code, p, i, j)
  }

  /** Whenever a guard's register is written later in the block, dependences lead there. */
  ghost predicate GuardsProtected(code: seq<Inst>) {
    forall i: nat, j: nat, r: Reg :: i < j < |code| && code[i].guard == Some(r) && WritesReg(code[j], r) ==>
      Chained(code, i, j)
  }

  lemma {:induction false} ChainInOrder(sm: Target, code: seq<Inst>, es: Edges, pos: nat -> int, p: seq<nat>, i: nat,
                                        j: nat)
    requires AllNodesOk(sm, code, es) && Respects(es, pos) && Chain(code, p, i, j) && i < j
    ensures pos(i) < pos(j)
    decreases |p|
  {
    assert Depends(code[p[0]], code[p[0 + 1]]);
    DependentsInOrder(sm, code, es, pos, i, p[1]);
    if |p| > 2 {
      var q := p[1..];
      assert forall k :: 0 <= k < |q| ==> q[k] == p[k + 1];
      assert p[1] < p[1 + 1];
      ChainGrows(code, q, p[1], j);
      ChainInOrder(sm, code, es, pos, q, p[1], j);
    }
  }

  lemma {:induction false} ChainGrows(code: seq<Inst>, p: seq<nat>, i: nat, j: nat)
    requires Chain(code, p, i, j)
    ensures i <= j && (|p| > 1 ==> i < j)
    decreases |p|
  {
    if |p| > 1 {
      var q := p[1..];
      assert p[0] < p[0 + 1];
      assert forall k :: 0 <= k < |q| ==> q[k] == p[k + 1];
      ChainGrows(code, q, p[1], j);
    }
  }

  lemma {:induction false} RegsOf(vs: seq<seq<Reg>>, r: Reg)
    ensures r in Regs(Cells(vs)) <==> exists i: nat :: i < |vs| && r in vs[i]
  {
    var cells := Cells(vs);
    if r in Regs(cells) {
      var k :| 0 <= k < |cells| && Regs(cells)[k] == r;
      assert (cells[k].0, r) in cells;
      CellsAre(vs, cells[k].0, r);
    }
    if i: nat :| i < |vs| && r in vs[i] {
      CellsAre(vs, i, r);
      var k :| 0 <= k < |cells| && cells[k] == (i, r);
      assert Regs(cells)[k] == r;
    }
  }

  lemma {:induction false} WritesRegIs(a: Inst, r: Reg)
    ensures WritesReg(a, r) <==> Writes(a, r)
  {
    RegsOf(a.dsts, r);
    if i: nat :| i < |a.dsts| && r in a.dsts[i] { assert WritesAt(a, i, r); }
    if d: nat :| WritesAt(a, d, r) { assert d < |a.dsts| && r in a.dsts[d]; }
  }

  /** What an instruction looks at is read as an operand or written. */
  lemma {:induction false} InputsAre(a: Inst, r: Reg)
    ensures r in Inputs(a) <==> Writes(a, r) || exists o: Operand :: ReadsAs(a, o, r)
  {
    RegsOf(a.srcs, r);
    WritesRegIs(a, r);
    assert r in Inputs(a) <==> r in Regs(Cells(a.srcs)) || ReadsAs(a, Guard, r) || WritesReg(a, r);
    if i: nat :| i < |a.srcs| && r in a.srcs[i] { assert ReadsAs(a, Source(i), r); }
    if o: Operand :| ReadsAs(a, o, r) {
      assert o.Source? ==> o.idx < |a.srcs| && r in a.srcs[o.idx];
    }
  }

  /** Conflicts are dependences, apart from guards that are overwritten later. */
  lemma {:induction false} ConflictIs(a: Inst, b: Inst)
    ensures Conflict(a, b) ==> Depends(a, b) || (a.guard.Some? && WritesReg(b, a.guard.value))
  {
    if r: Reg :| WritesReg(a, r) && r in Inputs(b) {
      WritesRegIs(a, r);
      InputsAre(b, r);
    } else if r: Reg :| r in Inputs(a) && WritesReg(b, r) {
      WritesRegIs(b, r);
      InputsAre(a, r);
      if !Writes(a, r) {
        var o: Operand :| ReadsAs(a, o, r);
      }
    }
  }

  lemma {:induction false} ProtectedKeepsConflicts(sm: Target, code: seq<Inst>, es: Edges, pos: nat -> int)
    requires AllNodesOk(sm, code, es) && Respects(es, pos) && GuardsProtected(code)
    ensures KeepsConflicts(code, pos)
  {
    forall i: nat, j: nat | i < j < |code| && Conflict(code[i], code[j]) ensures pos(i) < pos(j) {
      ConflictIs(code[i], code[j]);
      if Depends(code[i], code[j]) {
        DependentsInOrder(sm, code, es, pos, i, j);
      } else {
        var p :| Chain(code, p, i, j);
        ChainInOrder(sm, code, es, pos, p, i, j);
      }
    }
  }

  /** Puts everything that leads to `j` first. */
  ghost function Pulled(code: seq<Inst>, j: nat): nat -> int {
    (k: nat) => if Chained(code, k, j) then k else |code| + k
  }

  lemma {:induction false} LinkedDepends(sm: Target, code: seq<Inst>, es: Edges, i: nat, j: nat)
    requires AllNodesOk(sm, code, es) && Linked(es, i, j)
    ensures i < j < |code| && Depends(code[i], code[j])
  {
    var l: nat :| HasEdge(es, i, j, l);
    var k :| 0 <= k < |es[i]| && es[i][k] == Edge(l, j);
    assert JustifiedEdge(sm, code, i, es[i][k]);
    JustifiedDepends(sm, code, i, es[i][k]);
  }

  lemma {:induction false} ChainedNext(code: seq<Inst>, i: nat)
    requires i + 1 < |code| && Chained(code, i, i + 1)
    ensures Depends(code[i], code[i + 1])
  {
    var p :| Chain(code, p, i, i + 1);
    var q := p[1..];
    assert p[0] < p[0 + 1] && Depends(code[p[0]], code[p[0 + 1]]);
    assert forall k :: 0 <= k < |q| ==> q[k] == p[k + 1];
    ChainGrows(code, q, p[1], i + 1);
  }

  lemma {:induction false} PulledRespects(sm: Target, code: seq<Inst>, es: Edges, j: nat)
    requires AllNodesOk(sm, code, es)
    ensures Respects(es, Pulled(code, j))
  {
    forall a: nat, b: nat | Linked(es, a, b) ensures Pulled(code, j)(a) < Pulled(code, j)(b) {
      LinkedDepends(sm, code, es, a, b);
      if Chained(code, b, j) {
        var p :| Chain(code, p, b, j);
        var q := [a] + p;
        assert forall k :: 0 < k < |q| ==> q[k] == p[k - 1];
        assert Chain(code, q, a, j);
      }
    }
  }

  /** The edges force every conflicting pair to stay in order exactly when guards are
      protected: otherwise some order respects all edges and moves a write before the guard. */
  lemma {:induction false} OrderKeptIffProtected(sm: Target, code: seq<Inst>, es: Edges)
    requires AllNodesOk(sm, code, es)
    ensures GuardsProtected(code) <==> forall pos: nat -> int :: Respects(es, pos) ==> KeepsConflicts(code, pos)
  {
    if GuardsProtected(code) {
      forall pos: nat -> int | Respects(es, pos) ensures KeepsConflicts(code, pos) {
        ProtectedKeepsConflicts(sm, code, es, pos);
      }
    } else {
      var i: nat, j: nat, r: Reg :| i < j < |code| && code[i].guard == Some(r) && WritesReg(code[j], r) &&
        !Chained(code, i, j);
      PulledRespects(sm, code, es, j);
      InputsAre(code[i], r);
      assert ReadsAs(code[i], Guard, r);
      assert Conflict(code[i], code[j]);
      assert Chain(code, [j], j, j);
      assert Pulled(code, j)(i) > Pulled(code, j)(j);
    }
  }

  ghost function Identity(n: nat): seq<nat> {
    seq(n, i requires 0 <= i < n => i)
  }

  /** The sequence of instructions run in order. */
  ghost function RunCode<V, M>(m: Meaning<V, M>, code: seq<Inst>, s: State<V, M>): State<V, M> {
    Run(m, code, Identity(|code|), s)
  }

  lemma {:induction false} GoodComputesSame<V(!new), M(!new)>(m: Meaning<V, M>, sm: Target, code: seq<Inst>,
                                              sched: seq<nat>, cycles: nat, es: Edges, end: Times, s: State<V, M>)
    requires GoodSchedule(sm, code, sched, cycles, es, end) && GuardsProtected(code)
    ensures Same(RunCode(m, code, s), Run(m, code, sched, s))
  {
    var pos := Positions(sched);
    ProtectedKeepsConflicts(sm, code, es, pos);
    forall a, b | 0 <= a < b < |sched| ensures pos(sched[a]) < pos(sched[b]) {
      assert sched[a] in sched && sched[b] in sched;
    }
    forall i: nat ensures i in Identity(|code|) <==> i in sched {
      if i < |code| { assert Identity(|code|)[i] == i; }
    }
    ReorderSame(m, code, Identity(|code|), sched, pos, s);
  }

  /** Running positions of `code` is running the picked instructions from the front. */
  lemma {:induction false} PickedRuns<V(!new), M(!new)>(m: Meaning<V, M>, code: seq<Inst>, sched: seq<nat>,
                                        out: seq<Inst>, k: nat, s: State<V, M>)
    requires AllIn(sched, |code|) && out == Picked(code, sched) && k <= |sched|
    ensures Run(m, out, Identity(|out|)[k..], s) == Run(m, code, sched[k..], s)
    decreases |sched| - k
  {
    if k < |sched| {
      var idx := Identity(|out|)[k..];
      assert idx[0] == k && idx[1..] == Identity(|out|)[k + 1..] && sched[k..][1..] == sched[k + 1..];
      PickedRuns(m, code, sched, out, k + 1, Execute(m, out[k], s));
    }
  }

  /** Scheduling does not change what a block computes, for any meaning of its instructions. */
  lemma {:induction false} ScheduleComputesSame<V(!new), M(!new)>(m: Meaning<V, M>, sm: Target, code: seq<Inst>,
                                                  out: seq<Inst>, cycles: nat, s: State<V, M>)
    requires IsSchedule(sm, code, out, cycles) && GuardsProtected(code)
    ensures Same(RunCode(m, code, s), RunCode(m, out, s))
  {
    var sched :| Arranges(sm, code, sched, cycles) && IsPermutation(sched, |code|) && out == Picked(code, sched);
    var order, es, rg, first, end :| ScheduleRun(sm, code, order, cycles, es, rg, first, end) &&
      sched == Reversed<nat>(order);
    GoodComputesSame(m, sm, code, sched, cycles, es, end, s);
    PickedRuns(m, code, sched, out, 0, s);
    assert Identity(|out|)[0..] == Identity(|out|) && sched[0..] == sched;
  }
}
