/**
 Blocks in which a guard is overwritten with nothing but the guard itself in between:
 on some targets the scheduler moves the write before the guarded instruction.
 */
module GuardOrder {
  import opened Basics
  import opened Registers
  import opened DepGraphs
  import opened Dependences
  import opened ListSchedule
  import opened Scheduler

  /** Everything takes one cycle, and only what copies of `a` write has a latency. */
  function Delaying(a: Inst, delay: nat): Target {
    Target(
      (x: Inst, d: nat, g: bool, y: Inst, e: nat) => if x == a then delay else 0,
      (x: Inst, d: nat, y: Inst, i: nat) => if x == a then delay else 0,
      (x: Inst, d: nat) => if x == a then delay else 0,
      (x: Inst, i: nat, y: Inst, e: nat) => if x == a then delay else 0,
      (x: Inst, d: nat) => if x == a then delay else 0,
      (x: Inst) => 1, (x: Inst) => false, (x: Inst) => 0)
  }

  // ---- the delayed write ends late ----

  lemma {:induction false} LinkedEnds(es: Edges, end: Times, i: nat, j: nat)
    requires MeetsLatencies(es, end) && Linked(es, i, j)
    ensures i in end && j in end && end[i] >= end[j]
  {
    var l: nat :| HasEdge(es, i, j, l);
  }

  /** Counting back, an earlier write of a register does not end before a later one. */
  lemma {:induction false} WritersEnd(sm: Target, code: seq<Inst>, es: Edges, end: Times, i: nat, j: nat, r: Reg)
    requires AllNodesOk(sm, code, es) && MeetsLatencies(es, end) && i < j < |code| && Writes(code[i], r)
    requires Writes(code[j], r)
    ensures i in end && j in end && end[i] >= end[j]
    decreases j - i
  {
    if Untouched(code, i, j, r) {
      WawLink(sm, code, es, i, j, r);
      LinkedEnds(es, end, i, j);
    } else {
      var k := Between(code, i, j, r);
      WritersEnd(sm, code, es, end, i, k, r);
      WritersEnd(sm, code, es, end, k, j, r);
    }
  }

  /** And the delayed one a whole delay after it. */
  lemma {:induction false} DelayedEnds(code: seq<Inst>, es: Edges, end: Times, delay: nat, j: nat, d: nat, r: Reg)
    requires j < d < |code| && AllNodesOk(Delaying(code[j], delay), code, es) && MeetsLatencies(es, end)
    requires Writes(code[j], r) && Writes(code[d], r)
    ensures j in end && d in end && end[j] >= end[d] + delay
    decreases d - j
  {
    var sm := Delaying(code[j], delay);
    if Untouched(code, j, d, r) {
      assert WawEdges(sm, code, j, es[j]);
      var x: nat :| WritesAt(code[j], x, r);
      var e: nat, l: nat :| WritesAt(code[d], e, r) && sm.WawIs(code[j], x, code[d], e, l) && Edge(l, d) in es[j];
      assert HasEdge(es, j, d, l);
    } else {
      var k := Between(code, j, d, r);
      DelayedEnds(code, es, end, delay, j, k, r);
      WritersEnd(sm, code, es, end, k, d, r);
    }
  }

  lemma {:induction false} DelayedWrites(code: seq<Inst>, delay: nat, j: nat, r: Reg, end: nat)
    requires j < |code| && WritesReg(code[j], r) && EndsInTime(Delaying(code[j], delay), code, j, end)
    ensures end >= delay
  {
    WritesRegIs(code[j], r);
    var d: nat :| WritesAt(code[j], d, r);
    assert Delaying(code[j], delay).worst(code[j], d) == delay;
  }

  /** Edges from other instructions have no latency. */
  lemma {:induction false} OthersFree(code: seq<Inst>, es: Edges, delay: nat, a: Inst, k: nat, j: nat, l: nat)
    requires AllNodesOk(Delaying(a, delay), code, es) && HasEdge(es, k, j, l) && code[k] != a
    ensures l == 0
  {
    var m :| 0 <= m < |es[k]| && es[k][m] == Edge(l, j);
    assert JustifiedEdge(Delaying(a, delay), code, k, es[k][m]);
  }

  // ---- what the guarded instruction waits for ----

  /** The block has a guard of instruction `i`, register `r`, that instruction `j` overwrites and no
      dependences lead from one to the other. */
  ghost predicate Unprotected(code: seq<Inst>, i: nat, j: nat, r: Reg) {
    i < j < |code| && code[i].guard == Some(r) && WritesReg(code[j], r) && !Chained(code, i, j)
  }

  lemma {:induction false} ChainedOn(code: seq<Inst>, i: nat, k: nat, h: nat)
    requires Chained(code, i, k) && k < h < |code| && Depends(code[k], code[h])
    ensures Chained(code, i, h)
  {
    var p :| Chain(code, p, i, k);
    assert Chain(code, p + [h], i, h);
  }

  /** Copies of the write of the guard that `i` waits for come after it. */
  ghost predicate LaterCopies(code: seq<Inst>, i: nat, j: nat)
    requires j < |code|
  {
    forall k: nat :: k < |code| && Chained(code, i, k) && code[k] == code[j] ==> j < k
  }

  lemma {:induction false} CopiesAreLater(code: seq<Inst>, i: nat, j: nat, r: Reg)
    requires Unprotected(code, i, j, r)
    ensures LaterCopies(code, i, j)
  {
    WritesRegIs(code[j], r);
    forall k: nat | k < |code| && Chained(code, i, k) && code[k] == code[j] ensures j < k {
      if k < j {
        ChainedOn(code, i, k, j);
      }
    }
  }

  /** The last of the instructions that `i` waits for, itself included, that is not placed. */
  ghost predicate LastWaiting(code: seq<Inst>, i: nat, placed: seq<nat>, m: nat) {
    && m < |code| && Chained(code, i, m) && m !in placed
    && forall h: nat :: m < h < |code| && Chained(code, i, h) ==> h in placed
  }

  lemma {:induction false} LastUnplaced(code: seq<Inst>, i: nat, placed: seq<nat>, k: nat) returns (m: nat)
    requires k < |code| && Chained(code, i, k) && k !in placed
    ensures LastWaiting(code, i, placed, m)
    decreases |code| - k
  {
    if h: nat :| k < h < |code| && Chained(code, i, h) && h !in placed {
      m := LastUnplaced(code, i, placed, h);
    } else {
      m := k;
    }
  }

  // ---- no idling while it can be placed ----

  lemma {:induction false} EndsGrow(rg: Edges, first: seq<Label>, order: seq<nat>, cycles: nat, end: Times, m: nat,
                                    n: nat)
    requires Scheduled(rg, first, order, cycles, end) && m <= n < |order|
    ensures order[m] in end && order[n] in end && end[order[m]] <= end[order[n]]
    decreases n
  {
    assert PlacedWell(rg, first, order, end, n) && PlacedWell(rg, first, order, end, m);
    assert order[m] in order && order[n] in order;
    if m < n {
      EndsGrow(rg, first, order, cycles, end, m, n - 1);
    }
  }

  lemma {:induction false} PlacedByThen(rg: Edges, first: seq<Label>, order: seq<nat>, cycles: nat, end: Times, m: nat,
                                        h: nat)
    requires Scheduled(rg, first, order, cycles, end) && m <= |order| && h in order[..m]
    ensures h in end && end[h] <= LastEnd(order[..m], end)
  {
    var n :| 0 <= n < m && order[n] == h;
    EndsGrow(rg, first, order, cycles, end, n, m - 1);
    assert order[..m][m - 1] == order[m - 1];
  }

  lemma {:induction false} WaitedEnd(code: seq<Inst>, a: Inst, delay: nat, es: Edges, rg: Edges, first: seq<Label>,
                                     order: seq<nat>, cycles: nat, end: Times, i: nat, m: nat, k: nat, h: nat, l: nat)
    requires AllNodesOk(Delaying(a, delay), code, es) && Reversal(es, rg) && Scheduled(rg, first, order, cycles, end)
    requires HasEdge(rg, h, k, l) && m <= |order| && k < |code| && Chained(code, i, k) && code[k] != a
    requires forall h: nat :: k < h < |code| && Chained(code, i, h) ==> h in order[..m]
    ensures h in order[..m] && h in end && end[h] + l <= LastEnd(order[..m], end)
  {
    assert HasEdge(es, k, h, l);
    assert Linked(es, k, h);
    LinkedDepends(Delaying(a, delay), code, es, k, h);
    ChainedOn(code, i, k, h);
    PlacedByThen(rg, first, order, cycles, end, m, h);
    OthersFree(code, es, delay, a, k, h, l);
  }

  lemma {:induction false} FirstIs(code: seq<Inst>, a: Inst, delay: nat, first: seq<Label>, k: nat)
    requires InitialTimes(Delaying(a, delay), code, first) && k < |code|
    ensures first[k].execLatency == 1 && (code[k] != a ==> first[k].readyCycle == 1)
  {
    assert Labelled(Delaying(a, delay), code, k, first[k]);
  }

  /** The last unplaced of the instructions that `i` waits for can be placed as soon as the one
      before ended, unless it is a copy of the write. */
  lemma {:induction false} SomeReady(code: seq<Inst>, a: Inst, delay: nat, es: Edges, rg: Edges, first: seq<Label>,
                                     order: seq<nat>, cycles: nat, end: Times, i: nat, m: nat, k: nat)
    requires AllNodesOk(Delaying(a, delay), code, es) && Reversal(es, rg) && Scheduled(rg, first, order, cycles, end)
    requires InitialTimes(Delaying(a, delay), code, first)
    requires m <= |order| && LastWaiting(code, i, order[..m], k) && code[k] != a
    ensures ReadyAt(rg, first, order[..m], end, k, LastEnd(order[..m], end))
  {
    forall h: nat, l: nat | HasEdge(rg, h, k, l)
      ensures h in order[..m] && h in end && end[h] + l <= LastEnd(order[..m], end)
    {
      WaitedEnd(code, a, delay, es, rg, first, order, cycles, end, i, m, k, h, l);
    }
    FirstIs(code, a, delay, first, k);
  }

  // ---- the guarded instruction is placed before the delayed write ----

  /** What matters of a run on the delaying target, besides how it goes. */
  ghost predicate DelayedTimes(code: seq<Inst>, i: nat, j: nat, rg: Edges, first: seq<Label>, order: seq<nat>,
                               end: Times) {
    && |first| == |code| && i < |code| && j < |code| && j in end && end[j] >= |code| + 1
    && (forall k: nat :: k < |code| ==> first[k].execLatency == 1)
    && CopiesEnd(code, j, |code| + 1, end, |code|) && WaitingReady(code, i, code[j], rg, first, order, end)
  }

  ghost predicate CopiesEnd(code: seq<Inst>, j: nat, delay: nat, end: Times, n: nat)
    requires j < n <= |code| && j in end
  {
    forall k: nat :: j < k < n && code[k] == code[j] ==> k in end && end[k] + delay <= end[j]
  }

  ghost predicate WaitingReady(code: seq<Inst>, i: nat, a: Inst, rg: Edges, first: seq<Label>, order: seq<nat>,
                               end: Times) {
    forall m: nat, k: nat {:trigger LastWaiting(code, i, order[..m], k)} ::
      m <= |order| && LastWaiting(code, i, order[..m], k) && code[k] != a ==>
        ReadyAt(rg, first, order[..m], end, k, LastEnd(order[..m], end))
  }

  lemma {:induction false} AllReady(code: seq<Inst>, a: Inst, delay: nat, es: Edges, rg: Edges, first: seq<Label>,
                                    order: seq<nat>, cycles: nat, end: Times, i: nat)
    requires AllNodesOk(Delaying(a, delay), code, es) && Reversal(es, rg) && Scheduled(rg, first, order, cycles, end)
    requires InitialTimes(Delaying(a, delay), code, first)
    ensures WaitingReady(code, i, a, rg, first, order, end)
  {
    forall m: nat, k: nat | m <= |order| && LastWaiting(code, i, order[..m], k) && code[k] != a
      ensures ReadyAt(rg, first, order[..m], end, k, LastEnd(order[..m], end))
    {
      SomeReady(code, a, delay, es, rg, first, order, cycles, end, i, m, k);
    }
  }

  lemma {:induction false} CopyEnds(code: seq<Inst>, j: nat, r: Reg, delay: nat, es: Edges, end: Times, k: nat)
    requires j < k < |code| && WritesReg(code[j], r) && code[k] == code[j]
    requires AllNodesOk(Delaying(code[j], delay), code, es) && MeetsLatencies(es, end)
    ensures j in end && k in end && end[k] + delay <= end[j]
  {
    WritesRegIs(code[j], r);
    DelayedEnds(code, es, end, delay, j, k, r);
  }

  lemma {:induction false} AllCopiesEnd(code: seq<Inst>, j: nat, r: Reg, delay: nat, es: Edges, end: Times, n: nat)
    requires j < n <= |code| && j in end && WritesReg(code[j], r)
    requires AllNodesOk(Delaying(code[j], delay), code, es) && MeetsLatencies(es, end)
    ensures CopiesEnd(code, j, delay, end, n)
  {
    if n > j + 1 {
      AllCopiesEnd(code, j, r, delay, es, end, n - 1);
      if code[n - 1] == code[j] { CopyEnds(code, j, r, delay, es, end, n - 1); }
    }
  }

  lemma {:induction false} RunIsDelayed(code: seq<Inst>, a: Inst, delay: nat, i: nat, j: nat, r: Reg, order: seq<nat>,
                                        cycles: nat, es: Edges, rg: Edges,
                                        first: seq<Label>, end: Times)
    requires i < |code| && j < |code| && WritesReg(code[j], r) && code[j] == a && delay == |code| + 1
    requires AllNodesOk(Delaying(a, delay), code, es) && InitialTimes(Delaying(a, delay), code, first)
    requires MeetsLatencies(es, end) && Reversal(es, rg) && Scheduled(rg, first, order, cycles, end)
    requires j in end && EndsInTime(Delaying(a, delay), code, j, end[j])
    ensures DelayedTimes(code, i, j, rg, first, order, end)
  {
    DelayedWrites(code, delay, j, r, end[j]);
    AllCopiesEnd(code, j, r, delay, es, end, |code|);
    AllFirst(code, a, delay, first);
    AllReady(code, a, delay, es, rg, first, order, cycles, end, i);
  }

  lemma {:induction false} AllFirst(code: seq<Inst>, a: Inst, delay: nat, first: seq<Label>)
    requires InitialTimes(Delaying(a, delay), code, first)
    ensures forall k: nat :: k < |code| ==> first[k].execLatency == 1
  {
    forall k: nat | k < |code| ensures first[k].execLatency == 1 {
      FirstIs(code, a, delay, first, k);
    }
  }

  lemma {:induction false} PrefixHas(order: seq<nat>, m: nat, n: nat)
    requires m <= |order| && n < |order|
    ensures n < m ==> order[n] in order[..m]
  {
    if n < m { assert order[..m][n] == order[n]; }
  }

  lemma {:induction false} UnplacedIsLater(order: seq<nat>, m: nat, h: nat) returns (n: nat)
    requires m <= |order| && h in order && h !in order[..m]
    ensures m <= n < |order| && order[n] == h
  {
    n :| n < |order| && order[n] == h;
    PrefixHas(order, m, n);
  }

  /** As long as something that `i` waits for is unplaced, instructions follow each other closely,
      but for copies of the write. */
  lemma {:induction false} StartsEarly(code: seq<Inst>, i: nat, j: nat, rg: Edges, first: seq<Label>, order: seq<nat>,
                                       cycles: nat, end: Times, m: nat, k: nat)
    requires DelayedTimes(code, i, j, rg, first, order, end) && LaterCopies(code, i, j)
    requires Scheduled(rg, first, order, cycles, end) && |rg| == |code|
    requires m < |order| && k < |code| && Chained(code, i, k) && k !in order[..m]
    ensures order[m] in end && end[order[m]] + |code| <= end[j] + m
    decreases m
  {
    assert TakenWell(rg, first, order, end, m);
    if m > 0 {
      assert order[..m] == order[..m - 1] + [order[m - 1]];
      StartsEarly(code, i, j, rg, first, order, cycles, end, m - 1, k);
    }
    var last := LastUnplaced(code, i, order[..m], k);
    if code[last] == code[j] {
      var n := UnplacedIsLater(order, m, last);
      EndsGrow(rg, first, order, cycles, end, m, n);
    }
  }

  lemma {:induction false} NotInPrefix(order: seq<nat>, n: nat, m: nat)
    requires n <= m < |order| && forall a, b :: 0 <= a < b < |order| ==> order[a] != order[b]
    ensures order[m] !in order[..n]
  {
  }

  lemma {:induction false} PositionBack(order: seq<nat>, m: nat)
    requires m < |order| && forall a, b :: 0 <= a < b < |order| ==> order[a] != order[b]
    ensures PositionOf(Reversed<nat>(order), order[m]) == |order| - 1 - m
  {
    assert Reversed<nat>(order)[|order| - 1 - m] == order[m];
  }

  lemma {:induction false} PlacedFirst(code: seq<Inst>, i: nat, j: nat, rg: Edges, first: seq<Label>, order: seq<nat>,
                                       cycles: nat, end: Times)
    requires DelayedTimes(code, i, j, rg, first, order, end) && LaterCopies(code, i, j) && i != j
    requires Scheduled(rg, first, order, cycles, end) && |rg| == |code|
    ensures PositionOf(Reversed<nat>(order), j) < PositionOf(Reversed<nat>(order), i)
  {
    assert i in order && j in order;
    var m: nat :| m < |order| && order[m] == i;
    var n: nat :| n < |order| && order[n] == j;
    PositionBack(order, m);
    PositionBack(order, n);
    if n < m {
      NotInPrefix(order, n, m);
      assert Chain(code, [i], i, i);
      StartsEarly(code, i, j, rg, first, order, cycles, end, n, i);
      OrderLength(rg, first, order, cycles, end);
    }
  }

  lemma {:induction false} RunTimes(code: seq<Inst>, a: Inst, delay: nat, i: nat, j: nat, r: Reg, order: seq<nat>,
                                    cycles: nat, es: Edges, rg: Edges, first: seq<Label>, end: Times)
    requires i < |code| && j < |code| && WritesReg(code[j], r) && code[j] == a && delay == |code| + 1
    requires ScheduleRun(Delaying(a, delay), code, order, cycles, es, rg, first, end)
    ensures DelayedTimes(code, i, j, rg, first, order, end)
  {
    assert j in end;
    RunIsDelayed(code, a, delay, i, j, r, order, cycles, es, rg, first, end);
  }

  /** On the delaying target the scheduler moves the write of the guard before the guarded
      instruction. */
  lemma {:induction false} RunReorders(code: seq<Inst>, a: Inst, delay: nat, i: nat, j: nat, r: Reg, order: seq<nat>,
                                       cycles: nat, es: Edges, rg: Edges, first: seq<Label>, end: Times)
    requires i < |code| && j < |code| && i != j && WritesReg(code[j], r) && code[j] == a && delay == |code| + 1
    requires LaterCopies(code, i, j) && ScheduleRun(Delaying(a, delay), code, order, cycles, es, rg, first, end)
    ensures PositionOf(Reversed<nat>(order), j) < PositionOf(Reversed<nat>(order), i)
  {
    RunTimes(code, a, delay, i, j, r, order, cycles, es, rg, first, end);
    PlacedFirst(code, i, j, rg, first, order, cycles, end);
  }

  lemma {:induction false} IndexSet(n: nat) returns (s: set<nat>)
    ensures |s| == n && forall i: nat :: i in s <==> i < n
  {
    s := {};
    if n > 0 {
      s := IndexSet(n - 1);
      s := s + {n - 1};
    }
  }

  lemma {:induction false} DistinctLength(order: seq<nat>, s: set<nat>)
    requires (forall a, b :: 0 <= a < b < |order| ==> order[a] != order[b])
    requires forall k :: 0 <= k < |order| ==> order[k] in s
    ensures |order| <= |s|
    decreases |order|
  {
    if order != [] {
      DistinctLength(order[..|order| - 1], s - {order[|order| - 1]});
    }
  }

  lemma {:induction false} OrderLength(rg: Edges, first: seq<Label>, order: seq<nat>, cycles: nat, end: Times)
    requires Scheduled(rg, first, order, cycles, end)
    ensures |order| <= |rg|
  {
    var s := IndexSet(|rg|);
    forall k | 0 <= k < |order| ensures order[k] in s { assert order[k] in order; }
    DistinctLength(order, s);
  }

  lemma {:induction false} SomeUnprotected(code: seq<Inst>) returns (i: nat, j: nat, r: Reg)
    requires !GuardsProtected(code)
    ensures Unprotected(code, i, j, r)
  {
    i, j, r :| i < j < |code| && code[i].guard == Some(r) && WritesReg(code[j], r) && !Chained(code, i, j);
  }

  /** A guard that is overwritten without dependences in between: there is a target on which the
      scheduler always moves the write before the guarded instruction. */
  lemma {:induction false} UnprotectedReorders(code: seq<Inst>)
    requires !GuardsProtected(code)
    ensures exists sm: Target :: AlwaysReorders(sm, code)
  {
    var i, j, r := SomeUnprotected(code);
    CopiesAreLater(code, i, j, r);
    DelayingReorders(code, code[j], |code| + 1, i, j, r);
  }

  lemma {:induction false} DelayingReorders(code: seq<Inst>, a: Inst, delay: nat, i: nat, j: nat, r: Reg)
    requires i < j < |code| && code[i].guard == Some(r) && WritesReg(code[j], r) && code[j] == a && delay == |code| + 1
    requires LaterCopies(code, i, j)
    ensures AlwaysReorders(Delaying(a, delay), code)
  {
    forall sched, cycles: nat | Arranges(Delaying(a, delay), code, sched, cycles)
      ensures !KeepsConflicts(code, Positions(sched))
    {
      ArrangedTurned(code, a, delay, i, j, r, sched, cycles);
      GuardConflicts(code, i, j, r, sched);
    }
  }

  lemma {:induction false} ArrangedTurned(code: seq<Inst>, a: Inst, delay: nat, i: nat, j: nat, r: Reg, sched: seq<nat>,
                                          cycles: nat)
    requires i < |code| && j < |code| && i != j && WritesReg(code[j], r) && code[j] == a && delay == |code| + 1
    requires LaterCopies(code, i, j) && Arranges(Delaying(a, delay), code, sched, cycles)
    ensures PositionOf(sched, j) < PositionOf(sched, i)
  {
    var order, es, rg, first, end :|
      ScheduleRun(Delaying(a, delay), code, order, cycles, es, rg, first, end) && sched == Reversed<nat>(order);
    RunReorders(code, a, delay, i, j, r, order, cycles, es, rg, first, end);
  }

  /** Two conflicting instructions of the block change places. */
  ghost predicate AlwaysReorders(sm: Target, code: seq<Inst>) {
    forall sched, cycles: nat :: Arranges(sm, code, sched, cycles) ==> !KeepsConflicts(code, Positions(sched))
  }

  lemma {:induction false} GuardConflicts(code: seq<Inst>, i: nat, j: nat, r: Reg, sched: seq<nat>)
    requires i < j < |code| && code[i].guard == Some(r) && WritesReg(code[j], r)
    requires PositionOf(sched, j) < PositionOf(sched, i)
    ensures !KeepsConflicts(code, Positions(sched))
  {
    InputsAre(code[i], r);
    assert ReadsAs(code[i], Guard, r);
    assert Conflict(code[i], code[j]);
  }

  /** Without such a guard no target makes it do so. */
  lemma {:induction false} ProtectedKeepsOrder(code: seq<Inst>)
    requires GuardsProtected(code)
    ensures forall sm: Target, sched, cycles: nat :: Arranges(sm, code, sched, cycles) ==>
      KeepsConflicts(code, Positions(sched))
  {
    forall sm: Target, sched, cycles: nat | Arranges(sm, code, sched, cycles)
      ensures KeepsConflicts(code, Positions(sched))
    {
      var order, es, rg, first, end :| ScheduleRun(sm, code, order, cycles, es, rg, first, end) &&
        sched == Reversed<nat>(order);
      ProtectedKeepsConflicts(sm, code, es, Positions(sched));
    }
  }

  // ---- the smallest such block ----

  const FLAG := Reg(Pred, 0)
  const RESULT := Reg(GPR, 0)

  /** A guarded write of `RESULT`, then a write of the guard. */
  const GUARDED: seq<Inst> := [Inst(0, [[RESULT]], [], Some(FLAG), NoEffect), Inst(1, [[FLAG]], [], None, NoEffect)]

  function Guarded(a: Inst, vs: seq<int>, seen: Option<int>, r: Reg): int {
    if a.op == 1 then 1 else if |vs| == 2 && vs[0] == 1 then 7 else 0
  }

  function NoStore(a: Inst, vs: seq<int>, mem: int): int {
    mem
  }

  lemma {:induction false} GuardedWrites(r: Reg)
    ensures WritesReg(GUARDED[0], r) <==> r == RESULT
    ensures WritesReg(GUARDED[1], r) <==> r == FLAG
    ensures Inputs(GUARDED[0]) == [FLAG, RESULT]
  {
    assert Cells([[RESULT]]) == Cells([]) + Tagged(0, [RESULT]) && Cells([[FLAG]]) == Cells([]) + Tagged(0, [FLAG]);
    assert Tagged(0, [RESULT])[0] == (0, RESULT) && Tagged(0, [FLAG])[0] == (0, FLAG);
    assert Regs(Cells([[RESULT]])) == [RESULT] && Regs(Cells([[FLAG]])) == [FLAG];
  }

  lemma {:induction false} GuardedUnprotected()
    ensures Unprotected(GUARDED, 0, 1, FLAG)
  {
    var a, b := GUARDED[0], GUARDED[1];
    assert !Depends(a, b) by {
      forall r: Reg ensures !(Writes(a, r) && Writes(b, r)) {
        GuardedWrites(r);
        WritesRegIs(a, r);
        WritesRegIs(b, r);
      }
    }
    if Chained(GUARDED, 0, 1) {
      ChainedNext(GUARDED, 0);
    }
    GuardedWrites(FLAG);
  }

  /** A guarded write followed by the write of its guard is turned round on some target, whatever
      the scheduler does where it may choose, and then computes something else. */
  lemma {:induction false} GuardOverwritten(out: seq<Inst>, cycles: nat)
    requires IsSchedule(Delaying(GUARDED[1], 3), GUARDED, out, cycles)
    ensures out == [GUARDED[1], GUARDED[0]]
    ensures var m := Meaning(Guarded, NoStore); var s := State((r: Reg) => 0, 0);
      RunCode(m, GUARDED, s).regs(RESULT) == 0 && RunCode(m, out, s).regs(RESULT) == 7
  {
    var sched := GuardedSched(out, cycles);
    GuardedRuns();
    assert Identity(2) == [0, 1] && Identity(|out|) == [0, 1];
    PickedRuns(Meaning(Guarded, NoStore), GUARDED, sched, out, 0, State((r: Reg) => 0, 0));
    assert Identity(|out|)[0..] == Identity(|out|) && sched[0..] == sched;
  }

  lemma {:induction false} GuardedSched(out: seq<Inst>, cycles: nat) returns (sched: seq<nat>)
    requires IsSchedule(Delaying(GUARDED[1], 3), GUARDED, out, cycles)
    ensures sched == [1, 0] && out == Picked(GUARDED, sched) && out == [GUARDED[1], GUARDED[0]]
  {
    GuardedUnprotected();
    sched :| Arranges(Delaying(GUARDED[1], 3), GUARDED, sched, cycles) && IsPermutation(sched, |GUARDED|) &&
      out == Picked(GUARDED, sched);
    GuardedTurned(sched, cycles);
    TwoPlaced(sched);
  }

  lemma {:induction false} GuardedTurned(sched: seq<nat>, cycles: nat)
    requires Arranges(Delaying(GUARDED[1], 3), GUARDED, sched, cycles)
    ensures PositionOf(sched, 1) < PositionOf(sched, 0)
  {
    GuardedUnprotected();
    CopiesAreLater(GUARDED, 0, 1, FLAG);
    ArrangedTurned(GUARDED, GUARDED[1], 3, 0, 1, FLAG, sched, cycles);
  }

  lemma {:induction false} DistinctPair(sched: seq<nat>)
    requires 0 in sched && 1 in sched
    ensures |sched| >= 2
  {
  }

  lemma {:induction false} TwoPlaced(sched: seq<nat>)
    requires IsPermutation(sched, 2) && PositionOf(sched, 1) < PositionOf(sched, 0)
    ensures sched == [1, 0]
  {
    assert 0 in sched && 1 in sched;
    var s := IndexSet(2);
    DistinctLength(sched, s);
    DistinctPair(sched);
  }

  lemma {:induction false} GuardedRuns()
    ensures var m := Meaning(Guarded, NoStore); var s := State((r: Reg) => 0, 0);
      Run(m, GUARDED, [0, 1], s).regs(RESULT) == 0 && Run(m, GUARDED, [1, 0], s).regs(RESULT) == 7
  {
    var m := Meaning(Guarded, NoStore);
    var s := State((r: Reg) => 0, 0);
    var a, b := GUARDED[0], GUARDED[1];
    GuardedWrites(FLAG);
    GuardedWrites(RESULT);
    var s0, s1 := Execute(m, a, s), Execute(m, b, s);
    assert Values(Inputs(a), s)[0] == 0 && s0.regs(RESULT) == 0;
    assert [0, 1][1..] == [1] && [1, 0][1..] == [0] && [1][1..] == [] && [0][1..] == [];
    assert Run(m, GUARDED, [0, 1], s) == Run(m, GUARDED, [1], s0);
    assert Run(m, GUARDED, [1], s0) == Run(m, GUARDED, [], Execute(m, b, s0));
    assert m.value(b, Values(Inputs(b), s), None, FLAG) == 1;
    assert s1.regs(FLAG) == 1;
    assert Values(Inputs(a), s1)[0] == 1;
    assert Run(m, GUARDED, [1, 0], s) == Run(m, GUARDED, [0], s1);
    assert Run(m, GUARDED, [0], s1) == Run(m, GUARDED, [], Execute(m, a, s1));
  }
}
