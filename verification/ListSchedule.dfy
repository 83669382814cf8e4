/**
 Time-stamped list scheduling of a reversed dependence graph with two priority heaps.
 */
module ListSchedule {
  import opened DepGraphs

  // ---- heaps ----

  /** A heap entry; the greatest key comes out first, then the greatest index. */
  datatype Entry = Entry(key: int, index: nat) {
    predicate AtMost(other: Entry) {
      key < other.key || (key == other.key && index <= other.index)
    }
  }

  /** Ordered by the cycles from the end of the instruction to the end of the block. */
  function ReadyEntry(labels: seq<Label>, i: nat): Entry
    requires i < |labels|
  {
    Entry(labels[i].cyclesToEnd + labels[i].execLatency, i)
  }

  /** The earliest cycle at which an instruction can be placed. */
  function Earliest(l: Label): nat {
    if l.readyCycle >= l.execLatency then l.readyCycle - l.execLatency else 0
  }

  /** Ordered by the earliest cycle, smallest first. */
  function FutureEntry(labels: seq<Label>, i: nat): Entry
    requires i < |labels|
  {
    var at: int := Earliest(labels[i]);
    Entry(-at, i)
  }

  method Peek(h: set<Entry>) returns (m: Entry)
    requires h != {}
    ensures m in h && forall e :: e in h ==> e.AtMost(m)
  {
    m :| m in h;
    var todo := h - {m};
    while todo != {}
      invariant todo <= h && m in h && forall e :: e in h - todo ==> e.AtMost(m)
    {
      var e :| e in todo;
      if m.AtMost(e) {
        m := e;
      }
      assert h - (todo - {e}) == (h - todo) + {e};
      todo := todo - {e};
    }
  }

  ghost predicate Holds(h: set<Entry>, i: nat) {
    exists e :: e in h && e.index == i
  }

  // ---- releasing the dependants of a placed instruction ----

  /** Some edge to `i` asks for just that cycle. */
  ghost predicate WaitsFor(outs: seq<Edge>, i: nat, ready: nat, cycle: nat) {
    exists k :: 0 <= k < |outs| && outs[k].head == i && ready == cycle + outs[k].latency
  }

  /** The labels after the first `k` edges of `outs` have been released at `cycle`. */
  ghost predicate Released(old_: seq<Label>, labels: seq<Label>, outs: seq<Edge>, cycle: nat) {
    && |labels| == |old_|
    && (forall i: nat :: i < |labels| ==>
          && labels[i].cyclesToEnd == old_[i].cyclesToEnd && labels[i].execLatency == old_[i].execLatency
          && labels[i].useCount == old_[i].useCount - Count(outs, i)
          && labels[i].readyCycle >= old_[i].readyCycle
          && (Count(outs, i) == 0 ==> labels[i] == old_[i]))
    && (forall k :: 0 <= k < |outs| && outs[k].head < |labels| ==>
           labels[outs[k].head].readyCycle >= cycle + outs[k].latency)
  }

  /** No earliest cycle has changed but to what some edge asks for. */
  ghost predicate RaisedOnly(old_: seq<Label>, labels: seq<Label>, outs: seq<Edge>, cycle: nat) {
    forall i: nat :: i < |labels| && i < |old_| && labels[i].readyCycle != old_[i].readyCycle ==>
      WaitsFor(outs, i, labels[i].readyCycle, cycle)
  }

  /** The entries of the instructions whose last dependant was released. */
  ghost function Freed(labels: seq<Label>, outs: seq<Edge>): set<Entry> {
    set i: nat | i < |labels| && Count(outs, i) > 0 && labels[i].useCount == 0 :: FutureEntry(labels, i)
  }

  function ReleaseOne(l: Label, cycle: nat, latency: nat): Label
    requires l.useCount > 0
  {
    l.(readyCycle := if l.readyCycle >= cycle + latency then l.readyCycle
      else cycle + latency, useCount := l.useCount - 1)
  }

  lemma {:induction false} ReleasedStep(was: seq<Label>, labels: seq<Label>, outs: seq<Edge>, cycle: nat, e: Edge)
    requires Released(was, labels, outs, cycle) && e.head < |labels| && labels[e.head].useCount > 0
    ensures Released(was, labels[e.head := ReleaseOne(labels[e.head], cycle, e.latency)], outs + [e], cycle)
  {
  }

  lemma {:induction false} RaisedStep(was: seq<Label>, labels: seq<Label>, outs: seq<Edge>, cycle: nat, e: Edge)
    requires |labels| == |was| && RaisedOnly(was, labels, outs, cycle) && e.head < |labels|
    requires labels[e.head].useCount > 0
    ensures RaisedOnly(was, labels[e.head := ReleaseOne(labels[e.head], cycle, e.latency)], outs + [e], cycle)
  {
    var labels' := labels[e.head := ReleaseOne(labels[e.head], cycle, e.latency)];
    forall i: nat | i < |labels| && labels'[i].readyCycle != was[i].readyCycle
      ensures WaitsFor(outs + [e], i, labels'[i].readyCycle, cycle)
    {
      if i == e.head && labels[i].readyCycle < cycle + e.latency {
        assert (outs + [e])[|outs|] == e;
      } else {
        var k :| 0 <= k < |outs| && outs[k].head == i && labels'[i].readyCycle == cycle + outs[k].latency;
        assert (outs + [e])[k] == outs[k];
      }
    }
  }

  lemma {:induction false} FreedStep(was: seq<Label>, labels: seq<Label>, outs: seq<Edge>, cycle: nat, e: Edge)
    requires Released(was, labels, outs, cycle) && e.head < |labels| && labels[e.head].useCount > 0
    ensures var labels' := labels[e.head := ReleaseOne(labels[e.head], cycle, e.latency)];
      Freed(labels', outs + [e]) == Freed(labels, outs) +
        if labels'[e.head].useCount == 0 then {FutureEntry(labels', e.head)} else {}
  {
    var h := e.head;
    var labels' := labels[h := ReleaseOne(labels[h], cycle, e.latency)];
    forall i: nat ensures Count(outs + [e], i) == Count(outs, i) + if h == i then 1 else 0 {
      CountSnoc(outs, e, i);
    }
    forall i: nat | i < |labels| && i != h
      ensures labels'[i] == labels[i] && FutureEntry(labels', i) == FutureEntry(labels, i)
    {
    }
  }

  ghost predicate Releasing(was: seq<Label>, labels: seq<Label>, outs: seq<Edge>, cycle: nat, future: set<Entry>,
                            future': set<Entry>) {
    Released(was, labels, outs, cycle) && RaisedOnly(was, labels, outs, cycle) &&
      future' == future + Freed(labels, outs)
  }

  lemma {:induction false} ReleasingStep(was: seq<Label>, labels: seq<Label>, outs: seq<Edge>, k: nat, cycle: nat,
                                         future: set<Entry>, future': set<Entry>)
    requires k < |outs| && outs[k].head < |was| && was[outs[k].head].useCount >= Count(outs, outs[k].head)
    requires Releasing(was, labels, outs[..k], cycle, future, future')
    ensures var h := outs[k].head;
      && labels[h].useCount > 0
      && var labels' := labels[h := ReleaseOne(labels[h], cycle, outs[k].latency)];
         Releasing(was, labels', outs[..k + 1], cycle, future,
                   future' + if labels'[h].useCount == 0 then {FutureEntry(labels', h)} else {})
  {
    var e := outs[k];
    assert outs[..k + 1] == outs[..k] + [e];
    CountPrefix(outs, k + 1, e.head);
    CountSnoc(outs[..k], e, e.head);
    ReleasedStep(was, labels, outs[..k], cycle, e);
    RaisedStep(was, labels, outs[..k], cycle, e);
    FreedStep(was, labels, outs[..k], cycle, e);
  }

  /** Releases the nodes that `outs` lead to, moving those with no edges left to `future`. */
  method Release(g: DepGraph, outs: seq<Edge>, cycle: nat, future: set<Entry>) returns (future': set<Entry>)
    requires g.Valid() && forall k :: 0 <= k < |outs| ==> outs[k].head < |g.labels|
    requires forall i: nat :: i < |g.labels| ==> g.labels[i].useCount >= Count(outs, i)
    modifies g`labels
    ensures g.Valid() && Released(old(g.labels), g.labels, outs, cycle)
    ensures RaisedOnly(old(g.labels), g.labels, outs, cycle)
    ensures future' == future + Freed(g.labels, outs)
  {
    future' := future;
    assert Freed(g.labels, []) == {};
    for k := 0 to |outs|
      invariant g.Valid() && Releasing(old(g.labels), g.labels, outs[..k], cycle, future, future')
    {
      var e := outs[k];
      ReleasingStep(old(g.labels), g.labels, outs, k, cycle, future, future');
      g.labels := g.labels[e.head := ReleaseOne(g.labels[e.head], cycle, e.latency)];
      if g.labels[e.head].useCount == 0 {
        future' := future' + {FutureEntry(g.labels, e.head)};
      }
    }
    assert outs[..|outs|] == outs;
  }

  // ---- the state of the scheduler ----

  /** What has been placed, what waits, the time, and (for the proof) when each placed
      instruction ended. */
  datatype Sched = Sched(order: seq<nat>, ready: set<Entry>, future: set<Entry>, cycle: nat)

  type Times = map<nat, nat>

  /** The instruction at position `k` comes after all that it waits for, late enough. */
  ghost predicate PlacedWell(rg: Edges, first: seq<Label>, order: seq<nat>, end: Times, k: nat) {
    && k < |order| && order[k] < |first|
    && (forall i :: i in order ==> i in end)
    && end[order[k]] >= first[order[k]].readyCycle
    && end[order[k]] >= (if k > 0 then end[order[k - 1]] else 0) + first[order[k]].execLatency
    && (forall j: nat, l: nat :: HasEdge(rg, j, order[k], l) ==> j in order[..k] && end[order[k]] >= end[j] + l)
  }

  ghost predicate OrderOk(rg: Edges, first: seq<Label>, s: Sched, end: Times) {
    && (forall a, b :: 0 <= a < b < |s.order| ==> s.order[a] != s.order[b])
    && (forall i :: i in s.order <==> i in end)
    && (forall i :: i in end ==> end[i] <= s.cycle)
    && (s.order != [] ==> end[s.order[|s.order| - 1]] <= s.cycle)
    && (forall k :: 0 <= k < |s.order| ==> PlacedWell(rg, first, s.order, end, k))
  }

  /** The graph: placed nodes have no edges left, and the counters count the rest. */
  ghost predicate GraphOk(rg: Edges, first: seq<Label>, labels: seq<Label>, es: Edges, s: Sched) {
    && |labels| == |es| == |rg| == |first| && HeadsIn(es)
    && (forall j :: 0 <= j < |es| ==> es[j] == if j in s.order then [] else rg[j])
    && (forall i :: 0 <= i < |es| ==> labels[i].useCount == Pending(es, i, |es|))
    && (forall i :: 0 <= i < |es| ==>
           labels[i].execLatency == first[i].execLatency && labels[i].readyCycle >= first[i].readyCycle)
  }

  ghost predicate EntriesOk(labels: seq<Label>, s: Sched) {
    && (forall e :: e in s.ready ==> e.index < |labels| && e == ReadyEntry(labels, e.index))
    && (forall e :: e in s.future ==> e.index < |labels| && e == FutureEntry(labels, e.index))
  }

  /** The heaps hold the unplaced instructions that wait for nothing, each in one place. */
  ghost predicate HeapsOk(labels: seq<Label>, s: Sched) {
    && EntriesOk(labels, s)
    && (forall i: nat :: i < |labels| ==>
           (labels[i].useCount == 0 <==> i in s.order || Holds(s.ready, i) || Holds(s.future, i)))
    && (forall i: nat :: !(i in s.order && Holds(s.ready, i)) && !(i in s.order && Holds(s.future, i)))
    && (forall i: nat :: !(Holds(s.ready, i) && Holds(s.future, i)))
  }

  /** Instructions not yet placed know when the placed ones let them end, and those that are
      ready may end after one more execution. */
  ghost predicate TimesOk(rg: Edges, labels: seq<Label>, s: Sched, end: Times) {
    && (forall j: nat, i: nat, l: nat :: HasEdge(rg, j, i, l) && j in end && i < |labels| && i !in s.order ==>
          labels[i].readyCycle >= end[j] + l)
    && (forall e :: e in s.ready && e.index < |labels| ==>
           s.cycle + labels[e.index].execLatency >= labels[e.index].readyCycle)
  }

  ghost predicate Inv(rg: Edges, first: seq<Label>, labels: seq<Label>, es: Edges, s: Sched, end: Times) {
    && OrderOk(rg, first, s, end) && GraphOk(rg, first, labels, es, s)
    && HeapsOk(labels, s) && TimesOk(rg, labels, s, end)
  }

  // ---- which instruction is taken ----

  /** With `placed` placed and ended at the given times, `i` waits for nothing and may be placed at
      cycle `c`. */
  ghost predicate ReadyAt(rg: Edges, first: seq<Label>, placed: seq<nat>, end: Times, i: nat, c: nat) {
    && i < |first| && i !in placed && c + first[i].execLatency >= first[i].readyCycle
    && forall j: nat, l: nat :: HasEdge(rg, j, i, l) ==>
         j in placed && j in end && c + first[i].execLatency >= end[j] + l
  }

  ghost function LastEnd(placed: seq<nat>, end: Times): nat {
    if placed != [] && placed[|placed| - 1] in end then end[placed[|placed| - 1]] else 0
  }

  /** Taking `j` is no worse than taking `i`: the cycles from the start of an instruction to the end
      of the block count, the longest path from it and its own execution, then the later position. */
  ghost predicate NoBetter(first: seq<Label>, i: nat, j: nat)
    requires i < |first| && j < |first|
  {
    var a, b := first[i].cyclesToEnd + first[i].execLatency, first[j].cyclesToEnd + first[j].execLatency;
    a < b || (a == b && i <= j)
  }

  /** The instruction at position `k` was ready when it was placed, none that was ready then is
      better, and none was ready earlier since the one before ended. */
  ghost predicate TakenWell(rg: Edges, first: seq<Label>, order: seq<nat>, end: Times, k: nat) {
    && k < |order| && order[k] < |first| && order[k] in end && end[order[k]] >= first[order[k]].execLatency
    && var at := end[order[k]] - first[order[k]].execLatency;
      && ReadyAt(rg, first, order[..k], end, order[k], at)
      && (forall i: nat :: ReadyAt(rg, first, order[..k], end, i, at) ==> NoBetter(first, i, order[k]))
      && (forall i: nat, c: nat :: LastEnd(order[..k], end) <= c < at ==> !ReadyAt(rg, first, order[..k], end, i, c))
  }

  /** The earliest cycle of an instruction is what it or something placed asks for. */
  ghost predicate LabelsExact(rg: Edges, first: seq<Label>, labels: seq<Label>, end: Times) {
    |labels| == |first| && forall i: nat :: i < |labels| ==> LabelExact(rg, first[i], labels[i], i, end)
  }

  ghost predicate LabelExact(rg: Edges, first: Label, l: Label, i: nat, end: Times) {
    && l.cyclesToEnd == first.cyclesToEnd
    && (l.readyCycle == first.readyCycle || AskedFor(rg, i, l.readyCycle, end))
  }

  ghost predicate AskedFor(rg: Edges, i: nat, ready: nat, end: Times) {
    exists j: nat, l: nat :: HasEdge(rg, j, i, l) && j in end && ready == end[j] + l
  }

  ghost predicate NoneEarlier(rg: Edges, first: seq<Label>, s: Sched, end: Times) {
    forall i: nat, c: nat :: LastEnd(s.order, end) <= c < s.cycle ==> !ReadyAt(rg, first, s.order, end, i, c)
  }

  ghost predicate TakenAll(rg: Edges, first: seq<Label>, order: seq<nat>, end: Times) {
    forall k: nat :: k < |order| ==> TakenWell(rg, first, order, end, k)
  }

  ghost predicate Greedy(rg: Edges, first: seq<Label>, labels: seq<Label>, s: Sched, end: Times) {
    LabelsExact(rg, first, labels, end) && NoneEarlier(rg, first, s, end) && TakenAll(rg, first, s.order, end)
  }

  /** What waits for nothing is in a heap, and in the second one only before its time. */
  lemma {:induction false} ReadyIsInHeap(rg: Edges, first: seq<Label>, labels: seq<Label>, es: Edges, s: Sched,
                                         end: Times, i: nat, c: nat)
    requires Inv(rg, first, labels, es, s, end) && LabelsExact(rg, first, labels, end)
    requires ReadyAt(rg, first, s.order, end, i, c)
    ensures Holds(s.ready, i) || (Holds(s.future, i) && Earliest(labels[i]) <= c)
  {
    forall j | 0 <= j < |es| ensures Count(es[j], i) == 0 {
      CountPositive(es[j], i);
      if j !in s.order && Count(es[j], i) > 0 {
        var k :| 0 <= k < |es[j]| && es[j][k].head == i;
        assert HasEdge(rg, j, i, es[j][k].latency);
      }
    }
    PendingZero(es, i, |es|);
    assert LabelExact(rg, first[i], labels[i], i, end);
  }

  lemma {:induction false} FutureIsLater(labels: seq<Label>, s: Sched, i: nat, c: int)
    requires EntriesOk(labels, s) && i < |labels| && Holds(s.future, i) && forall e :: e in s.future ==> -e.key > c
    ensures Earliest(labels[i]) > c
  {
    var e :| e in s.future && e.index == i;
  }

  /** So the top of the first heap, once the second holds only later ones, may be taken. */
  lemma {:induction false} TopIsBest(rg: Edges, first: seq<Label>, labels: seq<Label>, es: Edges, s: Sched, end: Times,
                                     top: Entry, i: nat)
    requires Inv(rg, first, labels, es, s, end) && LabelsExact(rg, first, labels, end)
    requires top in s.ready && (forall e :: e in s.ready ==> e.AtMost(top))
    requires forall e :: e in s.future ==> -e.key > s.cycle
    requires ReadyAt(rg, first, s.order, end, i, s.cycle)
    ensures NoBetter(first, i, top.index)
  {
    ReadyIsInHeap(rg, first, labels, es, s, end, i, s.cycle);
    assert LabelExact(rg, first[i], labels[i], i, end) &&
      LabelExact(rg, first[top.index], labels[top.index], top.index, end);
    if Holds(s.future, i) {
      FutureIsLater(labels, s, i, s.cycle);
    }
    var e :| e in s.ready && e.index == i;
    assert e == ReadyEntry(labels, i) && top == ReadyEntry(labels, top.index);
  }

  /** Readiness depends only on what has been placed. */
  lemma {:induction false} ReadyStays(rg: Edges, first: seq<Label>, placed: seq<nat>, end: Times, end': Times, i: nat,
                                      c: nat)
    requires forall j :: j in placed ==> j in end && j in end' && end'[j] == end[j]
    ensures ReadyAt(rg, first, placed, end, i, c) <==> ReadyAt(rg, first, placed, end', i, c)
  {
  }

  lemma {:induction false} TakenStays(rg: Edges, first: seq<Label>, order: seq<nat>, end: Times, i: nat, cycle: nat,
                                      k: nat)
    requires TakenWell(rg, first, order, end, k) && i !in order && forall j :: j in order ==> j in end
    ensures TakenWell(rg, first, order + [i], end[i := cycle], k)
  {
    var order', end' := order + [i], end[i := cycle];
    assert order'[k] == order[k] && order'[..k] == order[..k] && order[k] in order;
    forall n: nat, c: nat
      ensures ReadyAt(rg, first, order[..k], end, n, c) <==> ReadyAt(rg, first, order[..k], end', n, c)
    {
      ReadyStays(rg, first, order[..k], end, end', n, c);
    }
    if k > 0 { assert order[k - 1] in order; }
  }

  lemma {:induction false} TakenNow(rg: Edges, first: seq<Label>, labels: seq<Label>, es: Edges, s: Sched, end: Times,
                                    top: Entry)
    requires Inv(rg, first, labels, es, s, end) && Greedy(rg, first, labels, s, end)
    requires top in s.ready && (forall e :: e in s.ready ==> e.AtMost(top))
    requires forall e :: e in s.future ==> -e.key > s.cycle
    ensures var i := top.index;
      i < |first| && i !in s.order &&
        TakenWell(rg, first, s.order + [i], end[i := s.cycle + first[i].execLatency], |s.order|)
  {
    assert Holds(s.ready, top.index);
    TopIsReady(rg, first, labels, es, s, end, top);
    forall m: nat | ReadyAt(rg, first, s.order, end, m, s.cycle)
      ensures NoBetter(first, m, top.index)
    {
      TopIsBest(rg, first, labels, es, s, end, top, m);
    }
    TakenLast(rg, first, s, end, top.index);
  }

  lemma {:induction false} TakenLast(rg: Edges, first: seq<Label>, s: Sched, end: Times, i: nat)
    requires (forall j :: j in s.order ==> j in end) && NoneEarlier(rg, first, s, end)
    requires ReadyAt(rg, first, s.order, end, i, s.cycle)
    requires forall m: nat :: ReadyAt(rg, first, s.order, end, m, s.cycle) ==> NoBetter(first, m, i)
    ensures TakenWell(rg, first, s.order + [i], end[i := s.cycle + first[i].execLatency], |s.order|)
  {
    var n := |s.order|;
    var order', end' := s.order + [i], end[i := s.cycle + first[i].execLatency];
    assert order'[..n] == s.order && order'[n] == i;
    forall m: nat, c: nat ensures ReadyAt(rg, first, s.order, end, m, c) <==> ReadyAt(rg, first, s.order, end', m, c) {
      ReadyStays(rg, first, s.order, end, end', m, c);
    }
    if n > 0 { assert s.order[n - 1] in s.order; }
    assert LastEnd(s.order, end') == LastEnd(s.order, end);
  }

  lemma {:induction false} TopIsReady(rg: Edges, first: seq<Label>, labels: seq<Label>, es: Edges, s: Sched, end: Times,
                                      top: Entry)
    requires Inv(rg, first, labels, es, s, end) && top in s.ready
    ensures ReadyAt(rg, first, s.order, end, top.index, s.cycle)
  {
    var i := top.index;
    assert Holds(s.ready, i);
    forall j: nat, l: nat | HasEdge(rg, j, i, l)
      ensures j in s.order && j in end && s.cycle + first[i].execLatency >= end[j] + l
    {
      WaitedForPlaced(rg, first, labels, es, s, i, j, l);
    }
  }

  lemma {:induction false} ReleasedExact(rg: Edges, first: seq<Label>, labels: seq<Label>, end: Times, i: nat,
                                         cycle: nat, labels': seq<Label>)
    requires LabelsExact(rg, first, labels, end) && i < |rg| && i !in end
    requires Released(labels, labels', rg[i], cycle) && RaisedOnly(labels, labels', rg[i], cycle)
    ensures LabelsExact(rg, first, labels', end[i := cycle])
  {
    forall k: nat | k < |labels'| ensures LabelExact(rg, first[k], labels'[k], k, end[i := cycle]) {
      assert LabelExact(rg, first[k], labels[k], k, end);
      if labels'[k].readyCycle != labels[k].readyCycle {
        var m :| 0 <= m < |rg[i]| && rg[i][m].head == k && labels'[k].readyCycle == cycle + rg[i][m].latency;
        assert HasEdge(rg, i, k, rg[i][m].latency);
      } else if labels[k].readyCycle != first[k].readyCycle {
        var j: nat, l: nat :| HasEdge(rg, j, k, l) && j in end && labels[k].readyCycle == end[j] + l;
        assert end[i := cycle][j] == end[j];
      }
    }
  }

  lemma {:induction false} MoreTaken(rg: Edges, first: seq<Label>, order: seq<nat>, end: Times, i: nat, cycle: nat)
    requires TakenAll(rg, first, order, end) && i !in order && forall j :: j in order ==> j in end
    requires TakenWell(rg, first, order + [i], end[i := cycle], |order|)
    ensures TakenAll(rg, first, order + [i], end[i := cycle])
  {
    var order', end' := order + [i], end[i := cycle];
    forall k: nat | k < |order'| ensures TakenWell(rg, first, order', end', k) {
      if k < |order| { TakenStays(rg, first, order, end, i, cycle, k); }
    }
  }

  lemma {:induction false} AllTaken(rg: Edges, first: seq<Label>, labels: seq<Label>, es: Edges, s: Sched, end: Times,
                                    top: Entry)
    requires Inv(rg, first, labels, es, s, end) && Greedy(rg, first, labels, s, end)
    requires top in s.ready && (forall e :: e in s.ready ==> e.AtMost(top))
    requires forall e :: e in s.future ==> -e.key > s.cycle
    ensures top.index < |first|
    ensures TakenAll(rg, first, s.order + [top.index], end[top.index := s.cycle + first[top.index].execLatency])
  {
    TakenNow(rg, first, labels, es, s, end, top);
    MoreTaken(rg, first, s.order, end, top.index, s.cycle + first[top.index].execLatency);
  }

  lemma {:induction false} JustEnded(rg: Edges, first: seq<Label>, s: Sched, end: Times)
    requires s.order != [] && s.order[|s.order| - 1] in end && end[s.order[|s.order| - 1]] == s.cycle
    ensures NoneEarlier(rg, first, s, end)
  {
  }

  lemma {:induction false} PlaceExact(rg: Edges, first: seq<Label>, labels: seq<Label>, es: Edges, s: Sched, end: Times,
                                      i: nat, cycle: nat,
                                      labels': seq<Label>)
    requires GraphOk(rg, first, labels, es, s) && i < |rg| && i !in s.order && i !in end
    requires LabelsExact(rg, first, labels, end)
    requires Released(labels, labels', es[i], cycle) && RaisedOnly(labels, labels', es[i], cycle)
    ensures LabelsExact(rg, first, labels', end[i := cycle])
  {
    assert es[i] == rg[i];
    ReleasedExact(rg, first, labels, end, i, cycle, labels');
  }

  lemma {:induction false} PlaceGreedy(rg: Edges, first: seq<Label>, labels: seq<Label>, es: Edges, s: Sched,
                                       end: Times, top: Entry,
                                       labels': seq<Label>, s': Sched)
    requires Inv(rg, first, labels, es, s, end) && Greedy(rg, first, labels, s, end)
    requires top in s.ready && (forall e :: e in s.ready ==> e.AtMost(top))
    requires forall e :: e in s.future ==> -e.key > s.cycle
    requires Released(labels, labels', es[top.index], s'.cycle) && RaisedOnly(labels, labels', es[top.index], s'.cycle)
    requires s'.order == s.order + [top.index] && s'.cycle == s.cycle + first[top.index].execLatency
    ensures Greedy(rg, first, labels', s', end[top.index := s'.cycle])
  {
    assert Holds(s.ready, top.index);
    PlaceExact(rg, first, labels, es, s, end, top.index, s'.cycle, labels');
    AllTaken(rg, first, labels, es, s, end, top);
    JustEnded(rg, first, s', end[top.index := s'.cycle]);
  }

  /** Time may move on to the first of the second heap when the first one is empty. */
  lemma {:induction false} ForwardGreedy(rg: Edges, first: seq<Label>, labels: seq<Label>, es: Edges, s: Sched,
                                         end: Times, top: Entry, s': Sched)
    requires Inv(rg, first, labels, es, s, end) && Greedy(rg, first, labels, s, end) && s.ready == {}
    requires top in s.future && (forall e :: e in s.future ==> e.AtMost(top)) && s' == s.(cycle := -top.key)
    ensures Greedy(rg, first, labels, s', end)
  {
    forall i: nat, c: nat | LastEnd(s.order, end) <= c < s'.cycle && ReadyAt(rg, first, s.order, end, i, c)
      ensures false
    {
      if c >= s.cycle {
        ReadyIsInHeap(rg, first, labels, es, s, end, i, c);
        FutureIsLater(labels, s, i, -top.key - 1);
      }
    }
  }

  // ---- the three moves ----

  lemma {:induction false} HoldsChange(h: set<Entry>, e: Entry, i: nat)
    ensures Holds(h + {e}, i) <==> Holds(h, i) || i == e.index
    ensures (forall x :: x in h && x.index == e.index ==> x == e) ==>
      (Holds(h - {e}, i) <==> Holds(h, i) && i != e.index) || e !in h
  {
  }

  /** An instruction whose time has come moves to the ready heap. */
  lemma {:induction false} MoveStep(rg: Edges, first: seq<Label>, labels: seq<Label>, es: Edges, s: Sched, end: Times,
                                    e: Entry)
    requires Inv(rg, first, labels, es, s, end) && e in s.future && s.cycle >= -e.key
    ensures Inv(rg, first, labels, es, s.(ready := s.ready + {ReadyEntry(labels, e.index)}, future := s.future - {e}),
                end)
  {
    var r := ReadyEntry(labels, e.index);
    assert Holds(s.future, e.index);
    forall i: nat ensures Holds(s.ready + {r}, i) <==> Holds(s.ready, i) || i == e.index
      ensures Holds(s.future - {e}, i) <==> Holds(s.future, i) && i != e.index
    {
      HoldsChange(s.ready, r, i);
      HoldsChange(s.future, e, i);
    }
  }

  lemma {:induction false} ForwardStep(rg: Edges, first: seq<Label>, labels: seq<Label>, es: Edges, s: Sched,
                                       end: Times, cycle: nat)
    requires Inv(rg, first, labels, es, s, end) && s.cycle <= cycle
    ensures Inv(rg, first, labels, es, s.(cycle := cycle), end)
  {
  }

  ghost function Placed(s: Sched, e: Entry, labels': seq<Label>, outs: seq<Edge>, exec: nat): Sched {
    Sched(s.order + [e.index], s.ready - {e}, s.future + Freed(labels', outs), s.cycle + exec)
  }

  /** What a ready instruction waited for has been placed. */
  lemma {:induction false} WaitedForPlaced(rg: Edges, first: seq<Label>, labels: seq<Label>, es: Edges, s: Sched,
                                           i: nat, j: nat, l: nat)
    requires GraphOk(rg, first, labels, es, s) && i < |labels| && labels[i].useCount == 0 && HasEdge(rg, j, i, l)
    ensures j in s.order
  {
    PendingZero(es, i, |es|);
    var k :| 0 <= k < |rg[j]| && rg[j][k] == Edge(l, i);
    CountPositive(rg[j], i);
  }

  lemma {:induction false} PlacedStays(rg: Edges, first: seq<Label>, order: seq<nat>, end: Times, i: nat, cycle: nat,
                                       k: nat)
    requires PlacedWell(rg, first, order, end, k) && i !in order
    ensures PlacedWell(rg, first, order + [i], end[i := cycle], k)
  {
    var order', end' := order + [i], end[i := cycle];
    assert order'[k] == order[k] && order'[..k] == order[..k];
    assert order[k] in order && (k > 0 ==> order[k - 1] in order);
    forall j: nat, l: nat | HasEdge(rg, j, order[k], l) ensures j in order'[..k] && end'[order[k]] >= end'[j] + l {
      assert j in order[..k] && j in order;
    }
  }

  lemma {:induction false} PlaceOrder(rg: Edges, first: seq<Label>, labels: seq<Label>, es: Edges, s: Sched, end: Times,
                                      e: Entry, s': Sched)
    requires Inv(rg, first, labels, es, s, end) && e in s.ready
    requires s'.order == s.order + [e.index] && s'.cycle == s.cycle + first[e.index].execLatency
    ensures OrderOk(rg, first, s', end[e.index := s'.cycle])
  {
    var i := e.index;
    var end' := end[i := s'.cycle];
    assert Holds(s.ready, i);
    forall k | 0 <= k < |s.order| ensures PlacedWell(rg, first, s'.order, end', k) {
      PlacedStays(rg, first, s.order, end, i, s'.cycle, k);
    }
    var n := |s.order|;
    forall j: nat, l: nat | HasEdge(rg, j, i, l) ensures j in s'.order[..n] && end'[i] >= end'[j] + l {
      WaitedForPlaced(rg, first, labels, es, s, i, j, l);
      assert s'.order[..n] == s.order;
    }
    if n > 0 { assert s.order[n - 1] in s.order; }
    assert PlacedWell(rg, first, s'.order, end', n);
  }

  lemma {:induction false} PlaceGraph(rg: Edges, first: seq<Label>, labels: seq<Label>, es: Edges, s: Sched, i: nat,
                                      cycle: nat, labels': seq<Label>, s': Sched)
    requires GraphOk(rg, first, labels, es, s) && i < |es| && i !in s.order
    requires Released(labels, labels', es[i], cycle) && s'.order == s.order + [i]
    ensures GraphOk(rg, first, labels', es[i := []], s')
  {
    forall k: nat | k < |es| ensures labels'[k].useCount == Pending(es[i := []], k, |es|) {
      PendingSet(es, i, [], k, |es|);
    }
  }

  lemma {:induction false} PlaceEntries(rg: Edges, first: seq<Label>, labels: seq<Label>, es: Edges, s: Sched, e: Entry,
                                        labels': seq<Label>, s': Sched)
    requires GraphOk(rg, first, labels, es, s) && HeapsOk(labels, s) && e in s.ready
    requires Released(labels, labels', es[e.index], s'.cycle)
    requires s' == Placed(s, e, labels', es[e.index], labels[e.index].execLatency)
    ensures EntriesOk(labels', s')
  {
    forall x | x in s.ready || x in s.future ensures labels'[x.index] == labels[x.index] {
      assert Holds(s.ready, x.index) || Holds(s.future, x.index);
      PendingAtLeast(es, e.index, x.index, |es|);
    }
  }

  lemma {:induction false} PlaceHolds(rg: Edges, first: seq<Label>, labels: seq<Label>, es: Edges, s: Sched, e: Entry,
                                      labels': seq<Label>, s': Sched, i: nat)
    requires GraphOk(rg, first, labels, es, s) && HeapsOk(labels, s) && e in s.ready
    requires Released(labels, labels', es[e.index], s'.cycle)
    requires s' == Placed(s, e, labels', es[e.index], labels[e.index].execLatency)
    ensures Holds(s'.ready, i) <==> Holds(s.ready, i) && i != e.index
    ensures Holds(s'.future, i) <==>
      Holds(s.future, i) || (i < |labels| && Count(es[e.index], i) > 0 && labels'[i].useCount == 0)
    ensures i < |labels| ==> labels[i].useCount >= Count(es[e.index], i)
  {
  }

  lemma {:induction false} PlaceHeaps(rg: Edges, first: seq<Label>, labels: seq<Label>, es: Edges, s: Sched, e: Entry,
                                      labels': seq<Label>, s': Sched)
    requires GraphOk(rg, first, labels, es, s) && HeapsOk(labels, s) && e in s.ready
    requires Released(labels, labels', es[e.index], s'.cycle)
    requires s' == Placed(s, e, labels', es[e.index], labels[e.index].execLatency)
    ensures HeapsOk(labels', s')
  {
    PlaceEntries(rg, first, labels, es, s, e, labels', s');
    assert Holds(s.ready, e.index);
    forall i: nat
      ensures Holds(s'.ready, i) <==> Holds(s.ready, i) && i != e.index
      ensures Holds(s'.future, i) <==>
        Holds(s.future, i) || (i < |labels| && Count(es[e.index], i) > 0 && labels'[i].useCount == 0)
      ensures i < |labels| ==> labels[i].useCount >= Count(es[e.index], i)
      ensures i in s'.order <==> i in s.order || i == e.index
    {
      PlaceHolds(rg, first, labels, es, s, e, labels', s', i);
    }
  }

  lemma {:induction false} PlaceTimes(rg: Edges, first: seq<Label>, labels: seq<Label>, es: Edges, s: Sched, end: Times,
                                      e: Entry, labels': seq<Label>, s': Sched)
    requires Inv(rg, first, labels, es, s, end) && e in s.ready
    requires Released(labels, labels', es[e.index], s'.cycle)
    requires s' == Placed(s, e, labels', es[e.index], labels[e.index].execLatency)
    ensures TimesOk(rg, labels', s', end[e.index := s'.cycle])
  {
    var n := e.index;
    assert Holds(s.ready, n);
    assert es[n] == rg[n];
    forall j: nat, i: nat, l: nat | HasEdge(rg, j, i, l) && j in end[n := s'.cycle] && i < |labels| && i !in s'.order
      ensures labels'[i].readyCycle >= end[n := s'.cycle][j] + l
    {
      if j == n {
        var k :| 0 <= k < |rg[n]| && rg[n][k] == Edge(l, i);
      } else {
        assert labels[i].readyCycle >= end[j] + l;
      }
    }
    forall x | x in s'.ready ensures labels'[x.index] == labels[x.index] {
      assert Holds(s.ready, x.index);
      PendingAtLeast(es, n, x.index, |es|);
    }
  }

  /** A ready instruction is placed and its dependants are released. */
  lemma {:induction false} PlaceStep(rg: Edges, first: seq<Label>, labels: seq<Label>, es: Edges, s: Sched, end: Times,
                                     e: Entry, labels': seq<Label>, s': Sched)
    requires Inv(rg, first, labels, es, s, end) && e in s.ready
    requires Released(labels, labels', es[e.index], s'.cycle)
    requires s' == Placed(s, e, labels', es[e.index], labels[e.index].execLatency)
    ensures Inv(rg, first, labels', es[e.index := []], s', end[e.index := s'.cycle])
  {
    assert Holds(s.ready, e.index);
    PlaceOrder(rg, first, labels, es, s, end, e, s');
    PlaceGraph(rg, first, labels, es, s, e.index, s'.cycle, labels', s');
    PlaceHeaps(rg, first, labels, es, s, e, labels', s');
    PlaceTimes(rg, first, labels, es, s, end, e, labels', s');
  }

  /** The best ready instruction is placed. */
  lemma {:induction false} PlaceBest(rg: Edges, first: seq<Label>, labels: seq<Label>, es: Edges, s: Sched, end: Times,
                                     top: Entry, labels': seq<Label>, s': Sched)
    requires Inv(rg, first, labels, es, s, end) && Greedy(rg, first, labels, s, end)
    requires top in s.ready && (forall e :: e in s.ready ==> e.AtMost(top))
    requires forall e :: e in s.future ==> -e.key > s.cycle
    requires Released(labels, labels', es[top.index], s'.cycle) && RaisedOnly(labels, labels', es[top.index], s'.cycle)
    requires s' == Placed(s, top, labels', es[top.index], labels[top.index].execLatency)
    ensures Inv(rg, first, labels', es[top.index := []], s', end[top.index := s'.cycle])
    ensures Greedy(rg, first, labels', s', end[top.index := s'.cycle])
  {
    PlaceStep(rg, first, labels, es, s, end, top, labels', s');
    PlaceGreedy(rg, first, labels, es, s, end, top, labels', s');
  }

  /** Nothing can be placed before time moves on. */
  ghost predicate Idle(ready: set<Entry>, future: set<Entry>, cycle: nat) {
    ready == {} && forall e :: e in future ==> -e.key > cycle
  }

  /** Time moves on to when the first of the second heap can be placed. */
  lemma {:induction false} MoveOn(rg: Edges, first: seq<Label>, labels: seq<Label>, es: Edges, s: Sched, end: Times,
                                  top: Entry)
    requires Inv(rg, first, labels, es, s, end) && Greedy(rg, first, labels, s, end) && s.ready == {}
    requires top in s.future && (forall e :: e in s.future ==> e.AtMost(top)) && -top.key > s.cycle
    ensures Inv(rg, first, labels, es, s.(cycle := -top.key), end)
    ensures Greedy(rg, first, labels, s.(cycle := -top.key), end) && !Idle(s.ready, s.future, -top.key)
  {
    ForwardStep(rg, first, labels, es, s, end, -top.key);
    ForwardGreedy(rg, first, labels, es, s, end, top, s.(cycle := -top.key));
  }

  lemma {:induction false} CountsInBounds(rg: Edges, first: seq<Label>, labels: seq<Label>, es: Edges, s: Sched, n: nat)
    requires GraphOk(rg, first, labels, es, s) && n < |es|
    ensures forall i: nat :: i < |labels| ==> labels[i].useCount >= Count(es[n], i)
  {
    forall i: nat | i < |labels| ensures labels[i].useCount >= Count(es[n], i) {
      PendingAtLeast(es, n, i, |es|);
    }
  }

  // ---- the scheduler ----

  ghost predicate Backward(rg: Edges) {
    forall j: nat, i: nat, l: nat :: HasEdge(rg, j, i, l) ==> i < j
  }

  ghost function Unplaced(n: nat, order: seq<nat>): set<nat> {
    set i: nat | i < n && i !in order
  }

  /** With both heaps empty everything has been placed: the last unplaced node would be free. */
  lemma {:induction false} EmptyMeansDone(rg: Edges, first: seq<Label>, labels: seq<Label>, es: Edges, s: Sched, i: nat)
    requires GraphOk(rg, first, labels, es, s) && HeapsOk(labels, s) && Backward(rg)
    requires s.ready == {} == s.future && i < |rg|
    ensures forall j: nat :: i <= j < |rg| ==> j in s.order
    decreases |rg| - i
  {
    if i + 1 < |rg| { EmptyMeansDone(rg, first, labels, es, s, i + 1); }
    forall j | 0 <= j < |es| ensures Count(es[j], i) == 0 {
      CountPositive(es[j], i);
      if j !in s.order && Count(es[j], i) > 0 {
        var k :| 0 <= k < |es[j]| && es[j][k].head == i;
        assert HasEdge(rg, j, i, es[j][k].latency);
      }
    }
    PendingZero(es, i, |es|);
  }

  /** Moves the instructions whose time has come to the ready heap. */
  method MoveReady(g: DepGraph, order: seq<nat>, ready: set<Entry>, future: set<Entry>, cycle: nat,
                   ghost rg: Edges, ghost first: seq<Label>, ghost end: Times)
    returns (ready': set<Entry>, future': set<Entry>)
    requires Inv(rg, first, g.labels, g.edges, Sched(order, ready, future, cycle), end)
    ensures Inv(rg, first, g.labels, g.edges, Sched(order, ready', future', cycle), end)
    ensures forall e :: e in future' ==> e in future && -e.key > cycle
    ensures ready' == {} ==> Idle(ready, future, cycle) && future' == future
  {
    ready', future' := ready, future;
    var due := true;
    while due
      invariant Inv(rg, first, g.labels, g.edges, Sched(order, ready', future', cycle), end)
      invariant future' <= future && !due ==> forall e :: e in future' ==> -e.key > cycle
      invariant future' <= future
      invariant ready' == {} ==> ready == {} && future' == future
      decreases future', due
    {
      due := false;
      if future' != {} {
        var top := Peek(future');
        if cycle >= -top.key {
          MoveStep(rg, first, g.labels, g.edges, Sched(order, ready', future', cycle), end, top);
          ready', future', due := ready' + {ReadyEntry(g.labels, top.index)}, future' - {top}, true;
        }
      }
    }
  }

  /** Everything in the order, each after what it waits for and late enough, and always the best of
      those that are ready; the cycles are when the last one ends. */
  ghost predicate Scheduled(rg: Edges, first: seq<Label>, order: seq<nat>, cycles: nat, end: Times) {
    && cycles == LastEnd(order, end)
    && (forall a, b :: 0 <= a < b < |order| ==> order[a] != order[b])
    && (forall i: nat :: i in order <==> i < |rg|)
    && (forall i :: i in order <==> i in end)
    && (forall i :: i in end ==> end[i] <= cycles)
    && (forall k :: 0 <= k < |order| ==> PlacedWell(rg, first, order, end, k) && TakenWell(rg, first, order, end, k))
  }

  lemma {:induction false} InitialInv(labels: seq<Label>, rg: Edges, init: seq<nat>, future: set<Entry>)
    requires |labels| == |rg| && HeadsIn(rg)
    requires forall i :: 0 <= i < |rg| ==> labels[i].useCount == Pending(rg, i, |rg|)
    requires forall i: nat :: i in init <==> i < |labels| && labels[i].useCount == 0
    requires future == set i: nat | i in init && i < |labels| :: FutureEntry(labels, i)
    ensures Inv(rg, labels, labels, rg, Sched([], {}, future, 0), map[])
    ensures Greedy(rg, labels, labels, Sched([], {}, future, 0), map[])
  {
  }

  /** Time has moved past the end of what was placed only up to something that can be placed. */
  ghost predicate Timely(order: seq<nat>, ready: set<Entry>, future: set<Entry>, cycle: nat, end: Times) {
    Idle(ready, future, cycle) ==> cycle == LastEnd(order, end)
  }

  lemma {:induction false} UnplacedShrinks(n: nat, order: seq<nat>, i: nat)
    requires i < n && i !in order
    ensures Unplaced(n, order + [i]) < Unplaced(n, order)
  {
    assert i in Unplaced(n, order) && i !in Unplaced(n, order + [i]);
  }

  /** Places the best ready instruction and releases what waited for it. */
  method Place(g: DepGraph, order: seq<nat>, ready: set<Entry>, future: set<Entry>, cycle: nat,
               ghost rg: Edges, ghost first: seq<Label>, ghost end: Times)
    returns (order': seq<nat>, ready': set<Entry>, future': set<Entry>, cycle': nat, ghost end': Times)
    requires Inv(rg, first, g.labels, g.edges, Sched(order, ready, future, cycle), end) && ready != {}
    requires Greedy(rg, first, g.labels, Sched(order, ready, future, cycle), end)
    requires forall e :: e in future ==> -e.key > cycle
    modifies g
    ensures Inv(rg, first, g.labels, g.edges, Sched(order', ready', future', cycle'), end')
    ensures Greedy(rg, first, g.labels, Sched(order', ready', future', cycle'), end')
    ensures Unplaced(|rg|, order') < Unplaced(|rg|, order) && cycle' == LastEnd(order', end')
  {
    ghost var s, labels, es := Sched(order, ready, future, cycle), g.labels, g.edges;
    var top := Peek(ready);
    var next := top.index;
    assert Holds(ready, next);
    order', ready' := order + [next], ready - {top};
    cycle' := cycle + g.labels[next].execLatency;
    var outs := g.edges[next];
    g.edges := g.edges[next := []];
    CountsInBounds(rg, first, labels, es, s, next);
    future' := Release(g, outs, cycle', future);
    end' := end[next := cycle'];
    PlaceBest(rg, first, labels, es, s, end, top, g.labels, Sched(order', ready', future', cycle'));
    UnplacedShrinks(|rg|, order, next);
  }

  lemma {:induction false} FinallyScheduled(rg: Edges, first: seq<Label>, labels: seq<Label>, es: Edges, s: Sched,
                                            end: Times)
    requires Inv(rg, first, labels, es, s, end) && Greedy(rg, first, labels, s, end) && Backward(rg)
    requires s.ready == {} == s.future && s.cycle == LastEnd(s.order, end)
    ensures Scheduled(rg, first, s.order, s.cycle, end)
  {
    if |rg| > 0 {
      EmptyMeansDone(rg, first, labels, es, s, 0);
    }
    forall i: nat | i in s.order ensures i < |rg| {
      var k :| 0 <= k < |s.order| && s.order[k] == i;
      assert PlacedWell(rg, first, s.order, end, k);
    }
  }

  /** With nothing ready, time moves on to when something waiting can be placed. */
  method NextCycle(g: DepGraph, order: seq<nat>, future: set<Entry>, cycle: nat,
                   ghost rg: Edges, ghost first: seq<Label>, ghost end: Times)
    returns (cycle': nat)
    requires Inv(rg, first, g.labels, g.edges, Sched(order, {}, future, cycle), end)
    requires Greedy(rg, first, g.labels, Sched(order, {}, future, cycle), end)
    requires future != {} && Idle({}, future, cycle)
    ensures Inv(rg, first, g.labels, g.edges, Sched(order, {}, future, cycle'), end)
    ensures Greedy(rg, first, g.labels, Sched(order, {}, future, cycle'), end)
    ensures !Idle({}, future, cycle')
  {
    var top := Peek(future);
    MoveOn(rg, first, g.labels, g.edges, Sched(order, {}, future, cycle), end, top);
    cycle' := -top.key;
  }

  /** One turn of the scheduler: place an instruction, move time on, or stop. */
  method Turn(g: DepGraph, order: seq<nat>, ready: set<Entry>, future: set<Entry>, cycle: nat,
              ghost rg: Edges, ghost first: seq<Label>, ghost end: Times)
    returns (order': seq<nat>, ready': set<Entry>, future': set<Entry>, cycle': nat, done: bool, ghost end': Times)
    requires Inv(rg, first, g.labels, g.edges, Sched(order, ready, future, cycle), end)
    requires Greedy(rg, first, g.labels, Sched(order, ready, future, cycle), end)
    requires Timely(order, ready, future, cycle, end)
    modifies g
    ensures Inv(rg, first, g.labels, g.edges, Sched(order', ready', future', cycle'), end')
    ensures Greedy(rg, first, g.labels, Sched(order', ready', future', cycle'), end')
    ensures Timely(order', ready', future', cycle', end')
    ensures done ==> order' == order && ready' == {} == future'
    ensures !done ==> || Unplaced(|rg|, order') < Unplaced(|rg|, order)
                      || (order' == order && Idle(ready, future, cycle) && !Idle(ready', future', cycle'))
  {
    order', cycle', done, end' := order, cycle, false, end;
    ready', future' := MoveReady(g, order, ready, future, cycle, rg, first, end);
    if ready' != {} {
      order', ready', future', cycle', end' := Place(g, order, ready', future', cycle, rg, first, end);
    } else if future' == {} {
      done := true;
    } else {
      cycle' := NextCycle(g, order, future', cycle, rg, first, end);
    }
  }

  method RunTurns(g: DepGraph, init: set<Entry>, ghost rg: Edges, ghost first: seq<Label>)
    returns (order: seq<nat>, cycles: nat, ghost end: Times)
    requires Inv(rg, first, g.labels, g.edges, Sched([], {}, init, 0), map[]) && Backward(rg)
    requires Greedy(rg, first, g.labels, Sched([], {}, init, 0), map[])
    modifies g
    ensures Scheduled(rg, first, order, cycles, end)
  {
    var ready: set<Entry>, future := {}, init;
    order, cycles, end := [], 0, map[];
    var done := false;
    while !done
      invariant Inv(rg, first, g.labels, g.edges, Sched(order, ready, future, cycles), end)
      invariant Greedy(rg, first, g.labels, Sched(order, ready, future, cycles), end)
      invariant Timely(order, ready, future, cycles, end) && (done ==> ready == {} == future)
      decreases Unplaced(|rg|, order), !done, Idle(ready, future, cycles)
    {
      order, ready, future, cycles, done, end := Turn(g, order, ready, future, cycles, rg, first, end);
    }
    FinallyScheduled(rg, first, g.labels, g.edges, Sched(order, ready, future, cycles), end);
  }

  method GenerateOrder(g: DepGraph, init: seq<nat>) returns (order: seq<nat>, cycles: nat, ghost end: Times)
    requires g.Valid() && Backward(g.edges)
    requires forall i :: 0 <= i < |g.edges| ==> g.labels[i].useCount == Pending(g.edges, i, |g.edges|)
    requires forall i: nat :: i in init <==> i < |g.labels| && g.labels[i].useCount == 0
    modifies g
    ensures Scheduled(old(g.edges), old(g.labels), order, cycles, end)
  {
    var future := set i: nat | i in init && i < |g.labels| :: FutureEntry(g.labels, i);
    InitialInv(g.labels, g.edges, init, future);
    order, cycles, end := RunTurns(g, future, g.edges, g.labels);
  }

  // ---- the order is determined ----

  lemma {:induction false} SameStart(rg: Edges, first: seq<Label>, order: seq<nat>, end: Times, order': seq<nat>,
                                     end': Times, k: nat)
    requires TakenWell(rg, first, order, end, k) && TakenWell(rg, first, order', end', k) && order[..k] == order'[..k]
    requires forall j :: j in order[..k] ==> j in end && j in end' && end[j] == end'[j]
    requires LastEnd(order[..k], end) <= end[order[k]] - first[order[k]].execLatency
    ensures end'[order'[k]] - first[order'[k]].execLatency <= end[order[k]] - first[order[k]].execLatency
  {
    var at := end[order[k]] - first[order[k]].execLatency;
    ReadyStays(rg, first, order[..k], end, end', order[k], at);
    SameLast(order[..k], end, end');
  }

  lemma {:induction false} SameLast(placed: seq<nat>, end: Times, end': Times)
    requires forall j :: j in placed ==> j in end && j in end' && end[j] == end'[j]
    ensures LastEnd(placed, end) == LastEnd(placed, end')
  {
  }

  lemma {:induction false} SamePick(rg: Edges, first: seq<Label>, order: seq<nat>, end: Times, order': seq<nat>,
                                    end': Times, k: nat)
    requires TakenWell(rg, first, order, end, k) && TakenWell(rg, first, order', end', k) && order[..k] == order'[..k]
    requires forall j :: j in order[..k] ==> j in end && j in end' && end[j] == end'[j]
    requires end'[order'[k]] - first[order'[k]].execLatency == end[order[k]] - first[order[k]].execLatency
    ensures order'[k] == order[k] && end'[order[k]] == end[order[k]]
  {
    var at := end[order[k]] - first[order[k]].execLatency;
    ReadyStays(rg, first, order[..k], end, end', order[k], at);
    ReadyStays(rg, first, order[..k], end, end', order'[k], at);
  }

  lemma {:induction false} SameNext(rg: Edges, first: seq<Label>, order: seq<nat>, cycles: nat, end: Times,
                                    order': seq<nat>, cycles': nat, end': Times, k: nat)
    requires Scheduled(rg, first, order, cycles, end) && Scheduled(rg, first, order', cycles', end')
    requires k < |order| && k < |order'| && order[..k] == order'[..k]
    requires forall j :: j in order[..k] ==> j in end && j in end' && end[j] == end'[j]
    ensures order'[k] == order[k] && order[k] in end && order[k] in end' && end'[order[k]] == end[order[k]]
  {
    StartsAfter(rg, first, order, cycles, end, k);
    StartsAfter(rg, first, order', cycles', end', k);
    SameStart(rg, first, order, end, order', end', k);
    SameStart(rg, first, order', end', order, end, k);
    SamePick(rg, first, order, end, order', end', k);
  }

  /** Dependences and labels decide the order and all times. */
  lemma {:induction false} ScheduleUnique(rg: Edges, first: seq<Label>, order: seq<nat>, cycles: nat, end: Times,
                                          order': seq<nat>, cycles': nat, end': Times, k: nat)
    requires Scheduled(rg, first, order, cycles, end) && Scheduled(rg, first, order', cycles', end')
    requires k <= |order| && k <= |order'|
    ensures order[..k] == order'[..k] && forall j :: j in order[..k] ==> j in end && j in end' && end[j] == end'[j]
  {
    if k > 0 {
      ScheduleUnique(rg, first, order, cycles, end, order', cycles', end', k - 1);
      SameNext(rg, first, order, cycles, end, order', cycles', end', k - 1);
      assert order[..k] == order[..k - 1] + [order[k - 1]] && order'[..k] == order'[..k - 1] + [order'[k - 1]];
    }
  }

  lemma {:induction false} StartsAfter(rg: Edges, first: seq<Label>, order: seq<nat>, cycles: nat, end: Times, k: nat)
    requires Scheduled(rg, first, order, cycles, end) && k < |order|
    ensures TakenWell(rg, first, order, end, k)
    ensures LastEnd(order[..k], end) <= end[order[k]] - first[order[k]].execLatency
  {
    assert PlacedWell(rg, first, order, end, k);
    if k > 0 { assert order[..k][k - 1] == order[k - 1]; }
  }
}
