/**
 Dependence graphs with latencies on their edges: building, longest paths to the end of
 the block, and reversal.
 */
module DepGraphs {

  datatype Edge = Edge(latency: nat, head: nat)

  datatype Label = Label(cyclesToEnd: nat, useCount: nat, readyCycle: nat, execLatency: nat)

  /** The outgoing edges of every node. */
  type Edges = seq<seq<Edge>>

  ghost predicate HasEdge(es: Edges, i: nat, j: nat, l: nat) {
    i < |es| && Edge(l, j) in es[i]
  }

  ghost predicate Linked(es: Edges, i: nat, j: nat) {
    exists l: nat :: HasEdge(es, i, j, l)
  }

  ghost predicate HeadsIn(es: Edges) {
    forall i, k :: 0 <= i < |es| && 0 <= k < |es[i]| ==> es[i][k].head < |es|
  }

  /** Every edge leads to a later node. */
  ghost predicate Forward(es: Edges) {
    forall i, k :: 0 <= i < |es| && 0 <= k < |es[i]| ==> i < es[i][k].head < |es|
  }

  /** The labels of the nodes and their outgoing edges, at the same index. */
  class DepGraph {
    var labels: seq<Label>
    var edges: Edges

    ghost predicate Valid()
      reads this
    {
      |labels| == |edges| && HeadsIn(edges)
    }

    constructor (n: nat)
      ensures Valid() && |edges| == n && forall i :: 0 <= i < n ==> edges[i] == []
    {
      labels := seq(n, _ => Label(0, 0, 0, 0));
      edges := seq(n, _ => []);
    }

    method AddEdge(tail: nat, head: nat, latency: nat)
      requires Valid() && tail < |edges| && head < |edges|
      modifies this`edges
      ensures Valid() && edges == WithEdge(old(edges), tail, Edge(latency, head))
    {
      edges := edges[tail := edges[tail] + [Edge(latency, head)]];
    }

    /** Turns every edge round. */
    method Reverse()
      requires Valid()
      modifies this`edges
      ensures Valid() && |edges| == |old(edges)|
      ensures forall i: nat, j: nat, l: nat :: HasEdge(edges, j, i, l) <==> HasEdge(old(edges), i, j, l)
      ensures forall i :: 0 <= i < |edges| ==> Pending(edges, i, |edges|) == |old(edges)[i]|
    {
      var before := edges;
      edges := seq(|edges|, _ => []);
      EmptyIsTurned(before, edges);
      for t := 0 to |before|
        invariant Valid() && |edges| == |before| && Turned(before, t, 0, edges)
      {
        for k := 0 to |before[t]|
          invariant Valid() && |edges| == |before| && Turned(before, t, k, edges)
        {
          TurnedStep(before, t, k, edges);
          AddEdge(before[t][k].head, t, before[t][k].latency);
        }
        TurnedNext(before, t, edges);
      }
      TurnedAll(before, edges);
    }
  }

  ghost function WithEdge(es: Edges, tail: nat, e: Edge): (r: Edges)
    requires tail < |es|
    ensures |r| == |es|
    ensures forall i: nat, j: nat, l: nat :: HasEdge(r, i, j, l) <==>
      HasEdge(es, i, j, l) || (i == tail && e == Edge(l, j))
  {
    es[tail := es[tail] + [e]]
  }

  // ---- counting the edges into a node ----

  /** How many edges of a list lead to `i`. */
  ghost function Count(es: seq<Edge>, i: nat): nat {
    if es == [] then 0 else Count(es[..|es| - 1], i) + if es[|es| - 1].head == i then 1 else 0
  }

  /** How many edges of the first `n` nodes lead to `i`. */
  ghost function Pending(es: Edges, i: nat, n: nat): nat
    requires n <= |es|
  {
    if n == 0 then 0 else Pending(es, i, n - 1) + Count(es[n - 1], i)
  }

  lemma {:induction false} CountSnoc(es: seq<Edge>, e: Edge, i: nat)
    ensures Count(es + [e], i) == Count(es, i) + if e.head == i then 1 else 0
  {
  }

  lemma {:induction false} CountPositive(es: seq<Edge>, i: nat)
    ensures Count(es, i) > 0 <==> exists k :: 0 <= k < |es| && es[k].head == i
  {
    if es != [] {
      var init := es[..|es| - 1];
      CountPositive(init, i);
      if k :| 0 <= k < |init| && init[k].head == i {
        assert es[k].head == i;
      }
    }
  }

  lemma {:induction false} CountPrefix(es: seq<Edge>, k: nat, i: nat)
    requires k <= |es|
    ensures Count(es[..k], i) <= Count(es, i)
    decreases |es| - k
  {
    if k < |es| {
      assert es[..k + 1] == es[..k] + [es[k]];
      CountSnoc(es[..k], es[k], i);
      CountPrefix(es, k + 1, i);
    } else {
      assert es[..k] == es;
    }
  }

  lemma {:induction false} PendingSet(es: Edges, t: nat, out: seq<Edge>, i: nat, n: nat)
    requires n <= |es| && t < |es|
    ensures Pending(es[t := out], i, n) == Pending(es, i, n) + if t < n then Count(out, i) - Count(es[t], i) else 0
  {
    if n > 0 {
      PendingSet(es, t, out, i, n - 1);
    }
  }

  lemma {:induction false} PendingZero(es: Edges, i: nat, n: nat)
    requires n <= |es|
    ensures Pending(es, i, n) == 0 <==> forall j :: 0 <= j < n ==> Count(es[j], i) == 0
  {
    if n > 0 {
      PendingZero(es, i, n - 1);
    }
  }

  lemma {:induction false} PendingAtLeast(es: Edges, j: nat, i: nat, n: nat)
    requires j < n <= |es|
    ensures Pending(es, i, n) >= Count(es[j], i)
  {
    if j < n - 1 {
      PendingAtLeast(es, j, i, n - 1);
    }
  }

  // ---- reversal ----

  /** The edge number `k` of node `i` has been turned: it comes before edge `m` of node `t`. */
  ghost predicate Gone(i: nat, k: nat, t: nat, m: nat) {
    i < t || (i == t && k < m)
  }

  /** `r` holds the edges before edge `m` of node `t`, turned round. */
  ghost predicate Turned(es: Edges, t: nat, m: nat, r: Edges) {
    && |r| == |es|
    && (forall i: nat, j: nat, l: nat :: HasEdge(r, j, i, l) <==> GoneEdge(es, i, j, l, t, m))
    && (forall i: nat :: i < |es| ==> Pending(r, i, |r|) == if i < t then |es[i]| else if i == t then m else 0)
  }

  ghost predicate GoneEdge(es: Edges, i: nat, j: nat, l: nat, t: nat, m: nat) {
    i < |es| && exists k: nat :: k < |es[i]| && Gone(i, k, t, m) && es[i][k] == Edge(l, j)
  }

  lemma {:induction false} EmptyIsTurned(es: Edges, r: Edges)
    requires |r| == |es| && forall i :: 0 <= i < |r| ==> r[i] == []
    ensures Turned(es, 0, 0, r)
  {
    forall i: nat | i < |es| ensures Pending(r, i, |r|) == 0 {
      PendingZero(r, i, |r|);
    }
  }

  lemma {:induction false} GoneEdgeStep(es: Edges, i: nat, j: nat, l: nat, t: nat, m: nat)
    requires t < |es| && m < |es[t]|
    ensures GoneEdge(es, i, j, l, t, m + 1) <==> GoneEdge(es, i, j, l, t, m) || (i == t && es[t][m] == Edge(l, j))
  {
  }

  lemma {:induction false} TurnedStep(es: Edges, t: nat, m: nat, r: Edges)
    requires HeadsIn(es) && t < |es| && m < |es[t]| && Turned(es, t, m, r)
    ensures Turned(es, t, m + 1, WithEdge(r, es[t][m].head, Edge(es[t][m].latency, t)))
  {
    var h, e := es[t][m].head, Edge(es[t][m].latency, t);
    var r' := WithEdge(r, h, e);
    forall i: nat, j: nat, l: nat ensures HasEdge(r', j, i, l) <==> GoneEdge(es, i, j, l, t, m + 1) {
      GoneEdgeStep(es, i, j, l, t, m);
    }
    forall i: nat | i < |es| ensures Pending(r', i, |r'|) == Pending(r, i, |r|) + if i == t then 1 else 0 {
      PendingSet(r, h, r[h] + [e], i, |r|);
      CountSnoc(r[h], e, i);
    }
  }

  lemma {:induction false} TurnedNext(es: Edges, t: nat, r: Edges)
    requires t < |es| && Turned(es, t, |es[t]|, r)
    ensures Turned(es, t + 1, 0, r)
  {
  }

  lemma {:induction false} TurnedAll(es: Edges, r: Edges)
    requires Turned(es, |es|, 0, r)
    ensures forall i: nat, j: nat, l: nat :: HasEdge(r, j, i, l) <==> HasEdge(es, i, j, l)
    ensures forall i :: 0 <= i < |r| ==> Pending(r, i, |r|) == |es[i]|
  {
  }

  // ---- longest paths ----

  /** `p` lists the edges of a path from node `i`. */
  ghost predicate Walk(es: Edges, i: nat, p: seq<Edge>)
    decreases |p|
  {
    p == [] || (i < |es| && p[0] in es[i] && Walk(es, p[0].head, p[1..]))
  }

  ghost function Latency(p: seq<Edge>): nat {
    if p == [] then 0 else p[0].latency + Latency(p[1..])
  }

  /** `c` is the total latency of the longest path from `i`. */
  ghost predicate IsLongest(es: Edges, i: nat, c: nat) {
    && (exists p :: Walk(es, i, p) && Latency(p) == c)
    && (forall p :: Walk(es, i, p) ==> Latency(p) <= c)
  }

  /** `c` is the longest over the first `k` edges of `i` followed by a longest path. */
  ghost predicate LongestOf(es: Edges, i: nat, k: nat, c: nat)
    requires i < |es| && k <= |es[i]|
  {
    && (exists p :: Walk(es, i, p) && Latency(p) == c)
    && (forall p :: Walk(es, i, p) && (p == [] || p[0] in es[i][..k]) ==> Latency(p) <= c)
  }

  lemma {:induction false} LongestStep(es: Edges, i: nat, k: nat, c: nat, d: nat)
    requires i < |es| && k < |es[i]| && LongestOf(es, i, k, c) && IsLongest(es, es[i][k].head, d)
    ensures LongestOf(es, i, k + 1, if c >= d + es[i][k].latency then c else d + es[i][k].latency)
  {
    var e := es[i][k];
    var q :| Walk(es, e.head, q) && Latency(q) == d;
    assert ([e] + q)[1..] == q;
    assert Walk(es, i, [e] + q) && Latency([e] + q) == d + e.latency;
    assert es[i][..k + 1] == es[i][..k] + [e];
    forall p | Walk(es, i, p) && p != [] && p[0] == e ensures Latency(p) <= d + e.latency {
      assert Walk(es, e.head, p[1..]);
    }
  }

  /** The longest path from node `i`, given those from its later neighbours. */
  method MaxDelay(g: DepGraph, i: nat) returns (d: nat)
    requires g.Valid() && Forward(g.edges) && i < |g.edges|
    requires forall j :: i < j < |g.labels| ==> IsLongest(g.edges, j, g.labels[j].cyclesToEnd)
    ensures IsLongest(g.edges, i, d)
  {
    d := 0;
    assert Walk(g.edges, i, []);
    for k := 0 to |g.edges[i]|
      invariant LongestOf(g.edges, i, k, d)
    {
      var e := g.edges[i][k];
      var via := g.labels[e.head].cyclesToEnd + e.latency;
      LongestStep(g.edges, i, k, d, g.labels[e.head].cyclesToEnd);
      d := if d >= via then d else via;
    }
    assert g.edges[i][..|g.edges[i]|] == g.edges[i];
  }

  /** The nodes from `lo` on that have no edges, last first. */
  ghost predicate Leaves(es: Edges, lo: nat, ready: seq<nat>) {
    && (forall i: nat :: i in ready <==> lo <= i < |es| && es[i] == [])
    && (forall a, b :: 0 <= a < b < |ready| ==> ready[a] > ready[b])
  }

  /** Everything but the two computed fields is as before. */
  ghost predicate SameTimes(was: seq<Label>, labels: seq<Label>) {
    && |was| == |labels|
    && forall i :: 0 <= i < |was| ==>
         labels[i].readyCycle == was[i].readyCycle && labels[i].execLatency == was[i].execLatency
  }

  method CalcStatistics(g: DepGraph) returns (ready: seq<nat>)
    requires g.Valid() && Forward(g.edges)
    modifies g`labels
    ensures g.Valid() && SameTimes(old(g.labels), g.labels) && Leaves(g.edges, 0, ready)
    ensures forall i :: 0 <= i < |g.labels| ==> IsLongest(g.edges, i, g.labels[i].cyclesToEnd)
    ensures forall i :: 0 <= i < |g.labels| ==> g.labels[i].useCount == |g.edges[i]|
  {
    ready := [];
    for i := |g.labels| downto 0
      invariant g.Valid() && SameTimes(old(g.labels), g.labels) && Leaves(g.edges, i, ready)
      invariant forall j :: i <= j < |g.labels| ==> IsLongest(g.edges, j, g.labels[j].cyclesToEnd)
      invariant forall j :: i <= j < |g.labels| ==> g.labels[j].useCount == |g.edges[j]|
    {
      var delay := MaxDelay(g, i);
      g.labels := g.labels[i := g.labels[i].(cyclesToEnd := delay, useCount := |g.edges[i]|)];
      if g.labels[i].useCount == 0 {
        assert forall a :: 0 <= a < |ready| ==> ready[a] in ready;
        ready := ready + [i];
      }
    }
  }
}
