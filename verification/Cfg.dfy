/**
 Control-flow graphs: blocks numbered from the entry 0, successor and predecessor lists,
 paths from the entry, and the reverse post-order of a depth-first search.
 */
module Cfgs {
  import opened Basics

  /** Edges may name blocks that were never pushed; such ends are ignored. */
  datatype Cfg = Cfg(len: nat, succs: map<nat, seq<nat>>, preds: map<nat, seq<nat>>) {
    function Successors(id: nat): seq<nat> {
      if id in succs then succs[id] else []
    }

    function Predecessors(id: nat): seq<nat> {
      if id in preds then preds[id] else []
    }

    /** Every edge is recorded at both ends. */
    ghost predicate Mirrored() {
      forall a: nat, b: nat :: b in Successors(a) <==> a in Predecessors(b)
    }

    ghost predicate Edge(a: nat, b: nat) {
      a < len && b < len && b in Successors(a)
    }

    /** `p` runs from the entry to `b` along edges. */
    ghost predicate PathTo(p: seq<nat>, b: nat) {
      && |p| > 0 && p[0] == 0 < len
      && p[|p| - 1] == b
      && forall i :: 0 < i < |p| ==> Edge(p[i - 1], p[i])
    }

    ghost predicate Reachable(b: nat) {
      exists p :: PathTo(p, b)
    }
  }

  /** A walk from the entry through blocks below `len`. */
  ghost predicate IsPath(g: Cfg, path: seq<nat>, len: nat) {
    && |path| > 0 && path[0] == 0 && (forall i :: 0 <= i < |path| ==> path[i] < len <= g.len)
    && forall i :: 0 < i < |path| ==> g.Edge(path[i - 1], path[i])
  }

  ghost predicate HasPred(g: Cfg, b: nat) {
    exists p: nat :: g.Edge(p, b)
  }

  lemma {:induction false} PathSnoc(g: Cfg, p: seq<nat>, a: nat, b: nat)
    requires g.PathTo(p, a) && g.Edge(a, b)
    ensures g.PathTo(p + [b], b)
  {
  }

  lemma {:induction false} PathInit(g: Cfg, p: seq<nat>, b: nat)
    requires g.PathTo(p, b) && |p| > 1
    ensures g.PathTo(p[..|p| - 1], p[|p| - 2]) && g.Edge(p[|p| - 2], b)
  {
  }

  lemma {:induction false} ReachableStep(g: Cfg, a: nat, b: nat)
    requires g.Reachable(a) && g.Edge(a, b)
    ensures g.Reachable(b)
  {
    var p :| g.PathTo(p, a);
    PathSnoc(g, p, a, b);
  }

  lemma {:induction false} EntryReachable(g: Cfg)
    requires g.len > 0
    ensures g.Reachable(0)
  {
    assert g.PathTo([0], 0);
  }

  ghost predicate InBounds(deps: seq<nat>, n: nat) {
    forall k :: 0 <= k < |deps| ==> deps[k] < n
  }

  /** All listed neighbours are blocks. */
  ghost predicate Closed(g: Cfg) {
    && g.Mirrored()
    && forall x: nat :: x < g.len ==> InBounds(g.Successors(x), g.len) && InBounds(g.Predecessors(x), g.len)
  }

  lemma {:induction false} ReachableInRange(g: Cfg, b: nat)
    requires g.Reachable(b)
    ensures b < g.len
  {
    var p :| g.PathTo(p, b);
    assert |p| > 1 ==> g.Edge(p[|p| - 2], p[|p| - 1]);
  }

  // ---- depth-first search ----

  /** Some later element of the order has an edge to element `k`. */
  ghost predicate HasLater(g: Cfg, order: seq<nat>, k: int)
    requires 0 <= k < |order|
  {
    exists j :: k < j < |order| && g.Edge(order[j], order[k])
  }

  ghost function Marked(visited: seq<bool>): set<nat> {
    set x: nat | x < |visited| && visited[x]
  }

  ghost function Unmarked(visited: seq<bool>): set<nat> {
    set x: nat | x < |visited| && !visited[x]
  }

  lemma {:induction false} UnmarkedShrinks(v: seq<bool>, v': seq<bool>, x: nat)
    requires |v| == |v'| && x < |v| && !v[x]
    requires Marked(v) + {x} <= Marked(v')
    ensures Unmarked(v') < Unmarked(v)
  {
    assert x in Unmarked(v) && x in Marked(v');
    forall y | y in Unmarked(v') ensures y in Unmarked(v) {
      assert y !in Marked(v');
    }
  }

  /** What a search from `node` adds: the newly marked nodes in post-order, all reachable,
      closed under edges, each but the last with an edge from a later one. */
  ghost predicate Explored(g: Cfg, before: set<nat>, order: seq<nat>, after: set<nat>, order': seq<nat>) {
    && before <= after
    && order <= order'
    && (forall k :: |order| <= k < |order'| ==> order'[k] in after - before)
    && (forall x :: x in after - before ==> x in order'[|order|..])
    && (forall k, l :: |order| <= k < l < |order'| ==> order'[k] != order'[l])
    && (forall x :: x in after - before ==> x < g.len && g.Reachable(x))
    && (forall x, y :: x in after - before && g.Edge(x, y) ==> y in after)
  }

  lemma {:induction false} ExploredTrans(g: Cfg, s0: set<nat>, o0: seq<nat>, s1: set<nat>, o1: seq<nat>, s2: set<nat>,
                                         o2: seq<nat>)
    requires Explored(g, s0, o0, s1, o1) && Explored(g, s1, o1, s2, o2)
    ensures Explored(g, s0, o0, s2, o2)
  {
    forall x | x in s2 - s0 ensures x in o2[|o0|..] {
      if x in s1 {
        assert x in o1[|o0|..];
        var k :| |o0| <= k < |o1| && o1[k] == x;
        assert o2[k] == x;
      } else {
        assert x in o2[|o1|..];
      }
    }
  }

  /** The searched node itself is finished last. */
  lemma {:induction false} ExploredClose(g: Cfg, s: set<nat>, order: seq<nat>, node: nat, s': set<nat>,
                                         order': seq<nat>)
    requires Explored(g, s + {node}, order, s', order')
    requires node !in s && node < g.len && g.Reachable(node)
    requires forall y :: g.Edge(node, y) ==> y in s'
    ensures Explored(g, s, order, s', order' + [node])
  {
    var o := order' + [node];
    forall x | x in s' - s ensures x in o[|order|..] {
      if x == node {
        assert o[|order'|] == x;
      } else {
        assert x in order'[|order|..];
        var k :| |order| <= k < |order'| && order'[k] == x;
        assert o[k] == x;
      }
    }
  }

  /** Every element from `lo` on has an edge from a later one or from `node`. */
  ghost predicate Parented(g: Cfg, order: seq<nat>, lo: nat, node: nat) {
    forall k :: lo <= k < |order| ==> HasLater(g, order, k) || g.Edge(node, order[k])
  }

  lemma {:induction false} HasLaterExtends(g: Cfg, order: seq<nat>, order': seq<nat>, k: nat)
    requires order <= order' && k < |order| && HasLater(g, order, k)
    ensures HasLater(g, order', k)
  {
    var j :| k < j < |order| && g.Edge(order[j], order[k]);
    assert order'[j] == order[j] && order'[k] == order[k];
  }

  lemma {:induction false} ParentedExtends(g: Cfg, o0: seq<nat>, o1: seq<nat>, lo: nat, node: nat, child: nat)
    requires lo <= |o0| <= |o1| && o0 <= o1
    requires Parented(g, o0, lo, node) && g.Edge(node, child)
    requires |o1| > |o0| ==> o1[|o1| - 1] == child
    requires forall k :: |o0| <= k < |o1| - 1 ==> HasLater(g, o1, k)
    ensures Parented(g, o1, lo, node)
  {
    forall k | lo <= k < |o1| ensures HasLater(g, o1, k) || g.Edge(node, o1[k]) {
      if k < |o0| && HasLater(g, o0, k) {
        HasLaterExtends(g, o0, o1, k);
      }
    }
  }

  lemma {:induction false} ParentedClose(g: Cfg, order: seq<nat>, lo: nat, node: nat)
    requires Parented(g, order, lo, node)
    ensures forall k :: lo <= k < |order| ==> HasLater(g, order + [node], k)
  {
    var o := order + [node];
    forall k | lo <= k < |order| ensures HasLater(g, o, k) {
      if HasLater(g, order, k) {
        HasLaterExtends(g, order, o, k);
      } else {
        assert g.Edge(o[|order|], o[k]);
      }
    }
  }

  // ---- edges against the order ----

  /** `p` runs from `a` to `b` along edges. */
  ghost predicate Walk(g: Cfg, p: seq<nat>, a: nat, b: nat) {
    && |p| > 0 && p[0] == a && p[|p| - 1] == b
    && forall i :: 0 < i < |p| ==> g.Edge(p[i - 1], p[i])
  }

  ghost predicate CanReach(g: Cfg, a: nat, b: nat) {
    exists p :: Walk(g, p, a, b)
  }

  lemma {:induction false} ReachesItself(g: Cfg, a: nat)
    ensures CanReach(g, a, a)
  {
    assert Walk(g, [a], a, a);
  }

  lemma {:induction false} ReachesNext(g: Cfg, a: nat, b: nat, c: nat)
    requires CanReach(g, a, b) && g.Edge(b, c)
    ensures CanReach(g, a, c)
  {
    var p :| Walk(g, p, a, b);
    assert Walk(g, p + [c], a, c);
  }

  /** Every node that is visited but not finished reaches `node`. */
  ghost predicate Unfinished(g: Cfg, visited: set<nat>, order: seq<nat>, node: nat) {
    forall x :: x in visited && x !in order ==> CanReach(g, x, node)
  }

  /** The edges from element `k` lead to earlier elements or to what reaches it. */
  ghost predicate Turns(g: Cfg, order: seq<nat>, k: nat)
    requires k < |order|
  {
    forall y: nat :: g.Edge(order[k], y) ==> y in order[..k] || CanReach(g, y, order[k])
  }

  ghost predicate TurnsFrom(g: Cfg, order: seq<nat>, lo: nat) {
    forall k: nat :: lo <= k < |order| ==> Turns(g, order, k)
  }

  lemma {:induction false} TurnsExtend(g: Cfg, o: seq<nat>, o': seq<nat>, lo: nat)
    requires o <= o' && TurnsFrom(g, o, lo) && TurnsFrom(g, o', |o|)
    ensures TurnsFrom(g, o', lo)
  {
    forall k: nat | lo <= k < |o'| ensures Turns(g, o', k) {
      if k < |o| {
        assert Turns(g, o, k);
        assert o'[..k] == o[..k] && o'[k] == o[k];
      }
    }
  }

  /** What is unfinished when a successor is searched. */
  lemma {:induction false} UnfinishedNext(g: Cfg, s: set<nat>, order: seq<nat>, node: nat, s': set<nat>,
                                          order': seq<nat>, child: nat)
    requires Explored(g, s + {node}, order, s', order') && Unfinished(g, s, order, node) && g.Edge(node, child)
    ensures Unfinished(g, s', order', child)
  {
    forall x | x in s' && x !in order' ensures CanReach(g, x, child) {
      assert x in order'[|order|..] ==> x in order';
      ReachesItself(g, node);
      ReachesNext(g, x, node, child);
    }
  }

  lemma {:induction false} TurnsClose(g: Cfg, s: set<nat>, order: seq<nat>, node: nat, s': set<nat>, order': seq<nat>)
    requires Explored(g, s + {node}, order, s', order') && Unfinished(g, s, order, node)
    requires TurnsFrom(g, order', |order|) && forall y :: g.Edge(node, y) ==> y in s'
    ensures TurnsFrom(g, order' + [node], |order|)
  {
    var o := order' + [node];
    forall y: nat | g.Edge(node, y) ensures y in order' || CanReach(g, y, node) {
      assert y in order'[|order|..] ==> y in order';
      ReachesItself(g, node);
    }
    assert o[..|order'|] == order';
    assert Turns(g, o, |order'|);
    TurnsExtend(g, order', o, |order|);
  }

  /** Depth-first search from `node`, appending finished nodes to `order`. */
  method RpoDfs(g: Cfg, node: nat, visited: array<bool>, order: seq<nat>) returns (order': seq<nat>)
    requires visited.Length == g.len && (node < g.len ==> g.Reachable(node))
    requires node < g.len ==> Unfinished(g, Marked(visited[..]), order, node)
    modifies visited
    ensures Explored(g, Marked(old(visited[..])), order, Marked(visited[..]), order')
    ensures node < g.len ==> node in Marked(visited[..])
    ensures |order'| > |order| ==> order'[|order'| - 1] == node
    ensures forall k :: |order| <= k < |order'| - 1 ==> HasLater(g, order', k)
    ensures TurnsFrom(g, order', |order|)
    decreases Unmarked(visited[..])
  {
    order' := order;
    if node >= visited.Length || visited[node] {
      return;
    }
    ghost var before := Marked(visited[..]);
    visited[node] := true;
    assert Marked(visited[..]) == before + {node};
    ghost var lo := |order|;
    var succs := g.Successors(node);
    for i := 0 to |succs|
      invariant Explored(g, before + {node}, order, Marked(visited[..]), order')
      invariant lo <= |order'| && Parented(g, order', lo, node) && TurnsFrom(g, order', lo)
      invariant forall k :: 0 <= k < i && succs[k] < g.len ==> succs[k] in Marked(visited[..])
    {
      ghost var s1, o1 := Marked(visited[..]), order';
      UnmarkedShrinks(old(visited[..]), visited[..], node);
      if succs[i] < g.len {
        ReachableStep(g, node, succs[i]);
        UnfinishedNext(g, before, order, node, s1, o1, succs[i]);
      }
      order' := RpoDfs(g, succs[i], visited, order');
      ExploredTrans(g, before + {node}, order, s1, o1, Marked(visited[..]), order');
      if succs[i] < g.len {
        ParentedExtends(g, o1, order', lo, node, succs[i]);
      }
      TurnsExtend(g, o1, order', lo);
    }
    TurnsClose(g, before, order, node, Marked(visited[..]), order');
    ExploredClose(g, before, order, node, Marked(visited[..]), order');
    ParentedClose(g, order', lo, node);
    order' := order' + [node];
  }

  // ---- reverse post-order ----

  /** Exactly the reachable blocks, each once, the entry first, every other block after
      one of its predecessors. */
  ghost predicate RpoOk(g: Cfg, rpo: seq<nat>) {
    && (g.len == 0 <==> rpo == [])
    && (rpo != [] ==> rpo[0] == 0)
    && (forall i :: 0 <= i < |rpo| ==> rpo[i] < g.len)
    && (forall i, j :: 0 <= i < j < |rpo| ==> rpo[i] != rpo[j])
    && (forall x: nat :: x in rpo <==> g.Reachable(x))
    && (forall i :: 0 < i < |rpo| ==> HasEarlier(g, rpo, i))
  }

  ghost predicate HasEarlier(g: Cfg, rpo: seq<nat>, i: int)
    requires 0 <= i < |rpo|
  {
    exists j :: 0 <= j < i && g.Edge(rpo[j], rpo[i])
  }

  lemma {:induction false} ReachableIsMarked(g: Cfg, s: set<nat>, p: seq<nat>, b: nat)
    requires 0 in s && (forall x, y :: x in s && g.Edge(x, y) ==> y in s)
    requires g.PathTo(p, b)
    ensures b in s
    decreases |p|
  {
    if |p| > 1 {
      PathInit(g, p, b);
      ReachableIsMarked(g, s, p[..|p| - 1], p[|p| - 2]);
    }
  }

  /** Every reachable block is in the post-order, and no other. */
  lemma {:induction false} PostOrderMembers(g: Cfg, order: seq<nat>, s: set<nat>, x: nat)
    requires Explored(g, {}, [], s, order) && 0 in s
    ensures x in order <==> g.Reachable(x)
  {
    if x in order {
      var i :| 0 <= i < |order| && order[i] == x;
      assert order[i..][0] == x;
    }
    if g.Reachable(x) {
      var p :| g.PathTo(p, x);
      ReachableIsMarked(g, s, p, x);
      assert x in order[0..];
    }
  }

  lemma {:induction false} LaterIsEarlier(g: Cfg, order: seq<nat>, i: nat)
    requires 0 < i < |order| && HasLater(g, order, |order| - 1 - i)
    ensures HasEarlier(g, Reversed(order), i)
  {
    var r, k := Reversed(order), |order| - 1 - i;
    var j :| k < j < |order| && g.Edge(order[j], order[k]);
    assert r[|order| - 1 - j] == order[j];
  }

  lemma {:induction false} ReversedMembers(order: seq<nat>, x: nat)
    ensures x in Reversed(order) <==> x in order
  {
    if k :| 0 <= k < |order| && order[k] == x {
      assert Reversed(order)[|order| - 1 - k] == x;
    }
  }

  lemma {:induction false} PostOrderReversed(g: Cfg, order: seq<nat>, s: set<nat>)
    requires Explored(g, {}, [], s, order) && 0 in s
    requires order != [] && order[|order| - 1] == 0 && g.len > 0
    requires forall k :: 0 <= k < |order| - 1 ==> HasLater(g, order, k)
    ensures RpoOk(g, Reversed(order))
  {
    var r := Reversed(order);
    forall x: nat ensures x in r <==> g.Reachable(x) {
      ReversedMembers(order, x);
      PostOrderMembers(g, order, s, x);
    }
    forall i | 0 < i < |r| ensures HasEarlier(g, r, i) {
      LaterIsEarlier(g, order, i);
    }
  }

  /** Only edges that close a cycle lead back in the order. */
  ghost predicate BackEdgesClose(g: Cfg, rpo: seq<nat>) {
    forall i: nat, j: nat :: i < j < |rpo| && g.Edge(rpo[j], rpo[i]) ==> CanReach(g, rpo[i], rpo[j])
  }

  lemma {:induction false} TurnsReversed(g: Cfg, order: seq<nat>)
    requires TurnsFrom(g, order, 0) && forall a, b :: 0 <= a < b < |order| ==> order[a] != order[b]
    ensures BackEdgesClose(g, Reversed(order))
  {
    var r := Reversed(order);
    forall i: nat, j: nat | i < j < |r| && g.Edge(r[j], r[i]) ensures CanReach(g, r[i], r[j]) {
      var k := |order| - 1 - j;
      assert Turns(g, order, k);
      assert r[i] !in order[..k];
    }
  }

  /** So the order of a graph without cycles is topological. */
  lemma {:induction false} AcyclicInOrder(g: Cfg, rpo: seq<nat>, i: nat, j: nat)
    requires BackEdgesClose(g, rpo) && i < |rpo| && j < |rpo| && g.Edge(rpo[i], rpo[j])
    requires forall a: nat, b: nat :: g.Edge(a, b) ==> !CanReach(g, b, a)
    ensures i < j
  {
    if i == j { ReachesItself(g, rpo[i]); }
  }

  method ReversePostOrder(g: Cfg) returns (rpo: seq<nat>)
    ensures RpoOk(g, rpo) && BackEdgesClose(g, rpo)
  {
    if g.len == 0 {
      forall x: nat ensures !g.Reachable(x) {}
      return [];
    }
    var visited := new bool[g.len](_ => false);
    assert Marked(visited[..]) == {};
    EntryReachable(g);
    var order := RpoDfs(g, 0, visited, []);
    assert 0 in order[0..];
    PostOrderReversed(g, order, Marked(visited[..]));
    TurnsReversed(g, order);
    rpo := Reversed(order);
  }
}
