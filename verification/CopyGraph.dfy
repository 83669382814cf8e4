/**
 The copy graph of a parallel copy: one node per register or constant, one edge from
 each destination to its source. The graph is viewed through its sequence of sources,
 `-1` standing for no source.
 */
module CopyGraphs {
  import opened Basics

  datatype CopyNode = CopyNode(num_reads: nat, src: int)

  ghost function Srcs(nodes: seq<CopyNode>): seq<int> {
    seq(|nodes|, i requires 0 <= i < |nodes| => nodes[i].src)
  }

  ghost predicate InRange(s: seq<int>) {
    forall i :: 0 <= i < |s| ==> -1 <= s[i] < |s|
  }

  ghost function Readers(s: seq<int>, j: int): set<int> {
    set i | 0 <= i < |s| && s[i] == j
  }

  /** The nodes that still have a source, one per edge. */
  ghost function Edges(s: seq<int>): set<int> {
    set i | 0 <= i < |s| && s[i] >= 0
  }

  /** Every source still has a source itself, and no two nodes share one: only cycles are left. */
  ghost predicate OnlyCycles(s: seq<int>) {
    && InRange(s)
    && (forall a :: 0 <= a < |s| && s[a] >= 0 ==> s[s[a]] >= 0)
    && (forall a, b :: 0 <= a < |s| && 0 <= b < |s| && s[a] >= 0 && s[a] == s[b] ==> a == b)
  }

  /** Following `t` sources from `i`; -1 once the chain has ended. */
  ghost function Follow(s: seq<int>, i: int, t: nat): int {
    if t == 0 then i
    else
      var a := Follow(s, i, t - 1);
      if 0 <= a < |s| then s[a] else -1
  }

  /** `m` is the length of the cycle through `i`. */
  ghost predicate CycleLength(s: seq<int>, i: int, m: nat) {
    && 1 <= m
    && Follow(s, i, m) == i
    && forall t :: 1 <= t < m ==> Follow(s, i, t) != i
  }

  ghost predicate OnCycle(s: seq<int>, i: int) {
    exists m: nat :: CycleLength(s, i, m)
  }

  /** Bypass the node that `i` reads: `i` now reads what that node read. */
  ghost function Bypass(s: seq<int>, i: int): seq<int>
    requires OnlyCycles(s) && 0 <= i < |s| && s[i] >= 0
  {
    s[i := s[s[i]]][s[i] := if s[i] == i then i else -1]
  }

  class CopyGraph {
    var nodes: seq<CopyNode>

    ghost predicate Valid()
      reads this
    {
      && InRange(S())
      && forall j {:trigger Readers(S(), j)} :: 0 <= j < |nodes| ==> nodes[j].num_reads == |Readers(S(), j)|
    }

    ghost function S(): (s: seq<int>)
      reads this
      ensures |s| == |nodes| && forall i :: 0 <= i < |s| ==> s[i] == nodes[i].src
    {
      Srcs(nodes)
    }

    constructor ()
      ensures Valid() && nodes == []
    {
      nodes := [];
    }

    method AddNode() returns (idx: nat)
      requires Valid()
      modifies this
      ensures Valid()
      ensures idx == old(|nodes|) && S() == old(S()) + [-1]
    {
      idx := |nodes|;
      ghost var s := S();
      nodes := nodes + [CopyNode(0, -1)];
      assert S() == s + [-1];
      forall j | 0 <= j < |nodes| ensures nodes[j].num_reads == |Readers(S(), j)| {
        if j < |s| {
          assert Readers(S(), j) == Readers(s, j);
        } else {
          assert Readers(S(), j) == {};
        }
      }
    }

    method NumReads(i: nat) returns (r: nat)
      requires Valid() && i < |nodes|
      ensures r == 0 <==> forall a :: 0 <= a < |nodes| ==> S()[a] != i
    {
      r := nodes[i].num_reads;
      if r == 0 {
        forall a | 0 <= a < |nodes| ensures S()[a] != i {
          assert a !in Readers(S(), i);
        }
      } else {
        ghost var a :| a in Readers(S(), i);
        assert S()[a] == i;
      }
    }

    /** Self-loops and second sources are refused by the callers. */
    method AddEdge(dst: nat, src: nat)
      requires Valid() && dst < |nodes| && src < |nodes|
      requires dst != src && nodes[dst].src == -1
      modifies this
      ensures Valid() && S() == old(S())[dst := src]
    {
      ghost var s := S();
      nodes := nodes[dst := nodes[dst].(src := src)];
      nodes := nodes[src := nodes[src].(num_reads := nodes[src].num_reads + 1)];
      assert S() == s[dst := src];
      forall j | 0 <= j < |nodes| ensures nodes[j].num_reads == |Readers(S(), j)| {
        ReadersUpdate(s, dst, src, j);
      }
    }

    /** Removes the edge from `dst` to `src`; true when `src` has no reader left. */
    method DelEdge(dst: nat, src: nat) returns (last: bool)
      requires Valid() && dst < |nodes| && src < |nodes|
      requires nodes[dst].src == src && dst != src
      modifies this
      ensures Valid() && S() == old(S())[dst := -1]
      ensures last <==> forall a :: 0 <= a < |nodes| ==> S()[a] != src
    {
      ghost var s := S();
      assert dst in Readers(s, src);
      nodes := nodes[dst := nodes[dst].(src := -1)];
      nodes := nodes[src := nodes[src].(num_reads := nodes[src].num_reads - 1)];
      assert S() == s[dst := -1];
      forall j | 0 <= j < |nodes| ensures nodes[j].num_reads == |Readers(S(), j)| {
        ReadersUpdate(s, dst, -1, j);
      }
      var n := NumReads(src);
      last := n == 0;
    }
  }

  lemma {:induction false} ReadersUpdate(s: seq<int>, d: int, v: int, j: int)
    requires 0 <= d < |s| && 0 <= j && s[d] != v
    ensures |Readers(s[d := v], j)|
         == |Readers(s, j)| + (if v == j then 1 else 0) - (if s[d] == j then 1 else 0)
  {
    var was, now := Readers(s, j), Readers(s[d := v], j);
    if v == j {
      assert now == was + {d};
    } else if s[d] == j {
      assert now == was - {d};
    } else {
      assert now == was;
    }
  }

  // ---- what is left once no source-holding node is unread ----

  ghost function Image(s: seq<int>, d: set<int>): set<int>
    requires forall a :: a in d ==> 0 <= a < |s|
  {
    set a | a in d :: s[a]
  }

  lemma {:induction false} ImageSize(s: seq<int>, d: set<int>)
    requires forall a :: a in d ==> 0 <= a < |s|
    ensures |Image(s, d)| <= |d|
    decreases |d|
  {
    if a :| a in d {
      ImageSize(s, d - {a});
      assert Image(s, d) == Image(s, d - {a}) + {s[a]};
    } else {
      assert Image(s, d) == {};
    }
  }

  /** Nodes that are all read by each other are permuted by the reads: none is read twice. */
  lemma {:induction false} CoveredByImage(s: seq<int>, d: set<int>)
    requires forall a :: a in d ==> 0 <= a < |s|
    requires d <= Image(s, d)
    ensures Image(s, d) == d
    ensures forall a, b :: a in d && b in d && s[a] == s[b] ==> a == b
  {
    ImageSize(s, d);
    SubsetSize(d, Image(s, d));
    forall a, b | a in d && b in d && s[a] == s[b] ensures a == b {
      if a != b {
        SharedSource(s, d, a, b);
      }
    }
  }

  lemma {:induction false} SharedSource(s: seq<int>, d: set<int>, a: int, b: int)
    requires forall a :: a in d ==> 0 <= a < |s|
    requires a in d && b in d && a != b && s[a] == s[b]
    ensures |Image(s, d)| < |d|
  {
    var e := d - {a};
    assert b in e;
    forall v | v in Image(s, d) ensures v in Image(s, e) {
      var x :| x in d && s[x] == v;
      if x == a { assert s[b] == v; }
    }
    assert Image(s, d) == Image(s, e);
    ImageSize(s, e);
  }

  /** The informal proof that only cycles remain: if every node with a source has a reader,
      then every source has a source and no source is shared. */
  lemma {:induction false} AllReadMeansOnlyCycles(s: seq<int>)
    requires InRange(s)
    requires forall a :: 0 <= a < |s| && s[a] >= 0 ==> Readers(s, a) != {}
    ensures OnlyCycles(s)
  {
    var d := Edges(s);
    forall k | k in d ensures k in Image(s, d) {
      var r :| r in Readers(s, k);
      assert r in d && s[r] == k;
    }
    CoveredByImage(s, d);
    forall a | 0 <= a < |s| && s[a] >= 0 ensures s[s[a]] >= 0 {
      assert a in d && s[a] in Image(s, d);
    }
    forall a, b | 0 <= a < |s| && 0 <= b < |s| && s[a] >= 0 && s[a] == s[b] ensures a == b {
      assert a in d && b in d;
    }
  }

  lemma {:induction false} BypassKeepsCycles(s: seq<int>, i: int)
    requires OnlyCycles(s) && 0 <= i < |s| && s[i] >= 0 && s[i] != i
    ensures OnlyCycles(Bypass(s, i))
    ensures Edges(Bypass(s, i)) == Edges(s) - {s[i]}
  {
    var j := s[i];
    var k := s[j];
    var b := Bypass(s, i);
    assert k != j;
    forall a | 0 <= a < |b| && b[a] >= 0 ensures b[b[a]] >= 0 {
      if a != i {
        assert s[a] != j;
      }
    }
  }

  /** Bypassing shortens the walk from `i` by one step. */
  lemma {:induction false} FollowBypass(s: seq<int>, i: int, t: nat)
    requires OnlyCycles(s) && 0 <= i < |s| && s[i] >= 0 && s[i] != i
    requires 1 <= t && forall u :: 2 <= u <= t ==> Follow(s, i, u) != i
    ensures Follow(Bypass(s, i), i, t) == Follow(s, i, t + 1)
    ensures 0 <= Follow(s, i, t) < |s| && s[Follow(s, i, t)] >= 0 && (t > 1 ==> Follow(s, i, t) != s[i])
  {
    assert Follow(s, i, 1) == s[i];
    if t == 1 {
      assert Follow(Bypass(s, i), i, 1) == Bypass(s, i)[i] == s[s[i]];
      assert Follow(s, i, 2) == s[s[i]];
    } else {
      FollowBypass(s, i, t - 1);
      var a := Follow(s, i, t);
      assert a == s[Follow(s, i, t - 1)];
      assert a != i;
      assert a != s[i] by {
        assert Follow(s, i, t - 1) != i by {
          if t == 2 { assert Follow(s, i, 1) == s[i]; }
        }
      }
      assert Bypass(s, i)[a] == s[a];
    }
  }

  lemma {:induction false} WalkOfBypass(s: seq<int>, i: int, m: nat, t: nat)
    requires OnlyCycles(s) && 0 <= i < |s| && s[i] >= 0 && s[i] != i
    requires CycleLength(Bypass(s, i), i, m)
    requires 1 <= t <= m
    ensures Follow(Bypass(s, i), i, t) == Follow(s, i, t + 1)
    ensures forall u :: 1 <= u <= t ==> Follow(s, i, u) != i
  {
    if t == 1 {
      assert Follow(s, i, 1) == s[i];
    } else {
      WalkOfBypass(s, i, m, t - 1);
    }
    FollowBypass(s, i, t);
  }

  lemma {:induction false} CycleOfBypass(s: seq<int>, i: int, m: nat)
    requires OnlyCycles(s) && 0 <= i < |s| && s[i] >= 0 && s[i] != i
    requires CycleLength(Bypass(s, i), i, m)
    ensures CycleLength(s, i, m + 1)
  {
    WalkOfBypass(s, i, m, m);
  }

  lemma {:induction false} CycleLengthUnique(s: seq<int>, i: int, m: nat, n: nat)
    requires CycleLength(s, i, m) && CycleLength(s, i, n)
    ensures m == n
  {
  }

  /** A bypass takes one node out of the cycle. */
  lemma {:induction false} BypassShortens(s: seq<int>, i: int, m: nat)
    requires OnlyCycles(s) && 0 <= i < |s| && s[i] >= 0 && s[i] != i
    requires CycleLength(s, i, m)
    ensures m >= 2 && CycleLength(Bypass(s, i), i, m - 1)
  {
    BypassKeepsCycles(s, i);
    EveryEdgeIsOnACycle(Bypass(s, i), i);
    var n: nat :| CycleLength(Bypass(s, i), i, n);
    CycleOfBypass(s, i, n);
    CycleLengthUnique(s, i, m, n + 1);
  }

  lemma {:induction false} EveryEdgeIsOnACycle(s: seq<int>, i: int)
    requires OnlyCycles(s) && 0 <= i < |s| && s[i] >= 0
    ensures OnCycle(s, i)
    decreases |Edges(s)|
  {
    assert Follow(s, i, 1) == s[i];
    if s[i] == i {
      assert CycleLength(s, i, 1);
    } else {
      assert s[i] in Edges(s);
      BypassKeepsCycles(s, i);
      EveryEdgeIsOnACycle(Bypass(s, i), i);
      var m: nat :| CycleLength(Bypass(s, i), i, m);
      CycleOfBypass(s, i, m);
    }
  }

  // ---- walking round a cycle ----

  lemma {:induction false} FollowAdd(s: seq<int>, i: int, t: nat, u: nat)
    ensures Follow(s, i, t + u) == Follow(s, Follow(s, i, t), u)
  {
    if u > 0 { FollowAdd(s, i, t, u - 1); }
  }

  lemma {:induction false} FollowRound(s: seq<int>, i: int, m: nat, k: nat)
    requires Follow(s, i, m) == i
    ensures Follow(s, i, m * k) == i
  {
    if k > 0 {
      FollowRound(s, i, m, k - 1);
      FollowAdd(s, i, m * (k - 1), m);
      assert m * (k - 1) + m == m * k;
    }
  }

  lemma {:induction false} FirstReturn(s: seq<int>, i: int, m: nat)
    requires m >= 1 && Follow(s, i, m) == i
    ensures OnCycle(s, i)
    decreases m
  {
    if t :| 1 <= t < m && Follow(s, i, t) == i {
      FirstReturn(s, i, t);
    } else {
      assert CycleLength(s, i, m);
    }
  }

  /** From every node of a cycle one comes back, and that node is on a cycle too. */
  lemma {:induction false} CycleBack(s: seq<int>, i: int, n: nat) returns (m: nat)
    requires OnCycle(s, i)
    ensures Follow(s, Follow(s, i, n), m) == i && OnCycle(s, Follow(s, i, n))
  {
    var len: nat :| CycleLength(s, i, len);
    var a := Follow(s, i, n);
    FollowRound(s, i, len, n);
    assert len * n >= n by {
      assert len * n == n + (len - 1) * n;
    }
    m := len * n - n;
    FollowAdd(s, i, n, m);
    FollowAdd(s, a, m, len);
    FollowAdd(s, a, m + len, n);
    FirstReturn(s, a, m + len + n);
  }

  /** A node on a cycle is read by a node on a cycle. */
  lemma {:induction false} CycleReader(s: seq<int>, i: int) returns (x: int)
    requires OnCycle(s, i) && i >= 0
    ensures OnCycle(s, x) && 0 <= x < |s| && s[x] == i
  {
    var m: nat :| CycleLength(s, i, m);
    x := Follow(s, i, m - 1);
    var _ := CycleBack(s, i, m - 1);
  }

  /** From `a` both graphs go to the same node, from which one can go on. */
  ghost predicate NextSame(s: seq<int>, d: seq<int>, a: int)
    requires 0 <= a < |s|
  {
    a < |d| && d[a] == s[a] && 0 <= s[a] < |s| && s[s[a]] >= 0
  }

  lemma {:induction false} FollowsSame(s: seq<int>, d: seq<int>, i: int, n: nat)
    requires 0 <= i < |s| && s[i] >= 0
    requires forall a {:trigger NextSame(s, d, a)} :: 0 <= a < |s| && s[a] >= 0 ==> NextSame(s, d, a)
    ensures Follow(d, i, n) == Follow(s, i, n)
    ensures 0 <= Follow(s, i, n) < |s| && s[Follow(s, i, n)] >= 0
  {
    if n > 0 {
      FollowsSame(s, d, i, n - 1);
      assert NextSame(s, d, Follow(s, i, n - 1));
    }
  }

  /** The smallest node of its cycle. */
  ghost predicate LeadsCycle(s: seq<int>, i: int) {
    OnCycle(s, i) && forall n: nat :: Follow(s, i, n) >= i
  }

  lemma {:induction false} LeaderIsLeast(s: seq<int>, i: int, n: nat)
    requires OnCycle(s, i) && LeadsCycle(s, Follow(s, i, n))
    ensures Follow(s, i, n) <= i
  {
    var m := CycleBack(s, i, n);
  }

  // ---- what a walk from a node can touch ----

  ghost predicate Reaches(s: seq<int>, i: int, a: int) {
    exists n: nat :: Follow(s, i, n) == a
  }

  /** The nodes met on the walk from `i`. */
  ghost function Orbit(s: seq<int>, i: int): set<int> {
    set a | 0 <= a < |s| && Reaches(s, i, a)
  }

  ghost predicate Closed(s: seq<int>, c: set<int>) {
    forall a :: a in c && 0 <= a < |s| && s[a] >= 0 ==> s[a] in c
  }

  lemma {:induction false} OrbitClosed(s: seq<int>, i: int)
    requires InRange(s) && 0 <= i < |s|
    ensures Closed(s, Orbit(s, i)) && i in Orbit(s, i)
  {
    assert Follow(s, i, 0) == i;
    forall a | a in Orbit(s, i) && s[a] >= 0 ensures s[a] in Orbit(s, i) {
      var n: nat :| Follow(s, i, n) == a;
      assert Follow(s, i, n + 1) == s[a];
    }
  }

  /** Only nodes of `c` differ; apart from `i` they have lost their source. */
  ghost predicate Confined(s': seq<int>, s: seq<int>, i: int, c: set<int>) {
    && |s'| == |s| && Closed(s', c)
    && (forall a {:trigger s'[a]} :: 0 <= a < |s| && a !in c ==> s'[a] == s[a])
    && (forall a {:trigger s'[a]} :: 0 <= a < |s| && a != i ==> s'[a] == s[a] || s'[a] == -1)
  }
}
