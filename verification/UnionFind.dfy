/**
 Union-find with link by size and path halving, where the representative of a union is
 the one of its first argument.
 */
module UnionFinds {
  import opened Basics

  datatype Node<X> = Child(parent: nat) | Root(size: nat, representative: X)

  lemma {:induction false} PowerMonotone(m: nat, n: nat)
    requires m <= n
    ensures PowerOfTwo(m) <= PowerOfTwo(n)
  {
    if m < n {
      PowerMonotone(m, n - 1);
    }
  }

  ghost function Members(root: seq<nat>, r: nat): set<nat> {
    set i | 0 <= i < |root| && root[i] == r
  }

  /** `root[i]` is the root above node `i`; `h` grows on the way up. */
  ghost predicate Forest<X>(nodes: seq<Node<X>>, root: seq<nat>, h: seq<nat>) {
    && |root| == |h| == |nodes|
    && (forall i {:trigger root[i]} :: 0 <= i < |nodes| ==> root[i] < |nodes| && nodes[root[i]].Root?)
    && forall i: nat {:trigger NodeOk(nodes, root, h, i)} :: i < |nodes| ==> NodeOk(nodes, root, h, i)
  }

  ghost predicate NodeOk<X>(nodes: seq<Node<X>>, root: seq<nat>, h: seq<nat>, i: nat)
    requires |root| == |h| == |nodes| && i < |nodes|
  {
    match nodes[i]
    case Root(_, _) => root[i] == i
    case Child(p) => p < |nodes| && root[i] == root[p] && h[i] < h[p]
  }

  /** A root knows how many nodes are below it, and its height is at most logarithmic. */
  ghost predicate Balanced<X>(nodes: seq<Node<X>>, root: seq<nat>, h: seq<nat>) {
    && |root| == |h| == |nodes|
    && forall r: nat :: r < |nodes| && nodes[r].Root? ==>
         nodes[r].size == |Members(root, r)| && PowerOfTwo(h[r]) <= nodes[r].size
  }

  /** Values name distinct nodes, and the representative of a root is a value below it. */
  ghost predicate Represented<X(!new)>(nodes: seq<Node<X>>, root: seq<nat>, idx: map<X, nat>) {
    && |root| == |nodes|
    && (forall x :: x in idx ==> idx[x] < |nodes|)
    && (forall x, y :: x in idx && y in idx && idx[x] == idx[y] ==> x == y)
    && (forall r :: 0 <= r < |nodes| && nodes[r].Root? ==>
          nodes[r].representative in idx && root[idx[nodes[r].representative]] == r)
  }

  ghost predicate Inv<X(!new)>(nodes: seq<Node<X>>, root: seq<nat>, h: seq<nat>, idx: map<X, nat>) {
    Forest(nodes, root, h) && Balanced(nodes, root, h) && Represented(nodes, root, idx)
  }

  /** The representative of `x`. */
  ghost function RepOf<X(!new)>(nodes: seq<Node<X>>, root: seq<nat>, h: seq<nat>, idx: map<X, nat>, x: X): X
    requires Inv(nodes, root, h, idx)
  {
    if x in idx then nodes[root[idx[x]]].representative else x
  }

  // ---- the three changes ----

  /** The roots are the same nodes, unchanged. */
  ghost predicate SameRoots<X>(nodes: seq<Node<X>>, nodes': seq<Node<X>>) {
    && |nodes'| == |nodes|
    && forall i :: 0 <= i < |nodes| ==>
         (nodes'[i].Root? <==> nodes[i].Root?) && (nodes[i].Root? ==> nodes'[i] == nodes[i])
  }

  lemma {:induction false} SameReps<X(!new)>(nodes: seq<Node<X>>, nodes': seq<Node<X>>, root: seq<nat>, h: seq<nat>,
                                      idx: map<X, nat>)
    requires Inv(nodes, root, h, idx) && Forest(nodes', root, h) && SameRoots(nodes, nodes')
    ensures Inv(nodes', root, h, idx)
    ensures forall x :: RepOf(nodes', root, h, idx, x) == RepOf(nodes, root, h, idx, x)
  {
  }

  lemma {:induction false} Halve<X(!new)>(nodes: seq<Node<X>>, root: seq<nat>, h: seq<nat>, i: nat, p: nat)
    requires Forest(nodes, root, h) && i < |nodes| && p < |nodes| && nodes[i] == Child(p) && nodes[p].Child?
    ensures Forest(nodes[i := nodes[p]], root, h)
  {
    var nodes' := nodes[i := nodes[p]];
    assert NodeOk(nodes, root, h, i) && NodeOk(nodes, root, h, p);
    forall k | 0 <= k < |nodes| ensures NodeOk(nodes', root, h, k) {
      assert NodeOk(nodes, root, h, k);
    }
  }

  lemma {:induction false} Create<X(!new)>(nodes: seq<Node<X>>, root: seq<nat>, h: seq<nat>, idx: map<X, nat>, x: X)
    requires Inv(nodes, root, h, idx) && x !in idx
    ensures var n := |nodes|; Inv(nodes + [Root(1, x)], root + [n], h + [0], idx[x := n])
    ensures forall y ::
      RepOf(nodes + [Root(1, x)], root + [|nodes|], h + [0], idx[x := |nodes|], y) == RepOf(nodes, root, h, idx, y)
  {
    var n := |nodes|;
    var nodes', root' := nodes + [Root(1, x)], root + [n];
    forall r: nat | r <= n ensures Members(root', r) == if r == n then {n} else Members(root, r) {}
    forall i | 0 <= i < n ensures NodeOk(nodes', root', h + [0], i) {
      assert NodeOk(nodes, root, h, i);
    }
  }

  /** Root `c` goes below root `r`. */
  ghost function Relinked(root: seq<nat>, r: nat, c: nat): seq<nat> {
    seq(|root|, i requires 0 <= i < |root| => if root[i] == c then r else root[i])
  }

  ghost function Raised(h: seq<nat>, r: nat, c: nat): seq<nat>
    requires r < |h| && c < |h|
  {
    h[r := if h[r] > h[c] then h[r] else h[c] + 1]
  }

  function Linked<X>(nodes: seq<Node<X>>, r: nat, c: nat, rep: X): seq<Node<X>>
    requires r < |nodes| && c < |nodes| && nodes[r].Root? && nodes[c].Root?
  {
    nodes[r := Root(nodes[r].size + nodes[c].size, rep)][c := Child(r)]
  }

  lemma {:induction false} LinkForest<X(!new)>(nodes: seq<Node<X>>, root: seq<nat>, h: seq<nat>, r: nat, c: nat, rep: X)
    requires Forest(nodes, root, h) && r < |nodes| && c < |nodes| && r != c && nodes[r].Root? && nodes[c].Root?
    ensures Forest(Linked(nodes, r, c, rep), Relinked(root, r, c), Raised(h, r, c))
  {
    var nodes', root', h' := Linked(nodes, r, c, rep), Relinked(root, r, c), Raised(h, r, c);
    forall i | 0 <= i < |nodes| ensures NodeOk(nodes', root', h', i) {
      assert NodeOk(nodes, root, h, i) && NodeOk(nodes, root, h, c) && NodeOk(nodes, root, h, r);
    }
  }

  lemma {:induction false} LinkBalanced<X(!new)>(nodes: seq<Node<X>>, root: seq<nat>, h: seq<nat>, r: nat, c: nat,
                                          rep: X)
    requires Forest(nodes, root, h) && Balanced(nodes, root, h)
    requires r < |nodes| && c < |nodes| && r != c && nodes[r].Root? && nodes[c].Root? && nodes[r].size >= nodes[c].size
    ensures Balanced(Linked(nodes, r, c, rep), Relinked(root, r, c), Raised(h, r, c))
  {
    var nodes', root', h' := Linked(nodes, r, c, rep), Relinked(root, r, c), Raised(h, r, c);
    forall q: nat | q < |nodes| && nodes'[q].Root?
      ensures nodes'[q].size == |Members(root', q)| && PowerOfTwo(h'[q]) <= nodes'[q].size
    {
      if q == r {
        assert Members(root', r) == Members(root, r) + Members(root, c);
        assert Members(root, r) !! Members(root, c);
        assert PowerOfTwo(h[c] + 1) == 2 * PowerOfTwo(h[c]);
      } else {
        assert Members(root', q) == Members(root, q);
      }
    }
  }

  lemma {:induction false} LinkRepresented<X(!new)>(nodes: seq<Node<X>>, root: seq<nat>, h: seq<nat>, idx: map<X, nat>,
                                             a: X, b: X, r: nat, c: nat)
    requires Forest(nodes, root, h) && Represented(nodes, root, idx) && a in idx && b in idx
    requires root[idx[a]] != root[idx[b]]
    requires (r == root[idx[a]] && c == root[idx[b]]) || (r == root[idx[b]] && c == root[idx[a]])
    ensures Represented(Linked(nodes, r, c, nodes[root[idx[a]]].representative), Relinked(root, r, c), idx)
  {
  }

  /** Linking the roots of `a` and `b`, either way up, gives the class of `b` the
      representative of `a`. */
  lemma {:induction false} Link<X(!new)>(nodes: seq<Node<X>>, root: seq<nat>, h: seq<nat>, idx: map<X, nat>, a: X, b: X,
                                  r: nat, c: nat)
    requires Inv(nodes, root, h, idx) && a in idx && b in idx && root[idx[a]] != root[idx[b]]
    requires (r == root[idx[a]] && c == root[idx[b]]) || (r == root[idx[b]] && c == root[idx[a]])
    requires nodes[r].size >= nodes[c].size
    ensures var rep := nodes[root[idx[a]]].representative;
      var nodes', root', h' := Linked(nodes, r, c, rep), Relinked(root, r, c), Raised(h, r, c);
      && Inv(nodes', root', h', idx)
      && forall x :: RepOf(nodes', root', h', idx, x) ==
           if RepOf(nodes, root, h, idx, x) == RepOf(nodes, root, h, idx, b) then RepOf(nodes, root, h, idx, a)
             else RepOf(nodes, root, h, idx, x)
  {
    var rep := nodes[root[idx[a]]].representative;
    LinkForest(nodes, root, h, r, c, rep);
    LinkBalanced(nodes, root, h, r, c, rep);
    LinkRepresented(nodes, root, h, idx, a, b, r, c);
    forall x
      ensures RepOf(nodes, root, h, idx, x) == RepOf(nodes, root, h, idx, b) <==>
        x in idx && root[idx[x]] == root[idx[b]]
    {
    }
  }

  // ---- the structure ----

  class UnionFind<X(==, !new)> {
    var idxMap: map<X, nat>
    var nodes: seq<Node<X>>
    ghost var root: seq<nat>
    ghost var h: seq<nat>

    ghost predicate Valid()
      reads this
    {
      Inv(nodes, root, h, idxMap) && (nodes != [] ==> exists x :: x in idxMap && Rep(x) != x)
    }

    ghost function Rep(x: X): X
      reads this
      requires Inv(nodes, root, h, idxMap)
    {
      RepOf(nodes, root, h, idxMap, x)
    }

    constructor ()
      ensures Valid() && forall x :: Rep(x) == x
    {
      idxMap, nodes, root, h := map[], [], [], [];
    }

    /** Walks up to the root, halving the path on the way. */
    method FindRoot(start: nat) returns (idx: nat)
      requires Inv(nodes, root, h, idxMap) && start < |nodes|
      modifies this`nodes
      ensures Inv(nodes, root, h, idxMap) && |nodes| == |old(nodes)|
      ensures idx == root[start] && nodes[idx].Root?
      ensures forall x :: Rep(x) == old(Rep(x))
      ensures SameRoots(old(nodes), nodes)
    {
      idx := Climbed(start);
      SameReps(old(nodes), nodes, root, h, idxMap);
    }

    method Climbed(start: nat) returns (idx: nat)
      requires Forest(nodes, root, h) && start < |nodes|
      modifies this`nodes
      ensures Forest(nodes, root, h) && SameRoots(old(nodes), nodes) && idx == root[start]
    {
      idx := start;
      while true
        invariant Forest(nodes, root, h) && SameRoots(old(nodes), nodes) && idx < |nodes| && root[idx] == root[start]
        decreases Top(h) - h[idx]
      {
        match nodes[idx]
        case Root(_, _) =>
          assert NodeOk(nodes, root, h, idx);
          return;
        case Child(p) =>
          assert NodeOk(nodes, root, h, idx);
          match nodes[p] {
            case Root(_, _) =>
              assert NodeOk(nodes, root, h, p);
              return p;
            case Child(g) =>
              assert NodeOk(nodes, root, h, p);
              Halve(nodes, root, h, idx, p);
              TopBounds(h, g);
              nodes := nodes[idx := Child(g)];
              idx := g;
          }
      }
    }

    method Find(x: X) returns (r: X)
      requires Valid()
      modifies this`nodes
      ensures Valid() && r == old(Rep(x)) && forall y :: Rep(y) == old(Rep(y))
    {
      if x in idxMap {
        var idx := FindRoot(idxMap[x]);
        r := nodes[idx].representative;
        if nodes != [] {
          ghost var y :| y in idxMap && old(Rep(y)) != y;
          assert Rep(y) != y;
        }
      } else {
        r := x;
      }
    }

    method MapOrCreate(x: X) returns (idx: nat)
      requires Inv(nodes, root, h, idxMap)
      modifies this
      ensures Inv(nodes, root, h, idxMap) && x in idxMap && idxMap[x] == idx
      ensures forall y :: y in old(idxMap) ==> y in idxMap && idxMap[y] == old(idxMap)[y]
      ensures forall y :: Rep(y) == old(Rep(y))
    {
      if x !in idxMap {
        Create(nodes, root, h, idxMap, x);
        idxMap := idxMap[x := |nodes|];
        root, h := root + [|nodes|], h + [0];
        nodes := nodes + [Root(1, x)];
      }
      idx := idxMap[x];
    }

    /** The class of `b` gets the representative of `a`; all else stays. */
    method Union(a: X, b: X)
      requires Valid()
      modifies this
      ensures Valid()
      ensures forall x :: Rep(x) == if old(Rep(x)) == old(Rep(b)) then old(Rep(a)) else old(Rep(x))
    {
      if a == b {
        return;
      }
      var aIdx := MapOrCreate(a);
      var bIdx := MapOrCreate(b);
      var ra := FindRoot(aIdx);
      var rb := FindRoot(bIdx);
      if ra != rb {
        var r, c := if nodes[ra].size >= nodes[rb].size then ra else rb, if nodes[ra].size >= nodes[rb].size then rb
          else ra;
        Link(nodes, root, h, idxMap, a, b, r, c);
        ghost var root', h' := Relinked(root, r, c), Raised(h, r, c);
        nodes := Linked(nodes, r, c, nodes[ra].representative);
        root, h := root', h';
      }
      assert Rep(a) != a || Rep(b) != b;
    }

    /** Empty exactly when every value represents itself. */
    method IsEmpty() returns (r: bool)
      requires Valid()
      ensures r <==> forall x :: Rep(x) == x
    {
      r := nodes == [];
    }
  }

  ghost function Top(h: seq<nat>): nat {
    if h == [] then 0 else
      var t := Top(h[..|h| - 1]);
      if h[|h| - 1] > t then h[|h| - 1] else t
  }

  lemma {:induction false} TopBounds(h: seq<nat>, i: nat)
    requires i < |h|
    ensures h[i] <= Top(h)
  {
    if i < |h| - 1 {
      TopBounds(h[..|h| - 1], i);
    }
  }

  /** `p` climbs from a node to its parent at every step, ending at a root. */
  ghost predicate Climb<X>(nodes: seq<Node<X>>, p: seq<nat>) {
    && |p| > 0 && (forall k :: 0 <= k < |p| ==> p[k] < |nodes|)
    && (forall k :: 0 <= k < |p| - 1 ==> nodes[p[k]] == Child(p[k + 1]))
    && nodes[p[|p| - 1]].Root?
  }

  lemma {:induction false} ClimbHeight<X(!new)>(nodes: seq<Node<X>>, root: seq<nat>, h: seq<nat>, p: seq<nat>)
    requires Forest(nodes, root, h) && Climb(nodes, p)
    ensures h[p[0]] + |p| - 1 <= h[p[|p| - 1]]
    decreases |p|
  {
    if |p| > 1 {
      var q := p[1..];
      assert forall k :: 0 <= k < |q| ==> q[k] == p[k + 1];
      assert nodes[p[0]] == Child(p[0 + 1]);
      assert NodeOk(nodes, root, h, p[0]);
      ClimbHeight(nodes, root, h, q);
    }
  }

  /** Trees are logarithmic: a climb of `d` steps needs `2^d` nodes under its root. */
  lemma {:induction false} HeightIsLogarithmic<X(!new)>(nodes: seq<Node<X>>, root: seq<nat>, h: seq<nat>,
                                                 idx: map<X, nat>, p: seq<nat>)
    requires Inv(nodes, root, h, idx) && Climb(nodes, p)
    ensures PowerOfTwo(|p| - 1) <= |Members(root, p[|p| - 1])| == nodes[p[|p| - 1]].size
  {
    ClimbHeight(nodes, root, h, p);
    PowerMonotone(|p| - 1, h[p[|p| - 1]]);
  }
}
