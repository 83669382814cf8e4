/**
 The iterative dominator computation over a reverse post-order, with its finger walks,
 and the queries on its result.
 */
module Dominators {
  import opened Basics
  import opened Cfgs

  /** `a` is on every path from the entry to `b`. */
  ghost predicate Dominates(g: Cfg, a: nat, b: nat) {
    forall p :: g.PathTo(p, b) ==> a in p
  }

  /** A graph with its reverse post-order and the position of each reachable block in it. */
  datatype Order = Order(g: Cfg, rpo: seq<nat>, num: seq<nat>) {
    ghost predicate Valid() {
      && g.Mirrored() && g.len > 0
      && RpoOk(g, rpo)
      && |num| == g.len
      && forall i :: 0 <= i < |rpo| ==> num[rpo[i]] == i
    }

    /** `x` is a reachable block. */
    ghost predicate In(x: nat) {
      x < g.len && x < |num| && num[x] < |rpo| && rpo[num[x]] == x
    }
  }

  type Doms = seq<Option<nat>>

  /** Only reachable blocks have a parent; the entry is its own, any other parent is
      known and comes earlier. */
  ghost predicate DomsOk(o: Order, doms: Doms) {
    && o.Valid()
    && |doms| == o.g.len
    && doms[0] == Some(0)
    && forall x: nat {:trigger ParentOk(o, doms, x)} :: 0 < x < |doms| && doms[x].Some? ==> ParentOk(o, doms, x)
  }

  ghost predicate ParentOk(o: Order, doms: Doms, x: nat)
    requires x < |doms| && doms[x].Some?
  {
    o.In(x) && Known(o, doms, doms[x].value) && o.num[doms[x].value] < o.num[x]
  }

  ghost predicate Known(o: Order, doms: Doms, x: nat) {
    o.In(x) && x < |doms| && doms[x].Some?
  }

  /** The parent of a known block. */
  ghost function Up(o: Order, doms: Doms, x: nat): (d: nat)
    requires DomsOk(o, doms) && Known(o, doms, x)
    ensures Known(o, doms, d) && (x != 0 ==> o.num[d] < o.num[x])
  {
    assert x != 0 ==> ParentOk(o, doms, x);
    doms[x].value
  }

  /** The blocks met walking up from `x` to the entry. */
  ghost function Chain(o: Order, doms: Doms, x: nat): (r: set<nat>)
    requires DomsOk(o, doms) && Known(o, doms, x)
    ensures forall y :: y in r ==> o.In(y)
    decreases o.num[x]
  {
    if x == 0 then {0} else
      {x} + Chain(o, doms, Up(o, doms, x))
  }

  // ---- basic facts ----

  lemma {:induction false} EntryIn(o: Order)
    requires o.Valid()
    ensures o.In(0) && o.num[0] == 0
  {
  }

  lemma {:induction false} SomeIsKnown(o: Order, doms: Doms, x: nat)
    requires DomsOk(o, doms) && x < |doms| && doms[x].Some?
    ensures Known(o, doms, x)
  {
    EntryIn(o);
    assert x != 0 ==> ParentOk(o, doms, x);
  }

  lemma {:induction false} InIsReachable(o: Order, x: nat)
    requires o.Valid()
    ensures o.In(x) <==> o.g.Reachable(x)
  {
  }

  lemma {:induction false} ChainMember(o: Order, doms: Doms, x: nat, y: nat)
    requires DomsOk(o, doms) && Known(o, doms, x) && y in Chain(o, doms, x)
    ensures Known(o, doms, y) && Chain(o, doms, y) <= Chain(o, doms, x)
    ensures o.num[y] <= o.num[x] && (o.num[y] == o.num[x] ==> y == x)
    decreases o.num[x]
  {
    if x != 0 && y != x {
      ChainMember(o, doms, Up(o, doms, x), y);
    }
  }

  lemma {:induction false} ChainSelf(o: Order, doms: Doms, x: nat)
    requires DomsOk(o, doms) && Known(o, doms, x)
    ensures x in Chain(o, doms, x)
  {
  }

  lemma {:induction false} ChainHasEntry(o: Order, doms: Doms, x: nat)
    requires DomsOk(o, doms) && Known(o, doms, x)
    ensures 0 in Chain(o, doms, x)
    decreases o.num[x]
  {
    if x != 0 {
      ChainHasEntry(o, doms, Up(o, doms, x));
    }
  }

  // ---- dominators and paths ----

  /** There is a path to a reachable block through no later block. */
  lemma {:induction false} EarlyPath(o: Order, x: nat) returns (p: seq<nat>)
    requires o.Valid() && o.In(x)
    ensures o.g.PathTo(p, x)
    ensures forall y :: y in p ==> o.In(y) && o.num[y] <= o.num[x]
    decreases o.num[x]
  {
    EntryIn(o);
    if o.num[x] == 0 {
      p := [0];
    } else {
      assert HasEarlier(o.g, o.rpo, o.num[x]);
      var j :| 0 <= j < o.num[x] && o.g.Edge(o.rpo[j], o.rpo[o.num[x]]);
      var q := EarlyPath(o, o.rpo[j]);
      PathSnoc(o.g, q, o.rpo[j], x);
      p := q + [x];
    }
  }

  lemma {:induction false} DominatorIsEarlier(o: Order, a: nat, x: nat)
    requires o.Valid() && o.In(x) && Dominates(o.g, a, x)
    ensures o.In(a) && o.num[a] <= o.num[x]
  {
    var p := EarlyPath(o, x);
    assert a in p;
  }

  lemma {:induction false} DominatesPred(g: Cfg, a: nat, p: nat, b: nat)
    requires g.Edge(p, b) && Dominates(g, a, b) && a != b
    ensures Dominates(g, a, p)
  {
    forall path | g.PathTo(path, p) ensures a in path {
      PathSnoc(g, path, p, b);
      assert a in path + [b];
    }
  }

  /** Every strict dominator of a block dominates its parent. */
  ghost predicate KeepsDominators(o: Order, doms: Doms)
    requires DomsOk(o, doms)
  {
    forall x: nat :: Known(o, doms, x) && x != 0 ==> PassesUp(o.g, x, Up(o, doms, x))
  }

  ghost predicate PassesUp(g: Cfg, x: nat, d: nat) {
    forall a: nat :: Dominates(g, a, x) && a != x ==> Dominates(g, a, d)
  }

  /** Hence no dominator is ever missing from a chain. */
  lemma {:induction false} DominatorsOnChain(o: Order, doms: Doms, a: nat, x: nat)
    requires DomsOk(o, doms) && KeepsDominators(o, doms) && Known(o, doms, x)
    requires Dominates(o.g, a, x)
    ensures a in Chain(o, doms, x)
    decreases o.num[x]
  {
    if x == 0 {
      assert o.g.PathTo([0], 0);
    } else if a != x {
      assert PassesUp(o.g, x, Up(o, doms, x));
      DominatorsOnChain(o, doms, a, Up(o, doms, x));
    }
  }

  /** At a fixed point, the parent of a block is on the chain of every predecessor. */
  ghost predicate Fixed(o: Order, doms: Doms, b: nat)
    requires DomsOk(o, doms) && Known(o, doms, b)
  {
    forall p: nat :: o.g.Edge(p, b) && Known(o, doms, p) ==> Up(o, doms, b) in Chain(o, doms, p)
  }

  lemma {:induction false} ChainOnPaths(o: Order, doms: Doms, a: nat, b: nat, path: seq<nat>)
    requires DomsOk(o, doms) && (forall x: nat :: o.In(x) ==> Known(o, doms, x))
    requires forall x: nat :: o.In(x) && x != 0 ==> Fixed(o, doms, x)
    requires o.In(b) && a in Chain(o, doms, b) && o.g.PathTo(path, b)
    ensures a in path
    decreases |path|
  {
    if a != b {
      if |path| > 1 {
        var p := path[|path| - 2];
        PathInit(o.g, path, b);
        InIsReachable(o, p);
        if b == 0 {
        } else {
          assert Fixed(o, doms, b);
          ChainMember(o, doms, p, Up(o, doms, b));
          ChainOnPaths(o, doms, a, p, path[..|path| - 1]);
        }
      }
    }
  }

  /** At a fixed point chains are exactly the dominators. */
  lemma {:induction false} ChainIsDominators(o: Order, doms: Doms, a: nat, b: nat)
    requires DomsOk(o, doms) && KeepsDominators(o, doms)
    requires forall x: nat :: o.In(x) ==> Known(o, doms, x)
    requires forall x: nat :: o.In(x) && x != 0 ==> Fixed(o, doms, x)
    requires o.In(b)
    ensures a in Chain(o, doms, b) <==> Dominates(o.g, a, b)
  {
    if a in Chain(o, doms, b) {
      forall path | o.g.PathTo(path, b) ensures a in path {
        ChainOnPaths(o, doms, a, b, path);
      }
    } else if Dominates(o.g, a, b) {
      DominatorsOnChain(o, doms, a, b);
    }
  }

  // ---- the two-finger walk ----

  lemma {:induction false} MoveUp(o: Order, doms: Doms, f: nat, h: nat)
    requires DomsOk(o, doms) && Known(o, doms, f) && Known(o, doms, h)
    requires o.num[f] > o.num[h]
    ensures f != 0 && Known(o, doms, Up(o, doms, f))
    ensures Chain(o, doms, Up(o, doms, f)) * Chain(o, doms, h) == Chain(o, doms, f) * Chain(o, doms, h)
  {
    EntryIn(o);
    if f in Chain(o, doms, h) {
      ChainMember(o, doms, h, f);
    }
  }

  /** Blocks dominating both fingers dominate the one moved up. */
  lemma {:induction false} MoveUpDominated(o: Order, doms: Doms, a: nat, f: nat, h: nat)
    requires DomsOk(o, doms) && KeepsDominators(o, doms) && Known(o, doms, f) && Known(o, doms, h)
    requires o.num[f] > o.num[h]
    requires Dominates(o.g, a, f) && Dominates(o.g, a, h)
    ensures f != 0 && Dominates(o.g, a, Up(o, doms, f))
  {
    EntryIn(o);
    DominatorIsEarlier(o, a, h);
    assert PassesUp(o.g, f, Up(o, doms, f));
  }

  /** `a` dominates every block that both `b1` and `b2` are dominated by. */
  ghost predicate BothDominated(g: Cfg, b1: nat, b2: nat, f: nat) {
    forall a: nat :: Dominates(g, a, b1) && Dominates(g, a, b2) ==> Dominates(g, a, f)
  }

  /** What the chains of the two fingers share is what those of `b1` and `b2` share, and the
      blocks that dominate both dominate the fingers. */
  ghost predicate Fingers(o: Order, doms: Doms, b1: nat, b2: nat, f: nat, h: nat)
    requires DomsOk(o, doms) && Known(o, doms, b1) && Known(o, doms, b2)
  {
    && Known(o, doms, f) && Known(o, doms, h)
    && Chain(o, doms, f) * Chain(o, doms, h) == Chain(o, doms, b1) * Chain(o, doms, b2)
    && BothDominated(o.g, b1, b2, f) && BothDominated(o.g, b1, b2, h)
  }

  lemma {:induction false} FingersSwap(o: Order, doms: Doms, b1: nat, b2: nat, f: nat, h: nat)
    requires DomsOk(o, doms) && Known(o, doms, b1) && Known(o, doms, b2) && Fingers(o, doms, b1, b2, f, h)
    ensures Fingers(o, doms, b1, b2, h, f)
  {
    assert Chain(o, doms, f) * Chain(o, doms, h) == Chain(o, doms, h) * Chain(o, doms, f);
  }

  lemma {:induction false} FingersMeet(o: Order, doms: Doms, b1: nat, b2: nat, f: nat)
    requires DomsOk(o, doms) && Known(o, doms, b1) && Known(o, doms, b2) && Fingers(o, doms, b1, b2, f, f)
    ensures Chain(o, doms, f) == Chain(o, doms, b1) * Chain(o, doms, b2)
  {
    assert Chain(o, doms, f) * Chain(o, doms, f) == Chain(o, doms, f);
  }

  lemma {:induction false} FingerUp(o: Order, doms: Doms, b1: nat, b2: nat, f: nat, h: nat)
    requires DomsOk(o, doms) && KeepsDominators(o, doms) && Known(o, doms, b1) && Known(o, doms, b2)
    requires Fingers(o, doms, b1, b2, f, h) && o.num[f] > o.num[h]
    ensures f != 0 && Fingers(o, doms, b1, b2, Up(o, doms, f), h)
  {
    MoveUp(o, doms, f, h);
    forall a: nat | Dominates(o.g, a, b1) && Dominates(o.g, a, b2) ensures Dominates(o.g, a, Up(o, doms, f)) {
      MoveUpDominated(o, doms, a, f, h);
    }
  }

  /** The nearest common ancestor: its chain is what the two chains share. */
  method Intersect(o: Order, doms: Doms, b1: nat, b2: nat) returns (r: nat)
    requires DomsOk(o, doms) && KeepsDominators(o, doms)
    requires Known(o, doms, b1) && Known(o, doms, b2)
    ensures Known(o, doms, r)
    ensures Chain(o, doms, r) == Chain(o, doms, b1) * Chain(o, doms, b2)
    ensures BothDominated(o.g, b1, b2, r)
  {
    var f1, f2 := b1, b2;
    while f1 != f2
      invariant Fingers(o, doms, b1, b2, f1, f2)
      decreases o.num[f1] + o.num[f2]
    {
      f1 := WalkUp(o, doms, b1, b2, f1, f2);
      FingersSwap(o, doms, b1, b2, f1, f2);
      f2 := WalkUp(o, doms, b1, b2, f2, f1);
      FingersSwap(o, doms, b1, b2, f2, f1);
    }
    FingersMeet(o, doms, b1, b2, f1);
    r := f1;
  }

  /** Moves finger `f` up until it is no later than finger `h`. */
  method WalkUp(o: Order, doms: Doms, ghost b1: nat, ghost b2: nat, f: nat, h: nat) returns (r: nat)
    requires DomsOk(o, doms) && KeepsDominators(o, doms) && Known(o, doms, b1) && Known(o, doms, b2)
    requires Fingers(o, doms, b1, b2, f, h)
    ensures Fingers(o, doms, b1, b2, r, h) && o.num[r] <= o.num[h] && o.num[r] <= o.num[f]
    ensures o.num[f] <= o.num[h] ==> r == f
  {
    r := f;
    while o.num[r] > o.num[h]
      invariant Fingers(o, doms, b1, b2, r, h) && o.num[r] <= o.num[f]
      invariant o.num[f] <= o.num[h] ==> r == f
    {
      FingerUp(o, doms, b1, b2, r, h);
      r := doms[r].value;
    }
  }

  // ---- sweeps ----

  /** Blocks on the chain of every known predecessor of `b`. */
  ghost predicate Common(o: Order, doms: Doms, b: nat, x: nat)
    requires DomsOk(o, doms)
  {
    forall p: nat :: o.g.Edge(p, b) && Known(o, doms, p) ==> x in Chain(o, doms, p)
  }

  /** Recomputing the parent of `b` can only move it up its chain. */
  ghost predicate OnlyUp(o: Order, doms: Doms, b: nat)
    requires DomsOk(o, doms) && Known(o, doms, b)
  {
    forall x {:trigger Common(o, doms, b, x)} :: Common(o, doms, b, x) ==> x in Chain(o, doms, Up(o, doms, b))
  }

  /** The parent of `b` is on the chains of the predecessors that come before `b`. */
  ghost predicate Forward(o: Order, doms: Doms, b: nat)
    requires DomsOk(o, doms) && Known(o, doms, b)
  {
    forall q: nat :: o.g.Edge(q, b) && Known(o, doms, q) && o.num[q] < o.num[b] ==>
      Up(o, doms, b) in Chain(o, doms, q)
  }

  /** Known blocks are a prefix of the order. */
  ghost predicate PrefixKnown(o: Order, doms: Doms) {
    forall j, k :: 0 <= j < k < |o.rpo| && Known(o, doms, o.rpo[k]) ==> Known(o, doms, o.rpo[j])
  }

  /** Position `i` of a sweep: the blocks before it are up to date with their earlier predecessors,
      the others as far as their parents come at or after `i`. */
  ghost predicate SweepInv(o: Order, doms: Doms, i: nat) {
    && DomsOk(o, doms)
    && KeepsDominators(o, doms)
    && PrefixKnown(o, doms)
    && KnownTo(o, doms, i)
    && AllOnlyUp(o, doms)
    && AllForward(o, doms, i)
  }

  ghost predicate KnownTo(o: Order, doms: Doms, i: nat) {
    forall k :: 0 <= k < i && k < |o.rpo| ==> Known(o, doms, o.rpo[k])
  }

  ghost predicate AllOnlyUp(o: Order, doms: Doms)
    requires DomsOk(o, doms)
  {
    forall b: nat :: Known(o, doms, b) && b != 0 ==> OnlyUp(o, doms, b)
  }

  ghost predicate AllForward(o: Order, doms: Doms, i: nat)
    requires DomsOk(o, doms)
  {
    forall b: nat :: Known(o, doms, b) && b != 0 && (o.num[b] < i || o.num[Up(o, doms, b)] >= i) ==> Forward(o, doms, b)
  }

  /** Giving block `c` the parent `d`, above its old one if it had one. */
  ghost predicate UpMove(o: Order, doms: Doms, c: nat, d: nat) {
    && DomsOk(o, doms)
    && o.In(c) && c != 0
    && Known(o, doms, d) && o.num[d] < o.num[c]
    && (doms[c].Some? ==> d in Chain(o, doms, Up(o, doms, c)))
  }

  lemma {:induction false} UpMoveOk(o: Order, doms: Doms, c: nat, d: nat)
    requires UpMove(o, doms, c, d)
    ensures DomsOk(o, doms[c := Some(d)])
    ensures forall x: nat :: Known(o, doms[c := Some(d)], x) <==> Known(o, doms, x) || x == c
  {
    EntryIn(o);
    var doms' := doms[c := Some(d)];
    forall x: nat ensures Known(o, doms', x) <==> Known(o, doms, x) || x == c {}
    forall x: nat | 0 < x < |doms'| && doms'[x].Some?
      ensures ParentOk(o, doms', x)
    {
      assert x != c ==> ParentOk(o, doms, x);
    }
  }

  /** Chains through `c` lose what lies strictly between `c` and its new parent. */
  lemma {:induction false} UpMoveChain(o: Order, doms: Doms, c: nat, d: nat, x: nat)
    requires UpMove(o, doms, c, d) && DomsOk(o, doms[c := Some(d)]) && Known(o, doms, x)
    requires Known(o, doms[c := Some(d)], x)
    ensures c !in Chain(o, doms, x) ==> Chain(o, doms[c := Some(d)], x) == Chain(o, doms, x)
    ensures c in Chain(o, doms, x) ==> forall y :: y in Chain(o, doms[c := Some(d)], x) <==>
              (y in Chain(o, doms, x) && o.num[y] >= o.num[c]) || y in Chain(o, doms, d)
    decreases o.num[x]
  {
    var doms' := doms[c := Some(d)];
    if x == c {
      UpMoveChain(o, doms, c, d, d);
      if c in Chain(o, doms, d) { ChainMember(o, doms, d, c); }
      forall y | y in Chain(o, doms, c) && o.num[y] >= o.num[c] ensures y == c {
        ChainMember(o, doms, c, y);
      }
    } else if x != 0 {
      UpMoveChain(o, doms, c, d, Up(o, doms, x));
      if c in Chain(o, doms, x) { ChainMember(o, doms, x, c); }
    }
  }

  lemma {:induction false} UpMoveShrinks(o: Order, doms: Doms, c: nat, d: nat, x: nat)
    requires UpMove(o, doms, c, d) && DomsOk(o, doms[c := Some(d)]) && Known(o, doms, x)
    requires Known(o, doms[c := Some(d)], x)
    ensures Chain(o, doms[c := Some(d)], x) <= Chain(o, doms, x)
  {
    UpMoveChain(o, doms, c, d, x);
    if c in Chain(o, doms, x) {
      ChainMember(o, doms, x, c);
      ChainMember(o, doms, Up(o, doms, c), d);
    }
  }

  lemma {:induction false} EarlierKnownPred(o: Order, doms: Doms, b: nat) returns (q: nat)
    requires DomsOk(o, doms) && PrefixKnown(o, doms) && o.In(b) && b != 0
    requires Known(o, doms, b) || forall k :: 0 <= k < o.num[b] ==> Known(o, doms, o.rpo[k])
    ensures o.g.Edge(q, b) && Known(o, doms, q) && o.num[q] < o.num[b]
  {
    EntryIn(o);
    assert o.num[b] != 0;
    assert HasEarlier(o.g, o.rpo, o.num[b]);
    var j :| 0 <= j < o.num[b] && o.g.Edge(o.rpo[j], o.rpo[o.num[b]]);
    q := o.rpo[j];
  }

  lemma {:induction false} CommonKept(o: Order, doms: Doms, c: nat, d: nat, b: nat, x: nat)
    requires UpMove(o, doms, c, d) && DomsOk(o, doms[c := Some(d)])
    requires Common(o, doms[c := Some(d)], b, x)
    ensures Common(o, doms, b, x)
  {
    UpMoveOk(o, doms, c, d);
    forall p: nat | o.g.Edge(p, b) && Known(o, doms, p) ensures x in Chain(o, doms, p) {
      UpMoveShrinks(o, doms, c, d, p);
    }
  }

  lemma {:induction false} OnlyUpKept(o: Order, doms: Doms, c: nat, d: nat, b: nat)
    requires UpMove(o, doms, c, d) && SweepInv(o, doms, o.num[c])
    requires Known(o, doms, b) && b != 0 && b != c
    ensures DomsOk(o, doms[c := Some(d)]) && Known(o, doms[c := Some(d)], b) && OnlyUp(o, doms[c := Some(d)], b)
  {
    UpMoveOk(o, doms, c, d);
    var doms' := doms[c := Some(d)];
    var e := Up(o, doms, b);
    var q := EarlierKnownPred(o, doms, b);
    UpMoveChain(o, doms, c, d, e);
    UpMoveChain(o, doms, c, d, q);
    forall x | Common(o, doms', b, x) ensures x in Chain(o, doms', e) {
      CommonKept(o, doms, c, d, b, x);
      assert OnlyUp(o, doms, b);
      if c in Chain(o, doms, e) {
        ChainMember(o, doms, e, c);
        assert Forward(o, doms, b);
        ChainMember(o, doms, q, e);
        assert x in Chain(o, doms', q);
      }
    }
  }

  lemma {:induction false} OnlyUpMoved(o: Order, doms: Doms, c: nat, d: nat)
    requires UpMove(o, doms, c, d)
    requires forall x :: Common(o, doms, c, x) ==> x in Chain(o, doms, d)
    ensures DomsOk(o, doms[c := Some(d)]) && Known(o, doms[c := Some(d)], c) && OnlyUp(o, doms[c := Some(d)], c)
  {
    UpMoveOk(o, doms, c, d);
    UpMoveChain(o, doms, c, d, d);
    var doms' := doms[c := Some(d)];
    forall x | Common(o, doms', c, x) ensures x in Chain(o, doms', d) {
      CommonKept(o, doms, c, d, c, x);
      if c in Chain(o, doms, d) { ChainMember(o, doms, d, c); }
    }
  }

  lemma {:induction false} ForwardKept(o: Order, doms: Doms, c: nat, d: nat, b: nat)
    requires UpMove(o, doms, c, d) && DomsOk(o, doms[c := Some(d)]) && PrefixKnown(o, doms)
    requires Known(o, doms, b) && b != 0 && b != c && Forward(o, doms, b)
    requires o.num[b] < o.num[c] || o.num[Up(o, doms, b)] > o.num[c]
    ensures Known(o, doms[c := Some(d)], b) && Forward(o, doms[c := Some(d)], b)
  {
    UpMoveOk(o, doms, c, d);
    var doms' := doms[c := Some(d)];
    forall q: nat | o.g.Edge(q, b) && Known(o, doms', q) && o.num[q] < o.num[b]
      ensures Up(o, doms, b) in Chain(o, doms', q)
    {
      if q == c {
        assert Known(o, doms, o.rpo[o.num[b]]) && Known(o, doms, o.rpo[o.num[c]]);
        ChainMember(o, doms, c, Up(o, doms, b));
      } else {
        UpMoveChain(o, doms, c, d, q);
        if c in Chain(o, doms, q) { ChainMember(o, doms, q, c); }
      }
    }
  }

  lemma {:induction false} ForwardMoved(o: Order, doms: Doms, c: nat, d: nat)
    requires UpMove(o, doms, c, d) && Common(o, doms, c, d)
    ensures DomsOk(o, doms[c := Some(d)]) && Known(o, doms[c := Some(d)], c) && Forward(o, doms[c := Some(d)], c)
  {
    UpMoveOk(o, doms, c, d);
    var doms' := doms[c := Some(d)];
    forall q: nat | o.g.Edge(q, c) && Known(o, doms', q) && o.num[q] < o.num[c] ensures d in Chain(o, doms', q) {
      UpMoveChain(o, doms, c, d, q);
      if c in Chain(o, doms, q) { ChainMember(o, doms, q, c); }
    }
  }

  /** The parent computed for the block at position `i`: the nearest block on all chains of its
      known predecessors, below all its strict dominators. */
  ghost predicate NewParent(o: Order, doms: Doms, b: nat, d: nat) {
    && DomsOk(o, doms)
    && Known(o, doms, d)
    && PassesUp(o.g, b, d)
    && forall x {:trigger Common(o, doms, b, x)} :: Common(o, doms, b, x) <==> x in Chain(o, doms, d)
  }

  lemma {:induction false} NewParentMoves(o: Order, doms: Doms, i: nat, b: nat, d: nat)
    requires SweepInv(o, doms, i) && 0 < i < |o.rpo| && b == o.rpo[i] && NewParent(o, doms, b, d)
    ensures UpMove(o, doms, b, d) && Common(o, doms, b, d)
  {
    EntryIn(o);
    ChainSelf(o, doms, d);
    assert Common(o, doms, b, d);
    var q := EarlierKnownPred(o, doms, b);
    ChainMember(o, doms, q, d);
    if doms[b].Some? {
      assert OnlyUp(o, doms, b);
    }
  }

  lemma {:induction false} KnownMoved(o: Order, doms: Doms, i: nat, d: nat)
    requires i < |o.rpo| && UpMove(o, doms, o.rpo[i], d) && KnownTo(o, doms, i) && PrefixKnown(o, doms)
    ensures KnownTo(o, doms[o.rpo[i] := Some(d)], i + 1) && PrefixKnown(o, doms[o.rpo[i] := Some(d)])
  {
  }

  lemma {:induction false} OnlyUpAfter(o: Order, doms: Doms, i: nat, b: nat, d: nat)
    requires SweepInv(o, doms, i) && 0 < i < |o.rpo| && b == o.rpo[i]
    requires UpMove(o, doms, b, d) && NewParent(o, doms, b, d)
    ensures DomsOk(o, doms[b := Some(d)]) && AllOnlyUp(o, doms[b := Some(d)])
  {
    UpMoveOk(o, doms, b, d);
    OnlyUpMoved(o, doms, b, d);
    var doms' := doms[b := Some(d)];
    forall x: nat | Known(o, doms', x) && x != 0 ensures OnlyUp(o, doms', x) {
      if x != b { OnlyUpKept(o, doms, b, d, x); }
    }
  }

  lemma {:induction false} ForwardAfterAt(o: Order, doms: Doms, i: nat, b: nat, d: nat, x: nat)
    requires UpMove(o, doms, b, d) && DomsOk(o, doms[b := Some(d)])
    requires PrefixKnown(o, doms) && AllForward(o, doms, i) && o.num[b] == i
    requires Known(o, doms, x) && x != 0 && x != b && (o.num[x] < i || o.num[Up(o, doms, x)] > i)
    ensures Known(o, doms[b := Some(d)], x) && Forward(o, doms[b := Some(d)], x)
  {
    assert Forward(o, doms, x);
    ForwardKept(o, doms, b, d, x);
  }

  lemma {:induction false} NumInjective(o: Order, x: nat, y: nat)
    requires o.In(x) && o.In(y) && o.num[x] == o.num[y]
    ensures x == y
  {
  }

  lemma {:induction false} ForwardAfter(o: Order, doms: Doms, i: nat, b: nat, d: nat)
    requires DomsOk(o, doms) && PrefixKnown(o, doms) && AllForward(o, doms, i) && 0 < i < |o.rpo| && b == o.rpo[i]
    requires UpMove(o, doms, b, d) && Common(o, doms, b, d)
    ensures DomsOk(o, doms[b := Some(d)]) && AllForward(o, doms[b := Some(d)], i + 1)
  {
    UpMoveOk(o, doms, b, d);
    ForwardMoved(o, doms, b, d);
    var doms' := doms[b := Some(d)];
    forall x: nat | Known(o, doms', x) && x != 0 && x != b && (o.num[x] < i + 1 || o.num[Up(o, doms', x)] >= i + 1)
      ensures Forward(o, doms', x)
    {
      if o.num[x] == i { NumInjective(o, x, b); }
      ForwardAfterAt(o, doms, i, b, d, x);
    }
  }

  lemma {:induction false} KeepsAfter(o: Order, doms: Doms, b: nat, d: nat)
    requires UpMove(o, doms, b, d) && KeepsDominators(o, doms) && PassesUp(o.g, b, d)
    ensures DomsOk(o, doms[b := Some(d)]) && KeepsDominators(o, doms[b := Some(d)])
  {
    UpMoveOk(o, doms, b, d);
    var doms' := doms[b := Some(d)];
    forall x: nat | Known(o, doms', x) && x != 0 ensures PassesUp(o.g, x, Up(o, doms', x)) {
      if x == b {
        assert Up(o, doms', x) == d;
      } else {
        assert Known(o, doms, x) && Up(o, doms', x) == Up(o, doms, x);
      }
    }
  }

  lemma {:induction false} SweepMoved(o: Order, doms: Doms, i: nat, b: nat, d: nat)
    requires SweepInv(o, doms, i) && 0 < i < |o.rpo| && b == o.rpo[i] && NewParent(o, doms, b, d)
    ensures SweepInv(o, doms[b := Some(d)], i + 1)
  {
    NewParentMoves(o, doms, i, b, d);
    KeepsAfter(o, doms, b, d);
    KnownMoved(o, doms, i, d);
    OnlyUpAfter(o, doms, i, b, d);
    ForwardAfter(o, doms, i, b, d);
  }

  /** A sweep that changes nothing at position `i` passes on. */
  lemma {:induction false} SweepSame(o: Order, doms: Doms, i: nat, b: nat, d: nat)
    requires SweepInv(o, doms, i) && 0 < i < |o.rpo| && b == o.rpo[i] && NewParent(o, doms, b, d)
    requires doms[b] == Some(d)
    ensures SweepInv(o, doms, i + 1) && Known(o, doms, b) && Fixed(o, doms, b)
  {
    SweepMoved(o, doms, i, b, d);
    NewParentMoves(o, doms, i, b, d);
    assert doms[b := Some(d)] == doms;
  }

  // ---- the sweeps end ----

  /** Positions of all parents, unknown ones counted past the end. */
  ghost function Rank(o: Order, doms: Doms, n: nat): nat
    requires n <= |doms|
  {
    if n == 0 then 0 else Rank(o, doms, n - 1) + Cost(o, doms[n - 1])
  }

  ghost function Cost(o: Order, d: Option<nat>): nat {
    if d.Some? && d.value < |o.num| then o.num[d.value] else |o.rpo|
  }

  lemma {:induction false} RankUpdate(o: Order, doms: Doms, n: nat, b: nat, d: Option<nat>)
    requires n <= |doms| && b < |doms|
    ensures Rank(o, doms[b := d], n) == Rank(o, doms, n) + if b < n then Cost(o, d) - Cost(o, doms[b]) else 0
  {
    if n > 0 {
      RankUpdate(o, doms, n - 1, b, d);
    }
  }

  lemma {:induction false} RankDrops(o: Order, doms: Doms, b: nat, d: nat)
    requires UpMove(o, doms, b, d) && doms[b] != Some(d)
    ensures Rank(o, doms[b := Some(d)], |doms|) < Rank(o, doms, |doms|)
  {
    RankUpdate(o, doms, |doms|, b, Some(d));
    if doms[b].Some? {
      ChainMember(o, doms, Up(o, doms, b), d);
    }
  }

  ghost predicate CommonTo(o: Order, doms: Doms, ps: seq<nat>, x: nat)
    requires DomsOk(o, doms)
  {
    forall j :: 0 <= j < |ps| && Known(o, doms, ps[j]) ==> x in Chain(o, doms, ps[j])
  }

  /** Folding the finger walk over the first predecessors of `b`. */
  ghost predicate FoldedTo(o: Order, doms: Doms, b: nat, ps: seq<nat>, r: Option<nat>)
    requires DomsOk(o, doms)
  {
    && (r.None? ==> forall j :: 0 <= j < |ps| ==> !Known(o, doms, ps[j]))
    && (r.Some? ==>
          && Known(o, doms, r.value)
          && PassesUp(o.g, b, r.value)
          && forall x {:trigger CommonTo(o, doms, ps, x)} :: CommonTo(o, doms, ps, x) <==> x in Chain(o, doms, r.value))
  }

  lemma {:induction false} FoldStep(o: Order, doms: Doms, b: nat, ps: seq<nat>, p: nat, r: Option<nat>, r': Option<nat>)
    requires DomsOk(o, doms) && FoldedTo(o, doms, b, ps, r) && b < o.g.len
    requires p in o.g.Predecessors(b)
    requires !Known(o, doms, p) ==> r' == r
    requires Known(o, doms, p) && r.None? ==> r' == Some(p)
    requires Known(o, doms, p) && r.Some? ==>
      && r'.Some?
      && Known(o, doms, r'.value)
      && Chain(o, doms, r'.value) == Chain(o, doms, p) * Chain(o, doms, r.value)
      && BothDominated(o.g, p, r.value, r'.value)
    ensures FoldedTo(o, doms, b, ps + [p], r')
  {
    var ps' := ps + [p];
    if Known(o, doms, p) {
      forall a: nat | Dominates(o.g, a, b) && a != b ensures Dominates(o.g, a, r'.value) {
        DominatesPred(o.g, a, p, b);
        assert r.Some? ==> PassesUp(o.g, b, r.value);
      }
    }
    forall x: nat
      ensures CommonTo(o, doms, ps', x) <==> CommonTo(o, doms, ps, x) && (Known(o, doms, p) ==> x in Chain(o, doms, p))
    {
      if CommonTo(o, doms, ps', x) {
        assert ps'[|ps|] == p;
        forall j | 0 <= j < |ps| && Known(o, doms, ps[j]) ensures x in Chain(o, doms, ps[j]) {
          assert ps'[j] == ps[j];
        }
      }
    }
  }

  /** The nearest common ancestor of the predecessors computed so far, if there is one. */
  method NewIdom(o: Order, doms: Doms, b: nat) returns (r: Option<nat>)
    requires DomsOk(o, doms) && KeepsDominators(o, doms) && b < o.g.len
    ensures FoldedTo(o, doms, b, o.g.Predecessors(b), r)
  {
    r := None;
    var ps := o.g.Predecessors(b);
    for k := 0 to |ps|
      invariant FoldedTo(o, doms, b, ps[..k], r)
    {
      var p, r' := ps[k], r;
      if p < |doms| && doms[p].Some? {
        SomeIsKnown(o, doms, p);
        if r.None? {
          r' := Some(p);
        } else {
          var x := Intersect(o, doms, p, r.value);
          r' := Some(x);
        }
      }
      FoldStep(o, doms, b, ps[..k], p, r, r');
      assert ps[..k] + [p] == ps[..k + 1];
      r := r';
    }
    assert ps[..|ps|] == ps;
  }

  lemma {:induction false} FoldedIsParent(o: Order, doms: Doms, i: nat, b: nat, r: Option<nat>)
    requires SweepInv(o, doms, i) && 0 < i < |o.rpo| && b == o.rpo[i]
    requires FoldedTo(o, doms, b, o.g.Predecessors(b), r)
    ensures r.Some? && NewParent(o, doms, b, r.value)
  {
    var ps := o.g.Predecessors(b);
    EntryIn(o);
    var q := EarlierKnownPred(o, doms, b);
    assert q in ps;
    forall x: nat ensures Common(o, doms, b, x) <==> CommonTo(o, doms, ps, x) {
      if CommonTo(o, doms, ps, x) {
        forall p: nat | o.g.Edge(p, b) && Known(o, doms, p) ensures x in Chain(o, doms, p) {
          assert p in ps;
        }
      }
      if Common(o, doms, b, x) {
        forall j | 0 <= j < |ps| && Known(o, doms, ps[j]) ensures x in Chain(o, doms, ps[j]) {
          assert ps[j] in ps;
          assert o.g.Edge(ps[j], b);
        }
      }
    }
  }

  /** Recomputes the parent of the block at position `i`. */
  method SweepStep(o: Order, doms: Doms, i: nat) returns (doms': Doms, changed: bool)
    requires SweepInv(o, doms, i) && 0 < i < |o.rpo|
    ensures SweepInv(o, doms', i + 1) && |doms'| == |doms|
    ensures changed ==> Rank(o, doms', |doms|) < Rank(o, doms, |doms|)
    ensures !changed ==> doms' == doms && Known(o, doms, o.rpo[i]) && Fixed(o, doms, o.rpo[i])
  {
    var b := o.rpo[i];
    var r := NewIdom(o, doms, b);
    FoldedIsParent(o, doms, i, b, r);
    var d := if r.Some? then r.value else 0;
    changed := doms[b] != Some(d);
    if changed {
      NewParentMoves(o, doms, i, b, d);
      RankDrops(o, doms, b, d);
      SweepMoved(o, doms, i, b, d);
      doms' := doms[b := Some(d)];
    } else {
      SweepSame(o, doms, i, b, d);
      doms' := doms;
    }
  }

  /** All reachable blocks know their parent and every parent agrees with all predecessors. */
  ghost predicate FixedPoint(o: Order, doms: Doms) {
    && DomsOk(o, doms)
    && KeepsDominators(o, doms)
    && (forall x: nat :: o.In(x) ==> Known(o, doms, x))
    && (forall x: nat :: o.In(x) && x != 0 ==> Fixed(o, doms, x))
  }

  ghost predicate FixedTo(o: Order, doms: Doms, i: nat)
    requires DomsOk(o, doms)
  {
    forall k :: 0 < k < i && k < |o.rpo| ==> Known(o, doms, o.rpo[k]) && Fixed(o, doms, o.rpo[k])
  }

  lemma {:induction false} FixedNext(o: Order, doms: Doms, i: nat)
    requires DomsOk(o, doms) && FixedTo(o, doms, i) && i < |o.rpo|
    requires Known(o, doms, o.rpo[i]) && Fixed(o, doms, o.rpo[i])
    ensures FixedTo(o, doms, i + 1)
  {
  }

  method Sweep(o: Order, doms: Doms) returns (doms': Doms, changed: bool)
    requires SweepInv(o, doms, 1)
    ensures SweepInv(o, doms', |o.rpo|) && |doms'| == |doms|
    ensures changed ==> Rank(o, doms', |doms|) < Rank(o, doms, |doms|)
    ensures !changed ==> doms' == doms && FixedTo(o, doms, |o.rpo|)
  {
    doms', changed := doms, false;
    for i := 1 to |o.rpo|
      invariant SweepInv(o, doms', i) && |doms'| == |doms|
      invariant changed ==> Rank(o, doms', |doms|) < Rank(o, doms, |doms|)
      invariant !changed ==> doms' == doms && FixedTo(o, doms, i)
    {
      var c;
      doms', c := SweepStep(o, doms', i);
      if !changed && !c {
        FixedNext(o, doms, i);
      }
      changed := changed || c;
    }
  }

  lemma {:induction false} SweepRestart(o: Order, doms: Doms)
    requires SweepInv(o, doms, |o.rpo|)
    ensures SweepInv(o, doms, 1)
  {
  }

  lemma {:induction false} SweepStart(o: Order, doms: Doms)
    requires o.Valid() && |doms| == o.g.len && doms[0] == Some(0)
    requires forall x: nat :: 0 < x < |doms| ==> doms[x].None?
    ensures SweepInv(o, doms, 1)
  {
  }

  lemma {:induction false} FixedEverywhere(o: Order, doms: Doms)
    requires SweepInv(o, doms, |o.rpo|) && FixedTo(o, doms, |o.rpo|)
    ensures FixedPoint(o, doms)
  {
  }

  /** Sweeps until nothing changes; the positions of the parents bound the number of sweeps. */
  method ComputeDominators(o: Order) returns (doms: Doms)
    requires o.Valid()
    ensures FixedPoint(o, doms)
  {
    doms := seq(o.g.len, i => if i == 0 then Some(0) else None);
    SweepStart(o, doms);
    var changed := true;
    while changed
      invariant SweepInv(o, doms, if changed then 1 else |o.rpo|)
      invariant !changed ==> FixedTo(o, doms, |o.rpo|)
      decreases changed, Rank(o, doms, |doms|)
    {
      doms, changed := Sweep(o, doms);
      if changed {
        SweepRestart(o, doms);
      }
    }
    FixedEverywhere(o, doms);
  }

  // ---- the analysis and its queries ----

  /** `doms` is the analysis of `g`: parents of reachable blocks spell out their dominators. */
  ghost predicate Analyzed(g: Cfg, o: Order, doms: Doms) {
    if g.len == 0 then doms == [] else o.g == g && FixedPoint(o, doms)
  }

  ghost predicate IsAnalysis(g: Cfg, doms: Doms) {
    exists o :: Analyzed(g, o, doms)
  }

  /** `p` is the immediate dominator of `b`: the closest of its other dominators. */
  ghost predicate IsIdom(g: Cfg, p: nat, b: nat) {
    p != b && Dominates(g, p, b) && forall a: nat :: a != b && Dominates(g, a, b) ==> Dominates(g, a, p)
  }

  /** The parent the analysis gives block `b`. */
  ghost predicate ParentIs(g: Cfg, doms: Doms, b: nat)
    requires b < |doms|
  {
    if !g.Reachable(b) then doms[b] == None
    else if b == 0 then doms[b] == Some(0)
    else doms[b].Some? && IsIdom(g, doms[b].value, b)
  }

  lemma {:induction false} ParentIsIdom(g: Cfg, o: Order, doms: Doms, b: nat)
    requires Analyzed(g, o, doms) && b < g.len
    ensures |doms| == g.len && ParentIs(g, doms, b)
  {
    InIsReachable(o, b);
    if doms[b].Some? {
      SomeIsKnown(o, doms, b);
    }
    if g.Reachable(b) && b != 0 {
      var p := Up(o, doms, b);
      InIsReachable(o, p);
      ChainSelf(o, doms, p);
      forall a: nat ensures a in Chain(o, doms, b) <==> Dominates(g, a, b) {
        ChainIsDominators(o, doms, a, b);
      }
      forall a: nat ensures a in Chain(o, doms, p) <==> Dominates(g, a, p) {
        ChainIsDominators(o, doms, a, p);
      }
    }
  }

  method Number(g: Cfg, rpo: seq<nat>) returns (num: seq<nat>)
    requires RpoOk(g, rpo)
    ensures |num| == g.len && forall i :: 0 <= i < |rpo| ==> num[rpo[i]] == i
  {
    num := seq(g.len, _ => 0);
    for i := 0 to |rpo|
      invariant |num| == g.len
      invariant forall k :: 0 <= k < i ==> num[rpo[k]] == k
    {
      num := num[rpo[i] := i];
    }
  }

  /** Parents are immediate dominators; unreachable blocks have none, the entry has itself. */
  method ComputeDomAnalysis(g: Cfg) returns (doms: Doms)
    requires g.Mirrored()
    ensures IsAnalysis(g, doms) && |doms| == g.len && forall b: nat :: b < g.len ==> ParentIs(g, doms, b)
  {
    var rpo := ReversePostOrder(g);
    var num := Number(g, rpo);
    var order := Order(g, rpo, num);
    doms := [];
    if rpo != [] {
      doms := ComputeDominators(order);
    }
    assert Analyzed(g, order, doms);
    forall b: nat | b < g.len ensures |doms| == g.len && ParentIs(g, doms, b) {
      ParentIsIdom(g, order, doms, b);
    }
  }

  /** `target` is met walking up from `from`; unreachable blocks have nowhere to go. */
  ghost predicate OnWalk(o: Order, doms: Doms, from: nat, target: nat)
    requires DomsOk(o, doms)
  {
    from == target || (Known(o, doms, from) && target in Chain(o, doms, from))
  }

  lemma {:induction false} OnWalkStep(o: Order, doms: Doms, f: nat, target: nat)
    requires DomsOk(o, doms) && f < |doms| && f != target
    ensures doms[f].None? || doms[f].value == f ==> !OnWalk(o, doms, f, target)
    ensures doms[f].Some? && doms[f].value != f ==>
      && doms[f].value < |doms|
      && o.num[doms[f].value] < o.num[f]
      && (OnWalk(o, doms, f, target) <==> OnWalk(o, doms, doms[f].value, target))
  {
    if doms[f].Some? {
      SomeIsKnown(o, doms, f);
      ChainSelf(o, doms, Up(o, doms, f));
    }
  }

  /** Walks up from `from` looking for `target`. */
  method DomPathReaches(doms: Doms, from: nat, target: nat, ghost o: Order) returns (r: bool)
    requires DomsOk(o, doms) && from < |doms|
    ensures r <==> OnWalk(o, doms, from, target)
  {
    var finger: nat := from;
    while finger != target
      invariant finger < |doms|
      invariant OnWalk(o, doms, from, target) <==> OnWalk(o, doms, finger, target)
      decreases o.num[finger]
    {
      OnWalkStep(o, doms, finger, target);
      if doms[finger].None? || doms[finger].value == finger {
        return false;
      }
      finger := doms[finger].value;
    }
    return true;
  }

  /** Walks from a block meet exactly its dominators; walks from an unreachable block only itself. */
  lemma {:induction false} OnWalkIsDominates(g: Cfg, o: Order, doms: Doms, a: nat, b: nat)
    requires Analyzed(g, o, doms) && b < g.len
    ensures g.Reachable(b) ==> (OnWalk(o, doms, b, a) <==> Dominates(g, a, b))
    ensures !g.Reachable(b) ==> (OnWalk(o, doms, b, a) <==> a == b)
  {
    InIsReachable(o, b);
    if o.In(b) {
      ChainIsDominators(o, doms, a, b);
      ChainSelf(o, doms, b);
    }
  }

  /** For a reachable `b`: true exactly when every path from the entry to `b` goes through `a`. */
  method DominatesQuery(g: Cfg, doms: Doms, a: nat, b: nat) returns (r: bool)
    requires IsAnalysis(g, doms)
    ensures g.Reachable(b) ==> (r <==> Dominates(g, a, b))
    ensures !g.Reachable(b) ==> (r <==> a == b && b < g.len)
  {
    ghost var o :| Analyzed(g, o, doms);
    if a >= |doms| || b >= |doms| {
      r := false;
      if g.Reachable(b) {
        UnknownDominatesNothing(g, o, doms, a, b);
      }
      return;
    }
    r := DomPathReaches(doms, b, a, o);
    OnWalkIsDominates(g, o, doms, a, b);
  }

  lemma {:induction false} UnknownDominatesNothing(g: Cfg, o: Order, doms: Doms, a: nat, b: nat)
    requires Analyzed(g, o, doms) && g.Reachable(b) && (a >= |doms| || b >= |doms|)
    ensures !Dominates(g, a, b)
  {
    InIsReachable(o, b);
    if Dominates(g, a, b) {
      DominatorIsEarlier(o, a, b);
    }
  }

  /** A reachable edge into a dominator of its own start. */
  ghost predicate BackEdge(g: Cfg, from: nat, to: nat) {
    g.Reachable(from) && g.Edge(from, to) && Dominates(g, to, from)
  }

  ghost predicate HasLoop(g: Cfg) {
    exists from: nat, to: nat :: BackEdge(g, from, to)
  }

  method IsBackEdge(g: Cfg, doms: Doms, from: nat, to: nat, ghost o: Order) returns (r: bool)
    requires Analyzed(g, o, doms) && from < g.len && to in g.Successors(from)
    ensures r <==> BackEdge(g, from, to)
  {
    r := false;
    if to < g.len {
      UnknownIsUnreachable(g, o, doms, from, to);
      if doms[to].Some? {
        r := DomPathReaches(doms, from, to, o);
        OnWalkIsDominates(g, o, doms, to, from);
        SomeIsKnown(o, doms, to);
        InIsReachable(o, to);
      }
    }
  }

  /** Whether some reachable edge goes back to a dominator of where it starts. */
  method DetectBackEdges(g: Cfg, doms: Doms) returns (r: bool)
    requires IsAnalysis(g, doms)
    ensures r <==> HasLoop(g)
  {
    ghost var o :| Analyzed(g, o, doms);
    for from := 0 to g.len
      invariant forall x: nat, y: nat :: x < from ==> !BackEdge(g, x, y)
    {
      var succs := g.Successors(from);
      for k := 0 to |succs|
        invariant forall j :: 0 <= j < k ==> !BackEdge(g, from, succs[j])
      {
        r := IsBackEdge(g, doms, from, succs[k], o);
        if r {
          return;
        }
      }
    }
    return false;
  }

  lemma {:induction false} UnknownIsUnreachable(g: Cfg, o: Order, doms: Doms, from: nat, to: nat)
    requires Analyzed(g, o, doms) && g.Edge(from, to)
    ensures g.Reachable(from) ==> doms[to].Some?
  {
    InIsReachable(o, to);
    if g.Reachable(from) {
      ReachableStep(g, from, to);
    }
  }
}
