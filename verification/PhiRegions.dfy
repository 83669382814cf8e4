/**
 Regions of blocks in which a variable is wanted but never defined, and when all phis placed for
 it in a region are one: when the region collapses as blocks with a single other predecessor are
 merged into it.
 */
module PhiRegions {
  import opened Basics
  import opened Cfgs
  import opened Programs

  /** `x` is wanted at the head of block `b`, and comes from blocks of `s` that do not define it. */
  ghost predicate Fed(f: Function, x: Ssa, s: set<nat>, b: nat) {
    && b < |f.blocks| && LiveIn(f, b, x) && HasPred(f.g, b)
    && forall p: nat {:trigger f.g.Edge(p, b)} :: f.g.Edge(p, b) ==>
         p in s && p < |f.blocks| && !DefinedIn(f.blocks[p], x)
  }

  /** No block of the region gets `x` from outside, and none defines it. */
  ghost predicate Region(f: Function, x: Ssa, s: set<nat>) {
    s != {} && forall b: nat {:trigger Fed(f, x, s, b)} :: b in s ==> Fed(f, x, s, b)
  }

  /** A region has all predecessors of its blocks. */
  ghost predicate Inward(g: Cfg, s: set<nat>) {
    forall a: nat, b: nat {:trigger g.Edge(a, b)} :: b in s && g.Edge(a, b) ==> a in s
  }

  lemma {:induction false} RegionInward(f: Function, x: Ssa, s: set<nat>)
    requires Region(f, x, s)
    ensures Inward(f.g, s)
  {
    forall a: nat, b: nat | b in s && f.g.Edge(a, b) ensures a in s {
      assert Fed(f, x, s, b);
    }
  }

  // ---- merging blocks ----

  /** A grouping of the blocks of a region: blocks with the same number are one. */
  type Grouping = seq<nat>

  ghost predicate Constant(s: set<nat>, group: Grouping) {
    forall h, k :: h in s && k in s && h < |group| && k < |group| ==> group[h] == group[k]
  }

  /** The predecessors of `b` are in its own group and in that of its predecessor `a`, which takes
      it over. */
  ghost predicate Merges(g: Cfg, s: set<nat>, group: Grouping, group': Grouping, a: nat, b: nat) {
    && |group'| == |group| == g.len && b in s && g.Edge(a, b) && group[a] != group[b]
    && (forall p: nat {:trigger g.Edge(p, b)} :: g.Edge(p, b) ==> group[p] == group[a] || group[p] == group[b])
    && forall h :: 0 <= h < g.len ==> group'[h] == if group[h] == group[b] then group[a] else group[h]
  }

  ghost predicate MergeStep(g: Cfg, s: set<nat>, group: Grouping, group': Grouping) {
    exists a: nat, b: nat :: Merges(g, s, group, group', a, b)
  }

  ghost predicate Merging(g: Cfg, s: set<nat>, run: seq<Grouping>) {
    && |run| > 0 && |run[0]| == g.len && (forall h :: 0 <= h < g.len ==> run[0][h] == h)
    && forall i :: 0 < i < |run| ==> MergeStep(g, s, run[i - 1], run[i])
  }

  /** Merging leads from single blocks to one group. */
  ghost predicate Collapses(g: Cfg, s: set<nat>) {
    exists run :: Merging(g, s, run) && Constant(s, run[|run| - 1])
  }

  // ---- and what cannot be merged ----

  /** Two predecessors of `b` lie in different groups, neither that of `b`. */
  ghost predicate TwoOthers(g: Cfg, group: Grouping, b: nat)
    requires |group| == g.len && b < g.len
  {
    exists p: nat, q: nat :: g.Edge(p, b) && g.Edge(q, b) && group[p] != group[q] && group[p] != group[b] &&
      group[q] != group[b]
  }

  ghost predicate OnlyOwn(g: Cfg, group: Grouping, b: nat)
    requires |group| == g.len && b < g.len
  {
    forall p: nat :: g.Edge(p, b) ==> group[p] == group[b]
  }

  /** No group can be merged into another. */
  ghost predicate Settled(g: Cfg, s: set<nat>, group: Grouping) {
    |group| == g.len && forall b {:trigger b in s} :: b in s && b < g.len ==>
      OnlyOwn(g, group, b) || TwoOthers(g, group, b)
  }

  /** No settled grouping tells two blocks of the region apart. */
  ghost predicate Inseparable(g: Cfg, s: set<nat>) {
    forall group {:trigger Settled(g, s, group)} :: Settled(g, s, group) ==> Constant(s, group)
  }

  /** A settled grouping that keeps together what `was` does keeps together what is merged next. */
  lemma {:induction false} MergeIsForced(g: Cfg, s: set<nat>, was: Grouping, next: Grouping, group: Grouping, a: nat,
                                         b: nat)
    requires Merges(g, s, was, next, a, b) && Settled(g, s, group)
    requires forall i: nat, j: nat :: i < g.len && j < g.len && was[i] == was[j] ==> group[i] == group[j]
    ensures group[a] == group[b]
  {
    forall p: nat | g.Edge(p, b) ensures group[p] in {group[a], group[b]} {}
  }

  /** Merging keeps together only what every settled grouping keeps together. */
  lemma {:induction false} MergingIsForced(g: Cfg, s: set<nat>, run: seq<Grouping>, group: Grouping, h: nat, k: nat)
    requires Merging(g, s, run) && Settled(g, s, group) && h < g.len && k < g.len
    requires |run[|run| - 1]| == g.len && run[|run| - 1][h] == run[|run| - 1][k]
    ensures group[h] == group[k]
    decreases |run|
  {
    var last := |run| - 1;
    if last > 0 {
      var was := run[last - 1];
      assert MergeStep(g, s, was, run[last]);
      var a: nat, b: nat :| Merges(g, s, was, run[last], a, b);
      assert forall i :: 0 < i < last ==> MergeStep(g, s, run[i - 1], run[i]);
      forall i: nat, j: nat | i < g.len && j < g.len && was[i] == was[j] ensures group[i] == group[j] {
        MergingIsForced(g, s, run[..last], group, i, j);
      }
      MergeIsForced(g, s, was, run[last], group, a, b);
    }
  }

  ghost function Groups(s: set<nat>, group: Grouping): set<nat> {
    set h | h in s && h < |group| :: group[h]
  }

  /** A grouping that is not settled can be merged further. */
  lemma {:induction false} CanMerge(g: Cfg, s: set<nat>, group: Grouping) returns (group': Grouping)
    requires |group| == g.len && !Settled(g, s, group)
    requires Inward(g, s)
    ensures MergeStep(g, s, group, group') && Groups(s, group') < Groups(s, group)
  {
    var b :| b in s && b < g.len && !OnlyOwn(g, group, b) && !TwoOthers(g, group, b);
    var a: nat :| g.Edge(a, b) && group[a] != group[b];
    group' := seq(g.len, h requires 0 <= h < g.len => if group[h] == group[b] then group[a] else group[h]);
    assert Merges(g, s, group, group', a, b);
    assert group[b] in Groups(s, group) && group[b] !in Groups(s, group');
    assert group[a] in Groups(s, group);
  }

  /** Merging can go on until the grouping is settled. */
  lemma {:induction false} MergeAll(g: Cfg, s: set<nat>, run: seq<Grouping>) returns (run': seq<Grouping>)
    requires Merging(g, s, run) && |run[|run| - 1]| == g.len
    requires Inward(g, s)
    ensures Merging(g, s, run') && Settled(g, s, run'[|run'| - 1])
    decreases Groups(s, run[|run| - 1])
  {
    var group := run[|run| - 1];
    run' := run;
    if !Settled(g, s, group) {
      var group' := CanMerge(g, s, group);
      var more := run + [group'];
      forall i | 0 < i < |more| ensures MergeStep(g, s, more[i - 1], more[i]) {
        if i < |run| { assert MergeStep(g, s, run[i - 1], run[i]); }
      }
      run' := MergeAll(g, s, more);
    }
  }

  lemma {:induction false} GroupingSized(g: Cfg, s: set<nat>, run: seq<Grouping>)
    requires Merging(g, s, run)
    ensures |run[|run| - 1]| == g.len
  {
    if |run| > 1 {
      assert MergeStep(g, s, run[|run| - 2], run[|run| - 1]);
    }
  }

  lemma {:induction false} CollapsesInseparable(g: Cfg, s: set<nat>)
    requires Collapses(g, s)
    ensures Inseparable(g, s)
  {
    var run :| Merging(g, s, run) && Constant(s, run[|run| - 1]);
    GroupingSized(g, s, run);
    forall group | Settled(g, s, group) ensures Constant(s, group) {
      forall h, k | h in s && k in s && h < |group| && k < |group| ensures group[h] == group[k] {
        MergingIsForced(g, s, run, group, h, k);
      }
    }
  }

  lemma {:induction false} InseparableCollapses(g: Cfg, s: set<nat>)
    requires Inward(g, s) && Inseparable(g, s)
    ensures Collapses(g, s)
  {
    var one: Grouping := seq(g.len, h requires 0 <= h < g.len => h);
    var run := MergeAll(g, s, [one]);
  }

  /** A region collapses exactly when no settled grouping tells two of its blocks apart. */
  lemma {:induction false} CollapsesIffInseparable(f: Function, x: Ssa, s: set<nat>)
    requires |f.blocks| == f.g.len && Region(f, x, s)
    ensures Collapses(f.g, s) <==> Inseparable(f.g, s)
  {
    if Collapses(f.g, s) {
      CollapsesInseparable(f.g, s);
    } else if Inseparable(f.g, s) {
      RegionInward(f, x, s);
      InseparableCollapses(f.g, s);
    }
  }

  /** In every settled grouping the two blocks are in one group. */
  ghost predicate Together(g: Cfg, s: set<nat>, h: nat, k: nat) {
    h < g.len && k < g.len && forall group {:trigger Settled(g, s, group)} :: Settled(g, s, group) ==>
      group[h] == group[k]
  }

  /** A block whose predecessors are with it or with `r`, and one of them with `r`, is with `r`. */
  lemma {:induction false} TakenOver(g: Cfg, s: set<nat>, a: nat, b: nat, r: nat)
    requires b in s && g.Edge(a, b) && Together(g, s, a, r)
    requires forall p: nat {:trigger g.Edge(p, b)} :: g.Edge(p, b) ==> Together(g, s, p, r) || Together(g, s, p, b)
    ensures Together(g, s, b, r)
  {
    forall group | Settled(g, s, group) ensures group[b] == group[r] {
      forall p: nat | g.Edge(p, b) ensures group[p] in {group[r], group[b]} {}
    }
  }

  // ---- regions that do and that do not arise ----

  lemma {:induction false} AllTogether(g: Cfg, s: set<nat>, b: nat)
    requires forall h {:trigger h in s} :: h in s ==> Together(g, s, h, b)
    ensures Inseparable(g, s)
  {
  }

  /** A settled grouping that tells predecessors of a block apart keeps the region from collapsing. */
  lemma {:induction false} TwoOthersSeparate(g: Cfg, s: set<nat>, group: Grouping, b: nat)
    requires Inward(g, s) && Settled(g, s, group) && b in s && b < g.len && TwoOthers(g, group, b)
    ensures !Collapses(g, s)
  {
    if Collapses(g, s) {
      CollapsesInseparable(g, s);
    }
  }

  /** A block of a region cannot be reached, unless the variable is wanted at the entry. */
  lemma {:induction false} RegionIsStray(f: Function, x: Ssa, s: set<nat>, path: seq<nat>, b: nat)
    requires Region(f, x, s) && b in s && f.g.PathTo(path, b)
    ensures LiveIn(f, 0, x)
    decreases |path|
  {
    assert Fed(f, x, s, b);
    if |path| > 1 {
      PathInit(f.g, path, b);
      RegionIsStray(f, x, s, path[..|path| - 1], path[|path| - 2]);
    }
  }
}
