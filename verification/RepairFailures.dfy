/**
 What the exact condition for the repair to fail says of particular functions.
 */
module RepairFailures {
  import opened Basics
  import opened Cfgs
  import opened Programs
  import Registers
  import opened Dominators
  import opened SsaForm
  import opened DefCounts
  import opened PhiRegions
  import opened RedundantPhis
  import Repair = RepairSsa

  /** The repair succeeds when every use of a variable with several definitions can be reached, and
      every path to it from the entry has a definition. */
  lemma {:induction false} DefinedUsesSucceed(f: Function)
    requires forall b: nat, x: Ssa :: b < |f.blocks| && Twice(f, x) && LiveIn(f, b, x) ==>
      f.g.Reachable(b) && !LiveIn(f, 0, x)
    ensures !UndefinedUse(f) && !CircularUse(f)
  {
    forall x: Ssa, s: set<nat> | Twice(f, x) ensures !Region(f, x, s) {
      if Region(f, x, s) {
        var b :| b in s;
        assert Fed(f, x, s, b);
        var path :| f.g.PathTo(path, b);
        RegionIsStray(f, x, s, path, b);
      }
    }
    forall x | Twice(f, x) ensures !LiveIn(f, 0, x) {
      if p :| LivePath(f, p, x) && p[0] == 0 { assert LiveIn(f, 0, x); }
    }
  }

  /** It fails, in a function with a loop, at a block that follows only itself and wants such a
      variable without defining it. */
  lemma {:induction false} LoneLoopFails(f: Function, x: Ssa, b: nat)
    requires |f.blocks| == f.g.len && Twice(f, x) && LiveIn(f, b, x) && b < |f.blocks| && !DefinedIn(f.blocks[b], x)
    requires f.g.Edge(b, b) && forall p: nat :: f.g.Edge(p, b) ==> p == b
    ensures CircularUse(f)
  {
    assert Fed(f, x, {b}, b);
    assert Region(f, x, {b});
    AllTogether(f.g, {b}, b);
    CollapsesIffInseparable(f, x, {b});
  }

  // ---- examples ----

  function Def(): Instr {
    Instr([], [[0]], None)
  }

  function Use(): Instr {
    Instr([0], [], None)
  }

  lemma {:induction false} TwoDefinitions(f: Function, b: nat)
    requires b < |f.blocks| && f.blocks[b] == [Def(), Def()]
    ensures Twice(f, 0) && DefinedIn(f.blocks[b], 0) && !UpwardUse(f.blocks[b], 0)
  {
    assert Flat([[0]]) == [0] + Flat([]);
    assert Occurs(f, b, 0, 0, 0) && Occurs(f, b, 1, 0, 0) && Earlier(b, 0, 0, b, 1, 0);
    assert DefinedAt(f.blocks[b], 0, 0);
  }

  lemma {:induction false} OneUse(f: Function, b: nat)
    requires b < |f.blocks| && f.blocks[b] == [Use()]
    ensures LiveIn(f, b, 0) && !DefinedIn(f.blocks[b], 0)
  {
    assert UsedAt(f.blocks[b], 0, 0);
    assert Exposed(f.blocks[b], 0, 0);
    UpwardUseLive(f, b, 0);
  }

  /** The entry, which loops, defines the variable twice; a block that follows only itself uses it. */
  function StrayLoop(file: Ssa -> Registers.RegFile): Function {
    Function(Cfg(2, map[0 := [0], 1 := [1]], map[0 := [0], 1 := [1]]), [[Def(), Def()], [Use()]], file)
  }

  lemma {:induction false} StrayLoopSound(file: Ssa -> Registers.RegFile)
    ensures var f := StrayLoop(file); Repair.Sound(f) && Older(f, 1)
  {
    assert Flat([[0]]) == [0] + Flat([]);
  }

  lemma {:induction false} StrayLoopDefined(file: Ssa -> Registers.RegFile, x: Ssa)
    requires Twice(StrayLoop(file), x)
    ensures !LiveIn(StrayLoop(file), 0, x)
  {
    var f := StrayLoop(file);
    TwoDefinitions(f, 0);
    OnlyZeroIsDefined(f, x);
    LiveInCases(f, 0, 0);
  }

  /** Every path from the entry to a use has a definition, since none leads to one; but the repair
      fails. */
  lemma {:induction false} StrayLoopFails(file: Ssa -> Registers.RegFile)
    ensures var f := StrayLoop(file); Repair.Sound(f) && Older(f, 1) && forall x :: Twice(f, x) ==> !LiveIn(f, 0, x)
    ensures var f := StrayLoop(file); !UndefinedUse(f) && HasLoop(f.g) && CircularUse(f)
  {
    var f := StrayLoop(file);
    StrayLoopSound(file);
    TwoDefinitions(f, 0);
    OneUse(f, 1);
    forall x | Twice(f, x) ensures !LiveIn(f, 0, x) {
      StrayLoopDefined(file, x);
    }
    LoneLoopFails(f, 0, 1);
    assert f.g.Edge(0, 0);
    EntryLoops(f.g);
  }

  lemma {:induction false} EntryLoops(g: Cfg)
    requires g.Edge(0, 0)
    ensures HasLoop(g)
  {
    EntryReachable(g);
    assert BackEdge(g, 0, 0);
  }

  /** The entry follows only itself and uses a variable that is defined later. */
  function EntryLoop(file: Ssa -> Registers.RegFile): Function {
    Function(Cfg(2, map[0 := [0, 1]], map[0 := [0], 1 := [0]]), [[Use()], [Def(), Def()]], file)
  }

  lemma {:induction false} EntryLoopSound(file: Ssa -> Registers.RegFile)
    ensures var f := EntryLoop(file); Repair.Sound(f) && Older(f, 1) && forall b: nat :: b < 2 ==> f.g.Reachable(b)
  {
    var f := EntryLoop(file);
    assert Flat([[0]]) == [0] + Flat([]);
    EntryReachable(f.g);
    ReachableStep(f.g, 0, 1);
  }

  /** The same at a block that can be reached: the entry, where the use may be undefined. */
  lemma {:induction false} EntryLoopFails(file: Ssa -> Registers.RegFile)
    ensures var f := EntryLoop(file); Repair.Sound(f) && Older(f, 1) && forall b: nat :: b < 2 ==> f.g.Reachable(b)
    ensures var f := EntryLoop(file); !UndefinedUse(f) && HasLoop(f.g) && CircularUse(f)
  {
    var f := EntryLoop(file);
    EntryLoopSound(file);
    TwoDefinitions(f, 1);
    OneUse(f, 0);
    assert f.g.Edge(0, 0);
    LoneLoopFails(f, 0, 0);
    EntryLoops(f.g);
  }

  /** As `StrayLoop`, but three blocks that follow each other, not themselves, use the variable. */
  function StrayWeb(file: Ssa -> Registers.RegFile): Function {
    var edges: map<nat, seq<nat>> := map[0 := [0], 1 := [2, 3], 2 := [1, 3], 3 := [1, 2]];
    Function(Cfg(4, edges, edges), [[Def(), Def()], [Use()], [Use()], [Use()]], file)
  }

  lemma {:induction false} OnlyZeroIsDefined(f: Function, x: Ssa)
    requires Twice(f, x)
    requires forall b: nat :: b < |f.blocks| ==> f.blocks[b] == [Def(), Def()] || f.blocks[b] == [Use()]
    ensures x == 0
  {
    assert Flat([[0]]) == [0] + Flat([]);
    var b: nat, ip: nat, k: nat :| Occurs(f, b, ip, k, x);
  }

  /** The entry follows itself, the three other blocks each other. */
  ghost predicate IsWeb(g: Cfg) {
    g.len == 4 && forall a: nat, b: nat {:trigger g.Edge(a, b)} ::
      g.Edge(a, b) <==> a < 4 && b < 4 && if a == 0 || b == 0 then a == b else a != b
  }

  lemma {:induction false} WebEdges(file: Ssa -> Registers.RegFile)
    ensures IsWeb(StrayWeb(file).g)
  {
  }

  lemma {:induction false} WebSettled(g: Cfg, s: set<nat>, one: Grouping)
    requires IsWeb(g) && (forall b :: b in s ==> 0 < b < 4) && |one| == 4 && forall h :: 0 <= h < 4 ==> one[h] == h
    ensures Settled(g, s, one) && forall b: nat :: 0 < b < 4 ==> TwoOthers(g, one, b)
  {
    forall b: nat | 0 < b < 4 ensures TwoOthers(g, one, b) {
      var p, q := if b == 1 then 2 else 1, if b == 3 then 2 else 3;
      assert g.Edge(p, b) && g.Edge(q, b);
    }
  }

  lemma {:induction false} WebStays(g: Cfg, s: set<nat>)
    requires IsWeb(g) && Inward(g, s) && s != {} && forall b :: b in s ==> 0 < b < 4
    ensures !Collapses(g, s)
  {
    WebSettled(g, s, [0, 1, 2, 3]);
    var b :| b in s;
    TwoOthersSeparate(g, s, [0, 1, 2, 3], b);
  }

  lemma {:induction false} WebRegion(f: Function, s: set<nat>, b: nat)
    requires Region(f, 0, s) && b in s && f.g.len == |f.blocks| == 4 && f.blocks[0] == [Def(), Def()] && f.g.Edge(0, 0)
    ensures 0 < b < 4
  {
    TwoDefinitions(f, 0);
    assert Fed(f, 0, s, b);
  }

  lemma {:induction false} StrayWebClosed(file: Ssa -> Registers.RegFile)
    ensures Closed(StrayWeb(file).g)
  {
  }

  lemma {:induction false} StrayWebSound(file: Ssa -> Registers.RegFile)
    ensures var f := StrayWeb(file); Repair.Sound(f) && Older(f, 1)
  {
    assert Flat([[0]]) == [0] + Flat([]);
    StrayWebClosed(file);
  }

  lemma {:induction false} WebIsRegion(file: Ssa -> Registers.RegFile)
    ensures Region(StrayWeb(file), 0, {1, 2, 3})
  {
    var f := StrayWeb(file);
    forall b: nat | b in {1, 2, 3} ensures Fed(f, 0, {1, 2, 3}, b) {
      OneUse(f, b);
      assert f.g.Edge(if b == 1 then 2 else 1, b);
      forall p: nat | f.g.Edge(p, b) ensures p in {1, 2, 3} && !DefinedIn(f.blocks[p], 0) {
        OneUse(f, p);
      }
    }
  }

  lemma {:induction false} StrayWebApart(file: Ssa -> Registers.RegFile, s: set<nat>)
    requires Region(StrayWeb(file), 0, s)
    ensures !Collapses(StrayWeb(file).g, s)
  {
    forall b | b in s ensures 0 < b < 4 {
      WebRegion(StrayWeb(file), s, b);
    }
    WebEdges(file);
    RegionInward(StrayWeb(file), 0, s);
    WebStays(StrayWeb(file).g, s);
  }

  lemma {:induction false} StrayWebFine(file: Ssa -> Registers.RegFile)
    ensures !CircularUse(StrayWeb(file))
  {
    forall x: Ssa, s: set<nat> | Twice(StrayWeb(file), x) && Region(StrayWeb(file), x, s)
      ensures !Collapses(StrayWeb(file).g, s)
    {
      OnlyZeroIsDefined(StrayWeb(file), x);
      StrayWebApart(file, s);
    }
  }

  /** These are not merged into one, and the repair succeeds. */
  lemma {:induction false} StrayWebSucceeds(file: Ssa -> Registers.RegFile)
    ensures var f := StrayWeb(file); Repair.Sound(f) && Older(f, 1) && HasLoop(f.g) && Region(f, 0, {1, 2, 3})
    ensures var f := StrayWeb(file); !UndefinedUse(f) && !CircularUse(f)
  {
    StrayWebSound(file);
    WebEdges(file);
    EntryLoops(StrayWeb(file).g);
    WebIsRegion(file);
    StrayWebFine(file);
  }
}
