/**
 Functions as liveness sees them: blocks of instructions that use and define SSA values,
 and what it means, in terms of paths, for a value to be live.
 */
module Programs {
  import opened Basics
  import opened Registers
  import opened Cfgs

  type Ssa = nat

  /** Destinations are vectors of values; `outputs` counts the sources of a register-output
      instruction. */
  datatype Instr = Instr(uses: seq<Ssa>, dsts: seq<seq<Ssa>>, outputs: Option<nat>) {
    ghost predicate Uses(x: Ssa) {
      x in uses
    }

    /** All destination values in order. */
    function Defs(): seq<Ssa> {
      Flat(dsts)
    }

    ghost predicate Defines(x: Ssa) {
      x in Defs()
    }
  }

  function Flat(vs: seq<seq<Ssa>>): seq<Ssa> {
    if vs == [] then [] else vs[0] + Flat(vs[1..])
  }

  ghost function Items(xs: seq<Ssa>): set<Ssa> {
    set x | x in xs
  }

  type Block = seq<Instr>

  datatype Function = Function(g: Cfg, blocks: seq<Block>, file: Ssa -> RegFile)

  ghost predicate UsedAt(b: Block, ip: nat, x: Ssa) {
    ip < |b| && b[ip].Uses(x)
  }

  ghost predicate DefinedAt(b: Block, ip: nat, x: Ssa) {
    ip < |b| && b[ip].Defines(x)
  }

  /** All values with a use. */
  ghost function UsedNames(f: Function): set<Ssa> {
    set b, ip, x | 0 <= b < |f.blocks| && 0 <= ip < |f.blocks[b]| && x in f.blocks[b][ip].uses :: x
  }

  ghost predicate UsedIn(b: Block, x: Ssa) {
    exists ip: nat :: UsedAt(b, ip, x)
  }

  ghost predicate DefinedIn(b: Block, x: Ssa) {
    exists ip: nat :: DefinedAt(b, ip, x)
  }

  /** A use that no definition in the block precedes. */
  ghost predicate Exposed(b: Block, ip: nat, x: Ssa) {
    UsedAt(b, ip, x) && forall d: nat :: d < ip ==> !DefinedAt(b, d, x)
  }

  ghost predicate UpwardUse(b: Block, x: Ssa) {
    exists ip: nat :: Exposed(b, ip, x)
  }

  /** In a block, definitions come before uses. */
  ghost predicate DefsFirst(b: Block) {
    forall u: nat, d: nat, x :: UsedAt(b, u, x) && DefinedAt(b, d, x) ==> d < u
  }

  ghost predicate FunctionOk(f: Function) {
    && |f.blocks| == f.g.len
    && Closed(f.g)
    && (forall b :: 0 <= b < |f.blocks| ==> DefsFirst(f.blocks[b]))
  }

  /** `p` leads along edges, through blocks that do not define `x`, to a block that uses `x`
      before defining it. */
  ghost predicate LivePath(f: Function, p: seq<nat>, x: Ssa) {
    && |p| > 0
    && (forall i :: 0 <= i < |p| ==> p[i] < |f.blocks|)
    && (forall i :: 0 <= i < |p| - 1 ==> f.g.Edge(p[i], p[i + 1]) && !DefinedIn(f.blocks[p[i]], x))
    && UpwardUse(f.blocks[p[|p| - 1]], x)
  }

  ghost predicate LiveIn(f: Function, b: nat, x: Ssa) {
    exists p :: LivePath(f, p, x) && p[0] == b
  }

  ghost predicate LiveOut(f: Function, b: nat, x: Ssa) {
    exists s: nat :: f.g.Edge(b, s) && LiveIn(f, s, x)
  }

  lemma {:induction false} UpwardUseLive(f: Function, b: nat, x: Ssa)
    requires b < |f.blocks| && UpwardUse(f.blocks[b], x)
    ensures LiveIn(f, b, x)
  {
    assert LivePath(f, [b], x);
  }

  lemma {:induction false} ThroughLive(f: Function, b: nat, s: nat, x: Ssa)
    requires b < |f.blocks| && f.g.Edge(b, s) && !DefinedIn(f.blocks[b], x) && LiveIn(f, s, x)
    ensures LiveIn(f, b, x)
  {
    var p :| LivePath(f, p, x) && p[0] == s;
    var q := [b] + p;
    assert forall i :: 0 < i < |q| ==> q[i] == p[i - 1];
    assert LivePath(f, q, x);
  }

  /** Liveness into a block is a use there, or liveness out of it past no definition. */
  lemma {:induction false} LiveInCases(f: Function, b: nat, x: Ssa)
    requires b < |f.blocks|
    ensures LiveIn(f, b, x) <==> UpwardUse(f.blocks[b], x) || (!DefinedIn(f.blocks[b], x) && LiveOut(f, b, x))
  {
    if LiveIn(f, b, x) && !UpwardUse(f.blocks[b], x) {
      var p :| LivePath(f, p, x) && p[0] == b;
      var q := p[1..];
      assert |p| > 1 && f.g.Edge(p[0], p[0 + 1]);
      assert forall i :: 0 <= i < |q| ==> q[i] == p[i + 1];
      assert LivePath(f, q, x) && q[0] == p[1];
    }
    if UpwardUse(f.blocks[b], x) {
      UpwardUseLive(f, b, x);
    } else if !DefinedIn(f.blocks[b], x) && LiveOut(f, b, x) {
      var s: nat :| f.g.Edge(b, s) && LiveIn(f, s, x);
      ThroughLive(f, b, s, x);
    }
  }

  lemma {:induction false} UpwardUseIs(b: Block, x: Ssa)
    requires DefsFirst(b)
    ensures UpwardUse(b, x) <==> UsedIn(b, x) && !DefinedIn(b, x)
  {
    if UpwardUse(b, x) {
      var ip: nat :| Exposed(b, ip, x);
      assert UsedAt(b, ip, x);
    }
    if UsedIn(b, x) && !DefinedIn(b, x) {
      var ip: nat :| UsedAt(b, ip, x);
      assert Exposed(b, ip, x);
    }
  }
}
