/**
 The register-pressure walk: a running set of live values with per-file counters,
 stepped over every instruction of every block.
 */
module Pressure {
  import opened Basics
  import opened Registers
  import opened BitSets
  import opened Cfgs
  import opened Programs
  import opened SimpleLiveness

  /** One count per register file. */
  datatype PerFile = PerFile(gpr: nat, ugpr: nat, pred: nat, upred: nat, carry: nat, bar: nat, mem: nat) {
    function At(f: RegFile): nat {
      match f
      case GPR => gpr
      case UGPR => ugpr
      case Pred => pred
      case UPred => upred
      case Carry => carry
      case Bar => bar
      case Mem => mem
    }

    function With(f: RegFile, n: nat): (r: PerFile)
      ensures forall g: RegFile :: r.At(g) == if g == f then n else At(g)
    {
      match f
      case GPR => this.(gpr := n)
      case UGPR => this.(ugpr := n)
      case Pred => this.(pred := n)
      case UPred => this.(upred := n)
      case Carry => this.(carry := n)
      case Bar => this.(bar := n)
      case Mem => this.(mem := n)
    }
  }

  const ZERO := PerFile(0, 0, 0, 0, 0, 0, 0)

  function MaxPerFile(a: PerFile, b: PerFile): (r: PerFile)
    ensures forall f: RegFile :: r.At(f) == Max(a.At(f), b.At(f))
  {
    PerFile(Max(a.gpr, b.gpr), Max(a.ugpr, b.ugpr), Max(a.pred, b.pred), Max(a.upred, b.upred),
            Max(a.carry, b.carry), Max(a.bar, b.bar), Max(a.mem, b.mem))
  }

  ghost function InFile(s: set<Ssa>, file: Ssa -> RegFile, f: RegFile): set<Ssa> {
    set x | x in s && file(x) == f
  }

  /** The counters are the sizes of the set's parts. */
  ghost predicate Counts(live: PerFile, s: set<Ssa>, file: Ssa -> RegFile) {
    forall f: RegFile :: live.At(f) == |InFile(s, file, f)|
  }

  ghost function Dead(xs: seq<Ssa>, bl: BlockLiveness, ip: nat): set<Ssa> {
    set x | x in xs && !bl.IsLiveAfterIp(x, ip)
  }

  ghost function Entering(s: set<Ssa>, bl: BlockLiveness): set<Ssa> {
    set x | x in s && bl.liveIn.Contains(x)
  }

  class LiveSet {
    var live: PerFile
    var members: set<Ssa>
    const file: Ssa -> RegFile

    ghost predicate Valid()
      reads this
    {
      Counts(live, members, file)
    }

    constructor (file: Ssa -> RegFile)
      ensures Valid() && members == {} && this.file == file
    {
      live, members := ZERO, {};
      this.file := file;
      new;
      forall f: RegFile ensures live.At(f) == |InFile(members, file, f)| {
        assert InFile({}, file, f) == {};
      }
    }

    method Insert(x: Ssa) returns (added: bool)
      requires Valid()
      modifies this
      ensures Valid() && members == old(members) + {x} && added == (x !in old(members))
    {
      added := x !in members;
      if added {
        live := live.With(file(x), live.At(file(x)) + 1);
        members := members + {x};
        CountInsert(old(live), old(members), file, x);
      }
    }

    method Remove(x: Ssa) returns (removed: bool)
      requires Valid()
      modifies this
      ensures Valid() && members == old(members) - {x} && removed == (x in old(members))
    {
      removed := x in members;
      if removed {
        CountPositive(members, file, x);
        live := live.With(file(x), live.At(file(x)) - 1);
        members := members - {x};
        CountRemove(old(live), old(members), file, x);
      }
    }

    /** Inserts the destinations that are vectors, or those that are scalars. */
    method InsertDsts(dsts: seq<seq<Ssa>>, vectors: bool)
      requires Valid()
      modifies this
      ensures Valid() && members == old(members) + DstSet(dsts, vectors)
    {
      for k := 0 to |dsts|
        invariant Valid() && members == old(members) + DstSet(dsts[..k], vectors)
      {
        assert dsts[..k + 1] == dsts[..k] + [dsts[k]];
        DstSetSnoc(dsts[..k], dsts[k], vectors);
        if (vectors && |dsts[k]| > 1) || (!vectors && |dsts[k]| == 1) {
          InsertAll(dsts[k]);
        }
      }
      assert dsts[..|dsts|] == dsts;
    }

    method InsertAll(xs: seq<Ssa>)
      requires Valid()
      modifies this
      ensures Valid() && members == old(members) + Items(xs)
    {
      for k := 0 to |xs|
        invariant Valid() && members == old(members) + Items(xs[..k])
      {
        var _ := Insert(xs[k]);
        assert xs[..k + 1] == xs[..k] + [xs[k]];
      }
      assert xs[..|xs|] == xs;
    }

    /** Removes the listed values that are dead after `ip`. */
    method RemoveDead(xs: seq<Ssa>, bl: BlockLiveness, ip: nat)
      requires Valid()
      modifies this
      ensures Valid() && members == old(members) - Dead(xs, bl, ip)
    {
      for k := 0 to |xs|
        invariant Valid() && members == old(members) - Dead(xs[..k], bl, ip)
      {
        assert xs[..k + 1] == xs[..k] + [xs[k]];
        if !bl.IsLiveAfterIp(xs[k], ip) {
          var _ := Remove(xs[k]);
        }
      }
      assert xs[..|xs|] == xs;
    }

    /** Inserts the members of `s` that are live into the block. */
    method InsertLiveIn(s: set<Ssa>, bl: BlockLiveness)
      requires Valid()
      modifies this
      ensures Valid() && members == old(members) + Entering(s, bl)
    {
      var todo := s;
      while todo != {}
        invariant Valid() && todo <= s
        invariant members == old(members) + Entering(s - todo, bl)
      {
        var x :| x in todo;
        if bl.liveIn.Contains(x) {
          var _ := Insert(x);
        }
        assert s - (todo - {x}) == (s - todo) + {x};
        todo := todo - {x};
      }
      assert s - {} == s;
    }

    /** Steps over one instruction; the result counts the most values held at once. */
    method InsertInstrTopDown(ip: nat, i: Programs.Instr, bl: BlockLiveness) returns (maxLive: PerFile)
      requires Valid()
      modifies this
      ensures Valid() && members == Stepped(old(members), i, bl, ip)
      ensures forall f: RegFile ::
        maxLive.At(f) == Max(|InFile(WithVectors(old(members), i), file, f)|,
                             |InFile(WithAll(old(members), i, bl, ip), file, f)|)
    {
      InsertDsts(i.dsts, true);
      var afterDsts := live;
      RemoveDead(i.uses, bl, ip);
      InsertDsts(i.dsts, false);
      maxLive := MaxPerFile(live, afterDsts);
      RemoveDead(i.Defs(), bl, ip);
      SteppedIs(old(members), i, bl, ip);
    }
  }

  lemma {:induction false} CountInsert(live: PerFile, s: set<Ssa>, file: Ssa -> RegFile, x: Ssa)
    requires Counts(live, s, file) && x !in s
    ensures Counts(live.With(file(x), live.At(file(x)) + 1), s + {x}, file)
  {
    forall f: RegFile ensures live.With(file(x), live.At(file(x)) + 1).At(f) == |InFile(s + {x}, file, f)| {
      if f == file(x) {
        assert InFile(s + {x}, file, f) == InFile(s, file, f) + {x};
      } else {
        assert InFile(s + {x}, file, f) == InFile(s, file, f);
      }
    }
  }

  lemma {:induction false} CountPositive(s: set<Ssa>, file: Ssa -> RegFile, x: Ssa)
    requires x in s
    ensures |InFile(s, file, file(x))| > 0
  {
    assert x in InFile(s, file, file(x));
  }

  lemma {:induction false} CountRemove(live: PerFile, s: set<Ssa>, file: Ssa -> RegFile, x: Ssa)
    requires Counts(live, s, file) && x in s && live.At(file(x)) > 0
    ensures Counts(live.With(file(x), live.At(file(x)) - 1), s - {x}, file)
  {
    forall f: RegFile ensures live.With(file(x), live.At(file(x)) - 1).At(f) == |InFile(s - {x}, file, f)| {
      if f == file(x) {
        assert x in InFile(s, file, f) && InFile(s - {x}, file, f) == InFile(s, file, f) - {x};
      } else {
        assert InFile(s - {x}, file, f) == InFile(s, file, f);
      }
    }
  }

  // ---- the step on sets ----

  /** A destination of several values, or of one. */
  ghost predicate Chosen(v: seq<Ssa>, vectors: bool) {
    (vectors && |v| > 1) || (!vectors && |v| == 1)
  }

  ghost function DstSet(dsts: seq<seq<Ssa>>, vectors: bool): set<Ssa> {
    if dsts == [] then {}
    else DstSet(dsts[..|dsts| - 1], vectors) +
         if Chosen(dsts[|dsts| - 1], vectors) then Items(dsts[|dsts| - 1]) else {}
  }

  lemma {:induction false} DstSetSnoc(dsts: seq<seq<Ssa>>, v: seq<Ssa>, vectors: bool)
    ensures DstSet(dsts + [v], vectors) == DstSet(dsts, vectors) + if Chosen(v, vectors) then Items(v) else {}
  {
  }

  lemma {:induction false} FlatSnoc(vs: seq<seq<Ssa>>, v: seq<Ssa>)
    ensures Flat(vs + [v]) == Flat(vs) + v
  {
    if vs == [] {
      assert [] + [v] == [v] && [v][1..] == [];
      assert Flat([v]) == v + Flat([]);
    } else {
      assert (vs + [v])[0] == vs[0] && (vs + [v])[1..] == vs[1..] + [v];
      FlatSnoc(vs[1..], v);
    }
  }

  lemma {:induction false} DstSetsCover(dsts: seq<seq<Ssa>>, x: Ssa)
    ensures x in Flat(dsts) <==> x in DstSet(dsts, true) || x in DstSet(dsts, false)
  {
    if dsts != [] {
      var init, last := dsts[..|dsts| - 1], dsts[|dsts| - 1];
      assert dsts == init + [last];
      DstSetsCover(init, x);
      FlatSnoc(init, last);
    }
  }

  /** What is held once the vector destinations are in. */
  ghost function WithVectors(s: set<Ssa>, i: Programs.Instr): set<Ssa> {
    s + DstSet(i.dsts, true)
  }

  /** What is held once the dead sources are out and the scalar destinations are in. */
  ghost function WithAll(s: set<Ssa>, i: Programs.Instr, bl: BlockLiveness, ip: nat): set<Ssa> {
    WithVectors(s, i) - Dead(i.uses, bl, ip) + DstSet(i.dsts, false)
  }

  /** What is live after the instruction, given what is live before it. */
  ghost function Stepped(s: set<Ssa>, i: Programs.Instr, bl: BlockLiveness, ip: nat): set<Ssa> {
    set x | x in s + Items(i.Defs()) &&
            (if i.Defines(x) then bl.IsLiveAfterIp(x, ip) else i.Uses(x) ==> bl.IsLiveAfterIp(x, ip))
  }

  lemma {:induction false} SteppedIs(s: set<Ssa>, i: Programs.Instr, bl: BlockLiveness, ip: nat)
    ensures Stepped(s, i, bl, ip) == WithAll(s, i, bl, ip) - Dead(i.Defs(), bl, ip)
  {
    forall x: Ssa ensures x in i.Defs() <==> x in DstSet(i.dsts, true) || x in DstSet(i.dsts, false) {
      DstSetsCover(i.dsts, x);
    }
  }

  // ---- liveness at a point ----

  ghost predicate DefinedBetween(b: Block, lo: nat, hi: nat, x: Ssa) {
    exists d: nat :: lo <= d < hi && DefinedAt(b, d, x)
  }

  ghost predicate UseFrom(b: Block, ip: nat, u: nat, x: Ssa) {
    ip <= u && UsedAt(b, u, x) && !DefinedBetween(b, ip, u, x)
  }

  /** Live just before instruction `ip`: some path from there uses `x` before any definition. */
  ghost predicate PointLive(f: Function, b: nat, ip: nat, x: Ssa)
    requires b < |f.blocks|
  {
    var bb := f.blocks[b];
    (exists u: nat :: UseFrom(bb, ip, u, x)) || (LiveOut(f, b, x) && !DefinedBetween(bb, ip, |bb|, x))
  }

  /** A value has one definition in a block. */
  ghost predicate DefinedOnce(b: Block) {
    forall d: nat, e: nat, x :: DefinedAt(b, d, x) && DefinedAt(b, e, x) ==> d == e
  }

  /** Every block can be reached, no value is used undefined, and none is defined twice. */
  ghost predicate Strict(f: Function) {
    && FunctionOk(f)
    && (forall b: nat :: b < f.g.len ==> f.g.Reachable(b) && DefinedOnce(f.blocks[b]))
    && (f.g.len > 0 ==> forall x: Ssa :: !LiveIn(f, 0, x))
  }

  lemma {:induction false} PointLiveEnds(f: Function, b: nat, x: Ssa)
    requires b < |f.blocks|
    ensures PointLive(f, b, 0, x) <==> LiveIn(f, b, x)
    ensures PointLive(f, b, |f.blocks[b]|, x) <==> LiveOut(f, b, x)
  {
    var bb := f.blocks[b];
    LiveInCases(f, b, x);
    forall u: nat ensures UseFrom(bb, 0, u, x) <==> Exposed(bb, u, x) {
      if UsedAt(bb, u, x) && !DefinedBetween(bb, 0, u, x) {
        forall d: nat | d < u ensures !DefinedAt(bb, d, x) {}
      }
    }
    if UpwardUse(bb, x) {
      var u: nat :| Exposed(bb, u, x);
      assert UseFrom(bb, 0, u, x);
    }
    if DefinedIn(bb, x) {
      var d: nat :| DefinedAt(bb, d, x);
      assert 0 <= d < |bb|;
    }
    if d: nat :| 0 <= d < |bb| && DefinedAt(bb, d, x) {
      assert DefinedIn(bb, x);
    }
  }

  lemma {:induction false} PointLiveStep(f: Function, b: nat, ip: nat, x: Ssa)
    requires b < |f.blocks| && ip < |f.blocks[b]|
    ensures PointLive(f, b, ip, x) <==>
      UsedAt(f.blocks[b], ip, x) || (!DefinedAt(f.blocks[b], ip, x) && PointLive(f, b, ip + 1, x))
  {
    var bb, next := f.blocks[b], ip + 1;
    forall hi: nat | ip < hi
      ensures DefinedBetween(bb, ip, hi, x) <==> DefinedAt(bb, ip, x) || DefinedBetween(bb, next, hi, x) {}
    if u: nat :| UseFrom(bb, ip, u, x) {
      if u != ip { assert UseFrom(bb, ip + 1, u, x); }
    }
    if UsedAt(bb, ip, x) { assert UseFrom(bb, ip, ip, x); }
    if !DefinedAt(bb, ip, x) {
      if u: nat :| UseFrom(bb, next, u, x) {
        assert UseFrom(bb, ip, u, x);
      }
    }
  }

  /** Past the last definition, the block query answers exactly. */
  lemma {:induction false} QueryIsPointLive(f: Function, bl: BlockLiveness, b: nat, ip: nat, x: Ssa)
    requires b < |f.blocks| && Scanned(f.blocks[b], bl)
    requires bl.liveOut.Contains(x) <==> LiveOut(f, b, x)
    requires forall d: nat :: ip < d ==> !DefinedAt(f.blocks[b], d, x)
    ensures bl.IsLiveAfterIp(x, ip) <==> PointLive(f, b, ip + 1, x)
  {
    var bb, next := f.blocks[b], ip + 1;
    if u: nat :| UseFrom(bb, next, u, x) {
      assert UsedIn(bb, x) && u <= bl.lastUse[x];
    }
    if x in bl.lastUse && bl.lastUse[x] > ip {
      assert UseFrom(bb, ip + 1, bl.lastUse[x], x);
    }
  }

  ghost predicate IsPointSet(f: Function, b: nat, ip: nat, s: set<Ssa>)
    requires b < |f.blocks|
  {
    forall x: Ssa :: x in s <==> PointLive(f, b, ip, x)
  }

  /** The values live at a point, as a set: only values with a use can be. */
  ghost function LiveAt(f: Function, b: nat, ip: nat): set<Ssa>
    requires b < |f.blocks|
  {
    set x | x in UsedNames(f) && PointLive(f, b, ip, x)
  }

  lemma {:induction false} LiveAtIs(f: Function, b: nat, ip: nat)
    requires b < |f.blocks|
    ensures IsPointSet(f, b, ip, LiveAt(f, b, ip))
  {
  }

  lemma {:induction false} PointSetIs(f: Function, b: nat, ip: nat, s: set<Ssa>)
    requires b < |f.blocks| && IsPointSet(f, b, ip, s)
    ensures s == LiveAt(f, b, ip)
  {
  }

  lemma {:induction false} StepAt(f: Function, bl: BlockLiveness, b: nat, ip: nat, x: Ssa)
    requires Strict(f) && b < |f.blocks| && ip < |f.blocks[b]|
    requires Scanned(f.blocks[b], bl) && (bl.liveOut.Contains(x) <==> LiveOut(f, b, x))
    ensures x in Stepped(LiveAt(f, b, ip), f.blocks[b][ip], bl, ip) <==> PointLive(f, b, ip + 1, x)
    ensures f.blocks[b][ip].Uses(x) ==> !f.blocks[b][ip].Defines(x)
  {
    var bb := f.blocks[b];
    var i := bb[ip];
    LiveAtIs(f, b, ip);
    PointLiveStep(f, b, ip, x);
    assert UsedAt(bb, ip, x) <==> i.Uses(x);
    assert DefinedAt(bb, ip, x) <==> i.Defines(x);
    if i.Uses(x) || i.Defines(x) {
      QueryIsPointLive(f, bl, b, ip, x);
    }
  }

  /** The step takes the live values before an instruction to those after it, and what it
      holds in between is the latter with all destinations. */
  lemma {:induction false} StepIsExact(f: Function, bl: BlockLiveness, b: nat, ip: nat)
    requires Strict(f) && b < |f.blocks| && ip < |f.blocks[b]|
    requires Scanned(f.blocks[b], bl) && forall x: Ssa :: bl.liveOut.Contains(x) <==> LiveOut(f, b, x)
    ensures Stepped(LiveAt(f, b, ip), f.blocks[b][ip], bl, ip) == LiveAt(f, b, ip + 1)
    ensures WithAll(LiveAt(f, b, ip), f.blocks[b][ip], bl, ip) == LiveAt(f, b, ip + 1) + Items(f.blocks[b][ip].Defs())
  {
    var i := f.blocks[b][ip];
    var s := LiveAt(f, b, ip);
    forall x: Ssa ensures x in Stepped(s, i, bl, ip) <==> PointLive(f, b, ip + 1, x)
      ensures i.Uses(x) ==> !i.Defines(x)
    {
      StepAt(f, bl, b, ip, x);
    }
    PointSetIs(f, b, ip + 1, Stepped(s, i, bl, ip));
    SteppedIs(s, i, bl, ip);
    forall x: Ssa ensures x in i.Defs() <==> x in DstSet(i.dsts, true) || x in DstSet(i.dsts, false) {
      DstSetsCover(i.dsts, x);
    }
  }

  // ---- the reported maximum ----

  /** The pressure of one instruction: live values with its vector destinations before it,
      or with all its destinations after it. */
  ghost function PressureAt(f: Function, b: nat, ip: nat, fl: RegFile): nat
    requires b < |f.blocks| && ip < |f.blocks[b]|
  {
    var i := f.blocks[b][ip];
    Max(|InFile(LiveAt(f, b, ip) + DstSet(i.dsts, true), f.file, fl)|,
        |InFile(LiveAt(f, b, ip + 1) + Items(i.Defs()), f.file, fl)|)
  }

  /** How many registers of a file the outputs of an instruction need. */
  ghost function OutputsOf(i: Programs.Instr, fl: RegFile): nat {
    if fl == GPR && i.outputs.Some? then i.outputs.value else 0
  }

  ghost function NeedAt(f: Function, b: nat, ip: nat, fl: RegFile): nat
    requires b < |f.blocks| && ip < |f.blocks[b]|
  {
    Max(PressureAt(f, b, ip, fl), OutputsOf(f.blocks[b][ip], fl))
  }

  /** Instructions that come before position `ip` of block `b`. */
  ghost predicate Before(f: Function, c: nat, jp: nat, b: nat, ip: nat) {
    c < |f.blocks| && jp < |f.blocks[c]| && (c < b || (c == b && jp < ip))
  }

  ghost predicate Bounds(f: Function, m: nat, fl: RegFile, b: nat, ip: nat) {
    forall c: nat, jp: nat :: Before(f, c, jp, b, ip) ==> NeedAt(f, c, jp, fl) <= m
  }

  ghost predicate Attained(f: Function, m: nat, fl: RegFile, b: nat, ip: nat) {
    exists c: nat, jp: nat :: Before(f, c, jp, b, ip) && NeedAt(f, c, jp, fl) == m
  }

  /** `m` is the largest need before a position, zero when there is none. */
  ghost predicate IsMax(f: Function, m: nat, fl: RegFile, b: nat, ip: nat) {
    Bounds(f, m, fl, b, ip) && (m == 0 || Attained(f, m, fl, b, ip))
  }

  ghost predicate AllMax(f: Function, m: PerFile, b: nat, ip: nat) {
    forall fl: RegFile :: IsMax(f, m.At(fl), fl, b, ip)
  }

  lemma {:induction false} AllMaxStep(f: Function, m: PerFile, r: PerFile, b: nat, ip: nat)
    requires b < |f.blocks| && ip < |f.blocks[b]| && AllMax(f, m, b, ip)
    requires forall fl: RegFile :: r.At(fl) == Max(m.At(fl), NeedAt(f, b, ip, fl))
    ensures AllMax(f, r, b, ip + 1)
  {
  }

  lemma {:induction false} AllMaxNextBlock(f: Function, m: PerFile, b: nat)
    requires b < |f.blocks| && AllMax(f, m, b, |f.blocks[b]|)
    ensures AllMax(f, m, b + 1, 0)
  {
  }

  /** Liveness of the block is known exactly. */
  ghost predicate ExactAt(f: Function, b: nat, bl: BlockLiveness)
    requires b < |f.blocks|
  {
    && Scanned(f.blocks[b], bl)
    && (forall x: Ssa :: bl.liveOut.Contains(x) <==> LiveOut(f, b, x))
    && (forall x: Ssa :: bl.liveIn.Contains(x) <==> LiveIn(f, b, x))
  }

  /** Steps over one instruction and takes its need into the maximum. */
  method WalkInstr(f: Function, b: nat, ip: nat, bl: BlockLiveness, live: LiveSet, m: PerFile) returns (r: PerFile)
    requires Strict(f) && b < |f.blocks| && ExactAt(f, b, bl) && ip < |f.blocks[b]|
    requires live.Valid() && live.file == f.file && live.members == LiveAt(f, b, ip)
    modifies live
    ensures live.Valid() && live.members == LiveAt(f, b, ip + 1)
    ensures forall fl: RegFile :: r.At(fl) == Max(m.At(fl), NeedAt(f, b, ip, fl))
  {
    var i := f.blocks[b][ip];
    StepIsExact(f, bl, b, ip);
    var at := live.InsertInstrTopDown(ip, i, bl);
    r := MaxPerFile(m, at);
    if i.outputs.Some? {
      r := r.With(GPR, Max(r.At(GPR), i.outputs.value));
    }
  }

  /** Walks one block from its live-in values to its live-out values. */
  method WalkBlock(f: Function, b: nat, bl: BlockLiveness, live: LiveSet, m: PerFile) returns (r: PerFile)
    requires Strict(f) && b < |f.blocks| && ExactAt(f, b, bl)
    requires live.Valid() && live.file == f.file && live.members == LiveAt(f, b, 0)
    requires AllMax(f, m, b, 0)
    modifies live
    ensures live.Valid() && live.members == LiveAt(f, b, |f.blocks[b]|)
    ensures AllMax(f, r, b, |f.blocks[b]|)
  {
    r := m;
    for ip := 0 to |f.blocks[b]|
      invariant live.Valid() && live.members == LiveAt(f, b, ip)
      invariant AllMax(f, r, b, ip)
    {
      ghost var was := r;
      r := WalkInstr(f, b, ip, bl, live, r);
      AllMaxStep(f, was, r, b, ip);
    }
  }

  function DefinedNames(f: Function): set<Ssa> {
    set b, ip, x | 0 <= b < |f.blocks| && 0 <= ip < |f.blocks[b]| && x in f.blocks[b][ip].Defs() :: x
  }

  /** A value that is live somewhere reachable, but not at the entry, is defined. */
  lemma {:induction false} LiveIsDefined(f: Function, p: seq<nat>, b: nat, x: Ssa)
    requires Strict(f) && f.g.PathTo(p, b) && LiveIn(f, b, x)
    ensures x in DefinedNames(f)
    decreases |p|
  {
    if |p| > 1 {
      PathInit(f.g, p, b);
      var a := p[|p| - 2];
      if DefinedIn(f.blocks[a], x) {
        var d: nat :| DefinedAt(f.blocks[a], d, x);
      } else {
        ThroughLive(f, a, b, x);
        LiveIsDefined(f, p[..|p| - 1], a, x);
      }
    }
  }

  /** Blocks entered by a back edge start from all defined values that are live in. */
  lemma {:induction false} BackEdgeSeed(f: Function, bl: BlockLiveness, b: nat)
    requires Strict(f) && b < |f.blocks| && forall x: Ssa :: bl.liveIn.Contains(x) <==> LiveIn(f, b, x)
    ensures Entering(DefinedNames(f), bl) == LiveAt(f, b, 0)
  {
    forall x: Ssa ensures x in Entering(DefinedNames(f), bl) <==> PointLive(f, b, 0, x) {
      PointLiveEnds(f, b, x);
      if LiveIn(f, b, x) {
        var p :| f.g.PathTo(p, b);
        LiveIsDefined(f, p, b, x);
      }
    }
    PointSetIs(f, b, 0, Entering(DefinedNames(f), bl));
  }

  ghost function UnionAt(preds: seq<nat>, outs: seq<set<Ssa>>): set<Ssa>
    requires InBounds(preds, |outs|)
  {
    set k, x | 0 <= k < |preds| && x in outs[preds[k]] :: x
  }

  /** Other blocks start from what leaves their predecessors and is live in. */
  lemma {:induction false} ForwardSeed(f: Function, bl: BlockLiveness, b: nat, outs: seq<set<Ssa>>)
    requires Strict(f) && b < |f.blocks| && forall x: Ssa :: bl.liveIn.Contains(x) <==> LiveIn(f, b, x)
    requires |outs| == b && InBounds(f.g.Predecessors(b), b)
    requires forall c :: 0 <= c < b ==> outs[c] == LiveAt(f, c, |f.blocks[c]|)
    ensures Entering(UnionAt(f.g.Predecessors(b), outs), bl) == LiveAt(f, b, 0)
  {
    var preds := f.g.Predecessors(b);
    var s := Entering(UnionAt(preds, outs), bl);
    forall x: Ssa ensures x in s <==> PointLive(f, b, 0, x) {
      PointLiveEnds(f, b, x);
      if LiveIn(f, b, x) {
        var p :| f.g.PathTo(p, b);
        assert |p| > 1;
        PathInit(f.g, p, b);
        var a := p[|p| - 2];
        assert a in preds;
        var k :| 0 <= k < |preds| && preds[k] == a;
        assert LiveOut(f, a, x);
        PointLiveEnds(f, a, x);
        LiveAtIs(f, a, |f.blocks[a]|);
        assert x in outs[preds[k]];
      }
    }
    PointSetIs(f, b, 0, s);
  }

  /** Fills a fresh set with the live-in values of block `b`. */
  method SeedBlock(f: Function, b: nat, bl: BlockLiveness, outs: seq<set<Ssa>>) returns (live: LiveSet)
    requires Strict(f) && b < |f.blocks| && ExactAt(f, b, bl)
    requires |outs| == b && forall c :: 0 <= c < b ==> outs[c] == LiveAt(f, c, |f.blocks[c]|)
    ensures fresh(live) && live.Valid() && live.file == f.file && live.members == LiveAt(f, b, 0)
  {
    live := new LiveSet(f.file);
    var preds := f.g.Predecessors(b);
    if exists k :: 0 <= k < |preds| && preds[k] >= b {
      BackEdgeSeed(f, bl, b);
      live.InsertLiveIn(DefinedNames(f), bl);
    } else {
      SeedForward(live, bl, preds, outs);
      ForwardSeed(f, bl, b, outs);
    }
  }

  lemma {:induction false} UnionAtSnoc(preds: seq<nat>, p: nat, outs: seq<set<Ssa>>)
    requires InBounds(preds, |outs|) && p < |outs|
    ensures InBounds(preds + [p], |outs|) && UnionAt(preds + [p], outs) == UnionAt(preds, outs) + outs[p]
  {
    var all := preds + [p];
    forall x ensures x in UnionAt(all, outs) <==> x in UnionAt(preds, outs) || x in outs[p] {
      if x in UnionAt(preds, outs) {
        var k :| 0 <= k < |preds| && x in outs[preds[k]];
        assert all[k] == preds[k];
      }
      if x in outs[p] { assert all[|preds|] == p; }
    }
  }

  /** Takes in what leaves the predecessors. */
  method SeedForward(live: LiveSet, bl: BlockLiveness, preds: seq<nat>, outs: seq<set<Ssa>>)
    requires live.Valid() && live.members == {} && InBounds(preds, |outs|)
    modifies live
    ensures live.Valid() && live.members == Entering(UnionAt(preds, outs), bl)
  {
    for k := 0 to |preds|
      invariant live.Valid() && live.members == Entering(UnionAt(preds[..k], outs), bl)
    {
      UnionAtSnoc(preds[..k], preds[k], outs);
      assert preds[..k + 1] == preds[..k] + [preds[k]];
      live.InsertLiveIn(outs[preds[k]], bl);
    }
    assert preds[..|preds|] == preds;
  }

  lemma {:induction false} InFileCard(s: set<Ssa>, t: set<Ssa>, file: Ssa -> RegFile, fl: RegFile)
    requires s <= t
    ensures |InFile(s, file, fl)| <= |InFile(t, file, fl)|
  {
    SubsetSize(InFile(s, file, fl), InFile(t, file, fl));
  }

  lemma {:induction false} MaxBoundsInstr(f: Function, m: nat, fl: RegFile, b: nat, ip: nat)
    requires Bounds(f, m, fl, f.g.len, 0) && b < |f.blocks| == f.g.len && ip < |f.blocks[b]|
    ensures |InFile(LiveAt(f, b, ip), f.file, fl)| <= m && |InFile(LiveAt(f, b, ip + 1), f.file, fl)| <= m
  {
    assert Before(f, b, ip, f.g.len, 0);
    var i := f.blocks[b][ip];
    InFileCard(LiveAt(f, b, ip), LiveAt(f, b, ip) + DstSet(i.dsts, true), f.file, fl);
    InFileCard(LiveAt(f, b, ip + 1), LiveAt(f, b, ip + 1) + Items(i.Defs()), f.file, fl);
  }

  lemma {:induction false} EntersFromPred(f: Function, a: nat, b: nat)
    requires FunctionOk(f) && f.g.Edge(a, b)
    ensures LiveAt(f, b, 0) <= LiveAt(f, a, |f.blocks[a]|)
  {
    forall x | x in LiveAt(f, b, 0) ensures x in LiveAt(f, a, |f.blocks[a]|) {
      PointLiveEnds(f, b, x);
      PointLiveEnds(f, a, x);
    }
  }

  lemma {:induction false} NothingEnters(f: Function)
    requires Strict(f) && f.g.len > 0
    ensures LiveAt(f, 0, 0) == {}
  {
    forall x: Ssa ensures !PointLive(f, 0, 0, x) {
      PointLiveEnds(f, 0, x);
    }
  }

  lemma {:induction false} PredBounds(f: Function, m: nat, fl: RegFile, a: nat, b: nat)
    requires FunctionOk(f) && f.g.Edge(a, b) && |InFile(LiveAt(f, a, |f.blocks[a]|), f.file, fl)| <= m
    ensures |InFile(LiveAt(f, b, 0), f.file, fl)| <= m
  {
    EntersFromPred(f, a, b);
    InFileCard(LiveAt(f, b, 0), LiveAt(f, a, |f.blocks[a]|), f.file, fl);
  }

  lemma {:induction false} EntryBounds(f: Function, m: nat, fl: RegFile)
    requires Strict(f) && f.g.len > 0
    ensures |InFile(LiveAt(f, 0, 0), f.file, fl)| <= m
  {
    NothingEnters(f);
    assert InFile({}, f.file, fl) == {};
  }

  /** At every point of every block, also of empty ones, the maximum bounds the live values. */
  lemma {:induction false} MaxBoundsPoints(f: Function, m: nat, fl: RegFile, p: seq<nat>, b: nat, ip: nat)
    requires Strict(f) && Bounds(f, m, fl, f.g.len, 0) && f.g.PathTo(p, b)
    requires b < |f.blocks| && ip <= |f.blocks[b]|
    ensures |InFile(LiveAt(f, b, ip), f.file, fl)| <= m
    decreases |p|
  {
    var n := |f.blocks[b]|;
    if n > 0 {
      MaxBoundsInstr(f, m, fl, b, if ip < n then ip else ip - 1);
    } else if |p| > 1 {
      PathInit(f.g, p, b);
      var a := p[|p| - 2];
      MaxBoundsPoints(f, m, fl, p[..|p| - 1], a, |f.blocks[a]|);
      PredBounds(f, m, fl, a, b);
    } else {
      EntryBounds(f, m, fl);
    }
  }

  /** The maximum bounds the live values of each file at every point of the function. */
  ghost predicate BoundsAll(f: Function, m: PerFile) {
    forall b: nat, ip: nat, fl: RegFile :: b < |f.blocks| && ip <= |f.blocks[b]| ==>
      |InFile(LiveAt(f, b, ip), f.file, fl)| <= m.At(fl)
  }

  lemma {:induction false} MaxBoundsAll(f: Function, m: PerFile)
    requires Strict(f) && AllMax(f, m, f.g.len, 0)
    ensures BoundsAll(f, m)
  {
    forall b: nat, ip: nat, fl: RegFile | b < |f.blocks| && ip <= |f.blocks[b]|
      ensures |InFile(LiveAt(f, b, ip), f.file, fl)| <= m.At(fl)
    {
      assert f.g.Reachable(b);
      var p :| f.g.PathTo(p, b);
      MaxBoundsPoints(f, m.At(fl), fl, p, b, ip);
    }
  }

  lemma {:induction false} ExactHere(f: Function, bls: seq<BlockLiveness>, b: nat)
    requires Strict(f) && Exact(f, bls) && b < |f.blocks|
    ensures ExactAt(f, b, bls[b])
  {
  }

  /** The register pressure of a function: the largest need of any instruction, hence a bound
      on the live values of each file at every point. */
  method CalcMaxLiveBackEdgeAware(f: Function, bls: seq<BlockLiveness>) returns (m: PerFile)
    requires Strict(f) && Exact(f, bls)
    ensures AllMax(f, m, f.g.len, 0) && BoundsAll(f, m)
  {
    m := ZERO;
    var outs: seq<set<Ssa>> := [];
    for b := 0 to |f.blocks|
      invariant |outs| == b && forall c :: 0 <= c < b ==> outs[c] == LiveAt(f, c, |f.blocks[c]|)
      invariant AllMax(f, m, b, 0)
    {
      ExactHere(f, bls, b);
      var live := SeedBlock(f, b, bls[b], outs);
      m := WalkBlock(f, b, bls[b], live, m);
      AllMaxNextBlock(f, m, b);
      outs := outs + [live.members];
    }
    MaxBoundsAll(f, m);
  }
}
