/**
 Dependences between the instructions of a block, found in one backward scan, and the
 guarantee that any order that respects the edges found keeps dependent instructions
 in order.
 */
module Dependences {
  import opened Basics
  import opened Registers
  import opened DepGraphs

  datatype Effect = NoEffect | Memory | Barrier

  /** A scheduled instruction: the tracked registers of each destination and source, the
      guard register, and how freely it may move. */
  datatype Inst = Inst(op: nat, dsts: seq<seq<Reg>>, srcs: seq<seq<Reg>>, guard: Option<Reg>, effect: Effect)

  /** How a register is read. */
  datatype Operand = Guard | Source(idx: nat)

  /** The latencies of the target. */
  datatype Target = Target(
    waw: (Inst, nat, bool, Inst, nat) -> nat, raw: (Inst, nat, Inst, nat) -> nat, paw: (Inst, nat) -> nat,
    war: (Inst, nat, Inst, nat) -> nat, worst: (Inst, nat) -> nat, exec: Inst -> nat,
    needsScoreboard: Inst -> bool, variable: Inst -> nat) {

    /** The latency between two writes of a register: barriers take two cycles to become active. */
    ghost predicate WawIs(a: Inst, d: nat, b: Inst, e: nat, l: nat) {
      if needsScoreboard(a) then Larger(l, waw(a, d, a.guard.Some?, b, e), 2) else l == waw(a, d, a.guard.Some?, b, e)
    }

    /** The latency between a write and a read, as a guard or as a source. */
    ghost predicate RawIs(a: Inst, d: nat, b: Inst, o: Operand, l: nat) {
      match o
      case Guard => Larger(l, paw(a, d), variable(a))
      case Source(i) => Larger(l, raw(a, d, b, i), variable(a))
    }

    /** The latency between a read and the next write. */
    ghost predicate WarIs(a: Inst, s: nat, b: Inst, e: nat, l: nat) {
      if needsScoreboard(a) then Larger(l, war(a, s, b, e), 2) else l == war(a, s, b, e)
    }

    function Waw(a: Inst, d: nat, b: Inst, e: nat): (l: nat)
      ensures WawIs(a, d, b, e, l)
    {
      var l := waw(a, d, a.guard.Some?, b, e);
      if needsScoreboard(a) then Max(l, 2) else l
    }

    function Raw(a: Inst, d: nat, b: Inst, o: Operand): (l: nat)
      ensures RawIs(a, d, b, o, l)
    {
      var l := match o case Guard => paw(a, d) case Source(i) => raw(a, d, b, i);
      Max(l, variable(a))
    }

    function War(a: Inst, s: nat, b: Inst, e: nat): (l: nat)
      ensures WarIs(a, s, b, e, l)
    {
      var l := war(a, s, b, e);
      if needsScoreboard(a) then Max(l, 2) else l
    }
  }

  ghost predicate Larger(l: nat, a: nat, b: nat) {
    a <= l && b <= l && (l == a || l == b)
  }

  ghost predicate WritesAt(a: Inst, d: nat, r: Reg) {
    d < |a.dsts| && r in a.dsts[d]
  }

  ghost predicate Writes(a: Inst, r: Reg) {
    exists d: nat :: WritesAt(a, d, r)
  }

  ghost predicate ReadsAs(a: Inst, o: Operand, r: Reg) {
    match o
    case Guard => a.guard == Some(r)
    case Source(i) => i < |a.srcs| && r in a.srcs[i]
  }

  /** No instruction strictly between the two positions writes `r`. */
  ghost predicate Untouched(code: seq<Inst>, i: int, j: int, r: Reg) {
    forall k :: i < k < j && 0 <= k < |code| ==> !Writes(code[k], r)
  }

  /** No instruction strictly between has the effect. */
  ghost predicate NoneBetween(code: seq<Inst>, i: int, j: int, e: Effect) {
    forall k :: i < k < j && 0 <= k < |code| ==> code[k].effect != e
  }

  // ---- the register tracker ----

  datatype RegUse = RegUse(readers: seq<(nat, Operand)>, write: Option<(nat, nat)>) {
    function AddRead(ip: nat, o: Operand): RegUse {
      this.(readers := readers + [(ip, o)])
    }

    function SetWrite(ip: nat, d: nat): RegUse {
      RegUse([], Some((ip, d)))
    }
  }

  type Tracker = map<Reg, RegUse>

  function Use(t: Tracker, r: Reg): RegUse {
    if r in t then t[r] else RegUse([], None)
  }

  /** The registers of a list of operands with the operands' positions, in order. */
  function Cells(vs: seq<seq<Reg>>): seq<(nat, Reg)> {
    if vs == [] then [] else Cells(vs[..|vs| - 1]) + Tagged(|vs| - 1, vs[|vs| - 1])
  }

  function Tagged(i: nat, rs: seq<Reg>): seq<(nat, Reg)> {
    seq(|rs|, k requires 0 <= k < |rs| => (i, rs[k]))
  }

  lemma {:induction false} CellsAre(vs: seq<seq<Reg>>, i: nat, r: Reg)
    ensures (i, r) in Cells(vs) <==> i < |vs| && r in vs[i]
  {
    if vs != [] {
      var init, last := vs[..|vs| - 1], vs[|vs| - 1];
      CellsAre(init, i, r);
      if i == |init| && r in last {
        var k :| 0 <= k < |last| && last[k] == r;
        assert Tagged(|init|, last)[k] == (i, r);
      }
    }
  }

  function RecordWrites(t: Tracker, cells: seq<(nat, Reg)>, ip: nat): Tracker {
    if cells == [] then t
    else
      var (d, r) := cells[|cells| - 1];
      var t' := RecordWrites(t, cells[..|cells| - 1], ip);
      t'[r := Use(t', r).SetWrite(ip, d)]
  }

  function RecordReads(t: Tracker, cells: seq<(nat, Reg)>, ip: nat): Tracker {
    if cells == [] then t
    else
      var (i, r) := cells[|cells| - 1];
      var t' := RecordReads(t, cells[..|cells| - 1], ip);
      t'[r := Use(t', r).AddRead(ip, Source(i))]
  }

  /** Scanning backwards, the writes of an instruction come first. */
  function Record(t: Tracker, a: Inst, ip: nat): Tracker {
    var t1 := RecordWrites(t, Cells(a.dsts), ip);
    RecordReads(RecordGuard(t1, a.guard, ip), Cells(a.srcs), ip)
  }

  /** The tracker knows, for the instructions from `ip` on, the first write of a register and
      the reads up to it. */
  ghost predicate Tracks(code: seq<Inst>, ip: nat, t: Tracker) {
    forall r: Reg :: TracksReg(code, ip, r, Use(t, r))
  }

  ghost predicate TracksReg(code: seq<Inst>, ip: nat, r: Reg, u: RegUse) {
    && (u.write.Some? ==>
          var (w, d) := u.write.value;
          ip <= w < |code| && WritesAt(code[w], d, r) && Untouched(code, ip - 1, w, r))
    && (u.write.None? ==> Untouched(code, ip - 1, |code|, r))
    && (forall k: nat, o: Operand :: (k, o) in u.readers <==> ReadBeforeWrite(code, ip, r, k, o))
  }

  ghost predicate ReadBeforeWrite(code: seq<Inst>, ip: nat, r: Reg, k: nat, o: Operand) {
    ip <= k < |code| && ReadsAs(code[k], o, r) && Untouched(code, ip - 1, k, r)
  }

  lemma {:induction false} LastCell(cells: seq<(nat, Reg)>, r: Reg)
    requires cells != []
    ensures forall d: nat :: (d, r) in cells <==> (d, r) in cells[..|cells| - 1] || (d, r) == cells[|cells| - 1]
  {
    assert cells == cells[..|cells| - 1] + [cells[|cells| - 1]];
  }

  ghost predicate HasCell(cells: seq<(nat, Reg)>, r: Reg) {
    exists d: nat :: (d, r) in cells
  }

  lemma {:induction false} RecordWritesUse(t: Tracker, cells: seq<(nat, Reg)>, ip: nat, r: Reg)
    ensures var u := Use(RecordWrites(t, cells, ip), r);
      if HasCell(cells, r) then
        u.readers == [] && u.write.Some? && u.write.value.0 == ip && (u.write.value.1, r) in cells
      else u == Use(t, r)
  {
    if cells != [] {
      var init, last := cells[..|cells| - 1], cells[|cells| - 1];
      RecordWritesUse(t, init, ip, r);
      LastCell(cells, r);
      if last.1 == r {
        assert (last.0, r) in cells;
      } else if HasCell(init, r) {
        var d: nat :| (d, r) in init;
        assert (d, r) in cells;
      }
    }
  }

  lemma {:induction false} RecordReadsUse(t: Tracker, cells: seq<(nat, Reg)>, ip: nat, r: Reg)
    ensures var u, u' := Use(t, r), Use(RecordReads(t, cells, ip), r);
      && u'.write == u.write
      && forall k: nat, o: Operand :: (k, o) in u'.readers <==>
           (k, o) in u.readers || (k == ip && o.Source? && (o.idx, r) in cells)
  {
    if cells != [] {
      var init := cells[..|cells| - 1];
      RecordReadsUse(t, init, ip, r);
      LastCell(cells, r);
    }
  }

  /** The tracker between the writes and the source reads of an instruction. */
  function RecordGuard(t: Tracker, guard: Option<Reg>, ip: nat): Tracker {
    match guard case Some(p) => t[p := Use(t, p).AddRead(ip, Guard)] case None => t
  }

  lemma {:induction false} RecordGuardUse(t: Tracker, guard: Option<Reg>, ip: nat, r: Reg)
    ensures var u, u' := Use(t, r), Use(RecordGuard(t, guard, ip), r);
      u' == if guard == Some(r) then u.AddRead(ip, Guard) else u
  {
  }

  lemma {:induction false} WrittenCells(a: Inst, r: Reg)
    ensures (exists d: nat :: (d, r) in Cells(a.dsts)) <==> Writes(a, r)
    ensures forall d: nat :: (d, r) in Cells(a.dsts) <==> WritesAt(a, d, r)
  {
    forall d: nat ensures (d, r) in Cells(a.dsts) <==> WritesAt(a, d, r) {
      CellsAre(a.dsts, d, r);
    }
  }

  lemma {:induction false} RecordWrite(t: Tracker, a: Inst, ip: nat, r: Reg)
    ensures var u, u' := Use(t, r), Use(RecordWrites(t, Cells(a.dsts), ip), r);
      if Writes(a, r) then u'.readers == [] && u'.write.Some? && u'.write.value.0 == ip &&
        WritesAt(a, u'.write.value.1, r)
      else u' == u
  {
    RecordWritesUse(t, Cells(a.dsts), ip, r);
    WrittenCells(a, r);
  }

  lemma {:induction false} RecordRead(t: Tracker, a: Inst, ip: nat, r: Reg)
    ensures var u, u' := Use(t, r), Use(RecordReads(RecordGuard(t, a.guard, ip), Cells(a.srcs), ip), r);
      && u'.write == u.write
      && forall k: nat, o: Operand :: (k, o) in u'.readers <==> (k, o) in u.readers || (k == ip && ReadsAs(a, o, r))
  {
    RecordGuardUse(t, a.guard, ip, r);
    RecordReadsUse(RecordGuard(t, a.guard, ip), Cells(a.srcs), ip, r);
    forall i: nat ensures (i, r) in Cells(a.srcs) <==> ReadsAs(a, Source(i), r) {
      CellsAre(a.srcs, i, r);
    }
  }

  lemma {:induction false} RecordUse(t: Tracker, a: Inst, ip: nat, r: Reg)
    ensures var u, u' := Use(t, r), Use(Record(t, a, ip), r);
      && (Writes(a, r) ==> u'.write.Some? && u'.write.value.0 == ip && WritesAt(a, u'.write.value.1, r))
      && (!Writes(a, r) ==> u'.write == u.write)
      && forall k: nat, o: Operand :: (k, o) in u'.readers <==>
           (k == ip && ReadsAs(a, o, r)) || (!Writes(a, r) && (k, o) in u.readers)
  {
    RecordWrite(t, a, ip, r);
    RecordRead(RecordWrites(t, Cells(a.dsts), ip), a, ip, r);
  }

  lemma {:induction false} TracksStep(code: seq<Inst>, ip: nat, t: Tracker)
    requires ip < |code| && Tracks(code, ip + 1, t)
    ensures Tracks(code, ip, Record(t, code[ip], ip))
  {
    forall r: Reg ensures TracksReg(code, ip, r, Use(Record(t, code[ip], ip), r)) {
      RecordUse(t, code[ip], ip, r);
      assert TracksReg(code, ip + 1, r, Use(t, r));
      forall k: int | ip <= k
        ensures Untouched(code, ip - 1, k, r) <==> Untouched(code, ip, k, r) && (k > ip ==> !Writes(code[ip], r))
      {
      }
      forall k: nat, o: Operand
        ensures ReadBeforeWrite(code, ip, r, k, o) <==>
          (k == ip && ReadsAs(code[ip], o, r)) || (!Writes(code[ip], r) && ReadBeforeWrite(code, ip + 1, r, k, o)) {}
    }
  }

  // ---- the edges of one instruction ----

  ghost predicate UseIn(u: RegUse, n: nat) {
    (u.write.Some? ==> u.write.value.0 < n) && forall k :: 0 <= k < |u.readers| ==> u.readers[k].0 < n
  }

  ghost predicate TrackerIn(t: Tracker, n: nat) {
    forall r: Reg :: UseIn(Use(t, r), n)
  }

  lemma {:induction false} TracksIn(code: seq<Inst>, ip: nat, t: Tracker)
    requires Tracks(code, ip, t)
    ensures TrackerIn(t, |code|)
  {
    forall r: Reg ensures UseIn(Use(t, r), |code|) {
      var u := Use(t, r);
      assert TracksReg(code, ip, r, u);
      forall k | 0 <= k < |u.readers| ensures u.readers[k].0 < |code| {
        assert (u.readers[k].0, u.readers[k].1) in u.readers;
        assert ReadBeforeWrite(code, ip, r, u.readers[k].0, u.readers[k].1);
      }
    }
  }

  /** Edges to the next write of a register and to the reads before it. */
  ghost function WrittenEdges(sm: Target, code: seq<Inst>, a: Inst, d: nat, u: RegUse): (es: seq<Edge>)
    requires UseIn(u, |code|)
  {
    (match u.write case Some((w, e)) => [Edge(sm.Waw(a, d, code[w], e), w)] case None => []) +
    seq(|u.readers|, k requires 0 <= k < |u.readers| =>
      Edge(sm.Raw(a, d, code[u.readers[k].0], u.readers[k].1), u.readers[k].0))
  }

  /** The edge to the next write of a register that is read. */
  ghost function ReadEdges(sm: Target, code: seq<Inst>, a: Inst, i: nat, u: RegUse): (es: seq<Edge>)
    requires UseIn(u, |code|)
  {
    match u.write case Some((w, e)) => [Edge(sm.War(a, i, code[w], e), w)] case None => []
  }

  ghost function CellEdges(sm: Target, code: seq<Inst>, a: Inst, t: Tracker, c: (nat, Reg), dst: bool): seq<Edge>
    requires TrackerIn(t, |code|)
  {
    if dst then WrittenEdges(sm, code, a, c.0, Use(t, c.1)) else ReadEdges(sm, code, a, c.0, Use(t, c.1))
  }

  ghost function OperandEdges(sm: Target, code: seq<Inst>, a: Inst, t: Tracker, cells: seq<(nat, Reg)>,
                              dst: bool): seq<Edge>
    requires TrackerIn(t, |code|)
  {
    if cells == [] then []
    else OperandEdges(sm, code, a, t, cells[..|cells| - 1], dst) + CellEdges(sm, code, a, t, cells[|cells| - 1], dst)
  }

  lemma {:induction false} OperandEdgesAre(sm: Target, code: seq<Inst>, a: Inst, t: Tracker, cells: seq<(nat, Reg)>,
                                           dst: bool, e: Edge)
    requires TrackerIn(t, |code|)
    ensures e in OperandEdges(sm, code, a, t, cells, dst) <==> exists c ::
      c in cells && e in CellEdges(sm, code, a, t, c, dst)
  {
    if cells != [] {
      var init, last := cells[..|cells| - 1], cells[|cells| - 1];
      OperandEdgesAre(sm, code, a, t, init, dst, e);
      assert cells == init + [last];
      if c :| c in init && e in CellEdges(sm, code, a, t, c, dst) {
        assert c in cells;
      }
      assert last in cells;
    }
  }

  /** Node `ip` got `more` edges; the others are as before. */
  ghost predicate Appended(es: Edges, ip: nat, more: seq<Edge>, es': Edges) {
    ip < |es| == |es'| && es'[ip] == es[ip] + more && forall i :: 0 <= i < |es| && i != ip ==> es'[i] == es[i]
  }

  lemma {:induction false} AppendedTrans(es: Edges, ip: nat, m1: seq<Edge>, es1: Edges, m2: seq<Edge>, es2: Edges)
    requires Appended(es, ip, m1, es1) && Appended(es1, ip, m2, es2)
    ensures Appended(es, ip, m1 + m2, es2)
  {
    assert es[ip] + m1 + m2 == es[ip] + (m1 + m2);
  }

  /** Adds the edges of all destinations, or of all sources, of instruction `ip`. */
  method AddOperandEdges(g: DepGraph, sm: Target, code: seq<Inst>, ip: nat, t: Tracker, cells: seq<(nat, Reg)>,
                         dst: bool)
    requires g.Valid() && |g.edges| == |code| && ip < |code| && TrackerIn(t, |code|)
    modifies g`edges
    ensures g.Valid() && Appended(old(g.edges), ip, OperandEdges(sm, code, code[ip], t, cells, dst), g.edges)
  {
    for c := 0 to |cells|
      invariant g.Valid() && Appended(old(g.edges), ip, OperandEdges(sm, code, code[ip], t, cells[..c], dst), g.edges)
    {
      ghost var es := g.edges;
      AddCellEdges(g, sm, code, ip, t, cells[c], dst);
      assert cells[..c + 1][..c] == cells[..c];
      AppendedTrans(old(g.edges), ip, OperandEdges(sm, code, code[ip], t, cells[..c], dst), es,
                    CellEdges(sm, code, code[ip], t, cells[c], dst), g.edges);
    }
    assert cells[..|cells|] == cells;
  }

  method AddCellEdges(g: DepGraph, sm: Target, code: seq<Inst>, ip: nat, t: Tracker, cell: (nat, Reg), dst: bool)
    requires g.Valid() && |g.edges| == |code| && ip < |code| && TrackerIn(t, |code|)
    modifies g`edges
    ensures g.Valid() && Appended(old(g.edges), ip, CellEdges(sm, code, code[ip], t, cell, dst), g.edges)
  {
    var (i, r) := cell;
    var u := Use(t, r);
    assert UseIn(u, |code|);
    if u.write.Some? {
      var (w, e) := u.write.value;
      g.AddEdge(ip, w, if dst then sm.Waw(code[ip], i, code[w], e) else sm.War(code[ip], i, code[w], e));
    }
    if dst {
      for k := 0 to |u.readers|
        invariant g.Valid() && |g.edges| == |code|
        invariant Appended(old(g.edges), ip, WrittenEdges(sm, code, code[ip], i, u.(readers := u.readers[..k])),
                           g.edges)
      {
        ghost var es := g.edges;
        var (j, o) := u.readers[k];
        g.AddEdge(ip, j, sm.Raw(code[ip], i, code[j], o));
        AppendedTrans(old(g.edges), ip, WrittenEdges(sm, code, code[ip], i, u.(readers := u.readers[..k])), es,
                      [Edge(sm.Raw(code[ip], i, code[j], o), j)], g.edges);
        assert WrittenEdges(sm, code, code[ip], i, u.(readers := u.readers[..k + 1])) ==
          WrittenEdges(sm, code, code[ip], i, u.(readers := u.readers[..k])) +
            [Edge(sm.Raw(code[ip], i, code[j], o), j)];
      }
      assert u.readers[..|u.readers|] == u.readers;
    }
  }

  /** Edges for instructions that must not pass each other whatever they compute. */
  ghost function EffectEdges(code: seq<Inst>, ip: nat, lastMem: Option<nat>, lastBar: Option<nat>): seq<Edge>
    requires ip < |code| && (lastBar.Some? ==> ip < lastBar.value <= |code|)
  {
    (if lastBar.Some? then [Edge(0, lastBar.value)] else []) +
    match code[ip].effect
    case NoEffect => []
    case Barrier =>
      var last := if lastBar.Some? then lastBar.value else |code|;
      seq(last - (ip + 1), k requires 0 <= k < last - (ip + 1) => Edge(0, ip + 1 + k))
    case Memory => if lastMem.Some? then [Edge(0, lastMem.value)] else []
  }

  method AddEffectEdges(g: DepGraph, code: seq<Inst>, ip: nat, lastMem: Option<nat>, lastBar: Option<nat>)
    requires g.Valid() && |g.edges| == |code| && ip < |code|
    requires (lastBar.Some? ==> ip < lastBar.value < |code|) && (lastMem.Some? ==> lastMem.value < |code|)
    modifies g`edges
    ensures g.Valid() && Appended(old(g.edges), ip, EffectEdges(code, ip, lastMem, lastBar), g.edges)
  {
    if lastBar.Some? {
      g.AddEdge(ip, lastBar.value, 0);
    }
    ghost var es := g.edges;
    match code[ip].effect {
      case NoEffect =>
      case Barrier =>
        var last := if lastBar.Some? then lastBar.value else |code|;
        for other := ip + 1 to last
          invariant g.Valid() && |g.edges| == |code|
          invariant Appended(es, ip, seq(other - (ip + 1), k requires 0 <= k < other - (ip + 1) => Edge(0, ip + 1 + k)),
                             g.edges)
        {
          ghost var before := g.edges;
          g.AddEdge(ip, other, 0);
          AppendedTrans(es, ip, seq(other - (ip + 1), k requires 0 <= k < other - (ip + 1) => Edge(0, ip + 1 + k)),
                        before, [Edge(0, other)], g.edges);
        }
      case Memory =>
        if lastMem.Some? {
          g.AddEdge(ip, lastMem.value, 0);
        }
    }
    ghost var first := if lastBar.Some? then [Edge(0, lastBar.value)] else [];
    ghost var rest := EffectEdges(code, ip, lastMem, lastBar)[|first|..];
    assert EffectEdges(code, ip, lastMem, lastBar) == first + rest;
    AppendedTrans(old(g.edges), ip, first, es, rest, g.edges);
  }

  // ---- what the edges of an instruction guarantee ----

  /** Reads of what `i` writes, before the next write. */
  ghost predicate RawEdges(sm: Target, code: seq<Inst>, i: nat, out: seq<Edge>)
    requires i < |code|
  {
    forall d: nat, r: Reg, j: nat, o: Operand ::
      i < j < |code| && WritesAt(code[i], d, r) && ReadsAs(code[j], o, r) && Untouched(code, i, j, r) ==>
      exists l: nat :: sm.RawIs(code[i], d, code[j], o, l) && Edge(l, j) in out
  }

  /** The next write of what `i` writes. */
  ghost predicate WawEdges(sm: Target, code: seq<Inst>, i: nat, out: seq<Edge>)
    requires i < |code|
  {
    forall d: nat, r: Reg, j: nat ::
      i < j < |code| && WritesAt(code[i], d, r) && Writes(code[j], r) && Untouched(code, i, j, r) ==>
      exists e: nat, l: nat :: WritesAt(code[j], e, r) && sm.WawIs(code[i], d, code[j], e, l) && Edge(l, j) in out
  }

  /** The next write of what `i` reads as a source. */
  ghost predicate WarEdges(sm: Target, code: seq<Inst>, i: nat, out: seq<Edge>)
    requires i < |code|
  {
    forall s: nat, r: Reg, j: nat ::
      i < j < |code| && ReadsAs(code[i], Source(s), r) && Writes(code[j], r) && Untouched(code, i, j, r) ==>
      exists e: nat, l: nat :: WritesAt(code[j], e, r) && sm.WarIs(code[i], s, code[j], e, l) && Edge(l, j) in out
  }

  /** The next memory operation after one, the next barrier, and all up to it after a barrier. */
  ghost predicate FixedEdges(code: seq<Inst>, i: nat, out: seq<Edge>)
    requires i < |code|
  {
    && (forall j :: i < j < |code| && code[i].effect == Memory == code[j].effect && NoneBetween(code, i, j, Memory) ==>
           Edge(0, j) in out)
    && (forall j ::
          i < j < |code| && (code[i].effect == Barrier || code[j].effect == Barrier) && NoneBetween(code, i, j, Barrier)
          ==> Edge(0, j) in out)
  }

  /** The instructions must stay in this order, guards read by the first one apart. */
  ghost predicate Depends(a: Inst, b: Inst) {
    || (exists r: Reg :: Writes(a, r) && Writes(b, r))
    || (exists r: Reg, o: Operand :: Writes(a, r) && ReadsAs(b, o, r))
    || (exists r: Reg, s: nat :: ReadsAs(a, Source(s), r) && Writes(b, r))
    || (a.effect == Memory && b.effect == Memory)
    || a.effect == Barrier || b.effect == Barrier
  }

  /** The edge is one of the above: it leads to the next write of a register written or read, or to a
      read before that, with the latency of just those operands, or orders effects. */
  ghost predicate JustifiedEdge(sm: Target, code: seq<Inst>, i: nat, e: Edge)
    requires i < |code|
  {
    && i < e.head < |code|
    && (WawEdge(sm, code, i, e) || RawEdge(sm, code, i, e) || WarEdge(sm, code, i, e) || FixedEdge(code, i, e))
  }

  ghost predicate WawEdge(sm: Target, code: seq<Inst>, i: nat, e: Edge)
    requires i < e.head < |code|
  {
    exists r: Reg, d: nat, x: nat :: WritesAt(code[i], d, r) && WritesAt(code[e.head], x, r) &&
      Untouched(code, i, e.head, r) && sm.WawIs(code[i], d, code[e.head], x, e.latency)
  }

  ghost predicate RawEdge(sm: Target, code: seq<Inst>, i: nat, e: Edge)
    requires i < e.head < |code|
  {
    exists r: Reg, d: nat, o: Operand :: WritesAt(code[i], d, r) && ReadsAs(code[e.head], o, r) &&
      Untouched(code, i, e.head, r) && sm.RawIs(code[i], d, code[e.head], o, e.latency)
  }

  ghost predicate WarEdge(sm: Target, code: seq<Inst>, i: nat, e: Edge)
    requires i < e.head < |code|
  {
    exists r: Reg, s: nat, x: nat :: ReadsAs(code[i], Source(s), r) && WritesAt(code[e.head], x, r) &&
      Untouched(code, i, e.head, r) && sm.WarIs(code[i], s, code[e.head], x, e.latency)
  }

  ghost predicate FixedEdge(code: seq<Inst>, i: nat, e: Edge)
    requires i < e.head < |code|
  {
    && e.latency == 0
    && (|| (code[i].effect == Memory == code[e.head].effect && NoneBetween(code, i, e.head, Memory))
        || ((code[i].effect == Barrier || code[e.head].effect == Barrier) && NoneBetween(code, i, e.head, Barrier)))
  }

  lemma {:induction false} JustifiedDepends(sm: Target, code: seq<Inst>, i: nat, e: Edge)
    requires i < |code| && JustifiedEdge(sm, code, i, e)
    ensures Depends(code[i], code[e.head])
  {
    if WawEdge(sm, code, i, e) {
      var r: Reg, d: nat, x: nat :| WritesAt(code[i], d, r) && WritesAt(code[e.head], x, r) &&
        Untouched(code, i, e.head, r) && sm.WawIs(code[i], d, code[e.head], x, e.latency);
      assert Writes(code[i], r) && Writes(code[e.head], r);
    } else if RawEdge(sm, code, i, e) {
      var r: Reg, d: nat, o: Operand :| WritesAt(code[i], d, r) && ReadsAs(code[e.head], o, r) &&
        Untouched(code, i, e.head, r) && sm.RawIs(code[i], d, code[e.head], o, e.latency);
      assert Writes(code[i], r);
    } else if WarEdge(sm, code, i, e) {
      var r: Reg, s: nat, x: nat :| ReadsAs(code[i], Source(s), r) && WritesAt(code[e.head], x, r) &&
        Untouched(code, i, e.head, r) && sm.WarIs(code[i], s, code[e.head], x, e.latency);
      assert Writes(code[e.head], r);
    }
  }

  ghost predicate Justified(sm: Target, code: seq<Inst>, i: nat, out: seq<Edge>)
    requires i < |code|
  {
    forall k :: 0 <= k < |out| ==> JustifiedEdge(sm, code, i, out[k])
  }

  ghost predicate NodeOk(sm: Target, code: seq<Inst>, i: nat, out: seq<Edge>)
    requires i < |code|
  {
    && RawEdges(sm, code, i, out) && WawEdges(sm, code, i, out) && WarEdges(sm, code, i, out)
    && FixedEdges(code, i, out) && Justified(sm, code, i, out)
  }

  /** The position, if any, of the first instruction from `ip` on with the effect. */
  ghost predicate IsFirst(code: seq<Inst>, ip: nat, e: Effect, p: Option<nat>) {
    match p
    case Some(k) => ip <= k < |code| && code[k].effect == e && NoneBetween(code, ip - 1, k, e)
    case None => NoneBetween(code, ip - 1, |code|, e)
  }

  lemma {:induction false} EffectEdgesOk(sm: Target, code: seq<Inst>, ip: nat, lastMem: Option<nat>,
                                         lastBar: Option<nat>)
    requires ip < |code| && IsFirst(code, ip + 1, Memory, lastMem) && IsFirst(code, ip + 1, Barrier, lastBar)
    ensures var out := EffectEdges(code, ip, lastMem, lastBar);
      FixedEdges(code, ip, out) && Justified(sm, code, ip, out)
  {
    var out := EffectEdges(code, ip, lastMem, lastBar);
    var bar := if lastBar.Some? then [Edge(0, lastBar.value)] else [];
    if lastBar.Some? { assert out[0] == Edge(0, lastBar.value); }
    forall j | ip < j < |code| && code[ip].effect == Memory == code[j].effect && NoneBetween(code, ip, j, Memory)
      ensures Edge(0, j) in out
    {
      assert lastMem == Some(j);
      assert out[|bar|] == Edge(0, j);
    }
    forall j | ip < j < |code| && (code[ip].effect == Barrier || code[j].effect == Barrier) &&
      NoneBetween(code, ip, j, Barrier)
      ensures Edge(0, j) in out
    {
      if code[j].effect == Barrier {
        assert lastBar == Some(j);
      } else {
        assert out[|bar| + (j - (ip + 1))] == Edge(0, j);
      }
    }
  }

  lemma {:induction false} TrackedWrite(code: seq<Inst>, ip: nat, t: Tracker, r: Reg, j: nat)
    requires Tracks(code, ip + 1, t) && ip < j < |code| && Writes(code[j], r) && Untouched(code, ip, j, r)
    ensures Use(t, r).write.Some? && Use(t, r).write.value.0 == j && WritesAt(code[j], Use(t, r).write.value.1, r)
  {
    assert TracksReg(code, ip + 1, r, Use(t, r));
  }

  lemma {:induction false} RawEdgesOk(sm: Target, code: seq<Inst>, ip: nat, t: Tracker, out: seq<Edge>)
    requires ip < |code| && Tracks(code, ip + 1, t) && TrackerIn(t, |code|)
    requires out == OperandEdges(sm, code, code[ip], t, Cells(code[ip].dsts), true)
    ensures RawEdges(sm, code, ip, out)
  {
    forall d: nat, r: Reg, j: nat, o: Operand | ip < j < |code| && WritesAt(code[ip], d, r) && ReadsAs(code[j], o, r) &&
      Untouched(code, ip, j, r)
      ensures exists l: nat :: sm.RawIs(code[ip], d, code[j], o, l) && Edge(l, j) in out
    {
      RawEdgeOk(sm, code, ip, t, d, r, j, o);
    }
  }

  lemma {:induction false} TrackedRead(code: seq<Inst>, ip: nat, t: Tracker, r: Reg, j: nat, o: Operand)
    requires Tracks(code, ip + 1, t) && ip < j < |code| && ReadsAs(code[j], o, r) && Untouched(code, ip, j, r)
    ensures (j, o) in Use(t, r).readers
  {
    assert TracksReg(code, ip + 1, r, Use(t, r));
    assert ReadBeforeWrite(code, ip + 1, r, j, o);
  }

  lemma {:induction false} RawEdgeOk(sm: Target, code: seq<Inst>, ip: nat, t: Tracker, d: nat, r: Reg, j: nat,
                                     o: Operand)
    requires ip < j < |code| && Tracks(code, ip + 1, t) && TrackerIn(t, |code|)
    requires WritesAt(code[ip], d, r) && ReadsAs(code[j], o, r) && Untouched(code, ip, j, r)
    ensures Edge(sm.Raw(code[ip], d, code[j], o), j) in OperandEdges(sm, code, code[ip], t, Cells(code[ip].dsts), true)
  {
    var a, u := code[ip], Use(t, r);
    TrackedRead(code, ip, t, r, j, o);
    CellsAre(a.dsts, d, r);
    var k :| 0 <= k < |u.readers| && u.readers[k] == (j, o);
    assert CellEdges(sm, code, a, t, (d, r),
                     true)[(if u.write.Some? then 1 else 0) + k] == Edge(sm.Raw(a, d, code[j], o), j);
    OperandEdgesAre(sm, code, a, t, Cells(a.dsts), true, Edge(sm.Raw(a, d, code[j], o), j));
  }

  lemma {:induction false} WawEdgesOk(sm: Target, code: seq<Inst>, ip: nat, t: Tracker, out: seq<Edge>)
    requires ip < |code| && Tracks(code, ip + 1, t) && TrackerIn(t, |code|)
    requires out == OperandEdges(sm, code, code[ip], t, Cells(code[ip].dsts), true)
    ensures WawEdges(sm, code, ip, out)
  {
    var a := code[ip];
    forall d: nat, r: Reg, j: nat | ip < j < |code| && WritesAt(a, d, r) && Writes(code[j], r) &&
      Untouched(code, ip, j, r)
      ensures exists e: nat, l: nat :: WritesAt(code[j], e, r) && sm.WawIs(a, d, code[j], e, l) && Edge(l, j) in out
    {
      TrackedWrite(code, ip, t, r, j);
      var e := Use(t, r).write.value.1;
      CellsAre(a.dsts, d, r);
      assert CellEdges(sm, code, a, t, (d, r), true)[0] == Edge(sm.Waw(a, d, code[j], e), j);
      OperandEdgesAre(sm, code, a, t, Cells(a.dsts), true, Edge(sm.Waw(a, d, code[j], e), j));
    }
  }

  lemma {:induction false} SrcEdgesOk(sm: Target, code: seq<Inst>, ip: nat, t: Tracker, out: seq<Edge>)
    requires ip < |code| && Tracks(code, ip + 1, t) && TrackerIn(t, |code|)
    requires out == OperandEdges(sm, code, code[ip], t, Cells(code[ip].srcs), false)
    ensures WarEdges(sm, code, ip, out)
  {
    var a := code[ip];
    forall s: nat, r: Reg, j: nat | ip < j < |code| && ReadsAs(a, Source(s), r) && Writes(code[j], r) &&
      Untouched(code, ip, j, r)
      ensures exists e: nat, l: nat :: WritesAt(code[j], e, r) && sm.WarIs(a, s, code[j], e, l) && Edge(l, j) in out
    {
      TrackedWrite(code, ip, t, r, j);
      var e := Use(t, r).write.value.1;
      CellsAre(a.srcs, s, r);
      assert CellEdges(sm, code, a, t, (s, r), false)[0] == Edge(sm.War(a, s, code[j], e), j);
      OperandEdgesAre(sm, code, a, t, Cells(a.srcs), false, Edge(sm.War(a, s, code[j], e), j));
    }
  }

  /** An edge of one register that is written leads to its next write, or to a read before. */
  lemma {:induction false} WrittenEdgeOk(sm: Target, code: seq<Inst>, ip: nat, t: Tracker, d: nat, r: Reg, e: Edge)
    requires ip < |code| && Tracks(code, ip + 1, t) && TrackerIn(t, |code|) && WritesAt(code[ip], d, r)
    requires e in CellEdges(sm, code, code[ip], t, (d, r), true)
    ensures JustifiedEdge(sm, code, ip, e)
  {
    var u := Use(t, r);
    assert TracksReg(code, ip + 1, r, u);
    if u.write.Some? && e == Edge(sm.Waw(code[ip], d, code[u.write.value.0], u.write.value.1), u.write.value.0) {
      assert WawEdge(sm, code, ip, e);
    } else {
      var k :| 0 <= k < |u.readers| &&
        e == Edge(sm.Raw(code[ip], d, code[u.readers[k].0], u.readers[k].1), u.readers[k].0);
      assert (e.head, u.readers[k].1) in u.readers;
      assert ReadBeforeWrite(code, ip + 1, r, e.head, u.readers[k].1);
      assert RawEdge(sm, code, ip, e);
    }
  }

  lemma {:induction false} ReadEdgeOk(sm: Target, code: seq<Inst>, ip: nat, t: Tracker, i: nat, r: Reg, e: Edge)
    requires ip < |code| && Tracks(code, ip + 1, t) && TrackerIn(t, |code|) && ReadsAs(code[ip], Source(i), r)
    requires e in CellEdges(sm, code, code[ip], t, (i, r), false)
    ensures JustifiedEdge(sm, code, ip, e)
  {
    assert TracksReg(code, ip + 1, r, Use(t, r));
    assert WarEdge(sm, code, ip, e);
  }

  lemma {:induction false} OperandEdgesJustified(sm: Target, code: seq<Inst>, ip: nat, t: Tracker, dst: bool, e: Edge)
    requires ip < |code| && Tracks(code, ip + 1, t) && TrackerIn(t, |code|)
    requires e in OperandEdges(sm, code, code[ip], t, Cells(if dst then code[ip].dsts else code[ip].srcs), dst)
    ensures JustifiedEdge(sm, code, ip, e)
  {
    var vs := if dst then code[ip].dsts else code[ip].srcs;
    OperandEdgesAre(sm, code, code[ip], t, Cells(vs), dst, e);
    var c :| c in Cells(vs) && e in CellEdges(sm, code, code[ip], t, c, dst);
    CellsAre(vs, c.0, c.1);
    if dst {
      WrittenEdgeOk(sm, code, ip, t, c.0, c.1, e);
    } else {
      ReadEdgeOk(sm, code, ip, t, c.0, c.1, e);
    }
  }

  lemma {:induction false} MoreWawEdges(sm: Target, code: seq<Inst>, ip: nat, out: seq<Edge>, all: seq<Edge>)
    requires ip < |code| && WawEdges(sm, code, ip, out) && forall e :: e in out ==> e in all
    ensures WawEdges(sm, code, ip, all)
  {
    forall d: nat, r: Reg, j: nat | ip < j < |code| && WritesAt(code[ip], d, r) && Writes(code[j], r) &&
      Untouched(code, ip, j, r)
      ensures exists e: nat, l: nat ::
          WritesAt(code[j], e, r) && sm.WawIs(code[ip], d, code[j], e, l) && Edge(l, j) in all
    {
      var e: nat, l: nat :| WritesAt(code[j], e, r) && sm.WawIs(code[ip], d, code[j], e, l) && Edge(l, j) in out;
    }
  }

  lemma {:induction false} MoreWarEdges(sm: Target, code: seq<Inst>, ip: nat, out: seq<Edge>, all: seq<Edge>)
    requires ip < |code| && WarEdges(sm, code, ip, out) && forall e :: e in out ==> e in all
    ensures WarEdges(sm, code, ip, all)
  {
    forall s: nat, r: Reg, j: nat | ip < j < |code| && ReadsAs(code[ip], Source(s), r) && Writes(code[j], r) &&
      Untouched(code, ip, j, r)
      ensures exists e: nat, l: nat ::
          WritesAt(code[j], e, r) && sm.WarIs(code[ip], s, code[j], e, l) && Edge(l, j) in all
    {
      var e: nat, l: nat :| WritesAt(code[j], e, r) && sm.WarIs(code[ip], s, code[j], e, l) && Edge(l, j) in out;
    }
  }

  lemma {:induction false} MoreRawEdges(sm: Target, code: seq<Inst>, ip: nat, out: seq<Edge>, all: seq<Edge>)
    requires ip < |code| && RawEdges(sm, code, ip, out) && forall e :: e in out ==> e in all
    ensures RawEdges(sm, code, ip, all)
  {
    forall d: nat, r: Reg, j: nat, o: Operand | ip < j < |code| && WritesAt(code[ip], d, r) &&
      ReadsAs(code[j], o, r) && Untouched(code, ip, j, r)
      ensures exists l: nat :: sm.RawIs(code[ip], d, code[j], o, l) && Edge(l, j) in all
    {
      var l: nat :| sm.RawIs(code[ip], d, code[j], o, l) && Edge(l, j) in out;
    }
  }

  lemma {:induction false} JustifiedConcat(sm: Target, code: seq<Inst>, ip: nat, a: seq<Edge>, b: seq<Edge>)
    requires ip < |code| && Justified(sm, code, ip, a) && Justified(sm, code, ip, b)
    ensures Justified(sm, code, ip, a + b)
  {
    var c := a + b;
    forall k | 0 <= k < |c| ensures JustifiedEdge(sm, code, ip, c[k]) {
      assert c[k] == if k < |a| then a[k] else b[k - |a|];
    }
  }

  lemma {:induction false} AllOperandsJustified(sm: Target, code: seq<Inst>, ip: nat, t: Tracker, dst: bool)
    requires ip < |code| && Tracks(code, ip + 1, t) && TrackerIn(t, |code|)
    ensures Justified(sm, code, ip,
                      OperandEdges(sm, code, code[ip], t, Cells(if dst then code[ip].dsts else code[ip].srcs), dst))
  {
    var out := OperandEdges(sm, code, code[ip], t, Cells(if dst then code[ip].dsts else code[ip].srcs), dst);
    forall k | 0 <= k < |out| ensures JustifiedEdge(sm, code, ip, out[k]) {
      OperandEdgesJustified(sm, code, ip, t, dst, out[k]);
    }
  }

  lemma {:induction false} NodeEdgesOk(sm: Target, code: seq<Inst>, ip: nat, t: Tracker, lastMem: Option<nat>,
                                       lastBar: Option<nat>)
    requires ip < |code| && Tracks(code, ip + 1, t) && TrackerIn(t, |code|)
    requires IsFirst(code, ip + 1, Memory, lastMem) && IsFirst(code, ip + 1, Barrier, lastBar)
    ensures NodeOk(sm, code, ip, NodeEdges(sm, code, ip, t, lastMem, lastBar))
  {
    var e := EffectEdges(code, ip, lastMem, lastBar);
    var d := OperandEdges(sm, code, code[ip], t, Cells(code[ip].dsts), true);
    var s := OperandEdges(sm, code, code[ip], t, Cells(code[ip].srcs), false);
    EffectEdgesOk(sm, code, ip, lastMem, lastBar);
    RawEdgesOk(sm, code, ip, t, d);
    WawEdgesOk(sm, code, ip, t, d);
    SrcEdgesOk(sm, code, ip, t, s);
    var out := NodeEdges(sm, code, ip, t, lastMem, lastBar);
    assert out == e + d + s;
    MoreRawEdges(sm, code, ip, d, out);
    MoreWawEdges(sm, code, ip, d, out);
    MoreWarEdges(sm, code, ip, s, out);
    AllOperandsJustified(sm, code, ip, t, true);
    AllOperandsJustified(sm, code, ip, t, false);
    JustifiedConcat(sm, code, ip, e, d);
    JustifiedConcat(sm, code, ip, e + d, s);
  }

  ghost function NodeEdges(sm: Target, code: seq<Inst>, ip: nat, t: Tracker, lastMem: Option<nat>,
                     lastBar: Option<nat>): seq<Edge>
    requires ip < |code| && TrackerIn(t, |code|) && (lastBar.Some? ==> ip < lastBar.value <= |code|)
  {
    EffectEdges(code, ip, lastMem, lastBar) +
    OperandEdges(sm, code, code[ip], t, Cells(code[ip].dsts), true) +
    OperandEdges(sm, code, code[ip], t, Cells(code[ip].srcs), false)
  }

  // ---- the scan ----

  /** The largest of the worst latencies of the first `n` destinations. */
  function WorstOf(sm: Target, a: Inst, n: nat): (w: nat)
    ensures forall d: nat :: d < n ==> sm.worst(a, d) <= w
    ensures w == 0 || exists d: nat :: d < n && w == sm.worst(a, d)
  {
    if n == 0 then 0 else Max(WorstOf(sm, a, n - 1), sm.worst(a, n - 1))
  }

  /** The results of instruction `ip` need `n` cycles to the end of the block: the worst latency of
      some destination, or the variable latency and the execution of the last instruction, whichever
      is the largest. */
  ghost predicate NeedsToEnd(sm: Target, code: seq<Inst>, ip: nat, n: nat)
    requires ip < |code|
  {
    var a, last := code[ip], code[|code| - 1];
    && (forall d: nat :: d < |a.dsts| ==> sm.worst(a, d) <= n) && sm.variable(a) + sm.exec(last) <= n
    && (n == sm.variable(a) + sm.exec(last) || exists d: nat :: d < |a.dsts| && n == sm.worst(a, d))
  }

  /** The label of an instruction before paths are known. */
  ghost predicate Labelled(sm: Target, code: seq<Inst>, ip: nat, l: Label)
    requires ip < |code|
  {
    NeedsToEnd(sm, code, ip, l.readyCycle) && l.execLatency == sm.exec(code[ip])
  }

  function InitialLabel(sm: Target, code: seq<Inst>, ip: nat): (l: Label)
    requires ip < |code|
    ensures Labelled(sm, code, ip, l)
  {
    var a := code[ip];
    Label(0, 0, Max(WorstOf(sm, a, |a.dsts|), sm.variable(a) + sm.exec(code[|code| - 1])), sm.exec(a))
  }

  ghost predicate GraphFrom(sm: Target, code: seq<Inst>, ip: nat, labels: seq<Label>, es: Edges) {
    && |labels| == |es| == |code|
    && (forall i :: 0 <= i < ip && i < |code| ==> es[i] == [])
    && (forall i :: ip <= i < |code| ==> NodeOk(sm, code, i, es[i]))
    && (forall i :: ip <= i < |code| ==> Labelled(sm, code, i, labels[i]))
  }

  /** Adds all the edges of one instruction. */
  method AddInstEdges(g: DepGraph, sm: Target, code: seq<Inst>, ip: nat, t: Tracker, lastMem: Option<nat>,
                      lastBar: Option<nat>)
    requires g.Valid() && |g.edges| == |code| && ip < |code| && TrackerIn(t, |code|)
    requires (lastBar.Some? ==> ip < lastBar.value < |code|) && (lastMem.Some? ==> lastMem.value < |code|)
    modifies g`edges
    ensures g.Valid() && Appended(old(g.edges), ip, NodeEdges(sm, code, ip, t, lastMem, lastBar), g.edges)
  {
    ghost var e := EffectEdges(code, ip, lastMem, lastBar);
    ghost var d := OperandEdges(sm, code, code[ip], t, Cells(code[ip].dsts), true);
    AddEffectEdges(g, code, ip, lastMem, lastBar);
    ghost var es1 := g.edges;
    AddOperandEdges(g, sm, code, ip, t, Cells(code[ip].dsts), true);
    AppendedTrans(old(g.edges), ip, e, es1, d, g.edges);
    ghost var es2 := g.edges;
    AddOperandEdges(g, sm, code, ip, t, Cells(code[ip].srcs), false);
    AppendedTrans(old(g.edges), ip, e + d, es2, OperandEdges(sm, code, code[ip], t, Cells(code[ip].srcs), false),
                  g.edges);
  }

  lemma {:induction false} GraphFromStep(sm: Target, code: seq<Inst>, ip: nat, labels: seq<Label>, es: Edges,
                                         more: seq<Edge>, es': Edges)
    requires ip < |code| && GraphFrom(sm, code, ip + 1, labels, es) && NodeOk(sm, code, ip, more)
    requires Appended(es, ip, more, es')
    ensures GraphFrom(sm, code, ip, labels[ip := InitialLabel(sm, code, ip)], es')
  {
    assert es'[ip] == [] + more;
    assert [] + more == more;
  }

  lemma {:induction false} IsFirstStep(code: seq<Inst>, ip: nat, e: Effect, p: Option<nat>)
    requires ip < |code| && IsFirst(code, ip + 1, e, p)
    ensures IsFirst(code, ip, e, if code[ip].effect == e then Some(ip) else p)
  {
  }

  /** The scan has done the instructions from `ip` on. */
  ghost predicate ScannedFrom(sm: Target, code: seq<Inst>, ip: nat, labels: seq<Label>, es: Edges, t: Tracker,
                              lastMem: Option<nat>, lastBar: Option<nat>) {
    && GraphFrom(sm, code, ip, labels, es) && Tracks(code, ip, t)
    && IsFirst(code, ip, Memory, lastMem) && IsFirst(code, ip, Barrier, lastBar)
  }

  lemma {:induction false} ScannedStep(sm: Target, code: seq<Inst>, ip: nat, labels: seq<Label>, es: Edges, es': Edges,
                                       t: Tracker, lastMem: Option<nat>, lastBar: Option<nat>)
    requires ip < |code| && ScannedFrom(sm, code, ip + 1, labels, es, t, lastMem, lastBar) && TrackerIn(t, |code|)
    requires Appended(es, ip, NodeEdges(sm, code, ip, t, lastMem, lastBar), es')
    ensures ScannedFrom(sm, code, ip, labels[ip := InitialLabel(sm, code, ip)], es', Record(t, code[ip], ip),
                        if code[ip].effect == Memory then Some(ip) else lastMem,
                        if code[ip].effect == Barrier then Some(ip) else lastBar)
  {
    NodeEdgesOk(sm, code, ip, t, lastMem, lastBar);
    GraphFromStep(sm, code, ip, labels, es, NodeEdges(sm, code, ip, t, lastMem, lastBar), es');
    TracksStep(code, ip, t);
    IsFirstStep(code, ip, Memory, lastMem);
    IsFirstStep(code, ip, Barrier, lastBar);
  }

  method GenerateDepGraph(sm: Target, code: seq<Inst>) returns (g: DepGraph)
    ensures fresh(g) && g.Valid() && GraphFrom(sm, code, 0, g.labels, g.edges)
  {
    g := new DepGraph(|code|);
    var t: Tracker := map[];
    var lastMem: Option<nat>, lastBar: Option<nat> := None, None;
    for ip := |code| downto 0
      invariant g.Valid() && ScannedFrom(sm, code, ip, g.labels, g.edges, t, lastMem, lastBar)
    {
      ghost var es := g.edges;
      TracksIn(code, ip + 1, t);
      AddInstEdges(g, sm, code, ip, t, lastMem, lastBar);
      ScannedStep(sm, code, ip, g.labels, es, g.edges, t, lastMem, lastBar);
      t := Record(t, code[ip], ip);
      match code[ip].effect {
        case NoEffect =>
        case Barrier => lastBar := Some(ip);
        case Memory => lastMem := Some(ip);
      }
      g.labels := g.labels[ip := InitialLabel(sm, code, ip)];
    }
  }

  // ---- orders that respect the edges ----

  /** Every edge leads to a later position. */
  ghost predicate Respects(es: Edges, pos: nat -> int) {
    forall i: nat, j: nat :: Linked(es, i, j) ==> pos(i) < pos(j)
  }

  ghost predicate AllNodesOk(sm: Target, code: seq<Inst>, es: Edges) {
    |es| == |code| && forall i :: 0 <= i < |code| ==> NodeOk(sm, code, i, es[i])
  }

  lemma {:induction false} WawLink(sm: Target, code: seq<Inst>, es: Edges, i: nat, j: nat, r: Reg)
    requires AllNodesOk(sm, code, es) && i < j < |code| && Writes(code[i], r) && Writes(code[j], r)
    requires Untouched(code, i, j, r)
    ensures Linked(es, i, j)
  {
    assert WawEdges(sm, code, i, es[i]);
    var d: nat :| WritesAt(code[i], d, r);
    var e: nat, l: nat :| WritesAt(code[j], e, r) && sm.WawIs(code[i], d, code[j], e, l) && Edge(l, j) in es[i];
    assert HasEdge(es, i, j, l);
  }

  lemma {:induction false} RawLink(sm: Target, code: seq<Inst>, es: Edges, i: nat, j: nat, r: Reg, o: Operand)
    requires AllNodesOk(sm, code, es) && i < j < |code| && Writes(code[i], r) && ReadsAs(code[j], o, r)
    requires Untouched(code, i, j, r)
    ensures Linked(es, i, j)
  {
    assert RawEdges(sm, code, i, es[i]);
    var d: nat :| WritesAt(code[i], d, r);
    var l: nat :| sm.RawIs(code[i], d, code[j], o, l) && Edge(l, j) in es[i];
    assert HasEdge(es, i, j, l);
  }

  lemma {:induction false} WarLink(sm: Target, code: seq<Inst>, es: Edges, i: nat, j: nat, r: Reg, s: nat)
    requires AllNodesOk(sm, code, es) && i < j < |code|
    requires ReadsAs(code[i], Source(s), r) && Writes(code[j], r) && Untouched(code, i, j, r)
    ensures Linked(es, i, j)
  {
    assert WarEdges(sm, code, i, es[i]);
    var e: nat, l: nat :| WritesAt(code[j], e, r) && sm.WarIs(code[i], s, code[j], e, l) && Edge(l, j) in es[i];
    assert HasEdge(es, i, j, l);
  }

  ghost predicate Ordered(a: Inst, b: Inst, e: Effect) {
    if e == Memory then a.effect == Memory == b.effect else e == Barrier && (a.effect == Barrier || b.effect == Barrier)
  }

  lemma {:induction false} FixedLink(sm: Target, code: seq<Inst>, es: Edges, i: nat, j: nat, e: Effect)
    requires AllNodesOk(sm, code, es) && i < j < |code| && Ordered(code[i], code[j], e) && NoneBetween(code, i, j, e)
    ensures Linked(es, i, j)
  {
    assert FixedEdges(code, i, es[i]);
    assert HasEdge(es, i, j, 0);
  }

  /** Some instruction strictly between writes `r`. */
  lemma {:induction false} Between(code: seq<Inst>, i: nat, j: nat, r: Reg) returns (k: nat)
    requires i < j < |code| && !Untouched(code, i, j, r)
    ensures i < k < j && Writes(code[k], r)
  {
    k :| i < k < j && 0 <= k < |code| && Writes(code[k], r);
  }

  /** Writes of one register keep their order, through the writes between them. */
  lemma {:induction false} WritesInOrder(sm: Target, code: seq<Inst>, es: Edges, pos: nat -> int, i: nat, j: nat,
                                         r: Reg)
    requires AllNodesOk(sm, code, es) && Respects(es, pos)
    requires i < j < |code| && Writes(code[i], r) && Writes(code[j], r)
    ensures pos(i) < pos(j)
    decreases j - i
  {
    if Untouched(code, i, j, r) {
      WawLink(sm, code, es, i, j, r);
    } else {
      var k := Between(code, i, j, r);
      WritesInOrder(sm, code, es, pos, i, k, r);
      WritesInOrder(sm, code, es, pos, k, j, r);
    }
  }

  lemma {:induction false} ReadsAfterWrites(sm: Target, code: seq<Inst>, es: Edges, pos: nat -> int, i: nat, j: nat,
                                            r: Reg, o: Operand)
    requires AllNodesOk(sm, code, es) && Respects(es, pos)
    requires i < j < |code| && Writes(code[i], r) && ReadsAs(code[j], o, r)
    ensures pos(i) < pos(j)
    decreases j - i
  {
    if Untouched(code, i, j, r) {
      RawLink(sm, code, es, i, j, r, o);
    } else {
      var k := Between(code, i, j, r);
      WritesInOrder(sm, code, es, pos, i, k, r);
      ReadsAfterWrites(sm, code, es, pos, k, j, r, o);
    }
  }

  lemma {:induction false} WritesAfterReads(sm: Target, code: seq<Inst>, es: Edges, pos: nat -> int, i: nat, j: nat,
                                            r: Reg, s: nat)
    requires AllNodesOk(sm, code, es) && Respects(es, pos)
    requires i < j < |code| && ReadsAs(code[i], Source(s), r) && Writes(code[j], r)
    ensures pos(i) < pos(j)
    decreases j - i
  {
    if Untouched(code, i, j, r) {
      WarLink(sm, code, es, i, j, r, s);
    } else {
      var k := Between(code, i, j, r);
      WritesAfterReads(sm, code, es, pos, i, k, r, s);
      WritesInOrder(sm, code, es, pos, k, j, r);
    }
  }

  lemma {:induction false} EffectsInOrder(sm: Target, code: seq<Inst>, es: Edges, pos: nat -> int, i: nat, j: nat,
                                          e: Effect)
    requires AllNodesOk(sm, code, es) && Respects(es, pos) && i < j < |code| && Ordered(code[i], code[j], e)
    ensures pos(i) < pos(j)
    decreases j - i
  {
    if NoneBetween(code, i, j, e) {
      FixedLink(sm, code, es, i, j, e);
    } else {
      var k :| i < k < j && 0 <= k < |code| && code[k].effect == e;
      EffectsInOrder(sm, code, es, pos, i, k, e);
      EffectsInOrder(sm, code, es, pos, k, j, e);
    }
  }

  /** Any order that respects the edges keeps every dependent pair in order. */
  lemma {:induction false} DependentsInOrder(sm: Target, code: seq<Inst>, es: Edges, pos: nat -> int, i: nat, j: nat)
    requires AllNodesOk(sm, code, es) && Respects(es, pos) && i < j < |code| && Depends(code[i], code[j])
    ensures pos(i) < pos(j)
  {
    var a, b := code[i], code[j];
    if r: Reg :| Writes(a, r) && Writes(b, r) {
      WritesInOrder(sm, code, es, pos, i, j, r);
    } else if r: Reg, o: Operand :| Writes(a, r) && ReadsAs(b, o, r) {
      ReadsAfterWrites(sm, code, es, pos, i, j, r, o);
    } else if r: Reg, s: nat :| ReadsAs(a, Source(s), r) && Writes(b, r) {
      WritesAfterReads(sm, code, es, pos, i, j, r, s);
    } else {
      EffectsInOrder(sm, code, es, pos, i, j, if a.effect == Memory == b.effect then Memory else Barrier);
    }
  }
}
