/**
 Block liveness by a backward fixed point over word vectors, and its agreement with
 liveness along paths.
 */
module SimpleLiveness {
  import opened Basics
  import opened Words
  import opened BitSets
  import opened Cfgs
  import opened Dataflow
  import opened Programs

  // ---- word vectors form a semilattice of finite height ----

  ghost predicate WordsLeq(a: seq<Word64>, b: seq<Word64>) {
    |a| <= |b| && forall k :: 0 <= k < |a| ==> a[k] <= b[k]
  }

  lemma {:induction false} UnionOrder(a: BitSet, b: BitSet)
    requires a.capacity == b.capacity
    ensures a.Union(b) == b <==> WordsLeq(a.words, b.words)
  {
    var u := a.Union(b);
    if WordsLeq(a.words, b.words) {
      forall k | 0 <= k < |u.words| ensures u.words[k] == b.words[k] {
        assert u.words[k] == a.WordAt(k) + b.WordAt(k);
      }
      assert u.words == b.words;
    }
    if u == b {
      forall k | 0 <= k < |a.words| ensures a.words[k] <= b.words[k] {
        assert u.words[k] == a.WordAt(k) + b.WordAt(k);
      }
    }
  }

  lemma {:induction false} UnionLaws(a: BitSet, b: BitSet, c: BitSet)
    requires a.capacity == b.capacity == c.capacity == 0
    ensures a.Union(b) == b.Union(a) && a.Union(b).Union(c) == a.Union(b.Union(c))
    ensures a.Union(a) == a && EMPTY.Union(a) == a
  {
    forall k | 0 <= k < |a.Union(b).words| ensures a.Union(b).words[k] == b.Union(a).words[k] {
      assert a.WordAt(k) + b.WordAt(k) == b.WordAt(k) + a.WordAt(k);
    }
    SameWords(a.Union(b), b.Union(a));
    forall k | 0 <= k < |a.Union(b).Union(c).words|
      ensures a.Union(b).Union(c).words[k] == a.Union(b.Union(c)).words[k]
    {
      assert a.Union(b).WordAt(k) == a.WordAt(k) + b.WordAt(k);
      assert b.Union(c).WordAt(k) == b.WordAt(k) + c.WordAt(k);
    }
    SameWords(a.Union(b).Union(c), a.Union(b.Union(c)));
    forall k | 0 <= k < |a.words| ensures a.Union(a).words[k] == a.words[k] && EMPTY.Union(a).words[k] == a.words[k] {
      assert a.Union(a).words[k] == a.WordAt(k) + a.WordAt(k);
      assert EMPTY.Union(a).words[k] == {} + a.WordAt(k);
    }
    SameWords(a.Union(a), a);
    SameWords(EMPTY.Union(a), a);
  }

  lemma {:induction false} SameWords(a: BitSet, b: BitSet)
    requires a.capacity == b.capacity && |a.words| == |b.words|
    requires forall k :: 0 <= k < |a.words| ==> a.words[k] == b.words[k]
    ensures a == b
  {
  }

  /** The size of a vector: its words and their bits. */
  function Weight(ws: seq<Word64>): nat {
    if ws == [] then 0 else Weight(ws[..|ws| - 1]) + 1 + |ws[|ws| - 1]|
  }

  lemma {:induction false} BoundedSet(n: nat, s: set<nat>)
    requires forall b :: b in s ==> b < n
    ensures |s| <= n
  {
    if n == 0 {
      assert s == {};
    } else {
      BoundedSet(n - 1, s - {n - 1});
      assert s <= (s - {n - 1}) + {n - 1};
      if n - 1 !in s {
        assert s == s - {n - 1};
      }
    }
  }

  lemma {:induction false} WeightBound(ws: seq<Word64>)
    ensures Weight(ws) <= 65 * |ws|
  {
    if ws != [] {
      WeightBound(ws[..|ws| - 1]);
      BoundedSet(64, ws[|ws| - 1]);
    }
  }

  lemma {:induction false} WeightGrows(a: seq<Word64>, b: seq<Word64>)
    requires WordsLeq(a, b)
    ensures Weight(a) <= Weight(b) && (a != b ==> Weight(a) < Weight(b))
    decreases |b|
  {
    if |a| < |b| {
      WeightGrows(a, b[..|b| - 1]);
    } else if b != [] {
      var a', b' := a[..|a| - 1], b[..|b| - 1];
      WeightGrows(a', b');
      SubsetSize(a[|a| - 1], b[|b| - 1]);
      assert a == a' + [a[|a| - 1]] && b == b' + [b[|b| - 1]];
    }
  }

  // ---- the problem ----

  /** Live-in from live-out: uses added, definitions removed. */
  function LiveTransfer(uses: seq<BitSet>, defs: seq<BitSet>, b: nat, out: BitSet): BitSet {
    if b < |uses| && b < |defs| then out.BitOr(uses[b]).Sub(defs[b]) else out
  }

  function LiveProblem(uses: seq<BitSet>, defs: seq<BitSet>, n: nat): Problem<BitSet> {
    Problem(EMPTY, (a: BitSet, b: BitSet) => a.Union(b), (b: nat, out: BitSet) => LiveTransfer(uses, defs, b, out),
            (s: BitSet) => s.capacity == 0 && |s.words| <= n, (s: BitSet) => Weight(s.words), 65 * n)
  }

  ghost predicate Fits(sets: seq<BitSet>, n: nat) {
    forall k :: 0 <= k < |sets| ==> sets[k].capacity == 0 && |sets[k].words| <= n
  }

  lemma {:induction false} TransferMonotone(uses: seq<BitSet>, defs: seq<BitSet>, n: nat, b: nat, x: BitSet, y: BitSet)
    requires Fits(uses, n) && Fits(defs, n) && x.capacity == y.capacity == 0 && WordsLeq(x.words, y.words)
    ensures LiveTransfer(uses, defs, b, x).capacity == LiveTransfer(uses, defs, b, y).capacity == 0
    ensures WordsLeq(LiveTransfer(uses, defs, b, x).words, LiveTransfer(uses, defs, b, y).words)
  {
  }

  lemma {:induction false} LiveProblemValid(uses: seq<BitSet>, defs: seq<BitSet>, n: nat)
    requires Fits(uses, n) && Fits(defs, n)
    ensures Valid(LiveProblem(uses, defs, n))
  {
    var pr := LiveProblem(uses, defs, n);
    assert Semilattice(pr) by {
      forall a, b, c | pr.ok(a) && pr.ok(b) && pr.ok(c)
        ensures pr.join(a, b) == pr.join(b, a) && pr.join(pr.join(a, b), c) == pr.join(a, pr.join(b, c))
        ensures pr.ok(pr.join(a, b)) && pr.join(a, a) == a && pr.join(pr.bottom, a) == a
      {
        UnionLaws(a, b, c);
      }
    }
    assert Monotone(pr) by {
      forall b: nat, x, y | pr.ok(x) && pr.ok(y) && pr.Leq(x, y) ensures pr.Leq(pr.transfer(b, x), pr.transfer(b, y)) {
        UnionOrder(x, y);
        TransferMonotone(uses, defs, n, b, x, y);
        UnionOrder(pr.transfer(b, x), pr.transfer(b, y));
      }
    }
    assert FiniteHeight(pr) by {
      forall a | pr.ok(a) ensures pr.rank(a) <= pr.height {
        WeightBound(a.words);
      }
      forall a, b | pr.ok(a) && pr.ok(b) && pr.Leq(a, b) && a != b ensures pr.rank(a) < pr.rank(b) {
        UnionOrder(a, b);
        WeightGrows(a.words, b.words);
      }
    }
  }

  // ---- scanning blocks ----

  datatype BlockLiveness = BlockLiveness(uses: BitSet, defs: BitSet, lastUse: map<Ssa, nat>, liveIn: BitSet,
                                         liveOut: BitSet) {
    predicate IsLiveAfterIp(x: Ssa, ip: nat) {
      liveOut.Contains(x) || (x in lastUse && lastUse[x] > ip)
    }
  }

  /** The sets of a block hold its uses and definitions, and the last use of each value. */
  ghost predicate Scanned(b: Block, bl: BlockLiveness) {
    && bl.uses.capacity == bl.defs.capacity == 0
    && UsesOf(b, bl.uses) && DefsOf(b, bl.defs) && LastUsesOf(b, bl.lastUse)
  }

  ghost predicate UsesOf(b: Block, s: BitSet) {
    forall x: Ssa :: s.Contains(x) <==> UsedIn(b, x)
  }

  ghost predicate DefsOf(b: Block, s: BitSet) {
    forall x: Ssa :: s.Contains(x) <==> DefinedIn(b, x)
  }

  ghost predicate LastUsesOf(b: Block, lastUse: map<Ssa, nat>) {
    && (forall x: Ssa :: x in lastUse <==> UsedIn(b, x))
    && (forall x: Ssa :: x in lastUse ==>
          UsedAt(b, lastUse[x], x) && forall ip: nat :: UsedAt(b, ip, x) ==> ip <= lastUse[x])
  }

  lemma {:induction false} InsertAllContains(s: BitSet, xs: seq<Ssa>)
    ensures forall x: Ssa :: InsertAll(s, xs).Contains(x) <==> s.Contains(x) || x in xs
    ensures InsertAll(s, xs).capacity == s.capacity
    decreases |xs|
  {
    if xs != [] {
      InsertAllContains(s.Insert(xs[0]), xs[1..]);
    }
  }

  function InsertAll(s: BitSet, xs: seq<Ssa>): BitSet
    decreases |xs|
  {
    if xs == [] then s else InsertAll(s.Insert(xs[0]), xs[1..])
  }

  lemma {:induction false} SnocUsed(b: Block, i: Instr, x: Ssa)
    ensures UsedIn(b + [i], x) <==> UsedIn(b, x) || i.Uses(x)
  {
    var c := b + [i];
    if UsedIn(b, x) {
      var ip: nat :| UsedAt(b, ip, x);
      assert UsedAt(c, ip, x);
    }
    if i.Uses(x) { assert UsedAt(c, |b|, x); }
    if UsedIn(c, x) {
      var ip: nat :| UsedAt(c, ip, x);
      assert ip < |b| ==> UsedAt(b, ip, x);
    }
  }

  lemma {:induction false} SnocDefined(b: Block, i: Instr, x: Ssa)
    ensures DefinedIn(b + [i], x) <==> DefinedIn(b, x) || i.Defines(x)
  {
    var c := b + [i];
    if DefinedIn(b, x) {
      var ip: nat :| DefinedAt(b, ip, x);
      assert DefinedAt(c, ip, x);
    }
    if i.Defines(x) { assert DefinedAt(c, |b|, x); }
    if DefinedIn(c, x) {
      var ip: nat :| DefinedAt(c, ip, x);
      assert ip < |b| ==> DefinedAt(b, ip, x);
    }
  }

  /** The last uses once the instruction at `ip` has been seen. */
  function UsedNow(lastUse: map<Ssa, nat>, i: Instr, ip: nat): map<Ssa, nat> {
    lastUse + map x | x in i.uses :: ip
  }

  /** Adds one instruction to the sets of its block. */
  function ScanInstr(bl: BlockLiveness, i: Instr, ip: nat): BlockLiveness {
    bl.(uses := InsertAll(bl.uses, i.uses), defs := InsertAll(bl.defs, i.Defs()),
        lastUse := UsedNow(bl.lastUse, i, ip))
  }

  lemma {:induction false} LastUseStep(b: Block, lastUse: map<Ssa, nat>, i: Instr)
    requires LastUsesOf(b, lastUse)
    ensures LastUsesOf(b + [i], UsedNow(lastUse, i, |b|))
  {
    var c, after := b + [i], UsedNow(lastUse, i, |b|);
    forall x: Ssa ensures x in after <==> UsedIn(c, x) {
      SnocUsed(b, i, x);
    }
    forall x: Ssa | x in after ensures UsedAt(c, after[x], x) {
      assert x !in i.uses ==> UsedAt(b, lastUse[x], x);
    }
    forall x: Ssa, ip: nat | x in after && UsedAt(c, ip, x) ensures ip <= after[x] {
      assert ip < |b| ==> UsedAt(b, ip, x);
    }
  }

  lemma {:induction false} UsesStep(b: Block, s: BitSet, i: Instr)
    requires UsesOf(b, s)
    ensures UsesOf(b + [i], InsertAll(s, i.uses)) && InsertAll(s, i.uses).capacity == s.capacity
  {
    InsertAllContains(s, i.uses);
    forall x: Ssa ensures InsertAll(s, i.uses).Contains(x) <==> UsedIn(b + [i], x) {
      SnocUsed(b, i, x);
    }
  }

  lemma {:induction false} DefsStep(b: Block, s: BitSet, i: Instr)
    requires DefsOf(b, s)
    ensures DefsOf(b + [i], InsertAll(s, i.Defs())) && InsertAll(s, i.Defs()).capacity == s.capacity
  {
    InsertAllContains(s, i.Defs());
    forall x: Ssa ensures InsertAll(s, i.Defs()).Contains(x) <==> DefinedIn(b + [i], x) {
      SnocDefined(b, i, x);
    }
  }

  lemma {:induction false} ScanInstrOk(b: Block, bl: BlockLiveness, i: Instr)
    requires Scanned(b, bl)
    ensures Scanned(b + [i], ScanInstr(bl, i, |b|))
  {
    UsesStep(b, bl.uses, i);
    DefsStep(b, bl.defs, i);
    LastUseStep(b, bl.lastUse, i);
  }

  method ScanBlock(b: Block) returns (bl: BlockLiveness)
    ensures Scanned(b, bl)
  {
    bl := BlockLiveness(EMPTY, EMPTY, map[], EMPTY, EMPTY);
    for ip := 0 to |b|
      invariant Scanned(b[..ip], bl)
    {
      ScanInstrOk(b[..ip], bl, b[ip]);
      assert b[..ip] + [b[ip]] == b[..ip + 1];
      bl := ScanInstr(bl, b[ip], ip);
    }
    assert b[..|b|] == b;
  }

  // ---- the fixed point is liveness along paths ----

  function MaxWords(sets: seq<BitSet>): (n: nat)
    ensures forall k :: 0 <= k < |sets| ==> |sets[k].words| <= n
  {
    if sets == [] then 0 else
      var n := MaxWords(sets[..|sets| - 1]);
      Max(n, |sets[|sets| - 1].words|)
  }

  lemma {:induction false} JoinAllContains(pr: Problem<BitSet>, deps: seq<nat>, res: seq<BitSet>, x: Ssa)
    requires InBounds(deps, |res|) && pr.bottom == EMPTY
    requires forall a, b :: pr.join(a, b) == a.Union(b)
    ensures JoinAll(pr, deps, res).Contains(x) <==> exists k :: 0 <= k < |deps| && res[deps[k]].Contains(x)
  {
    if deps != [] {
      var init := deps[..|deps| - 1];
      JoinAllContains(pr, init, res, x);
      if exists k :: 0 <= k < |init| && res[init[k]].Contains(x) {
        var k :| 0 <= k < |init| && res[init[k]].Contains(x);
        assert res[deps[k]].Contains(x);
      }
    }
  }

  /** The path-live values of a block as a vector of `n` words. */
  ghost function PathSet(f: Function, b: nat, n: nat): BitSet {
    BitSet(seq(n, w requires 0 <= w < n => set c: nat | c < 64 && LiveBit(f, b, w, c)), 0)
  }

  ghost predicate LiveBit(f: Function, b: nat, w: nat, c: nat) {
    LiveIn(f, b, w * 64 + c)
  }

  lemma {:induction false} PathSetContains(f: Function, b: nat, n: nat, x: Ssa)
    ensures PathSet(f, b, n).Contains(x) ==> LiveIn(f, b, x)
  {
  }

  /** The equations hold at every reachable block. */
  ghost predicate Equations(f: Function, bls: seq<BlockLiveness>) {
    && |bls| == |f.blocks| == f.g.len
    && (forall b :: 0 <= b < |bls| ==> Scanned(f.blocks[b], bls[b]))
    && forall b: nat, x: Ssa {:trigger bls[b].liveIn.Contains(x)} {:trigger bls[b].liveOut.Contains(x)} ::
         b < |bls| && f.g.Reachable(b) ==>
           && (bls[b].liveOut.Contains(x) <==> exists s: nat :: f.g.Edge(b, s) && bls[s].liveIn.Contains(x))
           && (bls[b].liveIn.Contains(x) <==>
                 (bls[b].liveOut.Contains(x) || UsedIn(f.blocks[b], x)) && !DefinedIn(f.blocks[b], x))
  }

  lemma {:induction false} PathIsIn(f: Function, bls: seq<BlockLiveness>, p: seq<nat>, x: Ssa)
    requires FunctionOk(f) && Equations(f, bls)
    requires LivePath(f, p, x) && f.g.Reachable(p[0])
    ensures bls[p[0]].liveIn.Contains(x)
    decreases |p|
  {
    var b := p[0];
    UpwardUseIs(f.blocks[b], x);
    if |p| > 1 {
      assert f.g.Edge(p[0], p[0 + 1]) && !DefinedIn(f.blocks[p[0]], x);
      ReachableStep(f.g, p[0], p[1]);
      assert forall i :: 0 <= i < |p| - 1 ==> p[1..][i] == p[i + 1];
      PathIsIn(f, bls, p[1..], x);
      assert bls[b].liveOut.Contains(x);
    } else {
      assert bls[b].liveIn.Contains(x) <==>
        (bls[b].liveOut.Contains(x) || UsedIn(f.blocks[b], x)) && !DefinedIn(f.blocks[b], x);
    }
  }

  /** What the solver is given: the scanned sets, and the blocks' path-live values as a candidate. */
  ghost predicate Setup(f: Function, scans: seq<BlockLiveness>, uses: seq<BitSet>, defs: seq<BitSet>, n: nat) {
    && FunctionOk(f)
    && |scans| == |uses| == |defs| == |f.blocks|
    && Fits(uses, n) && Fits(defs, n)
    && forall b :: 0 <= b < |scans| ==>
         Scanned(f.blocks[b], scans[b]) && uses[b] == scans[b].uses && defs[b] == scans[b].defs
  }

  lemma {:induction false} PathSetsClosedAt(f: Function, bl: BlockLiveness, b: nat, out: BitSet, x: Ssa)
    requires b < |f.blocks| && DefsFirst(f.blocks[b]) && Scanned(f.blocks[b], bl)
    requires out.Contains(x) ==> exists s: nat :: f.g.Edge(b, s) && LiveIn(f, s, x)
    requires out.BitOr(bl.uses).Sub(bl.defs).Contains(x)
    ensures LiveIn(f, b, x)
  {
    UpwardUseIs(f.blocks[b], x);
    LiveInCases(f, b, x);
  }

  lemma {:induction false} PathSetsClosed(f: Function, scans: seq<BlockLiveness>, uses: seq<BitSet>, defs: seq<BitSet>,
                                          n: nat, u: seq<BitSet>, b: nat)
    requires Setup(f, scans, uses, defs, n) && b < f.g.len
    requires |u| == f.g.len && forall k :: 0 <= k < |u| ==> u[k] == PathSet(f, k, n)
    requires InBounds(f.g.Successors(b), f.g.len)
    ensures WordsLeq(LiveTransfer(uses, defs, b, JoinAll(LiveProblem(uses, defs, n), f.g.Successors(b), u)).words,
                     u[b].words)
  {
    var pr := LiveProblem(uses, defs, n);
    var succs := f.g.Successors(b);
    var out := JoinAll(pr, succs, u);
    assert |out.words| <= n by {
      LiveProblemValid(uses, defs, n);
      JoinAllOk(pr, succs, u);
    }
    var t := LiveTransfer(uses, defs, b, out);
    forall x: Ssa | t.Contains(x) ensures LiveIn(f, b, x) {
      TransferIsLive(f, scans, uses, defs, n, u, b, x);
    }
    LiveWordsBelow(f, b, n, t);
  }

  /** A set of path-live values lies below the words of all of them. */
  lemma {:induction false} LiveWordsBelow(f: Function, b: nat, n: nat, t: BitSet)
    requires |t.words| <= n && forall x: Ssa :: t.Contains(x) ==> LiveIn(f, b, x)
    ensures WordsLeq(t.words, PathSet(f, b, n).words)
  {
    forall w, c | 0 <= w < |t.words| && c in t.words[w] ensures c in PathSet(f, b, n).words[w] {
      BitOfWord(t, w, c);
      assert LiveBit(f, b, w, c);
    }
  }

  lemma {:induction false} BitOfWord(s: BitSet, w: nat, c: nat)
    requires w < |s.words| && c in s.words[w]
    ensures s.Contains(w * 64 + c)
  {
    assert (w * 64 + c) / 64 == w && (w * 64 + c) % 64 == c;
  }

  /** What the transfer of a block makes of its successors' path-live values is path-live. */
  lemma {:induction false} TransferIsLive(f: Function, scans: seq<BlockLiveness>, uses: seq<BitSet>, defs: seq<BitSet>,
                                          n: nat, u: seq<BitSet>,
                                          b: nat, x: Ssa)
    requires Setup(f, scans, uses, defs, n) && b < f.g.len
    requires |u| == f.g.len && forall k :: 0 <= k < |u| ==> u[k] == PathSet(f, k, n)
    requires InBounds(f.g.Successors(b), f.g.len)
    requires LiveTransfer(uses, defs, b, JoinAll(LiveProblem(uses, defs, n), f.g.Successors(b), u)).Contains(x)
    ensures LiveIn(f, b, x)
  {
    var pr, succs := LiveProblem(uses, defs, n), f.g.Successors(b);
    var out := JoinAll(pr, succs, u);
    if out.Contains(x) {
      JoinAllContains(pr, succs, u, x);
      var k :| 0 <= k < |succs| && u[succs[k]].Contains(x);
      PathSetContains(f, succs[k], n, x);
      assert f.g.Edge(b, succs[k]);
    }
    PathSetsClosedAt(f, scans[b], b, out, x);
  }

  lemma {:induction false} SolutionIsLive(f: Function, scans: seq<BlockLiveness>, uses: seq<BitSet>, defs: seq<BitSet>,
                                          n: nat, ins: seq<BitSet>, b: nat, x: Ssa)
    requires Setup(f, scans, uses, defs, n)
    requires |ins| == f.g.len && AllOk(LiveProblem(uses, defs, n), ins)
    requires forall u :: Above(LiveProblem(uses, defs, n), f.g, f.g.succs, u) ==>
      Below(LiveProblem(uses, defs, n), ins, u)
    requires b < f.g.len && ins[b].Contains(x)
    ensures LiveIn(f, b, x)
  {
    var pr := LiveProblem(uses, defs, n);
    var u := seq(f.g.len, k requires 0 <= k < f.g.len => PathSet(f, k, n));
    forall k: nat | f.g.Reachable(k)
      ensures k < f.g.len && InBounds(f.g.Successors(k), f.g.len)
      ensures pr.Leq(pr.transfer(k, JoinAll(pr, f.g.Successors(k), u)), u[k])
    {
      ReachableInRange(f.g, k);
      PathSetsClosed(f, scans, uses, defs, n, u, k);
      LiveProblemValid(uses, defs, n);
      JoinAllOk(pr, f.g.Successors(k), u);
      UnionOrder(pr.transfer(k, JoinAll(pr, f.g.Successors(k), u)), u[k]);
    }
    assert Above(pr, f.g, f.g.succs, u);
    assert pr.Leq(ins[b], u[b]);
    UnionOrder(ins[b], u[b]);
    assert u[b].Contains(x);
    PathSetContains(f, b, n, x);
  }

  lemma {:induction false} SolutionsAreLive(f: Function, scans: seq<BlockLiveness>, uses: seq<BitSet>,
                                            defs: seq<BitSet>, n: nat, ins: seq<BitSet>)
    requires Setup(f, scans, uses, defs, n)
    requires |ins| == f.g.len && AllOk(LiveProblem(uses, defs, n), ins)
    requires forall u ::
      Above(LiveProblem(uses, defs, n), f.g, f.g.succs, u) ==> Below(LiveProblem(uses, defs, n), ins, u)
    ensures forall b: nat, x: Ssa :: b < f.g.len && ins[b].Contains(x) ==> LiveIn(f, b, x)
  {
    forall b: nat, x: Ssa | b < f.g.len && ins[b].Contains(x) ensures LiveIn(f, b, x) {
      SolutionIsLive(f, scans, uses, defs, n, ins, b, x);
    }
  }

  /** Live-in and live-out of reachable blocks are exactly the path-live values. */
  ghost predicate Exact(f: Function, bls: seq<BlockLiveness>) {
    && |bls| == |f.blocks|
    && (forall b :: 0 <= b < |bls| ==> Scanned(f.blocks[b], bls[b]))
    && forall b: nat, x: Ssa {:trigger LiveIn(f, b, x)} {:trigger LiveOut(f, b, x)} :: b < |bls| && f.g.Reachable(b) ==>
         && (bls[b].liveIn.Contains(x) <==> LiveIn(f, b, x))
         && (bls[b].liveOut.Contains(x) <==> LiveOut(f, b, x))
  }

  method ScanAll(f: Function) returns (scans: seq<BlockLiveness>)
    ensures |scans| == |f.blocks| && forall b :: 0 <= b < |scans| ==> Scanned(f.blocks[b], scans[b])
  {
    scans := [];
    for b := 0 to |f.blocks|
      invariant |scans| == b && forall k :: 0 <= k < b ==> Scanned(f.blocks[k], scans[k])
    {
      var bl := ScanBlock(f.blocks[b]);
      scans := scans + [bl];
    }
  }

  lemma {:induction false} EquationsAt(f: Function, scans: seq<BlockLiveness>, uses: seq<BitSet>, defs: seq<BitSet>,
                                       n: nat, ins: seq<BitSet>, outs: seq<BitSet>, b: nat, x: Ssa)
    requires Setup(f, scans, uses, defs, n) && b < f.g.len && |ins| == |outs| == f.g.len
    requires InBounds(f.g.Successors(b), f.g.len)
    requires outs[b] == JoinAll(LiveProblem(uses, defs, n), f.g.Successors(b), ins)
    requires ins[b] == LiveTransfer(uses, defs, b, outs[b])
    ensures outs[b].Contains(x) <==> exists s: nat :: f.g.Edge(b, s) && ins[s].Contains(x)
    ensures ins[b].Contains(x) <==> (outs[b].Contains(x) || UsedIn(f.blocks[b], x)) && !DefinedIn(f.blocks[b], x)
  {
    var pr := LiveProblem(uses, defs, n);
    var succs := f.g.Successors(b);
    JoinAllContains(pr, succs, ins, x);
    if exists k :: 0 <= k < |succs| && ins[succs[k]].Contains(x) {
      var k :| 0 <= k < |succs| && ins[succs[k]].Contains(x);
      assert f.g.Edge(b, succs[k]);
    }
    if s: nat :| f.g.Edge(b, s) && ins[s].Contains(x) {
      var k :| 0 <= k < |succs| && succs[k] == s;
    }
  }

  lemma {:induction false} SolvedIsExact(f: Function, bls: seq<BlockLiveness>)
    requires FunctionOk(f) && Equations(f, bls)
    requires forall b: nat, x: Ssa :: b < |bls| && bls[b].liveIn.Contains(x) ==> LiveIn(f, b, x)
    ensures Exact(f, bls)
  {
    forall b: nat, x: Ssa | b < |bls| && f.g.Reachable(b) && LiveIn(f, b, x) ensures bls[b].liveIn.Contains(x) {
      var p :| LivePath(f, p, x) && p[0] == b;
      PathIsIn(f, bls, p, x);
    }
    forall b: nat, x: Ssa | b < |bls| && f.g.Reachable(b) ensures bls[b].liveOut.Contains(x) <==> LiveOut(f, b, x) {
      forall s: nat | f.g.Edge(b, s) ensures bls[s].liveIn.Contains(x) <==> LiveIn(f, s, x) {
        ReachableStep(f.g, b, s);
      }
    }
  }

  /** `bls` records the scans and the solution of the dataflow problem. */
  ghost predicate Assembled(f: Function, scans: seq<BlockLiveness>, uses: seq<BitSet>, defs: seq<BitSet>, n: nat,
                            ins: seq<BitSet>, outs: seq<BitSet>, bls: seq<BlockLiveness>) {
    && Setup(f, scans, uses, defs, n)
    && |ins| == |outs| == |bls| == f.g.len
    && (forall b :: 0 <= b < |bls| ==> bls[b] == scans[b].(liveIn := ins[b], liveOut := outs[b]))
    && (forall b: nat :: f.g.Reachable(b) ==>
          && b < f.g.len
          && outs[b] == JoinAll(LiveProblem(uses, defs, n), f.g.Successors(b), ins)
          && ins[b] == LiveTransfer(uses, defs, b, outs[b]))
  }

  lemma {:induction false} AssembledEquations(f: Function, scans: seq<BlockLiveness>, uses: seq<BitSet>,
                                              defs: seq<BitSet>, n: nat,
                           ins: seq<BitSet>, outs: seq<BitSet>, bls: seq<BlockLiveness>)
    requires Assembled(f, scans, uses, defs, n, ins, outs, bls)
    ensures Equations(f, bls)
  {
    forall b: nat, x: Ssa | b < |bls| && f.g.Reachable(b)
      ensures bls[b].liveOut.Contains(x) <==> exists s: nat :: f.g.Edge(b, s) && bls[s].liveIn.Contains(x)
      ensures bls[b].liveIn.Contains(x) <==>
        (bls[b].liveOut.Contains(x) || UsedIn(f.blocks[b], x)) && !DefinedIn(f.blocks[b], x)
    {
      EquationsAt(f, scans, uses, defs, n, ins, outs, b, x);
      forall s: nat | f.g.Edge(b, s) ensures bls[s].liveIn == ins[s] {}
    }
  }

  /** Liveness of a whole function. */
  method ForFunction(f: Function) returns (bls: seq<BlockLiveness>)
    requires FunctionOk(f)
    ensures Exact(f, bls)
  {
    var scans := ScanAll(f);
    var uses := seq(|scans|, b requires 0 <= b < |scans| => scans[b].uses);
    var defs := seq(|scans|, b requires 0 <= b < |scans| => scans[b].defs);
    var n := Max(MaxWords(uses), MaxWords(defs));
    LiveProblemValid(uses, defs, n);
    var ins, outs := SolveBackward(LiveProblem(uses, defs, n), f.g);
    bls := seq(|scans|, b requires 0 <= b < |scans| => scans[b].(liveIn := ins[b], liveOut := outs[b]));
    AssembledEquations(f, scans, uses, defs, n, ins, outs, bls);
    SolutionsAreLive(f, scans, uses, defs, n, ins);
    SolvedIsExact(f, bls);
  }
}
