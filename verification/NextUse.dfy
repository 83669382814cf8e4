/**
 Next-use distances: use lists per block, completed by the nearest use in a successor,
 computed by a backward fixed point, and their agreement with distances along paths.
 */
module NextUse {
  import opened Basics
  import opened Registers
  import opened Cfgs
  import opened Programs
  import opened SimpleLiveness

  /** What a block knows of one value. Use positions count from the start of the block; the
      nearest use in a successor is kept last, at or past the end of the block. */
  datatype UseDef = UseDef(defined: bool, uses: seq<nat>) {
    function AddSuccessorUse(n: nat, ip: nat): (UseDef, bool) {
      var useIp := n + ip;
      if uses == [] then (this.(uses := [useIp]), true)
      else
        var last := |uses| - 1;
        if uses[last] < n then (this.(uses := uses + [useIp]), true)
        else if uses[last] > useIp then (this.(uses := uses[last := useIp]), true)
        else (this, false)
    }
  }

  const NO_USES := UseDef(false, [])

  datatype BlockUses = BlockUses(instrCount: nat, ssaMap: map<Ssa, UseDef>) {
    function Entry(x: Ssa): UseDef {
      if x in ssaMap then ssaMap[x] else NO_USES
    }

    function AddDef(x: Ssa): BlockUses {
      this.(ssaMap := ssaMap[x := Entry(x).(defined := true)])
    }

    function AddUse(x: Ssa, ip: nat): BlockUses {
      this.(ssaMap := ssaMap[x := Entry(x).(uses := Entry(x).uses + [ip])])
    }

    function FirstUse(x: Ssa): Option<nat> {
      if x in ssaMap && ssaMap[x].uses != [] then Some(ssaMap[x].uses[0]) else None
    }

    /** The first use of a value the block does not define. */
    function LiveInUse(x: Ssa): Option<nat> {
      if x in ssaMap && !ssaMap[x].defined then FirstUse(x) else None
    }

    function NextUseAfterOrAtIp(x: Ssa, ip: nat): Option<nat> {
      if x in ssaMap then
        var i := PartitionPoint(ssaMap[x].uses, ip);
        if i < |ssaMap[x].uses| then Some(ssaMap[x].uses[i]) else None
      else None
    }

    predicate IsLiveAfterIp(x: Ssa, ip: nat) {
      x in ssaMap && ssaMap[x].uses != [] && ssaMap[x].uses[|ssaMap[x].uses| - 1] > ip
    }

    predicate IsLiveIn(x: Ssa) {
      x in ssaMap && !ssaMap[x].defined && ssaMap[x].uses != []
    }

    predicate IsLiveOut(x: Ssa) {
      x in ssaMap && ssaMap[x].uses != [] && ssaMap[x].uses[|ssaMap[x].uses| - 1] >= instrCount
    }
  }

  /** How many leading uses lie before `ip`. */
  function PartitionPoint(uses: seq<nat>, ip: nat): (i: nat)
    ensures i <= |uses| && (forall k :: 0 <= k < i ==> uses[k] < ip) && (i < |uses| ==> uses[i] >= ip)
  {
    if uses != [] && uses[0] < ip then 1 + PartitionPoint(uses[1..], ip) else 0
  }

  ghost predicate Sorted(s: seq<nat>) {
    forall i, j :: 0 <= i < j < |s| ==> s[i] <= s[j]
  }

  // ---- scanning a block ----

  /** The list of `x` holds exactly its uses in the block, in order. */
  ghost predicate Lists(b: Block, x: Ssa, e: UseDef) {
    && Sorted(e.uses)
    && (forall ip: nat :: ip in e.uses <==> UsedAt(b, ip, x))
    && (e.defined <==> DefinedIn(b, x))
  }

  /** The values of the wanted files are listed, the others are not. */
  ghost predicate Scan(b: Block, want: Ssa -> bool, bl: BlockUses) {
    && bl.instrCount == |b|
    && forall x: Ssa :: if want(x) then Lists(b, x, bl.Entry(x)) else x !in bl.ssaMap
  }

  function AddUses(bl: BlockUses, xs: seq<Ssa>, ip: nat, want: Ssa -> bool): BlockUses
    decreases |xs|
  {
    if xs == [] then bl
    else AddUses(if want(xs[0]) then bl.AddUse(xs[0], ip) else bl, xs[1..], ip, want)
  }

  function AddDefs(bl: BlockUses, xs: seq<Ssa>, want: Ssa -> bool): BlockUses
    decreases |xs|
  {
    if xs == [] then bl
    else AddDefs(if want(xs[0]) then bl.AddDef(xs[0]) else bl, xs[1..], want)
  }

  /** `e'` is `e` with some uses at `ip` appended. */
  ghost predicate Appends(e: UseDef, e': UseDef, ip: nat, some: bool) {
    && e'.defined == e.defined && e.uses <= e'.uses
    && (forall k :: |e.uses| <= k < |e'.uses| ==> e'.uses[k] == ip)
    && (some <==> |e'.uses| > |e.uses|)
  }

  lemma {:induction false} AddUsesEntry(bl: BlockUses, xs: seq<Ssa>, ip: nat, want: Ssa -> bool, x: Ssa)
    ensures AddUses(bl, xs, ip, want).instrCount == bl.instrCount
    ensures Appends(bl.Entry(x), AddUses(bl, xs, ip, want).Entry(x), ip, want(x) && x in xs)
    ensures !want(x) ==> (x in AddUses(bl, xs, ip, want).ssaMap <==> x in bl.ssaMap)
    decreases |xs|
  {
    if xs != [] {
      var bl' := if want(xs[0]) then bl.AddUse(xs[0], ip) else bl;
      AddUsesEntry(bl', xs[1..], ip, want, x);
      assert x in xs <==> x == xs[0] || x in xs[1..];
    }
  }

  lemma {:induction false} AddDefsEntry(bl: BlockUses, xs: seq<Ssa>, want: Ssa -> bool, x: Ssa)
    ensures AddDefs(bl, xs, want).instrCount == bl.instrCount
    ensures AddDefs(bl, xs, want).Entry(x) == bl.Entry(x).(defined := bl.Entry(x).defined || (want(x) && x in xs))
    ensures !want(x) ==> (x in AddDefs(bl, xs, want).ssaMap <==> x in bl.ssaMap)
    decreases |xs|
  {
    if xs != [] {
      var bl' := if want(xs[0]) then bl.AddDef(xs[0]) else bl;
      AddDefsEntry(bl', xs[1..], want, x);
      assert x in xs <==> x == xs[0] || x in xs[1..];
    }
  }

  lemma {:induction false} ListsSnoc(b: Block, i: Programs.Instr, x: Ssa, e: UseDef, e': UseDef)
    requires Lists(b, x, e) && Appends(e, e', |b|, i.Uses(x))
    ensures Lists(b + [i], x, e'.(defined := e.defined || i.Defines(x)))
  {
    SnocUsed(b, i, x);
    SnocDefined(b, i, x);
    forall k | 0 <= k < |e.uses| ensures e'.uses[k] < |b| {
      assert e'.uses[k] == e.uses[k] && UsedAt(b, e.uses[k], x);
    }
    forall ip: nat ensures ip in e'.uses <==> UsedAt(b + [i], ip, x) {
      assert UsedAt(b + [i], ip, x) <==> UsedAt(b, ip, x) || (ip == |b| && i.Uses(x));
      if ip in e.uses {
        var k :| 0 <= k < |e.uses| && e.uses[k] == ip;
        assert e'.uses[k] == ip;
      }
      if i.Uses(x) {
        assert e'.uses[|e'.uses| - 1] == |b|;
      }
    }
  }

  function ScanStep(bl: BlockUses, i: Programs.Instr, ip: nat, want: Ssa -> bool): BlockUses {
    AddDefs(AddUses(bl, i.uses, ip, want), i.Defs(), want)
  }

  lemma {:induction false} ScanStepOk(b: Block, n: nat, bl: BlockUses, want: Ssa -> bool)
    requires n < |b| && Scan(b[..n], want, bl.(instrCount := n))
    ensures Scan(b[..n + 1], want, ScanStep(bl, b[n], n, want).(instrCount := n + 1))
    ensures ScanStep(bl, b[n], n, want).instrCount == bl.instrCount
  {
    var mid := AddUses(bl, b[n].uses, n, want);
    var r := ScanStep(bl, b[n], n, want);
    assert b[..n + 1] == b[..n] + [b[n]];
    forall x: Ssa ensures if want(x) then Lists(b[..n + 1], x, r.Entry(x)) else x !in r.ssaMap {
      AddUsesEntry(bl, b[n].uses, n, want, x);
      AddDefsEntry(mid, b[n].Defs(), want, x);
      if want(x) {
        assert bl.(instrCount := n).Entry(x) == bl.Entry(x);
        ListsSnoc(b[..n], b[n], x, bl.Entry(x), mid.Entry(x));
      }
    }
    AddUsesEntry(bl, b[n].uses, n, want, 0);
    AddDefsEntry(mid, b[n].Defs(), want, 0);
  }

  method ScanBlockUses(b: Block, want: Ssa -> bool) returns (bl: BlockUses)
    ensures Scan(b, want, bl)
  {
    bl := BlockUses(|b|, map[]);
    for ip := 0 to |b|
      invariant bl.instrCount == |b| && Scan(b[..ip], want, bl.(instrCount := ip))
    {
      ScanStepOk(b, ip, bl, want);
      bl := ScanStep(bl, b[ip], ip, want);
    }
    assert b[..|b|] == b && bl.(instrCount := |b|) == bl;
  }

  // ---- a block's lists completed by the nearest successor uses ----

  /** Nearest use of each value seen in the successors, counted from the end of the block. */
  type Tail = map<Ssa, nat>

  /** The scanned lists with the successor uses appended. */
  ghost function Completed(sc: BlockUses, tail: Tail): BlockUses {
    BlockUses(sc.instrCount, map x | x in sc.ssaMap.Keys + tail.Keys :: CompletedEntry(sc, tail, x))
  }

  ghost function CompletedEntry(sc: BlockUses, tail: Tail, x: Ssa): UseDef {
    var e := sc.Entry(x);
    if x in tail then e.(uses := e.uses + [sc.instrCount + tail[x]]) else e
  }

  ghost function Lowered(tail: Tail, x: Ssa, v: nat): Tail {
    if x in tail && tail[x] <= v then tail else tail[x := v]
  }

  ghost predicate Within(sc: BlockUses) {
    forall x, k :: x in sc.ssaMap && 0 <= k < |sc.ssaMap[x].uses| ==> sc.ssaMap[x].uses[k] < sc.instrCount
  }

  lemma {:induction false} AddSuccessorUseLowers(sc: BlockUses, tail: Tail, x: Ssa, v: nat)
    requires Within(sc)
    ensures var bl := Completed(sc, tail);
      var (e, changed) := bl.Entry(x).AddSuccessorUse(bl.instrCount, v);
      bl.(ssaMap := bl.ssaMap[x := e]) == Completed(sc, Lowered(tail, x, v)) &&
        (changed <==> Lowered(tail, x, v) != tail)
  {
    var bl := Completed(sc, tail);
    var (e, changed) := bl.Entry(x).AddSuccessorUse(bl.instrCount, v);
    var t' := Lowered(tail, x, v);
    assert bl.Entry(x) == CompletedEntry(sc, tail, x);
    var n := sc.instrCount;
    assert e == CompletedEntry(sc, t', x) by {
      var us := sc.Entry(x).uses;
      if x in tail {
        assert (us + [n + tail[x]])[|us| := n + v] == us + [n + v];
      }
    }
    assert changed <==> t' != tail by {
      if x !in tail || v < tail[x] { assert t'[x] == v; }
    }
    var l, r := bl.ssaMap[x := e], Completed(sc, t').ssaMap;
    forall y ensures y in l <==> y in r {}
    forall y | y in l ensures l[y] == r[y] {
      assert r[y] == CompletedEntry(sc, t', y);
    }
    assert l == r;
  }

  // ---- transfer ----

  ghost predicate TailLeq(t': Tail, t: Tail) {
    forall x :: x in t ==> x in t' && t'[x] <= t[x]
  }

  /** `t'` is `t` lowered by some entries of `out`. */
  ghost predicate LoweredBy(t: Tail, out: Tail, done: set<Ssa>, t': Tail) {
    && TailLeq(t', t)
    && (forall x :: x in t' ==> (x in t && t'[x] == t[x]) || (x in out && t'[x] == out[x]))
    && (forall x :: x in out && x in done ==> x in t' && t'[x] <= out[x])
  }

  method Transfer(bl: BlockUses, out: Tail, ghost sc: BlockUses, ghost t: Tail)
    returns (bl': BlockUses, changed: bool, ghost t': Tail)
    requires Within(sc) && bl == Completed(sc, t)
    ensures bl' == Completed(sc, t') && LoweredBy(t, out, out.Keys, t')
    ensures changed <==> t' != t
  {
    bl', changed, t' := bl, false, t;
    var todo := out.Keys;
    while todo != {}
      invariant todo <= out.Keys && bl' == Completed(sc, t') && LoweredBy(t, out, out.Keys - todo, t')
      invariant changed <==> t' != t
    {
      var x :| x in todo;
      AddSuccessorUseLowers(sc, t', x, out[x]);
      var (e, c) := bl'.Entry(x).AddSuccessorUse(bl'.instrCount, out[x]);
      bl' := bl'.(ssaMap := bl'.ssaMap[x := e]);
      changed := changed || c;
      LoweredByStep(t, out, out.Keys - todo, t', x);
      t' := Lowered(t', x, out[x]);
      assert out.Keys - (todo - {x}) == (out.Keys - todo) + {x};
      todo := todo - {x};
    }
    assert out.Keys - todo == out.Keys;
  }

  lemma {:induction false} LoweredByStep(t: Tail, out: Tail, done: set<Ssa>, t': Tail, x: Ssa)
    requires LoweredBy(t, out, done, t') && x in out
    ensures LoweredBy(t, out, done + {x}, Lowered(t', x, out[x]))
    ensures Lowered(t', x, out[x]) == t ==> t' == t
  {
  }

  // ---- join ----

  /** `out` holds, for every value live into one of the blocks, its smallest first use. */
  ghost predicate OutOk(bls: seq<BlockUses>, succs: seq<nat>, out: Tail)
    requires InBounds(succs, |bls|)
  {
    && (forall k :: 0 <= k < |succs| ==> Takes(bls[succs[k]], out))
    && (forall x :: x in out ==> From(bls, succs, x, out[x]))
  }

  ghost predicate Takes(bl: BlockUses, out: Tail) {
    forall x :: bl.LiveInUse(x).Some? ==> x in out && out[x] <= bl.LiveInUse(x).value
  }

  ghost predicate From(bls: seq<BlockUses>, succs: seq<nat>, x: Ssa, v: nat)
    requires InBounds(succs, |bls|)
  {
    exists k :: 0 <= k < |succs| && bls[succs[k]].LiveInUse(x) == Some(v)
  }

  /** `out'` is `out` with the first uses of `bl` merged in. */
  ghost predicate Joined(out: Tail, bl: BlockUses, done: set<Ssa>, out': Tail) {
    && TailLeq(out', out)
    && (forall x :: x in done && bl.LiveInUse(x).Some? ==> x in out' && out'[x] <= bl.LiveInUse(x).value)
    && (forall x :: x in out' ==> (x in out && out'[x] == out[x]) || bl.LiveInUse(x) == Some(out'[x]))
  }

  /** Merges the first uses of one successor. */
  method Join(out: Tail, bl: BlockUses) returns (out': Tail)
    ensures Joined(out, bl, bl.ssaMap.Keys, out')
  {
    out' := out;
    var todo := bl.ssaMap.Keys;
    while todo != {}
      invariant todo <= bl.ssaMap.Keys && Joined(out, bl, bl.ssaMap.Keys - todo, out')
    {
      var x :| x in todo;
      todo := todo - {x};
      var e := bl.ssaMap[x];
      if !e.defined && e.uses != [] {
        var first := e.uses[0];
        out' := out'[x := if x in out' && out'[x] <= first then out'[x] else first];
      }
    }
    assert bl.ssaMap.Keys - todo == bl.ssaMap.Keys;
  }

  lemma {:induction false} FromLater(bls: seq<BlockUses>, succs: seq<nat>, s: nat, x: Ssa, v: nat)
    requires InBounds(succs, |bls|) && s < |bls|
    requires From(bls, succs, x, v) || bls[s].LiveInUse(x) == Some(v)
    ensures From(bls, succs + [s], x, v)
  {
    var all := succs + [s];
    if From(bls, succs, x, v) {
      var k :| 0 <= k < |succs| && bls[succs[k]].LiveInUse(x) == Some(v);
      assert all[k] == succs[k];
    } else {
      assert all[|succs|] == s;
    }
  }

  lemma {:induction false} OutOkStep(bls: seq<BlockUses>, succs: seq<nat>, s: nat, out: Tail, out': Tail)
    requires InBounds(succs, |bls|) && s < |bls| && OutOk(bls, succs, out)
    requires Joined(out, bls[s], bls[s].ssaMap.Keys, out')
    ensures InBounds(succs + [s], |bls|) && OutOk(bls, succs + [s], out')
  {
    var all := succs + [s];
    forall x | x in out' ensures From(bls, all, x, out'[x]) {
      FromLater(bls, succs, s, x, out'[x]);
    }
    forall k | 0 <= k < |all| ensures Takes(bls[all[k]], out') {
      if k < |succs| {
        assert Takes(bls[succs[k]], out);
      }
    }
  }

  method JoinSuccessors(bls: seq<BlockUses>, succs: seq<nat>) returns (out: Tail)
    requires InBounds(succs, |bls|)
    ensures OutOk(bls, succs, out)
  {
    out := map[];
    for k := 0 to |succs|
      invariant OutOk(bls, succs[..k], out)
    {
      ghost var was := out;
      out := Join(out, bls[succs[k]]);
      OutOkStep(bls, succs[..k], succs[k], was, out);
      assert succs[..k + 1] == succs[..k] + [succs[k]];
    }
    assert succs[..|succs|] == succs;
  }

  // ---- distances along paths ----

  /** `p` leads along edges, through blocks that do not define `x`, to the use of `x` at `ip`. */
  ghost predicate UsePath(f: Function, p: seq<nat>, ip: nat, x: Ssa) {
    && |p| > 0
    && (forall i :: 0 <= i < |p| ==> p[i] < |f.blocks|)
    && (forall i :: 0 <= i < |p| - 1 ==> f.g.Edge(p[i], p[i + 1]) && !DefinedIn(f.blocks[p[i]], x))
    && Exposed(f.blocks[p[|p| - 1]], ip, x)
  }

  /** Instructions from the start of the path to position `ip` of its last block. */
  ghost function Distance(f: Function, p: seq<nat>, ip: nat): nat
    requires |p| > 0 && forall i :: 0 <= i < |p| ==> p[i] < |f.blocks|
  {
    if |p| == 1 then ip else |f.blocks[p[0]]| + Distance(f, p[1..], ip)
  }

  /** Some path from the start of block `b` meets its first use of `x` after `d` instructions. */
  ghost predicate UsedAfter(f: Function, b: nat, x: Ssa, d: nat) {
    exists p, ip: nat :: UsePath(f, p, ip, x) && p[0] == b && Distance(f, p, ip) == d
  }

  /** The same, from the end of block `b`. */
  ghost predicate UsedBeyond(f: Function, b: nat, x: Ssa, d: nat) {
    exists s: nat :: f.g.Edge(b, s) && UsedAfter(f, s, x, d)
  }

  lemma {:induction false} UsedAfterCases(f: Function, b: nat, x: Ssa, d: nat)
    requires b < |f.blocks|
    ensures UsedAfter(f, b, x, d) <==>
      Exposed(f.blocks[b], d, x) ||
      (!DefinedIn(f.blocks[b], x) && d >= |f.blocks[b]| && UsedBeyond(f, b, x, d - |f.blocks[b]|))
  {
    var n := |f.blocks[b]|;
    if UsedAfter(f, b, x, d) {
      var p, ip: nat :| UsePath(f, p, ip, x) && p[0] == b && Distance(f, p, ip) == d;
      if |p| > 1 {
        var q := p[1..];
        assert forall i :: 0 <= i < |q| ==> q[i] == p[i + 1];
        assert f.g.Edge(p[0], p[0 + 1]);
        assert UsePath(f, q, ip, x) && q[0] == p[1];
        assert UsedAfter(f, p[1], x, Distance(f, q, ip));
      }
    }
    if Exposed(f.blocks[b], d, x) {
      assert UsePath(f, [b], d, x) && Distance(f, [b], d) == d;
    }
    if !DefinedIn(f.blocks[b], x) && d >= n && UsedBeyond(f, b, x, d - n) {
      var s: nat :| f.g.Edge(b, s) && UsedAfter(f, s, x, d - n);
      var q, ip: nat :| UsePath(f, q, ip, x) && q[0] == s && Distance(f, q, ip) == d - n;
      PrependUse(f, b, q, ip, x);
    }
  }

  lemma {:induction false} PrependUse(f: Function, b: nat, q: seq<nat>, ip: nat, x: Ssa)
    requires b < |f.blocks| && UsePath(f, q, ip, x) && f.g.Edge(b, q[0]) && !DefinedIn(f.blocks[b], x)
    ensures UsedAfter(f, b, x, |f.blocks[b]| + Distance(f, q, ip))
  {
    var p := [b] + q;
    assert forall i :: 0 < i < |p| ==> p[i] == q[i - 1];
    assert p[1..] == q;
    assert UsePath(f, p, ip, x);
  }

  // ---- the fixed point ----

  function Wanted(f: Function, files: set<RegFile>): (want: Ssa -> bool)
    ensures forall x: Ssa :: want(x) <==> f.file(x) in files
  {
    (x: Ssa) => f.file(x) in files
  }

  lemma {:induction false} ScanWithin(b: Block, want: Ssa -> bool, sc: BlockUses)
    requires Scan(b, want, sc)
    ensures Within(sc)
  {
    forall x, k | x in sc.ssaMap && 0 <= k < |sc.ssaMap[x].uses| ensures sc.ssaMap[x].uses[k] < sc.instrCount {
      assert Lists(b, x, sc.Entry(x));
      assert sc.ssaMap[x].uses[k] in sc.Entry(x).uses;
      assert UsedAt(b, sc.ssaMap[x].uses[k], x);
    }
  }

  /** Every successor use recorded is one that some path reaches at that distance. */
  ghost predicate Sound(f: Function, want: Ssa -> bool, tails: seq<Tail>) {
    |tails| == |f.blocks| &&
    forall b: nat, x: Ssa {:trigger UsedBeyond(f, b, x, tails[b][x])} ::
      b < |tails| && x in tails[b] ==> want(x) && UsedBeyond(f, b, x, tails[b][x])
  }

  ghost predicate States(scs: seq<BlockUses>, tails: seq<Tail>, bls: seq<BlockUses>) {
    |bls| == |tails| == |scs| && forall b :: 0 <= b < |bls| ==> bls[b] == Completed(scs[b], tails[b])
  }

  /** What a completed block says of a value it does not define. */
  lemma {:induction false} LiveInUseIs(b: Block, want: Ssa -> bool, sc: BlockUses, tail: Tail, x: Ssa)
    requires Scan(b, want, sc)
    ensures var u := Completed(sc, tail).LiveInUse(x);
      && (u.Some? ==> !DefinedIn(b, x) || !want(x))
      && (u.Some? && want(x) ==> UsedAt(b, u.value, x) || (x in tail && u.value == |b| + tail[x]))
      && (u.Some? && !want(x) ==> x in tail)
      && (want(x) && !DefinedIn(b, x) ==> forall ip: nat :: UsedAt(b, ip, x) ==> u.Some? && u.value <= ip)
      && (want(x) && !DefinedIn(b, x) && x in tail ==> u.Some? && u.value <= |b| + tail[x])
  {
    var bl := Completed(sc, tail);
    var us := sc.Entry(x).uses;
    if x in bl.ssaMap {
      assert bl.ssaMap[x] == CompletedEntry(sc, tail, x);
    }
    if want(x) {
      assert Lists(b, x, sc.Entry(x));
      if us != [] { assert us[0] in us && us[0] < |b|; }
    }
  }

  lemma {:induction false} LiveInUseSound(f: Function, want: Ssa -> bool, sc: BlockUses, tails: seq<Tail>, b: nat,
                                          x: Ssa)
    requires Sound(f, want, tails) && b < |f.blocks| && Scan(f.blocks[b], want, sc)
    requires Completed(sc, tails[b]).LiveInUse(x).Some?
    ensures want(x) && UsedAfter(f, b, x, Completed(sc, tails[b]).LiveInUse(x).value)
  {
    var v := Completed(sc, tails[b]).LiveInUse(x).value;
    LiveInUseIs(f.blocks[b], want, sc, tails[b], x);
    if x in tails[b] { assert UsedBeyond(f, b, x, tails[b][x]); }
    assert want(x);
    assert UsedAt(f.blocks[b], v, x) ==> Exposed(f.blocks[b], v, x);
    UsedAfterCases(f, b, x, v);
  }

  /** Everything the solver keeps while it runs. */
  ghost predicate Running(f: Function, want: Ssa -> bool, scs: seq<BlockUses>, tails: seq<Tail>, bls: seq<BlockUses>) {
    && Sound(f, want, tails) && States(scs, tails, bls)
    && (forall b :: 0 <= b < |scs| ==> Scan(f.blocks[b], want, scs[b]))
  }

  /** Recomputing block `b` from its successors keeps the recorded uses real. */
  lemma {:induction false} RunningStep(f: Function, want: Ssa -> bool, scs: seq<BlockUses>, tails: seq<Tail>,
                                       bls: seq<BlockUses>, b: nat, out: Tail, t': Tail)
    requires FunctionOk(f) && Running(f, want, scs, tails, bls) && b < |bls|
    requires InBounds(f.g.Successors(b), |bls|) && OutOk(bls, f.g.Successors(b), out)
    requires LoweredBy(tails[b], out, out.Keys, t')
    ensures Running(f, want, scs, tails[b := t'], bls[b := Completed(scs[b], t')])
  {
    var tails' := tails[b := t'];
    forall c: nat, x: Ssa | c < |tails'| && x in tails'[c] ensures want(x) && UsedBeyond(f, c, x, tails'[c][x]) {
      if c != b || (x in tails[b] && t'[x] == tails[b][x]) {
        assert UsedBeyond(f, c, x, tails[c][x]);
      } else {
        var succs := f.g.Successors(b);
        assert From(bls, succs, x, out[x]);
        var k :| 0 <= k < |succs| && bls[succs[k]].LiveInUse(x) == Some(out[x]);
        LiveInUseSound(f, want, scs[succs[k]], tails, succs[k], x);
        assert f.g.Edge(b, succs[k]);
      }
    }
  }

  /** Block `b` has taken in all that its successors know. */
  ghost predicate FixedAt(f: Function, tails: seq<Tail>, bls: seq<BlockUses>, b: nat)
    requires b < |tails| && |bls| == f.g.len
  {
    forall s: nat, x: Ssa :: f.g.Edge(b, s) && bls[s].LiveInUse(x).Some? ==>
      x in tails[b] && tails[b][x] <= bls[s].LiveInUse(x).value
  }

  lemma {:induction false} UnchangedIsFixed(f: Function, tails: seq<Tail>, bls: seq<BlockUses>, b: nat, out: Tail)
    requires b < |tails| && |bls| == f.g.len && InBounds(f.g.Successors(b), |bls|)
    requires OutOk(bls, f.g.Successors(b), out) && LoweredBy(tails[b], out, out.Keys, tails[b])
    ensures FixedAt(f, tails, bls, b)
  {
    var succs := f.g.Successors(b);
    forall s: nat, x: Ssa | f.g.Edge(b, s) && bls[s].LiveInUse(x).Some?
      ensures x in tails[b] && tails[b][x] <= bls[s].LiveInUse(x).value
    {
      var k :| 0 <= k < |succs| && succs[k] == s;
      assert Takes(bls[succs[k]], out);
    }
  }

  ghost predicate Fixed(f: Function, tails: seq<Tail>, bls: seq<BlockUses>) {
    |tails| == |bls| == f.g.len && forall b: nat :: b < |tails| && f.g.Reachable(b) ==> FixedAt(f, tails, bls, b)
  }

  /** At the fixed point no path beats the recorded distance. */
  lemma {:induction false} NoPathIsShorter(f: Function, want: Ssa -> bool, scs: seq<BlockUses>, tails: seq<Tail>,
                                           bls: seq<BlockUses>, p: seq<nat>, ip: nat, x: Ssa)
    requires FunctionOk(f) && Running(f, want, scs, tails, bls) && Fixed(f, tails, bls)
    requires want(x) && UsePath(f, p, ip, x) && f.g.Reachable(p[0])
    ensures bls[p[0]].LiveInUse(x).Some? && bls[p[0]].LiveInUse(x).value <= Distance(f, p, ip)
    decreases |p|
  {
    var b := p[0];
    LiveInUseIs(f.blocks[b], want, scs[b], tails[b], x);
    assert bls[b] == Completed(scs[b], tails[b]);
    if |p| == 1 {
      UpwardUseIs(f.blocks[b], x);
      assert UpwardUse(f.blocks[b], x) && UsedAt(f.blocks[b], ip, x);
    } else {
      var q := p[1..];
      assert forall i :: 0 <= i < |q| ==> q[i] == p[i + 1];
      assert f.g.Edge(p[0], p[0 + 1]) && !DefinedIn(f.blocks[p[0]], x);
      ReachableStep(f.g, p[0], p[1]);
      NoPathIsShorter(f, want, scs, tails, bls, q, ip, x);
      assert FixedAt(f, tails, bls, b);
      assert x in tails[b] && tails[b][x] <= bls[p[1]].LiveInUse(x).value;
    }
  }

  // ---- the solver ends ----

  ghost function Listed(s: set<Ssa>): (r: seq<Ssa>)
    ensures forall x :: x in r <==> x in s
  {
    if s == {} then [] else
      var x :| x in s;
      [x] + Listed(s - {x})
  }

  ghost function Missing(names: seq<Ssa>, t: Tail): nat {
    if names == [] then 0 else (if names[0] in t then 0 else 1) + Missing(names[1..], t)
  }

  ghost function Total(names: seq<Ssa>, t: Tail): nat {
    if names == [] then 0 else (if names[0] in t then t[names[0]] else 0) + Total(names[1..], t)
  }

  /** Lowering adds values or shortens distances. */
  lemma {:induction false} LoweringCounts(names: seq<Ssa>, t: Tail, t': Tail)
    requires TailLeq(t', t)
    ensures Missing(names, t') <= Missing(names, t)
    ensures Missing(names, t') == Missing(names, t) ==> Total(names, t') <= Total(names, t)
    ensures Missing(names, t') == Missing(names, t) && Total(names, t') == Total(names, t) ==>
      forall x :: x in names ==> (x in t <==> x in t') && (x in t ==> t[x] == t'[x])
  {
    if names != [] {
      LoweringCounts(names[1..], t, t');
    }
  }

  ghost function MissingAll(names: seq<Ssa>, tails: seq<Tail>): nat {
    if tails == [] then 0 else Missing(names, tails[0]) + MissingAll(names, tails[1..])
  }

  ghost function TotalAll(names: seq<Ssa>, tails: seq<Tail>): nat {
    if tails == [] then 0 else Total(names, tails[0]) + TotalAll(names, tails[1..])
  }

  lemma {:induction false} CountsUpdate(names: seq<Ssa>, tails: seq<Tail>, b: nat, t: Tail)
    requires b < |tails|
    ensures MissingAll(names, tails[b := t]) == MissingAll(names, tails) - Missing(names, tails[b]) + Missing(names, t)
    ensures TotalAll(names, tails[b := t]) == TotalAll(names, tails) - Total(names, tails[b]) + Total(names, t)
    decreases b
  {
    if b == 0 {
      assert tails[0 := t][1..] == tails[1..];
    } else {
      assert tails[b := t][1..] == tails[1..][b - 1 := t];
      CountsUpdate(names, tails[1..], b - 1, t);
    }
  }

  ghost predicate Less(names: seq<Ssa>, a: seq<Tail>, b: seq<Tail>) {
    || MissingAll(names, a) < MissingAll(names, b)
    || (MissingAll(names, a) == MissingAll(names, b) && TotalAll(names, a) < TotalAll(names, b))
  }

  lemma {:induction false} ChangeIsLess(names: seq<Ssa>, tails: seq<Tail>, b: nat, t: Tail)
    requires b < |tails| && TailLeq(t, tails[b]) && t != tails[b] && forall x :: x in t ==> x in names
    ensures Less(names, tails[b := t], tails)
  {
    LoweringCounts(names, tails[b], t);
    CountsUpdate(names, tails, b, t);
    assert (forall x :: x in names ==> (x in tails[b] <==> x in t) && (x in t ==> tails[b][x] == t[x])) ==>
      t == tails[b];
  }

  ghost predicate Named(names: seq<Ssa>, f: Function) {
    forall b: nat, x: Ssa, d: nat :: UsedBeyond(f, b, x, d) ==> x in names
  }

  lemma {:induction false} UsedIsNamed(f: Function)
    ensures Named(Listed(UsedNames(f)), f)
  {
    forall b: nat, x: Ssa, d: nat | UsedBeyond(f, b, x, d) ensures x in Listed(UsedNames(f)) {
      var s: nat :| f.g.Edge(b, s) && UsedAfter(f, s, x, d);
      var p, ip: nat :| UsePath(f, p, ip, x) && p[0] == s && Distance(f, p, ip) == d;
      assert UsedAt(f.blocks[p[|p| - 1]], ip, x);
    }
  }

  /** Recomputes one block. */
  method Visit(f: Function, want: Ssa -> bool, ghost scs: seq<BlockUses>, ghost tails: seq<Tail>, bls: seq<BlockUses>,
               b: nat, ghost names: seq<Ssa>)
    returns (bls': seq<BlockUses>, changed: bool, ghost tails': seq<Tail>)
    requires FunctionOk(f) && Running(f, want, scs, tails, bls) && b < |bls| && Named(names, f)
    ensures Running(f, want, scs, tails', bls') && |bls'| == |bls|
    ensures changed ==> Less(names, tails', tails)
    ensures !changed ==> bls' == bls && tails' == tails && FixedAt(f, tails, bls, b)
  {
    assert InBounds(f.g.Successors(b), |bls|);
    var out := JoinSuccessors(bls, f.g.Successors(b));
    ScanWithin(f.blocks[b], want, scs[b]);
    var bl, c;
    ghost var t;
    bl, c, t := Transfer(bls[b], out, scs[b], tails[b]);
    bls', changed, tails' := bls[b := bl], c, tails[b := t];
    RunningStep(f, want, scs, tails, bls, b, out, t);
    if changed {
      forall x | x in t ensures x in names {
        assert tails'[b][x] == t[x] && UsedBeyond(f, b, x, tails'[b][x]);
      }
      ChangeIsLess(names, tails, b, t);
    } else {
      assert tails' == tails && bls' == bls;
      UnchangedIsFixed(f, tails, bls, b, out);
    }
  }

  method Pass(f: Function, want: Ssa -> bool, order: seq<nat>, ghost scs: seq<BlockUses>, ghost tails: seq<Tail>,
              bls: seq<BlockUses>, ghost names: seq<Ssa>)
    returns (bls': seq<BlockUses>, changed: bool, ghost tails': seq<Tail>)
    requires FunctionOk(f) && Running(f, want, scs, tails, bls) && Named(names, f) && InBounds(order, |bls|)
    ensures Running(f, want, scs, tails', bls') && |bls'| == |bls|
    ensures changed ==> Less(names, tails', tails)
    ensures !changed ==> forall k :: 0 <= k < |order| ==> FixedAt(f, tails', bls', order[k])
  {
    bls', changed, tails' := bls, false, tails;
    for k := 0 to |order|
      invariant Running(f, want, scs, tails', bls') && |bls'| == |bls|
      invariant changed ==> Less(names, tails', tails)
      invariant !changed ==> bls' == bls && tails' == tails && forall j :: 0 <= j < k ==>
        FixedAt(f, tails, bls, order[j])
    {
      var c;
      bls', c, tails' := Visit(f, want, scs, tails', bls', order[k], names);
      changed := changed || c;
    }
  }

  method Solve(f: Function, want: Ssa -> bool, scs: seq<BlockUses>)
    returns (bls: seq<BlockUses>, ghost tails: seq<Tail>)
    requires FunctionOk(f) && |scs| == |f.blocks|
    requires forall b :: 0 <= b < |scs| ==> Scan(f.blocks[b], want, scs[b])
    ensures Running(f, want, scs, tails, bls) && Fixed(f, tails, bls)
  {
    var rpo := ReversePostOrder(f.g);
    var order := Reversed(rpo);
    bls, tails := scs, seq(|scs|, _ => map[]);
    forall b | 0 <= b < |scs| ensures scs[b] == Completed(scs[b], map[]) {
      assert scs[b].ssaMap == Completed(scs[b], map[]).ssaMap;
    }
    ghost var names := Listed(UsedNames(f));
    UsedIsNamed(f);
    var changed := true;
    while changed
      invariant Running(f, want, scs, tails, bls) && |bls| == f.g.len
      invariant !changed ==> forall k :: 0 <= k < |order| ==> FixedAt(f, tails, bls, order[k])
      decreases changed, MissingAll(names, tails), TotalAll(names, tails)
    {
      bls, changed, tails := Pass(f, want, order, scs, tails, bls, names);
    }
    forall b: nat | b < |tails| && f.g.Reachable(b) ensures FixedAt(f, tails, bls, b) {
      assert b in rpo;
      var k :| 0 <= k < |rpo| && rpo[k] == b;
      assert order[|rpo| - 1 - k] == b;
    }
  }

  // ---- what the lists say ----

  /** Sorted, and only the last entry may lie at or past the end of the block. */
  ghost predicate UseListOk(bl: BlockUses, x: Ssa) {
    var us := bl.Entry(x).uses;
    Sorted(us) && forall k :: 0 <= k < |us| - 1 ==> us[k] < bl.instrCount
  }

  /** `d` is the distance, counted from the start of block `b`, of a use of `x` that comes at
      or after position `ip`, in the block or beyond it. */
  ghost predicate UsedFrom(f: Function, b: nat, ip: nat, x: Ssa, d: nat)
    requires b < |f.blocks|
  {
    var n := |f.blocks[b]|;
    (d >= ip && UsedAt(f.blocks[b], d, x)) || (d >= n && UsedBeyond(f, b, x, d - n))
  }

  /** `r` is the least distance, absent when there is none: beyond the block, from a
      position in it, and from its start. */
  ghost predicate LeastBeyond(f: Function, b: nat, x: Ssa, r: Option<nat>) {
    && (r.Some? ==> UsedBeyond(f, b, x, r.value))
    && forall d: nat :: UsedBeyond(f, b, x, d) ==> r.Some? && r.value <= d
  }

  ghost predicate LeastFrom(f: Function, b: nat, ip: nat, x: Ssa, r: Option<nat>)
    requires b < |f.blocks|
  {
    && (r.Some? ==> UsedFrom(f, b, ip, x, r.value))
    && forall d: nat :: UsedFrom(f, b, ip, x, d) ==> r.Some? && r.value <= d
  }

  ghost predicate LeastAfter(f: Function, b: nat, x: Ssa, r: Option<nat>) {
    && (r.Some? ==> UsedAfter(f, b, x, r.value))
    && forall d: nat :: UsedAfter(f, b, x, d) ==> r.Some? && r.value <= d
  }

  lemma {:induction false} LiveInUseIsLeast(f: Function, want: Ssa -> bool, scs: seq<BlockUses>, tails: seq<Tail>,
                                            bls: seq<BlockUses>, b: nat, x: Ssa, d: nat)
    requires FunctionOk(f) && Running(f, want, scs, tails, bls) && Fixed(f, tails, bls)
    requires b < |bls| && f.g.Reachable(b) && want(x) && UsedAfter(f, b, x, d)
    ensures bls[b].LiveInUse(x).Some? && bls[b].LiveInUse(x).value <= d
  {
    var p, ip: nat :| UsePath(f, p, ip, x) && p[0] == b && Distance(f, p, ip) == d;
    NoPathIsShorter(f, want, scs, tails, bls, p, ip, x);
  }

  lemma {:induction false} FixedEdge(f: Function, tails: seq<Tail>, bls: seq<BlockUses>, b: nat, s: nat, x: Ssa)
    requires Fixed(f, tails, bls) && b < |bls| && f.g.Reachable(b) && f.g.Edge(b, s) && bls[s].LiveInUse(x).Some?
    ensures x in tails[b] && tails[b][x] <= bls[s].LiveInUse(x).value
  {
    assert FixedAt(f, tails, bls, b);
  }

  /** The recorded successor uses are the shortest ones. */
  lemma {:induction false} TailIsLeast(f: Function, want: Ssa -> bool, scs: seq<BlockUses>, tails: seq<Tail>,
                                       bls: seq<BlockUses>, b: nat, x: Ssa, d: nat)
    requires FunctionOk(f) && Running(f, want, scs, tails, bls) && Fixed(f, tails, bls)
    requires b < |bls| && f.g.Reachable(b) && want(x) && UsedBeyond(f, b, x, d)
    ensures x in tails[b] && tails[b][x] <= d
  {
    var s: nat :| f.g.Edge(b, s) && UsedAfter(f, s, x, d);
    ReachableStep(f.g, b, s);
    LiveInUseIsLeast(f, want, scs, tails, bls, s, x, d);
    FixedEdge(f, tails, bls, b, s, x);
  }

  ghost function TailOf(t: Tail, x: Ssa): Option<nat> {
    if x in t then Some(t[x]) else None
  }

  lemma {:induction false} TailIs(f: Function, want: Ssa -> bool, scs: seq<BlockUses>, tails: seq<Tail>,
                                  bls: seq<BlockUses>, b: nat, x: Ssa)
    requires FunctionOk(f) && Running(f, want, scs, tails, bls) && Fixed(f, tails, bls)
    requires b < |bls| && f.g.Reachable(b) && want(x)
    ensures LeastBeyond(f, b, x, TailOf(tails[b], x))
  {
    forall d: nat | UsedBeyond(f, b, x, d) ensures x in tails[b] && tails[b][x] <= d {
      TailIsLeast(f, want, scs, tails, bls, b, x, d);
    }
    if x in tails[b] { assert UsedBeyond(f, b, x, tails[b][x]); }
  }

  lemma {:induction false} CompletedIsComplete(f: Function, want: Ssa -> bool, b: nat, x: Ssa, sc: BlockUses, t: Tail)
    requires b < |f.blocks| && want(x) && Scan(f.blocks[b], want, sc) && LeastBeyond(f, b, x, TailOf(t, x))
    ensures Complete(f, b, x, Completed(sc, t).Entry(x), TailOf(t, x))
  {
    var e := Completed(sc, t).Entry(x);
    assert e == CompletedEntry(sc, t, x);
    assert Lists(f.blocks[b], x, sc.Entry(x));
    assert UseDef(e.defined, sc.Entry(x).uses) == sc.Entry(x);
  }

  /** The complete list of a value: its uses in the block, then the shortest use beyond. */
  ghost predicate Complete(f: Function, b: nat, x: Ssa, e: UseDef, tail: Option<nat>)
    requires b < |f.blocks|
  {
    && (e.defined <==> DefinedIn(f.blocks[b], x))
    && LeastBeyond(f, b, x, tail)
    && exists us: seq<nat> :: Lists(f.blocks[b], x, UseDef(e.defined, us)) &&
         e.uses == us + if tail.Some? then [|f.blocks[b]| + tail.value] else []
  }

  ghost predicate AllComplete(f: Function, want: Ssa -> bool, bls: seq<BlockUses>) {
    && |bls| == |f.blocks|
    && (forall b :: 0 <= b < |bls| ==> bls[b].instrCount == |f.blocks[b]|)
    && (forall b: nat, x: Ssa :: b < |bls| && !want(x) ==> x !in bls[b].ssaMap)
    && (forall b: nat, x: Ssa :: b < |bls| && f.g.Reachable(b) && want(x) ==>
          exists tail: Option<nat> :: Complete(f, b, x, bls[b].Entry(x), tail))
  }

  lemma {:induction false} SolvedIsComplete(f: Function, want: Ssa -> bool, scs: seq<BlockUses>, tails: seq<Tail>,
                                            bls: seq<BlockUses>)
    requires FunctionOk(f) && Running(f, want, scs, tails, bls) && Fixed(f, tails, bls)
    ensures AllComplete(f, want, bls)
  {
    forall b: nat, x: Ssa | b < |bls| && x in bls[b].ssaMap ensures want(x) {
      if x in tails[b] { assert UsedBeyond(f, b, x, tails[b][x]); }
    }
    forall b: nat, x: Ssa | b < |bls| && f.g.Reachable(b) && want(x)
      ensures exists tail: Option<nat> :: Complete(f, b, x, bls[b].Entry(x), tail)
    {
      TailIs(f, want, scs, tails, bls, b, x);
      CompletedIsComplete(f, want, b, x, scs[b], tails[b]);
    }
  }

  /** Next-use information for the values of the given files. */
  method ForFunction(f: Function, files: set<RegFile>) returns (bls: seq<BlockUses>)
    requires FunctionOk(f)
    ensures AllComplete(f, Wanted(f, files), bls)
  {
    var scs := [];
    for b := 0 to |f.blocks|
      invariant |scs| == b && forall k :: 0 <= k < b ==> Scan(f.blocks[k], Wanted(f, files), scs[k])
    {
      var sc := ScanBlockUses(f.blocks[b], Wanted(f, files));
      scs := scs + [sc];
    }
    ghost var tails;
    bls, tails := Solve(f, Wanted(f, files), scs);
    SolvedIsComplete(f, Wanted(f, files), scs, tails, bls);
  }

  lemma {:induction false} PartitionIsLeast(us: seq<nat>, ip: nat)
    requires Sorted(us)
    ensures var i := PartitionPoint(us, ip);
      (i < |us| ==> us[i] >= ip) && forall d: nat :: d in us && d >= ip ==> i < |us| && us[i] <= d
  {
    var i := PartitionPoint(us, ip);
    forall d: nat | d in us && d >= ip ensures i < |us| && us[i] <= d {
      var k :| 0 <= k < |us| && us[k] == d;
    }
  }

  /** What a complete list contains. */
  lemma {:induction false} CompleteMembers(f: Function, b: nat, x: Ssa, e: UseDef, tail: Option<nat>)
    requires b < |f.blocks| && Complete(f, b, x, e, tail)
    ensures Sorted(e.uses) && forall k :: 0 <= k < |e.uses| - 1 ==> e.uses[k] < |f.blocks[b]|
    ensures forall d: nat :: d in e.uses <==>
      UsedAt(f.blocks[b], d, x) || (tail.Some? && d == |f.blocks[b]| + tail.value)
  {
    var n := |f.blocks[b]|;
    var us: seq<nat> :| Lists(f.blocks[b], x, UseDef(e.defined, us)) &&
      e.uses == us + if tail.Some? then [n + tail.value] else [];
    forall k | 0 <= k < |us| ensures us[k] < n && e.uses[k] == us[k] {
      assert us[k] in UseDef(e.defined, us).uses && UsedAt(f.blocks[b], us[k], x);
    }
  }

  lemma {:induction false} LeastMember(f: Function, b: nat, x: Ssa, ip: nat, e: UseDef, tail: Option<nat>,
                                       r: Option<nat>)
    requires b < |f.blocks| && ip <= |f.blocks[b]| && LeastBeyond(f, b, x, tail)
    requires forall d: nat :: d in e.uses <==>
      UsedAt(f.blocks[b], d, x) || (tail.Some? && d == |f.blocks[b]| + tail.value)
    requires r.Some? ==> r.value in e.uses && r.value >= ip
    requires forall d: nat :: d in e.uses && d >= ip ==> r.Some? && r.value <= d
    ensures LeastFrom(f, b, ip, x, r)
  {
    var n := |f.blocks[b]|;
    if tail.Some? { assert n + tail.value in e.uses; }
    forall d: nat | UsedFrom(f, b, ip, x, d) ensures r.Some? && r.value <= d {
      if d >= n && UsedBeyond(f, b, x, d - n) {
        assert tail.value <= d - n;
      } else {
        assert d in e.uses;
      }
    }
  }

  /** Use lists are sorted with at most one entry beyond the block; the queries give the
      shortest distances over all paths. */
  lemma {:induction false} NextUseIsLeast(f: Function, want: Ssa -> bool, bls: seq<BlockUses>, b: nat, x: Ssa, ip: nat)
    requires AllComplete(f, want, bls) && b < |bls| && f.g.Reachable(b) && want(x) && ip <= |f.blocks[b]|
    ensures UseListOk(bls[b], x)
    ensures LeastFrom(f, b, ip, x, bls[b].NextUseAfterOrAtIp(x, ip))
  {
    var e := bls[b].Entry(x);
    var tail: Option<nat> :| Complete(f, b, x, e, tail);
    CompleteMembers(f, b, x, e, tail);
    PartitionIsLeast(e.uses, ip);
    LeastMember(f, b, x, ip, e, tail, bls[b].NextUseAfterOrAtIp(x, ip));
  }

  /** For a value the block does not define, the first use is the nearest one over all paths. */
  lemma {:induction false} FirstUseIsLeast(f: Function, want: Ssa -> bool, bls: seq<BlockUses>, b: nat, x: Ssa)
    requires AllComplete(f, want, bls) && b < |bls| && f.g.Reachable(b) && want(x) && !DefinedIn(f.blocks[b], x)
    ensures LeastAfter(f, b, x, bls[b].FirstUse(x))
  {
    NextUseIsLeast(f, want, bls, b, x, 0);
    assert bls[b].FirstUse(x) == bls[b].NextUseAfterOrAtIp(x, 0);
    forall d: nat ensures UsedFrom(f, b, 0, x, d) <==> UsedAfter(f, b, x, d) {
      UsedAfterCases(f, b, x, d);
      assert UsedAt(f.blocks[b], d, x) <==> Exposed(f.blocks[b], d, x);
    }
  }

  lemma {:induction false} LivePathIsUsePath(f: Function, b: nat, x: Ssa)
    ensures LiveIn(f, b, x) <==> exists d: nat :: UsedAfter(f, b, x, d)
  {
    if LiveIn(f, b, x) {
      var p :| LivePath(f, p, x) && p[0] == b;
      var ip: nat :| Exposed(f.blocks[p[|p| - 1]], ip, x);
      assert UsePath(f, p, ip, x);
      assert UsedAfter(f, b, x, Distance(f, p, ip));
    }
    if d: nat :| UsedAfter(f, b, x, d) {
      var p, ip: nat :| UsePath(f, p, ip, x) && p[0] == b && Distance(f, p, ip) == d;
      assert LivePath(f, p, x);
    }
  }

  lemma {:induction false} LiveOutIsBeyond(f: Function, b: nat, x: Ssa)
    ensures LiveOut(f, b, x) <==> exists d: nat :: UsedBeyond(f, b, x, d)
  {
    if LiveOut(f, b, x) {
      var s: nat :| f.g.Edge(b, s) && LiveIn(f, s, x);
      LivePathIsUsePath(f, s, x);
      var d: nat :| UsedAfter(f, s, x, d);
      assert UsedBeyond(f, b, x, d);
    }
    if d: nat :| UsedBeyond(f, b, x, d) {
      var s: nat :| f.g.Edge(b, s) && UsedAfter(f, s, x, d);
      LivePathIsUsePath(f, s, x);
    }
  }

  /** The next-use queries answer as the bit-set ones do. */
  lemma {:induction false} AgreesWithSimple(f: Function, want: Ssa -> bool, bls: seq<BlockUses>,
                                            simple: seq<BlockLiveness>, b: nat, x: Ssa)
    requires FunctionOk(f) && AllComplete(f, want, bls) && Exact(f, simple)
    requires b < |bls| && f.g.Reachable(b) && want(x)
    ensures bls[b].IsLiveIn(x) <==> simple[b].liveIn.Contains(x)
    ensures bls[b].IsLiveOut(x) <==> simple[b].liveOut.Contains(x)
    ensures forall ip: nat :: ip < |f.blocks[b]| ==> (bls[b].IsLiveAfterIp(x, ip) <==> simple[b].IsLiveAfterIp(x, ip))
  {
    var e := bls[b].Entry(x);
    var tail := CompleteTail(f, want, bls, b, x);
    ExactBlock(f, simple, b, x);
    LiveOutIsBeyond(f, b, x);
    CompleteEnds(f, b, x, e, tail, simple[b]);
  }

  lemma {:induction false} CompleteTail(f: Function, want: Ssa -> bool, bls: seq<BlockUses>, b: nat, x: Ssa)
    returns (tail: Option<nat>)
    requires AllComplete(f, want, bls) && b < |bls| && f.g.Reachable(b) && want(x)
    ensures Complete(f, b, x, bls[b].Entry(x), tail) && bls[b].instrCount == |f.blocks[b]|
  {
    tail :| Complete(f, b, x, bls[b].Entry(x), tail);
  }

  lemma {:induction false} ExactBlock(f: Function, simple: seq<BlockLiveness>, b: nat, x: Ssa)
    requires FunctionOk(f) && Exact(f, simple) && b < |f.blocks| && f.g.Reachable(b)
    ensures Scanned(f.blocks[b], simple[b]) && (simple[b].liveOut.Contains(x) <==> LiveOut(f, b, x))
    ensures simple[b].liveIn.Contains(x) <==> !DefinedIn(f.blocks[b], x) && (UsedIn(f.blocks[b], x) || LiveOut(f, b, x))
  {
    LiveInCases(f, b, x);
    UpwardUseIs(f.blocks[b], x);
    assert simple[b].liveIn.Contains(x) <==> LiveIn(f, b, x);
  }

  lemma {:induction false} CompleteEnds(f: Function, b: nat, x: Ssa, e: UseDef, tail: Option<nat>, bl: BlockLiveness)
    requires b < |f.blocks| && Complete(f, b, x, e, tail) && Scanned(f.blocks[b], bl)
    requires bl.liveOut.Contains(x) <==> tail.Some?
    ensures e.uses != [] <==> UsedIn(f.blocks[b], x) || tail.Some?
    ensures (e.uses != [] && e.uses[|e.uses| - 1] >= |f.blocks[b]|) <==> tail.Some?
    ensures forall ip: nat :: ip < |f.blocks[b]| ==>
      ((e.uses != [] && e.uses[|e.uses| - 1] > ip) <==> bl.IsLiveAfterIp(x, ip))
  {
    var n := |f.blocks[b]|;
    CompleteMembers(f, b, x, e, tail);
    if tail.Some? { assert n + tail.value in e.uses; }
    if u: nat :| UsedAt(f.blocks[b], u, x) { assert u in e.uses; }
    if x in bl.lastUse { assert bl.lastUse[x] in e.uses; }
    if e.uses != [] {
      var last := e.uses[|e.uses| - 1];
      assert last in e.uses;
      assert last < n ==> UsedAt(f.blocks[b], last, x);
    }
  }
}
