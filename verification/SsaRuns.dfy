/**
 Runs of functions in SSA form, and why a pass may use what it knows of a value's
 definition wherever that definition dominates, also across blocks and inside loops.
 */
module SsaRuns {
  import opened Basics
  import opened Cfgs
  import opened Dominators

  type Ssa = nat

  /** Instruction `ip` of block `b`. */
  datatype Place = Place(b: nat, ip: nat) {
    ghost predicate Precedes(q: Place) {
      b < q.b || (b == q.b && ip < q.ip)
    }
  }

  /** The definition at `v` is executed on every path before control comes to `q`. */
  ghost predicate Reaches(g: Cfg, v: Place, q: Place) {
    Dominates(g, v.b, q.b) && (v.b == q.b ==> v.ip < q.ip)
  }

  lemma {:induction false} DominatesTrans(g: Cfg, a: nat, b: nat, c: nat)
    requires Dominates(g, a, b) && Dominates(g, b, c)
    ensures Dominates(g, a, c)
  {
    forall p | g.PathTo(p, c) ensures a in p {
      var k :| 0 <= k < |p| && p[k] == b;
      assert g.PathTo(p[..k + 1], b);
      assert a in p[..k + 1];
    }
  }

  lemma {:induction false} PrefixIn(p: seq<nat>, j: nat, b: nat)
    requires j < |p| && b in p[..j + 1] && b !in p[..|p| - 1]
    ensures j == |p| - 1
  {
  }

  /** Two reachable blocks do not dominate each other. */
  lemma {:induction false} DominatesAntisymmetric(g: Cfg, p: seq<nat>, a: nat, b: nat)
    requires Dominates(g, a, b) && Dominates(g, b, a) && g.PathTo(p, b)
    ensures a == b
    decreases |p|
  {
    if b in p[..|p| - 1] {
      var k :| 0 <= k < |p| - 1 && p[k] == b;
      DominatesAntisymmetric(g, p[..k + 1], a, b);
    } else {
      var j :| 0 <= j < |p| && p[j] == a;
      assert g.PathTo(p[..j + 1], a);
      assert b in p[..j + 1];
      PrefixIn(p, j, b);
    }
  }

  lemma {:induction false} DominatorReachable(g: Cfg, a: nat, b: nat)
    requires Dominates(g, a, b) && g.Reachable(b)
    ensures g.Reachable(a)
  {
    var p :| g.PathTo(p, b);
    var k :| 0 <= k < |p| && p[k] == a;
    assert g.PathTo(p[..k + 1], a);
  }

  /** The blocks on every path to `b`. */
  ghost function DominatorsOf(g: Cfg, b: nat): set<nat> {
    set d: nat | d < g.len && Dominates(g, d, b)
  }

  /** A dominator has fewer dominators. */
  lemma {:induction false} DominatorsGrow(g: Cfg, a: nat, b: nat)
    requires Dominates(g, a, b) && a != b && g.Reachable(b)
    ensures |DominatorsOf(g, a)| < |DominatorsOf(g, b)|
  {
    var p :| g.PathTo(p, b);
    ReachableInRange(g, b);
    forall d | d in DominatorsOf(g, a) ensures d in DominatorsOf(g, b) {
      DominatesTrans(g, d, a, b);
    }
    if b in DominatorsOf(g, a) {
      DominatesAntisymmetric(g, p, a, b);
    }
    assert b in DominatorsOf(g, b);
    SubsetSize(DominatorsOf(g, a), DominatorsOf(g, b) - {b});
  }

  /** Every block is on every path to a block that cannot be reached. */
  lemma {:induction false} UnreachableDominated(g: Cfg, a: nat, b: nat)
    requires !g.Reachable(b)
    ensures |DominatorsOf(g, a)| <= |DominatorsOf(g, b)|
  {
    SubsetSize(DominatorsOf(g, a), DominatorsOf(g, b));
  }

  // ---- running ----

  /** The contents of values, lane by lane. */
  type Env<!W> = (Ssa, nat) -> W

  /** What a pass may rewrite: the values an instruction defines, and each lane of the results of
      those it understands; the others write anything. */
  datatype Meaning<!I, !W> =
    Meaning(dsts: I -> seq<Option<Ssa>>, other: I -> bool, result: (I, nat, Env<W>, nat) -> W)

  /** What instruction `ip` of step `n` of a run writes to lane `l` of its destination `k`, if the
      pass does not understand it: `(n, ip, k, l)`. */
  type Oracle<!W> = (nat, nat, nat, nat) -> W

  ghost function Write<W>(env: Env<W>, ds: seq<Option<Ssa>>, v: (nat, nat) -> W): Env<W>
    decreases |ds|
  {
    if ds == [] then env
    else
      var before := Write(env, ds[..|ds| - 1], v);
      (y: Ssa, l: nat) => if ds[|ds| - 1] == Some(y) then v(|ds| - 1, l) else before(y, l)
  }

  ghost function Results<I, W>(m: Meaning<I, W>, i: I, w: (nat, nat) -> W, env: Env<W>): (nat, nat) -> W {
    (k: nat, l: nat) => if m.other(i) then w(k, l) else m.result(i, k, env, l)
  }

  ghost function Step<I, W>(m: Meaning<I, W>, i: I, w: (nat, nat) -> W, env: Env<W>): Env<W> {
    Write(env, m.dsts(i), Results(m, i, w, env))
  }

  /** What an oracle says of one instruction, and of one step of a run. */
  ghost function OfInstr<W>(w: (nat, nat, nat) -> W, ip: nat): (nat, nat) -> W {
    (k: nat, l: nat) => w(ip, k, l)
  }

  ghost function OfStep<W>(w: Oracle<W>, n: nat): (nat, nat, nat) -> W {
    (ip: nat, k: nat, l: nat) => w(n, ip, k, l)
  }

  /** The environment before instruction `ip` of a block entered with `env`. */
  ghost function Within<I, W>(m: Meaning<I, W>, code: seq<I>, w: (nat, nat, nat) -> W, env: Env<W>, ip: nat): Env<W>
    requires ip <= |code|
  {
    if ip == 0 then env
    else Step(m, code[ip - 1], OfInstr(w, ip - 1), Within(m, code, w, env, ip - 1))
  }

  /** The environment on entry to step `n` of a path. */
  ghost function At<I, W>(m: Meaning<I, W>, f: seq<seq<I>>, w: Oracle<W>, env: Env<W>, path: seq<nat>, n: nat): Env<W>
    requires n < |path| && forall i :: 0 <= i < |path| ==> path[i] < |f|
  {
    if n == 0 then env
    else
      var code := f[path[n - 1]];
      Within(m, code, OfStep(w, n - 1), At(m, f, w, env, path, n - 1), |code|)
  }

  /** The environment before instruction `ip` of step `n`. */
  ghost function Before<I, W>(m: Meaning<I, W>, f: seq<seq<I>>, w: Oracle<W>, env: Env<W>, path: seq<nat>, n: nat,
                              ip: nat): Env<W>
    requires n < |path| && (forall i :: 0 <= i < |path| ==> path[i] < |f|) && ip <= |f[path[n]]|
  {
    Within(m, f[path[n]], OfStep(w, n), At(m, f, w, env, path, n), ip)
  }

  // ---- what a pass knows ----

  /** What a pass has recorded: where values are defined, which of them it has an entry for, the
      values each entry looks at, and whether an entry holds in an environment. */
  datatype Frame<!W> = Frame(def: Ssa -> Place, tab: set<Ssa>, srcs: Ssa -> set<Ssa>, holds: (Ssa, Env<W>) -> bool)

  /** Lanes below `lanes` agree. */
  ghost predicate Agree<W(!new)>(lanes: nat, a: Env<W>, b: Env<W>) {
    forall y: Ssa, l: nat :: l < lanes ==> a(y, l) == b(y, l)
  }

  ghost predicate AgreeOn<W(!new)>(lanes: nat, ys: set<Ssa>, a: Env<W>, b: Env<W>) {
    forall y: Ssa, l: nat :: y in ys && l < lanes ==> a(y, l) == b(y, l)
  }

  /** Every entry whose definition dominates the point holds there. */
  ghost predicate TabAt<W>(g: Cfg, fr: Frame<W>, env: Env<W>, q: Place) {
    forall v :: v in fr.tab && Reaches(g, fr.def(v), q) ==> fr.holds(v, env)
  }

  /** Entries look only at values whose definitions dominate theirs, and depend on nothing else. */
  ghost predicate EntriesOk<W(!new)>(g: Cfg, lanes: nat, fr: Frame<W>) {
    && (forall v, y :: v in fr.tab && y in fr.srcs(v) ==> Reaches(g, fr.def(y), fr.def(v)))
    && (forall v, a: Env<W>, b: Env<W> {:trigger fr.holds(v, a), fr.holds(v, b)} ::
          v in fr.tab && AgreeOn(lanes, fr.srcs(v) + {v}, a, b) && fr.holds(v, a) ==> fr.holds(v, b))
  }

  /** The rewritten instruction gives its destinations what the old one gives, wherever the entries
      that dominate it hold; and entries recorded for them hold after it. */
  ghost predicate PlaceOk<I, W(!new)>(g: Cfg, m: Meaning<I, W>, lanes: nat, fr: Frame<W>, i: I, i': I, q: Place) {
    && m.dsts(i') == m.dsts(i) && m.other(i') == m.other(i)
    && (forall k :: 0 <= k < |m.dsts(i)| && m.dsts(i)[k].Some? ==> fr.def(m.dsts(i)[k].value) == q)
    && (!m.other(i) ==> ResultsSame(g, m, lanes, fr, i, i', q))
    && (forall v :: v in fr.tab && fr.def(v) == q ==>
          !m.other(i) && Some(v) in m.dsts(i) && EntryFollows(m, lanes, fr, i', v))
  }

  ghost predicate ResultsSame<I, W(!new)>(g: Cfg, m: Meaning<I, W>, lanes: nat, fr: Frame<W>, i: I, i': I, q: Place) {
    forall a: Env<W>, b: Env<W>, k: nat, l: nat {:trigger m.result(i, k, a, l), m.result(i', k, b, l)} ::
      Agree(lanes, a, b) && TabAt(g, fr, b, q) && k < |m.dsts(i)| && m.dsts(i)[k].Some? && l < lanes ==>
        m.result(i, k, a, l) == m.result(i', k, b, l)
  }

  /** The entry of `v` holds once the instruction has written it. */
  ghost predicate EntryFollows<I, W(!new)>(m: Meaning<I, W>, lanes: nat, fr: Frame<W>, i: I, v: Ssa) {
    forall a: Env<W>, b: Env<W> {:trigger AgreeOn(lanes, fr.srcs(v), a, b)} ::
      AgreeOn(lanes, fr.srcs(v), a, b) && Writes(m, lanes, i, v, a, b) ==> fr.holds(v, b)
  }

  /** In `b` the value `v` is what the last destination of that name gets in `a`. */
  ghost predicate Writes<I, W(!new)>(m: Meaning<I, W>, lanes: nat, i: I, v: Ssa, a: Env<W>, b: Env<W>) {
    exists k: nat {:trigger m.dsts(i)[k]} :: k < |m.dsts(i)| && m.dsts(i)[k] == Some(v) &&
      forall l: nat :: l < lanes ==> b(v, l) == m.result(i, k, a, l)
  }

  ghost predicate Framed<I, W(!new)>(g: Cfg, m: Meaning<I, W>, lanes: nat, fr: Frame<W>, f: seq<seq<I>>,
                              f': seq<seq<I>>) {
    && |f'| == |f| == g.len && EntriesOk(g, lanes, fr)
    && forall b: nat :: b < |f| ==> CodeOk(g, m, lanes, fr, f[b], f'[b], b)
  }

  ghost predicate CodeOk<I, W(!new)>(g: Cfg, m: Meaning<I, W>, lanes: nat, fr: Frame<W>, code: seq<I>, code': seq<I>,
                              b: nat) {
    |code'| == |code| && forall ip: nat :: ip < |code| ==> PlaceOk(g, m, lanes, fr, code[ip], code'[ip], Place(b, ip))
  }

  // ---- the old and the new code agree ----

  /** What a write leaves: the last destination of that name, or what was there. */
  lemma {:induction false} WriteAt<W(!new)>(env: Env<W>, ds: seq<Option<Ssa>>, v: (nat, nat) -> W, y: Ssa)
    returns (k: nat)
    ensures Some(y) !in ds ==> forall l: nat :: Write(env, ds, v)(y, l) == env(y, l)
    ensures Some(y) in ds ==> k < |ds| && ds[k] == Some(y) && forall l: nat :: Write(env, ds, v)(y, l) == v(k, l)
    decreases |ds|
  {
    k := 0;
    if ds != [] {
      assert ds == ds[..|ds| - 1] + [ds[|ds| - 1]];
      k := WriteAt(env, ds[..|ds| - 1], v, y);
      if ds[|ds| - 1] == Some(y) { k := |ds| - 1; }
    }
  }

  lemma {:induction false} WriteAgrees<W(!new)>(lanes: nat, a: Env<W>, b: Env<W>, ds: seq<Option<Ssa>>,
                                         v: (nat, nat) -> W, u: (nat, nat) -> W)
    requires Agree(lanes, a, b)
    requires forall k: nat, l: nat :: k < |ds| && ds[k].Some? && l < lanes ==> v(k, l) == u(k, l)
    ensures Agree(lanes, Write(a, ds, v), Write(b, ds, u))
    decreases |ds|
  {
    if ds != [] {
      WriteAgrees(lanes, a, b, ds[..|ds| - 1], v, u);
    }
  }

  lemma {:induction false} StepAgrees<I, W(!new)>(g: Cfg, m: Meaning<I, W>, lanes: nat, fr: Frame<W>, i: I, i': I,
                                           q: Place, w: (nat, nat) -> W, a: Env<W>, b: Env<W>)
    requires PlaceOk(g, m, lanes, fr, i, i', q) && Agree(lanes, a, b) && TabAt(g, fr, b, q)
    ensures Agree(lanes, Step(m, i, w, a), Step(m, i', w, b))
  {
    var v, u := Results(m, i, w, a), Results(m, i', w, b);
    forall k: nat, l: nat | k < |m.dsts(i)| && m.dsts(i)[k].Some? && l < lanes ensures v(k, l) == u(k, l) {
      if !m.other(i) { assert ResultsSame(g, m, lanes, fr, i, i', q); }
    }
    WriteAgrees(lanes, a, b, m.dsts(i), v, u);
  }

  /** A definition that dominates an entry's own does not run after it on the way to where the entry
      is used: otherwise the two would dominate each other. */
  lemma {:induction false} SourceNotRedefined(g: Cfg, y: Place, v: Place, q: Place)
    requires g.Reachable(q.b) && Reaches(g, y, v) && Reaches(g, v, Place(q.b, q.ip + 1))
    ensures y != q
  {
    if y == q {
      var p :| g.PathTo(p, q.b);
      DominatesAntisymmetric(g, p, v.b, q.b);
    }
  }

  lemma {:induction false} StepTab<I, W(!new)>(g: Cfg, m: Meaning<I, W>, lanes: nat, fr: Frame<W>, i: I, i': I,
                                        q: Place, w: (nat, nat) -> W, b: Env<W>)
    requires EntriesOk(g, lanes, fr) && PlaceOk(g, m, lanes, fr, i, i', q) && TabAt(g, fr, b, q) && g.Reachable(q.b)
    ensures TabAt(g, fr, Step(m, i', w, b), Place(q.b, q.ip + 1))
  {
    forall v | v in fr.tab && Reaches(g, fr.def(v), Place(q.b, q.ip + 1)) ensures fr.holds(v, Step(m, i', w, b)) {
      StepEntry(g, m, lanes, fr, i, i', q, w, b, v);
    }
  }

  lemma {:induction false} StepEntry<I, W(!new)>(g: Cfg, m: Meaning<I, W>, lanes: nat, fr: Frame<W>, i: I, i': I,
                                          q: Place, w: (nat, nat) -> W, b: Env<W>, v: Ssa)
    requires EntriesOk(g, lanes, fr) && PlaceOk(g, m, lanes, fr, i, i', q) && TabAt(g, fr, b, q) && g.Reachable(q.b)
    requires v in fr.tab && Reaches(g, fr.def(v), Place(q.b, q.ip + 1))
    ensures fr.holds(v, Step(m, i', w, b))
  {
    var c := Step(m, i', w, b);
    var ds := m.dsts(i');
    var u := Results(m, i', w, b);
    forall y | y in fr.srcs(v) ensures Some(y) !in ds {
      SourceNotRedefined(g, fr.def(y), fr.def(v), q);
    }
    forall y, l: nat | y in fr.srcs(v) ensures b(y, l) == c(y, l) {
      var _ := WriteAt(b, ds, u, y);
    }
    var k := WriteAt(b, ds, u, v);
    if fr.def(v) == q {
      assert EntryFollows(m, lanes, fr, i', v);
      assert ds[k] == Some(v) && forall l: nat :: l < lanes ==> c(v, l) == m.result(i', k, b, l);
      assert AgreeOn(lanes, fr.srcs(v), b, c) && Writes(m, lanes, i', v, b, c);
    } else {
      assert AgreeOn(lanes, fr.srcs(v) + {v}, b, c);
      assert fr.holds(v, b);
    }
  }

  /** Across an edge nothing new dominates: a definition that does has been passed already. */
  lemma {:induction false} EdgeTab<W(!new)>(g: Cfg, fr: Frame<W>, env: Env<W>, p: nat, len: nat, s: nat)
    requires TabAt(g, fr, env, Place(p, len)) && g.Edge(p, s)
    requires forall v :: v in fr.tab && fr.def(v).b == p ==> fr.def(v).ip < len
    ensures TabAt(g, fr, env, Place(s, 0))
  {
    forall v | v in fr.tab && Reaches(g, fr.def(v), Place(s, 0)) ensures fr.holds(v, env) {
      var d := fr.def(v).b;
      forall path | g.PathTo(path, p) ensures d in path {
        PathSnoc(g, path, p, s);
        assert d in path + [s] && d != s;
      }
      assert Reaches(g, fr.def(v), Place(p, len));
    }
  }

  /** Definitions recorded in the frame lie in the code. */
  ghost predicate DefsInside<I, W>(fr: Frame<W>, f: seq<seq<I>>) {
    forall v :: v in fr.tab && fr.def(v).b < |f| ==> fr.def(v).ip < |f[fr.def(v).b]|
  }

  lemma {:induction false} WithinStep<I, W(!new)>(g: Cfg, m: Meaning<I, W>, lanes: nat, fr: Frame<W>, code: seq<I>,
                                           code': seq<I>,
                                                  b: nat, w: (nat, nat, nat) -> W, e: Env<W>, e': Env<W>, ip: nat)
    requires EntriesOk(g, lanes, fr) && CodeOk(g, m, lanes, fr, code, code', b) && 0 < ip <= |code| && g.Reachable(b)
    requires Agree(lanes, Within(m, code, w, e, ip - 1), Within(m, code', w, e', ip - 1))
    requires TabAt(g, fr, Within(m, code', w, e', ip - 1), Place(b, ip - 1))
    ensures Agree(lanes, Within(m, code, w, e, ip), Within(m, code', w, e', ip))
    ensures TabAt(g, fr, Within(m, code', w, e', ip), Place(b, ip))
  {
    var old_, new_ := Within(m, code, w, e, ip - 1), Within(m, code', w, e', ip - 1);
    StepBoth(g, m, lanes, fr, code[ip - 1], code'[ip - 1], Place(b, ip - 1), OfInstr(w, ip - 1), old_, new_);
    assert Within(m, code, w, e, ip) == Step(m, code[ip - 1], OfInstr(w, ip - 1), old_);
    assert Within(m, code', w, e', ip) == Step(m, code'[ip - 1], OfInstr(w, ip - 1), new_);
  }

  lemma {:induction false} WithinSame<I, W(!new)>(g: Cfg, m: Meaning<I, W>, lanes: nat, fr: Frame<W>, code: seq<I>,
                                           code': seq<I>,
                                                  b: nat, w: (nat, nat, nat) -> W, e: Env<W>, e': Env<W>, ip: nat)
    requires EntriesOk(g, lanes, fr) && CodeOk(g, m, lanes, fr, code, code', b) && ip <= |code| && g.Reachable(b)
    requires Agree(lanes, e, e') && TabAt(g, fr, e', Place(b, 0))
    ensures Agree(lanes, Within(m, code, w, e, ip), Within(m, code', w, e', ip))
    ensures TabAt(g, fr, Within(m, code', w, e', ip), Place(b, ip))
  {
    if ip > 0 {
      WithinSame(g, m, lanes, fr, code, code', b, w, e, e', ip - 1);
      WithinStep(g, m, lanes, fr, code, code', b, w, e, e', ip);
    }
  }

  lemma {:induction false} StepBoth<I, W(!new)>(g: Cfg, m: Meaning<I, W>, lanes: nat, fr: Frame<W>, i: I, i': I,
                                         q: Place, w: (nat, nat) -> W, a: Env<W>, b: Env<W>)
    requires EntriesOk(g, lanes, fr) && PlaceOk(g, m, lanes, fr, i, i', q) && g.Reachable(q.b)
    requires Agree(lanes, a, b) && TabAt(g, fr, b, q)
    ensures Agree(lanes, Step(m, i, w, a), Step(m, i', w, b)) && TabAt(g, fr, Step(m, i', w, b), Place(q.b, q.ip + 1))
  {
    StepAgrees(g, m, lanes, fr, i, i', q, w, a, b);
    StepTab(g, m, lanes, fr, i, i', q, w, b);
  }

  /** A whole block and an edge. */
  lemma {:induction false} BlockSame<I, W(!new)>(g: Cfg, m: Meaning<I, W>, lanes: nat, fr: Frame<W>, code: seq<I>,
                                          code': seq<I>, p: nat, s: nat, w: (nat, nat, nat) -> W, e: Env<W>, e': Env<W>)
    requires EntriesOk(g, lanes, fr) && CodeOk(g, m, lanes, fr, code, code', p) && g.Reachable(p) && g.Edge(p, s)
    requires Agree(lanes, e, e') && TabAt(g, fr, e', Place(p, 0))
    requires forall v :: v in fr.tab && fr.def(v).b == p ==> fr.def(v).ip < |code|
    ensures Agree(lanes, Within(m, code, w, e, |code|), Within(m, code', w, e', |code'|))
    ensures TabAt(g, fr, Within(m, code', w, e', |code'|), Place(s, 0))
  {
    WithinSame(g, m, lanes, fr, code, code', p, w, e, e', |code|);
    EdgeTab(g, fr, Within(m, code', w, e', |code'|), p, |code|, s);
  }

  lemma {:induction false} PathReachable(g: Cfg, path: seq<nat>, len: nat, n: nat)
    requires IsPath(g, path, len) && n < |path|
    ensures g.Reachable(path[n])
  {
    assert g.PathTo(path[..n + 1], path[n]);
  }

  lemma {:induction false} AtSame<I, W(!new)>(g: Cfg, m: Meaning<I, W>, lanes: nat, fr: Frame<W>, f: seq<seq<I>>,
                                       f': seq<seq<I>>, w: Oracle<W>, env: Env<W>, path: seq<nat>, n: nat)
    requires Framed(g, m, lanes, fr, f, f') && DefsInside(fr, f) && IsPath(g, path, |f|) && n < |path|
    ensures Agree(lanes, At(m, f, w, env, path, n), At(m, f', w, env, path, n))
    ensures TabAt(g, fr, At(m, f', w, env, path, n), Place(path[n], 0))
  {
    if n == 0 {
      assert g.PathTo([0], 0);
    } else {
      AtSame(g, m, lanes, fr, f, f', w, env, path, n - 1);
      PathReachable(g, path, |f|, n - 1);
      var p := path[n - 1];
      BlockSame(g, m, lanes, fr, f[p], f'[p], p, path[n], OfStep(w, n - 1), At(m, f, w, env, path, n - 1),
                At(m, f', w, env, path, n - 1));
    }
  }

  /** Before every instruction of every run all values have the same contents in the old and the
      new code, whatever the instructions that the pass does not understand write. */
  lemma {:induction false} RunsAgree<I, W(!new)>(g: Cfg, m: Meaning<I, W>, lanes: nat, fr: Frame<W>, f: seq<seq<I>>,
                                          f': seq<seq<I>>, w: Oracle<W>, env: Env<W>, path: seq<nat>, n: nat, ip: nat)
    requires Framed(g, m, lanes, fr, f, f') && DefsInside(fr, f) && IsPath(g, path, |f|) && n < |path|
    requires ip <= |f[path[n]]|
    ensures |f'[path[n]]| == |f[path[n]]|
    ensures Agree(lanes, Before(m, f, w, env, path, n, ip), Before(m, f', w, env, path, n, ip))
  {
    AtSame(g, m, lanes, fr, f, f', w, env, path, n);
    PathReachable(g, path, |f|, n);
    WithinSame(g, m, lanes, fr, f[path[n]], f'[path[n]], path[n], OfStep(w, n), At(m, f, w, env, path, n),
               At(m, f', w, env, path, n), ip);
  }
}
