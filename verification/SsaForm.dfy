/**
 What it means for a renaming with phis to be right: every name stands, wherever it is
 used, for the last definition of the variable it was made for.
 */
module SsaForm {
  import opened Basics
  import opened Cfgs
  import opened Programs

  /** The new names of the uses and definitions of one instruction. */
  datatype Names = Names(uses: seq<Ssa>, defs: seq<Ssa>)

  /** A phi for `orig` at the head of a block: its name and what it takes from each predecessor. */
  datatype PhiTracker = PhiTracker(orig: Ssa, dst: Ssa, srcs: map<nat, Ssa>)

  /** Where a new name is defined, and for which variable: by a definition, by a phi, or as an
      undefined value at the head of a block without predecessors. */
  datatype Site = DefSite(b: nat, ip: nat, k: nat, x: Ssa) | PhiSite(b: nat, x: Ssa) | UndefSite(b: nat, x: Ssa)

  /** The state of the repair: per block, the current name of each variable (`defs`), the phis,
      the names given out so far, the undefined values made; and, for the proof, the names at the head of each block and
      the site of every name. `needs` are blocks whose back edges still lack phi sources,
      `pending` the one being worked on. New names start at `base`. */
  datatype Track = Track(defs: seq<map<Ssa, Ssa>>, phis: seq<seq<PhiTracker>>, next: nat, needs: set<nat>,
                         pending: set<nat>,
                         names: seq<seq<Names>>, undefs: seq<(nat, Ssa)>, inn: seq<map<Ssa, Ssa>>, site: map<Ssa, Site>)

  // ---- names within a block ----

  /** The names after an instruction defines `ds` as `ns`. */
  ghost function Bind(m: map<Ssa, Ssa>, ds: seq<Ssa>, ns: seq<Ssa>, multi: set<Ssa>): map<Ssa, Ssa>
    requires |ds| == |ns|
    decreases |ds|
  {
    if ds == [] then m
    else
      var m' := Bind(m, ds[..|ds| - 1], ns[..|ns| - 1], multi);
      if ds[|ds| - 1] in multi then m'[ds[|ds| - 1] := ns[|ns| - 1]] else m'
  }

  /** The first instructions of the block have been given names. */
  ghost predicate Shaped(bb: Block, ns: seq<Names>) {
    |ns| <= |bb| && forall j :: 0 <= j < |ns| ==> |ns[j].uses| == |bb[j].uses| && |ns[j].defs| == |bb[j].Defs()|
  }

  /** The names before instruction `ip`. */
  ghost function Cur(inn: map<Ssa, Ssa>, bb: Block, ns: seq<Names>, multi: set<Ssa>, ip: nat): map<Ssa, Ssa>
    requires Shaped(bb, ns) && ip <= |ns|
  {
    if ip == 0 then inn else Bind(Cur(inn, bb, ns, multi, ip - 1), bb[ip - 1].Defs(), ns[ip - 1].defs, multi)
  }

  lemma {:induction false} BindKeys(m: map<Ssa, Ssa>, ds: seq<Ssa>, ns: seq<Ssa>, multi: set<Ssa>, x: Ssa)
    requires |ds| == |ns|
    ensures x in Bind(m, ds, ns, multi) <==> x in m || (x in multi && x in ds)
    decreases |ds|
  {
    if ds != [] {
      BindKeys(m, ds[..|ds| - 1], ns[..|ns| - 1], multi, x);
      assert ds == ds[..|ds| - 1] + [ds[|ds| - 1]];
    }
  }

  lemma {:induction false} CurKeys(inn: map<Ssa, Ssa>, bb: Block, ns: seq<Names>, multi: set<Ssa>, ip: nat, x: Ssa)
    requires Shaped(bb, ns) && ip <= |ns|
    ensures x in Cur(inn, bb, ns, multi, ip) <==>
      x in inn || (x in multi && exists j: nat :: j < ip && DefinedAt(bb, j, x))
  {
    if ip > 0 {
      CurKeys(inn, bb, ns, multi, ip - 1, x);
      BindKeys(Cur(inn, bb, ns, multi, ip - 1), bb[ip - 1].Defs(), ns[ip - 1].defs, multi, x);
      assert DefinedAt(bb, ip - 1, x) <==> x in bb[ip - 1].Defs();
      if j: nat :| j < ip && DefinedAt(bb, j, x) {
        assert j == ip - 1 || j < ip - 1;
      }
    }
  }

  lemma {:induction false} BindAdd(m: map<Ssa, Ssa>, ds: seq<Ssa>, ns: seq<Ssa>, multi: set<Ssa>, x: Ssa, v: Ssa)
    requires |ds| == |ns| && x !in Bind(m, ds, ns, multi)
    ensures Bind(m[x := v], ds, ns, multi) == Bind(m, ds, ns, multi)[x := v]
    decreases |ds|
  {
    if ds != [] {
      BindAdd(m, ds[..|ds| - 1], ns[..|ns| - 1], multi, x, v);
    }
  }

  /** A name at the head of the block for a variable not known so far is known throughout. */
  lemma {:induction false} CurAdd(inn: map<Ssa, Ssa>, bb: Block, ns: seq<Names>, multi: set<Ssa>, ip: nat, x: Ssa,
                                  v: Ssa)
    requires Shaped(bb, ns) && ip <= |ns| && x !in Cur(inn, bb, ns, multi, ip)
    ensures Cur(inn[x := v], bb, ns, multi, ip) == Cur(inn, bb, ns, multi, ip)[x := v]
  {
    if ip > 0 {
      CurKeys(inn, bb, ns, multi, ip, x);
      CurKeys(inn, bb, ns, multi, ip - 1, x);
      CurAdd(inn, bb, ns, multi, ip - 1, x, v);
      BindAdd(Cur(inn, bb, ns, multi, ip - 1), bb[ip - 1].Defs(), ns[ip - 1].defs, multi, x, v);
    }
  }

  lemma {:induction false} CurPrefix(inn: map<Ssa, Ssa>, bb: Block, ns: seq<Names>, more: seq<Names>, multi: set<Ssa>,
                                     ip: nat)
    requires Shaped(bb, ns) && Shaped(bb, ns + more) && ip <= |ns|
    ensures Cur(inn, bb, ns + more, multi, ip) == Cur(inn, bb, ns, multi, ip)
  {
    if ip > 0 {
      CurPrefix(inn, bb, ns, more, multi, ip - 1);
      assert (ns + more)[ip - 1] == ns[ip - 1];
    }
  }

  // ---- what the names must satisfy ----

  /** The name was made for `x`. */
  ghost predicate Owned(site: map<Ssa, Site>, n: Ssa, x: Ssa) {
    n in site && site[n].x == x
  }

  /** Uses take the current name of a variable with several definitions, others stay. */
  ghost predicate UseOk(inn: map<Ssa, Ssa>, bb: Block, ns: seq<Names>, multi: set<Ssa>, j: nat, k: nat)
    requires Shaped(bb, ns) && j < |ns| && k < |ns[j].uses|
  {
    var x := bb[j].uses[k];
    if x in multi then x in Cur(inn, bb, ns, multi, j) && ns[j].uses[k] == Cur(inn, bb, ns, multi, j)[x]
      else ns[j].uses[k] == x
  }

  /** Definitions of such a variable get a name of their own. */
  ghost predicate DefOk(site: map<Ssa, Site>, b: nat, bb: Block, ns: seq<Names>, multi: set<Ssa>, j: nat, k: nat)
    requires Shaped(bb, ns) && j < |ns| && k < |ns[j].defs|
  {
    var x, n := bb[j].Defs()[k], ns[j].defs[k];
    if x in multi then n in site && site[n] == DefSite(b, j, k, x) else n == x
  }

  ghost predicate BlockNamed(t: Track, b: nat, bb: Block, multi: set<Ssa>)
    requires b < |t.names| && b < |t.inn|
  {
    && Shaped(bb, t.names[b])
    && (forall j: nat, k: nat :: j < |t.names[b]| && k < |t.names[b][j].uses| ==>
           UseOk(t.inn[b], bb, t.names[b], multi, j, k))
    && (forall j: nat, k: nat :: j < |t.names[b]| && k < |t.names[b][j].defs| ==>
           DefOk(t.site, b, bb, t.names[b], multi, j, k))
  }

  /** The names at the end of a block. */
  ghost function Out(f: Function, multi: set<Ssa>, t: Track, b: nat): map<Ssa, Ssa>
    requires b < |f.blocks| && b < |t.names| && b < |t.inn| && Shaped(f.blocks[b], t.names[b])
  {
    Cur(t.inn[b], f.blocks[b], t.names[b], multi, |t.names[b]|)
  }

  /** Index of the phi for `x`, or the number of phis. */
  ghost function PhiIndex(phis: seq<PhiTracker>, x: Ssa): (i: nat)
    ensures i <= |phis| && (i < |phis| ==> phis[i].orig == x) && forall j :: 0 <= j < i ==> phis[j].orig != x
  {
    if phis == [] || phis[0].orig == x then 0 else 1 + PhiIndex(phis[1..], x)
  }

  ghost predicate HasPhi(phis: seq<PhiTracker>, x: Ssa) {
    PhiIndex(phis, x) < |phis|
  }

  lemma {:induction false} PhiIndexUpdate(phis: seq<PhiTracker>, i: nat, ph: PhiTracker, y: Ssa)
    requires i < |phis| && ph.orig == phis[i].orig
    ensures PhiIndex(phis[i := ph], y) == PhiIndex(phis, y)
  {
    var all := phis[i := ph];
    assert forall k :: 0 <= k < |phis| ==> all[k].orig == phis[k].orig;
  }

  /** The phis of a block have names of their own, one per variable. */
  ghost predicate PhisNamed(t: Track, b: nat)
    requires b < |t.phis| && b < |t.inn|
  {
    && (forall i :: 0 <= i < |t.phis[b]| ==>
          var ph := t.phis[b][i];
          ph.orig in t.inn[b] && t.inn[b][ph.orig] == ph.dst && ph.dst in t.site &&
            t.site[ph.dst] == PhiSite(b, ph.orig))
    && (forall i, j :: 0 <= i < j < |t.phis[b]| ==> t.phis[b][i].orig != t.phis[b][j].orig)
  }

  /** What the predecessors of block `b` hand over for `x`, under the substitution `sub`. */
  ghost predicate HandedOver(f: Function, multi: set<Ssa>, t: Track, sub: Ssa -> Ssa, b: nat, x: Ssa, p: nat)
    requires Sized(f, t) && b < |f.blocks| && x in t.inn[b] && p < |f.blocks| && Shaped(f.blocks[p], t.names[p])
  {
    && x in Out(f, multi, t, p)
    && if HasPhi(t.phis[b], x) then
         var ph := t.phis[b][PhiIndex(t.phis[b], x)];
         p in ph.srcs && sub(ph.srcs[p]) == sub(Out(f, multi, t, p)[x])
       else sub(t.inn[b][x]) == sub(Out(f, multi, t, p)[x])
  }

  ghost predicate Sized(f: Function, t: Track) {
    |f.blocks| == f.g.len == |t.defs| == |t.phis| == |t.names| == |t.inn|
  }

  /** Substitution stays with the variable and replaces only phis. */
  ghost predicate SubAt(site: map<Ssa, Site>, sub: Ssa -> Ssa, n: Ssa) {
    && sub(sub(n)) == sub(n)
    && if n in site then Owned(site, sub(n), site[n].x) && (!site[n].PhiSite? ==> sub(n) == n) else sub(n) == n
  }

  /** The same for all names, and remaining phis are left alone. */
  ghost predicate SubOk(t: Track, sub: Ssa -> Ssa) {
    && (forall n: Ssa {:trigger SubAt(t.site, sub, n)} :: SubAt(t.site, sub, n))
    && (forall b, i :: 0 <= b < |t.phis| && 0 <= i < |t.phis[b]| ==> sub(t.phis[b][i].dst) == t.phis[b][i].dst)
  }

  /** The undefined value `n` at the head of block `b` is there for a variable that is live into the
      block, which nothing leads to and which is not the entry. */
  ghost predicate UndefOk(f: Function, multi: set<Ssa>, t: Track, b: nat, n: Ssa) {
    && 0 < b < |f.blocks| && !HasPred(f.g, b)
    && n in t.site && t.site[n].UndefSite? && t.site[n].b == b && t.site[n].x in multi && LiveIn(f, b, t.site[n].x)
  }

  /** Undefined values have names of their own. */
  ghost predicate UndefsNamed(f: Function, multi: set<Ssa>, t: Track) {
    && (forall i :: 0 <= i < |t.undefs| ==> UndefOk(f, multi, t, t.undefs[i].0, t.undefs[i].1))
    && (forall i, j :: 0 <= i < j < |t.undefs| ==> t.undefs[i].1 != t.undefs[j].1)
  }

  ghost function Same(): Ssa -> Ssa {
    (n: Ssa) => n
  }

  ghost predicate PhiFor(phis: seq<PhiTracker>, n: Ssa) {
    exists i: nat :: i < |phis| && phis[i].dst == n
  }

  /** The name is that of a definition, a phi or an undefined value, where it was made for. */
  ghost predicate Made(t: Track, n: Ssa)
    requires n in t.site
  {
    match t.site[n]
    case DefSite(b, ip, k, _) =>
      b < |t.names| && ip < |t.names[b]| && k < |t.names[b][ip].defs| && t.names[b][ip].defs[k] == n
    case PhiSite(b, _) => b < |t.phis| && PhiFor(t.phis[b], n)
    case UndefSite(b, _) => (b, n) in t.undefs
  }

  /** Every name that stands for itself is there. */
  ghost predicate AllMade(t: Track, sub: Ssa -> Ssa) {
    forall n: Ssa {:trigger Made(t, n)} :: n in t.site && sub(n) == n ==> Made(t, n)
  }

  /** Blocks have names only for what is live into them. */
  ghost predicate EntersLive(f: Function, b: nat, x: Ssa) {
    LiveIn(f, b, x)
  }

  /** A complete and consistent renaming. */
  ghost predicate Repaired(f: Function, multi: set<Ssa>, base: nat, t: Track, sub: Ssa -> Ssa) {
    && Sized(f, t) && f.g.len > 0 && UndefsNamed(f, multi, t) && AllMade(t, sub)
    && (forall b: nat, x: Ssa {:trigger EntersLive(f, b, x)} :: b < |f.blocks| && x in t.inn[b] ==> EntersLive(f, b, x))
    && (forall b: nat :: b < |f.blocks| ==>
           |t.names[b]| == |f.blocks[b]| && BlockNamed(t, b, f.blocks[b], multi) && PhisNamed(t, b))
    && (forall n: Ssa :: n in t.site ==> n >= base)
    && SubOk(t, sub)
    && (forall b: nat :: b < |f.blocks| ==> CurOwned(t.inn[b], t.site, multi))
    && (forall b: nat, x: Ssa, p: nat {:trigger HandedOver(f, multi, t, sub, b, x, p)} ::
          b < |f.blocks| && x in t.inn[b] && f.g.Edge(p, b) ==> HandedOver(f, multi, t, sub, b, x, p))
  }

  // ---- running ----

  type Env<!V> = Ssa -> V

  /** The environment after the values `w` have been given to `ds`. */
  ghost function Define<V>(env: Env<V>, ds: seq<Ssa>, w: nat -> V): Env<V>
    decreases |ds|
  {
    if ds == [] then env
    else
      var before := Define(env, ds[..|ds| - 1], w);
      (y: Ssa) => if y == ds[|ds| - 1] then w(|ds| - 1) else before(y)
  }

  /** What is written by one instruction, and at one step of a path. */
  ghost function OfInstr<V>(w: (nat, nat) -> V, ip: nat): nat -> V {
    (k: nat) => w(ip, k)
  }

  ghost function OfStep<V>(w: (nat, nat, nat) -> V, n: nat): (nat, nat) -> V {
    (ip: nat, k: nat) => w(n, ip, k)
  }

  /** The environment before instruction `ip` of a block entered with `env`; `w` gives the values
      the definitions write. */
  ghost function Within<V>(bb: Block, w: (nat, nat) -> V, env: Env<V>, ip: nat): Env<V>
    requires ip <= |bb|
  {
    if ip == 0 then env else Define(Within(bb, w, env, ip - 1), bb[ip - 1].Defs(), OfInstr(w, ip - 1))
  }

  /** The same for the renamed block. */
  ghost function WithinNew<V>(ns: seq<Names>, w: (nat, nat) -> V, env: Env<V>, ip: nat): Env<V>
    requires ip <= |ns|
  {
    if ip == 0 then env else Define(WithinNew(ns, w, env, ip - 1), ns[ip - 1].defs, OfInstr(w, ip - 1))
  }

  /** The phis of a block take their values from the predecessor, all at once. */
  ghost function TakePhis<V>(phis: seq<PhiTracker>, sub: Ssa -> Ssa, p: nat, from: Env<V>, env: Env<V>): Env<V>
    decreases |phis|
  {
    if phis == [] then env
    else
      var ph := phis[|phis| - 1];
      var before := TakePhis(phis[..|phis| - 1], sub, p, from, env);
      (y: Ssa) => if y == ph.dst && p in ph.srcs then from(sub(ph.srcs[p])) else before(y)
  }

  /** The environment on entry to step `n` of a path; `w(n, ip, k)` is what definition `k` of
      instruction `ip` writes at that step. */
  ghost function At<V>(f: Function, w: (nat, nat, nat) -> V, env: Env<V>, path: seq<nat>, n: nat): Env<V>
    requires n < |path| && forall i :: 0 <= i < |path| ==> path[i] < |f.blocks|
  {
    if n == 0 then env
    else
      var b := path[n - 1];
      Within(f.blocks[b], OfStep(w, n - 1), At(f, w, env, path, n - 1), |f.blocks[b]|)
  }

  ghost function AtNew<V>(t: Track, sub: Ssa -> Ssa, w: (nat, nat, nat) -> V, env: Env<V>, path: seq<nat>,
                          n: nat): Env<V>
    requires n < |path| && |t.phis| == |t.names| && forall i :: 0 <= i < |path| ==> path[i] < |t.names|
  {
    if n == 0 then env
    else
      var b := path[n - 1];
      var end := WithinNew(t.names[b], OfStep(w, n - 1), AtNew(t, sub, w, env, path, n - 1), |t.names[b]|);
      TakePhis(t.phis[path[n]], sub, b, end, end)
  }

  // ---- names hold the last definition ----

  /** The variables defined once some instructions of a block have run. */
  ghost function KnownIn(bb: Block, known: set<Ssa>, ip: nat): set<Ssa>
    requires ip <= |bb|
  {
    if ip == 0 then known else KnownIn(bb, known, ip - 1) + Items(bb[ip - 1].Defs())
  }

  /** The variables defined on the way to step `n` of a path. */
  ghost function KnownAt(f: Function, path: seq<nat>, n: nat): set<Ssa>
    requires n < |path| && forall i :: 0 <= i < |path| ==> path[i] < |f.blocks|
  {
    if n == 0 then {} else KnownIn(f.blocks[path[n - 1]], KnownAt(f, path, n - 1), |f.blocks[path[n - 1]]|)
  }

  /** Current names of variables defined so far hold what the variables hold, and variables that
      were not renamed agree. */
  ghost predicate Agree<V(!new)>(cur: map<Ssa, Ssa>, sub: Ssa -> Ssa, multi: set<Ssa>, base: nat, known: set<Ssa>,
                          old_: Env<V>, new_: Env<V>) {
    && (forall x: Ssa :: x in cur && x in known ==> new_(sub(cur[x])) == old_(x))
    && (forall x: Ssa :: x < base && x !in multi ==> new_(x) == old_(x))
  }

  ghost predicate CurOwned(cur: map<Ssa, Ssa>, site: map<Ssa, Site>, multi: set<Ssa>) {
    forall x :: x in cur ==> x in multi && Owned(site, cur[x], x)
  }

  /** The new name `n` of a definition of `x`. */
  ghost predicate NewName(site: map<Ssa, Site>, multi: set<Ssa>, x: Ssa, n: Ssa) {
    if x in multi then n in site && site[n].DefSite? && site[n].x == x else n == x
  }

  ghost predicate DefsOk(site: map<Ssa, Site>, multi: set<Ssa>, ds: seq<Ssa>, ns: seq<Ssa>) {
    |ds| == |ns| && forall k :: 0 <= k < |ds| ==> NewName(site, multi, ds[k], ns[k])
  }

  lemma {:induction false} BindOwned(cur: map<Ssa, Ssa>, site: map<Ssa, Site>, multi: set<Ssa>, ds: seq<Ssa>,
                                     ns: seq<Ssa>)
    requires CurOwned(cur, site, multi) && DefsOk(site, multi, ds, ns)
    ensures CurOwned(Bind(cur, ds, ns, multi), site, multi)
    decreases |ds|
  {
    if ds != [] {
      BindOwned(cur, site, multi, ds[..|ds| - 1], ns[..|ns| - 1]);
      assert NewName(site, multi, ds[|ds| - 1], ns[|ns| - 1]);
    }
  }

  /** One more definition. */
  lemma {:induction false} DefineOne<V(!new)>(t: Track, sub: Ssa -> Ssa, multi: set<Ssa>, base: nat, cur: map<Ssa, Ssa>,
                                              known: set<Ssa>, x: Ssa, n: Ssa, v: V, old_: Env<V>, new_: Env<V>,
                                                old': Env<V>, new': Env<V>)
    requires SubOk(t, sub) && (forall n: Ssa :: n in t.site ==> n >= base) && x < base
    requires CurOwned(cur, t.site, multi) && NewName(t.site, multi, x, n)
    requires Agree(cur, sub, multi, base, known, old_, new_)
    requires forall y: Ssa :: old'(y) == (if y == x then v else old_(y)) && new'(y) == (if y == n then v else new_(y))
    ensures Agree(if x in multi then cur[x := n] else cur, sub, multi, base, known + {x}, old', new')
  {
    var cur' := if x in multi then cur[x := n] else cur;
    forall y | y in cur' && y in known + {x} ensures new'(sub(cur'[y])) == old'(y) {
      assert SubAt(t.site, sub, cur'[y]);
      if y != x {
        assert Owned(t.site, cur[y], y);
      }
    }
  }

  lemma {:induction false} DefineAgrees<V(!new)>(t: Track, sub: Ssa -> Ssa, multi: set<Ssa>, base: nat,
                                          cur: map<Ssa, Ssa>,
                                                 known: set<Ssa>, ds: seq<Ssa>, ns: seq<Ssa>, w: nat -> V, old_: Env<V>,
                                                   new_: Env<V>)
    requires SubOk(t, sub) && (forall n: Ssa :: n in t.site ==> n >= base)
    requires forall k :: 0 <= k < |ds| ==> ds[k] < base
    requires CurOwned(cur, t.site, multi) && DefsOk(t.site, multi, ds, ns)
    requires Agree(cur, sub, multi, base, known, old_, new_)
    ensures Agree(Bind(cur, ds, ns, multi), sub, multi, base, known + Items(ds), Define(old_, ds, w),
                  Define(new_, ns, w))
    decreases |ds|
  {
    if ds != [] {
      var last := |ds| - 1;
      var ds', ns' := ds[..last], ns[..last];
      DefineAgrees(t, sub, multi, base, cur, known, ds', ns', w, old_, new_);
      BindOwned(cur, t.site, multi, ds', ns');
      assert NewName(t.site, multi, ds[last], ns[last]);
      assert ds == ds' + [ds[last]];
      assert known + Items(ds) == known + Items(ds') + {ds[last]};
      DefineOne(t, sub, multi, base, Bind(cur, ds', ns', multi), known + Items(ds'), ds[last], ns[last], w(last),
                Define(old_, ds', w), Define(new_, ns', w), Define(old_, ds, w), Define(new_, ns, w));
    } else {
      assert known + Items(ds) == known;
    }
  }

  /** Every variable of the function is older than the new names. */
  ghost predicate Older(f: Function, base: nat) {
    forall b, ip, x ::
      0 <= b < |f.blocks| && 0 <= ip < |f.blocks[b]| && (x in f.blocks[b][ip].uses || x in f.blocks[b][ip].Defs()) ==>
      x < base
  }

  lemma {:induction false} InstrDefsOk(t: Track, b: nat, bb: Block, multi: set<Ssa>, ip: nat)
    requires b < |t.names| && b < |t.inn| && BlockNamed(t, b, bb, multi) && ip < |t.names[b]|
    ensures DefsOk(t.site, multi, bb[ip].Defs(), t.names[b][ip].defs)
  {
    forall k | 0 <= k < |bb[ip].Defs()| ensures NewName(t.site, multi, bb[ip].Defs()[k], t.names[b][ip].defs[k]) {
      assert DefOk(t.site, b, bb, t.names[b], multi, ip, k);
    }
  }

  lemma {:induction false} CurIsOwned(t: Track, b: nat, bb: Block, multi: set<Ssa>, ip: nat)
    requires b < |t.names| && b < |t.inn| && BlockNamed(t, b, bb, multi) && CurOwned(t.inn[b], t.site, multi)
    requires ip <= |t.names[b]|
    ensures CurOwned(Cur(t.inn[b], bb, t.names[b], multi, ip), t.site, multi)
  {
    if ip > 0 {
      CurIsOwned(t, b, bb, multi, ip - 1);
      InstrDefsOk(t, b, bb, multi, ip - 1);
      BindOwned(Cur(t.inn[b], bb, t.names[b], multi, ip - 1), t.site, multi, bb[ip - 1].Defs(),
                t.names[b][ip - 1].defs);
    }
  }

  /** One instruction. */
  lemma {:induction false} InstrAgrees<V(!new)>(f: Function, multi: set<Ssa>, base: nat, t: Track, sub: Ssa -> Ssa,
                                         b: nat, ip: nat,
                                                w: nat -> V, known: set<Ssa>, old_: Env<V>, new_: Env<V>)
    requires Repaired(f, multi, base, t, sub) && Older(f, base) && b < |f.blocks| && 0 < ip <= |f.blocks[b]|
    requires Shaped(f.blocks[b], t.names[b]) && ip <= |t.names[b]|
    requires Agree(Cur(t.inn[b], f.blocks[b], t.names[b], multi, ip - 1), sub, multi, base, known, old_, new_)
    ensures Agree(Cur(t.inn[b], f.blocks[b], t.names[b], multi, ip), sub, multi, base,
                  known + Items(f.blocks[b][ip - 1].Defs()),
                  Define(old_, f.blocks[b][ip - 1].Defs(), w), Define(new_, t.names[b][ip - 1].defs, w))
  {
    var bb, ns := f.blocks[b], t.names[b];
    assert BlockNamed(t, b, bb, multi);
    InstrDefsOk(t, b, bb, multi, ip - 1);
    CurIsOwned(t, b, bb, multi, ip - 1);
    var ds := bb[ip - 1].Defs();
    forall k | 0 <= k < |ds| ensures ds[k] < base { assert ds[k] in bb[ip - 1].Defs(); }
    DefineAgrees(t, sub, multi, base, Cur(t.inn[b], bb, ns, multi, ip - 1), known, ds, ns[ip - 1].defs, w, old_, new_);
  }

  lemma {:induction false} WithinAgrees<V(!new)>(f: Function, multi: set<Ssa>, base: nat, t: Track, sub: Ssa -> Ssa,
                                          b: nat, w: (nat, nat) -> V, known: set<Ssa>, old_: Env<V>, new_: Env<V>,
                                                   ip: nat)
    requires Repaired(f, multi, base, t, sub) && Older(f, base) && b < |f.blocks| && ip <= |f.blocks[b]|
    requires Agree(t.inn[b], sub, multi, base, known, old_, new_)
    ensures Shaped(f.blocks[b], t.names[b]) && |t.names[b]| == |f.blocks[b]|
    ensures Agree(Cur(t.inn[b], f.blocks[b], t.names[b], multi, ip), sub, multi, base, KnownIn(f.blocks[b], known, ip),
                  Within(f.blocks[b], w, old_, ip), WithinNew(t.names[b], w, new_, ip))
  {
    var bb := f.blocks[b];
    assert BlockNamed(t, b, bb, multi);
    if ip > 0 {
      WithinAgrees(f, multi, base, t, sub, b, w, known, old_, new_, ip - 1);
      InstrAgrees(f, multi, base, t, sub, b, ip, OfInstr(w, ip - 1), KnownIn(bb, known, ip - 1),
                  Within(bb, w, old_, ip - 1), WithinNew(t.names[b], w, new_, ip - 1));
    }
  }

  /** What the phis do to one name. */
  lemma {:induction false} TakePhisAt<V(!new)>(phis: seq<PhiTracker>, sub: Ssa -> Ssa, p: nat, from: Env<V>,
                                        env: Env<V>, y: Ssa)
    ensures (forall i :: 0 <= i < |phis| ==> phis[i].dst != y) ==> TakePhis(phis, sub, p, from, env)(y) == env(y)
    ensures forall i ::
      0 <= i < |phis| && phis[i].dst == y && p in phis[i].srcs && (forall j :: i < j < |phis| ==> phis[j].dst != y) ==>
      TakePhis(phis, sub, p, from, env)(y) == from(sub(phis[i].srcs[p]))
    decreases |phis|
  {
    if phis != [] {
      TakePhisAt(phis[..|phis| - 1], sub, p, from, env, y);
    }
  }

  /** Across an edge the names at the head of the block hold what the variables hold. */
  lemma {:induction false} EdgeAgrees<V(!new)>(f: Function, multi: set<Ssa>, base: nat, t: Track, sub: Ssa -> Ssa,
                                        p: nat, b: nat, known: set<Ssa>,
                                                old_: Env<V>, new_: Env<V>)
    requires Repaired(f, multi, base, t, sub) && f.g.Edge(p, b) && Shaped(f.blocks[p], t.names[p])
    requires Agree(Out(f, multi, t, p), sub, multi, base, known, old_, new_)
    ensures Agree(t.inn[b], sub, multi, base, known, old_, TakePhis(t.phis[b], sub, p, new_, new_))
  {
    var phis := t.phis[b];
    assert PhisNamed(t, b);
    var new' := TakePhis(phis, sub, p, new_, new_);
    forall x | x in t.inn[b] && x in known ensures new'(sub(t.inn[b][x])) == old_(x) {
      assert HandedOver(f, multi, t, sub, b, x, p);
      TakePhisAt(phis, sub, p, new_, new_, sub(t.inn[b][x]));
      var i := PhiIndex(phis, x);
      if i < |phis| {
        assert sub(phis[i].dst) == phis[i].dst;
        forall j | i < j < |phis| ensures phis[j].dst != phis[i].dst {
          assert t.site[phis[j].dst].x != t.site[phis[i].dst].x;
        }
      } else {
        assert SubAt(t.site, sub, t.inn[b][x]);
        forall j | 0 <= j < |phis| ensures phis[j].dst != sub(t.inn[b][x]) { assert t.site[phis[j].dst].x != x; }
      }
    }
    forall x: Ssa | x < base && x !in multi ensures new'(x) == old_(x) {
      TakePhisAt(phis, sub, p, new_, new_, x);
      assert forall j :: 0 <= j < |phis| ==> phis[j].dst in t.site;
    }
  }

  /** A whole block and the edge behind it. */
  lemma {:induction false} BlockAgrees<V(!new)>(f: Function, multi: set<Ssa>, base: nat, t: Track, sub: Ssa -> Ssa,
                                         p: nat, b: nat,
                                                w: (nat, nat) -> V, known: set<Ssa>, old_: Env<V>, new_: Env<V>)
    requires Repaired(f, multi, base, t, sub) && Older(f, base) && p < |f.blocks| && f.g.Edge(p, b)
    requires Agree(t.inn[p], sub, multi, base, known, old_, new_)
    ensures var bb := f.blocks[p];
      var end, end' := Within(bb, w, old_, |bb|), WithinNew(t.names[p], w, new_, |t.names[p]|);
      Agree(t.inn[b], sub, multi, base, KnownIn(bb, known, |bb|), end, TakePhis(t.phis[b], sub, p, end', end'))
  {
    var bb := f.blocks[p];
    WithinAgrees(f, multi, base, t, sub, p, w, known, old_, new_, |bb|);
    EdgeAgrees(f, multi, base, t, sub, p, b, KnownIn(bb, known, |bb|), Within(bb, w, old_, |bb|),
               WithinNew(t.names[p], w, new_, |t.names[p]|));
  }

  lemma {:induction false} PathAgrees<V(!new)>(f: Function, multi: set<Ssa>, base: nat, t: Track, sub: Ssa -> Ssa,
                                               w: (nat, nat, nat) -> V, env: Env<V>, path: seq<nat>, n: nat)
    requires Repaired(f, multi, base, t, sub) && Older(f, base) && IsPath(f.g, path, |f.blocks|) && n < |path|
    ensures Agree(t.inn[path[n]], sub, multi, base, KnownAt(f, path, n), At(f, w, env, path, n),
                  AtNew(t, sub, w, env, path, n))
  {
    if n > 0 {
      PathAgrees(f, multi, base, t, sub, w, env, path, n - 1);
      assert f.g.Edge(path[n - 1], path[n]);
      BlockAgrees(f, multi, base, t, sub, path[n - 1], path[n], OfStep(w, n - 1), KnownAt(f, path, n - 1),
                  At(f, w, env, path, n - 1), AtNew(t, sub, w, env, path, n - 1));
    }
  }

  /** The same within a block. */
  lemma {:induction false} UseReads<V(!new)>(f: Function, multi: set<Ssa>, base: nat, t: Track, sub: Ssa -> Ssa, b: nat,
                                             w: (nat, nat) -> V, known: set<Ssa>, old_: Env<V>, new_: Env<V>, ip: nat,
                                               k: nat)
    requires Repaired(f, multi, base, t, sub) && Older(f, base) && b < |f.blocks|
    requires Agree(t.inn[b], sub, multi, base, known, old_, new_) && ip < |f.blocks[b]| && k < |f.blocks[b][ip].uses|
    requires var x := f.blocks[b][ip].uses[k]; x in multi ==> x in KnownIn(f.blocks[b], known, ip)
    ensures |t.names[b]| == |f.blocks[b]| && k < |t.names[b][ip].uses|
    ensures WithinNew(t.names[b], w, new_, ip)(sub(t.names[b][ip].uses[k])) == Within(f.blocks[b], w, old_,
        ip)(f.blocks[b][ip].uses[k])
  {
    WithinAgrees(f, multi, base, t, sub, b, w, known, old_, new_, ip);
    assert BlockNamed(t, b, f.blocks[b], multi);
    assert UseOk(t.inn[b], f.blocks[b], t.names[b], multi, ip, k);
    var x := f.blocks[b][ip].uses[k];
    if x !in multi {
      assert x in f.blocks[b][ip].uses && x < base;
      assert SubAt(t.site, sub, x);
    }
  }

  /** Along every run, every use reads through its new name what the variable holds: the value
      written by the last definition of the old name, if there has been one. */
  lemma {:induction false} UsesReadTheSame<V(!new)>(f: Function, multi: set<Ssa>, base: nat, t: Track, sub: Ssa -> Ssa,
                                                    w: (nat, nat, nat) -> V, env: Env<V>, path: seq<nat>, n: nat,
                                                      ip: nat, k: nat)
    requires Repaired(f, multi, base, t, sub) && Older(f, base) && IsPath(f.g, path, |f.blocks|) && n < |path|
    requires ip < |f.blocks[path[n]]| && k < |f.blocks[path[n]][ip].uses|
    requires var x := f.blocks[path[n]][ip].uses[k]; x in multi ==>
      x in KnownIn(f.blocks[path[n]], KnownAt(f, path, n), ip)
    ensures |t.names[path[n]]| == |f.blocks[path[n]]| && k < |t.names[path[n]][ip].uses|
    ensures var wn := OfStep(w, n);
      WithinNew(t.names[path[n]], wn, AtNew(t, sub, w, env, path, n), ip)(sub(t.names[path[n]][ip].uses[k])) ==
      Within(f.blocks[path[n]], wn, At(f, w, env, path, n), ip)(f.blocks[path[n]][ip].uses[k])
  {
    PathAgrees(f, multi, base, t, sub, w, env, path, n);
    UseReads(f, multi, base, t, sub, path[n], OfStep(w, n), KnownAt(f, path, n), At(f, w, env, path, n),
             AtNew(t, sub, w, env, path, n), ip, k);
  }

  // ---- uses that some path reaches undefined ----

  lemma {:induction false} UnknownIn(bb: Block, known: set<Ssa>, ip: nat, x: Ssa)
    requires ip <= |bb| && x !in KnownIn(bb, known, ip)
    ensures x !in known && forall d: nat :: d < ip ==> !DefinedAt(bb, d, x)
  {
    if ip > 0 {
      UnknownIn(bb, known, ip - 1, x);
    }
  }

  lemma {:induction false} UnknownAt(f: Function, path: seq<nat>, n: nat, x: Ssa)
    requires IsPath(f.g, path, |f.blocks|) && n < |path| && x !in KnownAt(f, path, n)
    ensures forall i :: 0 <= i < n ==> !DefinedIn(f.blocks[path[i]], x)
  {
    if n > 0 {
      var bb := f.blocks[path[n - 1]];
      UnknownIn(bb, KnownAt(f, path, n - 1), |bb|, x);
      UnknownAt(f, path, n - 1, x);
    }
  }

  /** A variable that is not live into the entry has been defined wherever a run uses it. */
  lemma {:induction false} UsedIsKnown(f: Function, path: seq<nat>, n: nat, ip: nat, x: Ssa)
    requires IsPath(f.g, path, |f.blocks|) && n < |path| && UsedAt(f.blocks[path[n]], ip, x) && !LiveIn(f, 0, x)
    ensures x in KnownIn(f.blocks[path[n]], KnownAt(f, path, n), ip)
  {
    var bb := f.blocks[path[n]];
    if x !in KnownIn(bb, KnownAt(f, path, n), ip) {
      UnknownIn(bb, KnownAt(f, path, n), ip, x);
      UnknownAt(f, path, n, x);
      assert Exposed(bb, ip, x);
      var p := path[..n + 1];
      forall i | 0 <= i < |p| - 1 ensures f.g.Edge(p[i], p[i + 1]) && !DefinedIn(f.blocks[p[i]], x) {
        assert f.g.Edge(path[i + 1 - 1], path[i + 1]);
      }
      assert LivePath(f, p, x);
    }
  }
}
