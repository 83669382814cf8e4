/**
 When removing redundant phis meets one with no source but itself: exactly when a renamed
 variable has a region that collapses.
 */
module CircularPhis {
  import opened Basics
  import opened Cfgs
  import opened Programs
  import opened SsaForm
  import opened PhiDropping
  import opened PhiRegions
  import Repair = RepairSsa

  /** A renamed variable has a region without definitions that collapses. */
  ghost predicate CircularIn(f: Function, multi: set<Ssa>) {
    exists x: Ssa, s: set<nat> :: x in multi && Region(f, x, s) && Collapses(f.g, s)
  }

  // ---- through blocks that do not define the variable, and through those that do ----

  lemma {:induction false} BindPasses(m: map<Ssa, Ssa>, ds: seq<Ssa>, ns: seq<Ssa>, multi: set<Ssa>, x: Ssa)
    requires |ds| == |ns| && x !in ds && x in m
    ensures x in Bind(m, ds, ns, multi) && Bind(m, ds, ns, multi)[x] == m[x]
    decreases |ds|
  {
    if ds != [] {
      assert ds == ds[..|ds| - 1] + [ds[|ds| - 1]];
      BindPasses(m, ds[..|ds| - 1], ns[..|ns| - 1], multi, x);
    }
  }

  lemma {:induction false} CurPasses(inn: map<Ssa, Ssa>, bb: Block, ns: seq<Names>, multi: set<Ssa>, ip: nat, x: Ssa)
    requires Shaped(bb, ns) && ip <= |ns| && !DefinedIn(bb, x) && x in inn
    ensures x in Cur(inn, bb, ns, multi, ip) && Cur(inn, bb, ns, multi, ip)[x] == inn[x]
  {
    if ip > 0 {
      CurPasses(inn, bb, ns, multi, ip - 1, x);
      assert !DefinedAt(bb, ip - 1, x);
      BindPasses(Cur(inn, bb, ns, multi, ip - 1), bb[ip - 1].Defs(), ns[ip - 1].defs, multi, x);
    }
  }

  /** After a definition the name is that of a definition. */
  lemma {:induction false} BindDefines(m: map<Ssa, Ssa>, ds: seq<Ssa>, ns: seq<Ssa>, multi: set<Ssa>,
                                       site: map<Ssa, Site>, x: Ssa)
    requires DefsOk(site, multi, ds, ns) && x in multi
    requires x in ds || (x in m && m[x] in site && site[m[x]].DefSite?)
    ensures var m' := Bind(m, ds, ns, multi); x in m' && m'[x] in site && site[m'[x]].DefSite?
    decreases |ds|
  {
    if ds != [] {
      var last := |ds| - 1;
      assert ds == ds[..last] + [ds[last]];
      assert NewName(site, multi, ds[last], ns[last]);
      if ds[last] != x {
        BindDefines(m, ds[..last], ns[..last], multi, site, x);
      }
    }
  }

  lemma {:induction false} CurDefines(t: Track, b: nat, bb: Block, multi: set<Ssa>, ip: nat, x: Ssa, j: nat)
    requires b < |t.names| && b < |t.inn| && BlockNamed(t, b, bb, multi) && j < ip <= |t.names[b]|
    requires x in multi && DefinedAt(bb, j, x)
    ensures var m := Cur(t.inn[b], bb, t.names[b], multi, ip); x in m && m[x] in t.site && t.site[m[x]].DefSite?
  {
    InstrDefsOk(t, b, bb, multi, ip - 1);
    if j < ip - 1 {
      CurDefines(t, b, bb, multi, ip - 1, x, j);
    }
    BindDefines(Cur(t.inn[b], bb, t.names[b], multi, ip - 1), bb[ip - 1].Defs(), t.names[b][ip - 1].defs, multi,
                t.site, x);
  }

  /** A name handed over that is not a definition's has come in at the head of the block. */
  lemma {:induction false} OutPasses(f: Function, multi: set<Ssa>, base: nat, t: Track, sub: Ssa -> Ssa, p: nat, x: Ssa)
    requires Repaired(f, multi, base, t, sub) && p < |f.blocks| && x in multi && Shaped(f.blocks[p], t.names[p])
    requires x in Out(f, multi, t, p) && var n := Out(f, multi, t, p)[x]; !(n in t.site && t.site[n].DefSite?)
    ensures !DefinedIn(f.blocks[p], x) && x in t.inn[p] && Out(f, multi, t, p)[x] == t.inn[p][x]
  {
    var bb, ns := f.blocks[p], t.names[p];
    assert BlockNamed(t, p, bb, multi);
    if j: nat :| DefinedAt(bb, j, x) {
      CurDefines(t, p, bb, multi, |ns|, x, j);
    }
    CurKeys(t.inn[p], bb, ns, multi, |ns|, x);
    CurPasses(t.inn[p], bb, ns, multi, |ns|, x);
  }

  // ---- what a region has in place of a definition ----

  /** Without predecessors a block takes an undefined value. */
  ghost predicate GroundedAt(g: Cfg, inn: seq<map<Ssa, Ssa>>, site: map<Ssa, Site>, b: nat, x: Ssa) {
    b < |inn| && x in inn[b] && !HasPred(g, b) ==> inn[b][x] in site && site[inn[b][x]].UndefSite?
  }

  ghost predicate Grounded(g: Cfg, inn: seq<map<Ssa, Ssa>>, site: map<Ssa, Site>) {
    forall b: nat, x: Ssa :: GroundedAt(g, inn, site, b, x)
  }

  /** Block `r` has a phi for `x`, named `d`. */
  ghost predicate PhiAt(t: Track, r: nat, x: Ssa, d: Ssa) {
    r < |t.phis| && HasPhi(t.phis[r], x) && t.phis[r][PhiIndex(t.phis[r], x)].dst == d
  }

  /** The name at the head of block `h` is that of a phi in block `r`, which no settled grouping
      tells from `h`. */
  ghost predicate RootedIn(f: Function, t: Track, sub: Ssa -> Ssa, x: Ssa, s: set<nat>, h: nat, r: nat) {
    h < |t.inn| && x in t.inn[h] && r in s && PhiAt(t, r, x, sub(t.inn[h][x])) && Together(f.g, s, h, r)
  }

  ghost predicate Rooted(f: Function, t: Track, sub: Ssa -> Ssa, x: Ssa, s: set<nat>, h: nat) {
    exists r: nat :: RootedIn(f, t, sub, x, s, h, r)
  }

  /** In every region all names are those of remaining phis of the region. */
  ghost predicate AllRooted(f: Function, t: Track, sub: Ssa -> Ssa) {
    Grounded(f.g, t.inn, t.site) && forall x: Ssa, s: set<nat>, h: nat {:trigger Rooted(f, t, sub, x, s, h)} ::
      Region(f, x, s) && h in s && h < |t.inn| && x in t.inn[h] ==> Rooted(f, t, sub, x, s, h)
  }

  /** What a block of a region gets from one of its predecessors. */
  ghost predicate Hands(t: Track, sub: Ssa -> Ssa, x: Ssa, s: set<nat>, b: nat, p: nat) {
    && p in s && b < |t.inn| && p < |t.inn| && b < |t.phis| && x in t.inn[b] && x in t.inn[p]
    && if HasPhi(t.phis[b], x) then
         var ph := t.phis[b][PhiIndex(t.phis[b], x)];
         p in ph.srcs && sub(ph.srcs[p]) == sub(t.inn[p][x])
       else sub(t.inn[b][x]) == sub(t.inn[p][x])
  }

  lemma {:induction false} RegionHandsOver(f: Function, multi: set<Ssa>, base: nat, t: Track, sub: Ssa -> Ssa, x: Ssa,
                                           s: set<nat>, b: nat, p: nat)
    requires Repaired(f, multi, base, t, sub) && Region(f, x, s) && b in s && f.g.Edge(p, b) && x in t.inn[b]
    ensures Hands(t, sub, x, s, b, p)
  {
    var bb, ns := f.blocks[p], t.names[p];
    assert Fed(f, x, s, b) && BlockNamed(t, p, bb, multi);
    assert HandedOver(f, multi, t, sub, b, x, p);
    CurKeys(t.inn[p], bb, ns, multi, |ns|, x);
    CurPasses(t.inn[p], bb, ns, multi, |ns|, x);
  }

  ghost predicate PhisOk(t: Track) {
    |t.inn| == |t.phis| && forall b: nat {:trigger PhisNamed(t, b)} :: b < |t.phis| ==> PhisNamed(t, b)
  }

  ghost predicate AllHands(f: Function, t: Track, sub: Ssa -> Ssa) {
    |t.inn| == |t.phis| == f.g.len && forall x: Ssa, s: set<nat>, b: nat, p: nat {:trigger Hands(t, sub, x, s, b, p)} ::
      Region(f, x, s) && b in s && b < |t.inn| && x in t.inn[b] && f.g.Edge(p, b) ==> Hands(t, sub, x, s, b, p)
  }

  lemma {:induction false} RepairedHands(f: Function, multi: set<Ssa>, base: nat, t: Track, sub: Ssa -> Ssa)
    requires Repaired(f, multi, base, t, sub)
    ensures PhisOk(t) && AllHands(f, t, sub)
  {
    forall x: Ssa, s: set<nat>, b: nat, p: nat
      | Region(f, x, s) && b in s && b < |t.inn| && x in t.inn[b] && f.g.Edge(p, b)
      ensures Hands(t, sub, x, s, b, p)
    {
      RegionHandsOver(f, multi, base, t, sub, x, s, b, p);
    }
  }

  /** Two phis with one name are in one block. */
  lemma {:induction false} RootUnique(t: Track, x: Ssa, b: nat, c: nat, d: Ssa)
    requires PhisOk(t) && PhiAt(t, b, x, d) && PhiAt(t, c, x, d)
    ensures b == c
  {
    assert PhisNamed(t, b) && PhisNamed(t, c);
  }

  // ---- at first ----

  /** Without a phi the block is rooted where its predecessors are. */
  lemma {:induction false} PassRooted(f: Function, t: Track, sub: Ssa -> Ssa, x: Ssa, s: set<nat>, h: nat, a: nat,
                                      r: nat)
    requires PhisOk(t) && h in s && f.g.Edge(a, h) && RootedIn(f, t, sub, x, s, a, r) && h < |t.phis|
    requires !HasPhi(t.phis[h], x)
    requires forall p: nat {:trigger f.g.Edge(p, h)} :: f.g.Edge(p, h) ==>
      Hands(t, sub, x, s, h, p) && Rooted(f, t, sub, x, s, p)
    ensures Rooted(f, t, sub, x, s, h)
  {
    forall p: nat | f.g.Edge(p, h) ensures Together(f.g, s, p, r) {
      var q: nat :| RootedIn(f, t, sub, x, s, p, q);
      assert Hands(t, sub, x, s, h, a);
      RootUnique(t, x, q, r, sub(t.inn[h][x]));
    }
    TakenOver(f.g, s, a, h, r);
    assert RootedIn(f, t, sub, x, s, h, r);
  }

  /** Names pass without a phi only from earlier blocks. */
  ghost predicate PassesOn(f: Function, t: Track) {
    |t.inn| == |t.phis| && forall b: nat, x: Ssa, p: nat {:trigger f.g.Edge(p, b), HasPhi(t.phis[b], x)} ::
      b < |t.inn| && x in t.inn[b] && !HasPhi(t.phis[b], x) && f.g.Edge(p, b) ==> p < b
  }

  lemma {:induction false} RootedAtFirst(f: Function, t: Track, x: Ssa, s: set<nat>, h: nat)
    requires PhisOk(t) && AllHands(f, t, Same()) && PassesOn(f, t) && Region(f, x, s)
    requires h in s && h < |t.inn| && x in t.inn[h]
    ensures Rooted(f, t, Same(), x, s, h)
    decreases h
  {
    assert Fed(f, x, s, h) && PhisNamed(t, h);
    if HasPhi(t.phis[h], x) {
      assert RootedIn(f, t, Same(), x, s, h, h);
    } else {
      forall p: nat | f.g.Edge(p, h) ensures Hands(t, Same(), x, s, h, p) && Rooted(f, t, Same(), x, s, p) {
        assert Hands(t, Same(), x, s, h, p);
        RootedAtFirst(f, t, x, s, p);
      }
      var a: nat :| f.g.Edge(a, h);
      var r: nat :| RootedIn(f, t, Same(), x, s, a, r);
      PassRooted(f, t, Same(), x, s, h, a, r);
    }
  }

  lemma {:induction false} FirstFacts(f: Function, multi: set<Ssa>, base: nat, t: Track)
    requires Repair.Inv(f, multi, base, t)
    ensures Grounded(f.g, t.inn, t.site) && PassesOn(f, t)
  {
    forall b: nat, x: Ssa ensures GroundedAt(f.g, t.inn, t.site, b, x) {
      if b < |t.inn| && x in t.inn[b] { assert Repair.InOk(f, multi, t, b, x); }
    }
    forall b: nat, x: Ssa, p: nat | b < |t.inn| && x in t.inn[b] && !HasPhi(t.phis[b], x) && f.g.Edge(p, b)
      ensures p < b
    {
      assert Repair.InOk(f, multi, t, b, x);
    }
  }

  lemma {:induction false} AllRootedAtFirst(f: Function, multi: set<Ssa>, base: nat, t: Track)
    requires Repair.Inv(f, multi, base, t) && Repaired(f, multi, base, t, Same())
    ensures AllRooted(f, t, Same())
  {
    FirstFacts(f, multi, base, t);
    RepairedHands(f, multi, base, t, Same());
    forall x: Ssa, s: set<nat>, h: nat | Region(f, x, s) && h in s && h < |t.inn| && x in t.inn[h]
      ensures Rooted(f, t, Same(), x, s, h)
    {
      RootedAtFirst(f, t, x, s, h);
    }
  }

  // ---- while phis are dropped ----

  lemma {:induction false} AllRootedUpdate(f: Function, t: Track, sub: Ssa -> Ssa, b: nat, i: nat, ph': PhiTracker)
    requires AllRooted(f, t, sub) && b < |t.phis| && i < |t.phis[b]| && Updated(t.phis[b][i], sub, ph')
    ensures AllRooted(f, WithUpdate(t, b, i, ph'), sub)
  {
    var t' := WithUpdate(t, b, i, ph');
    forall x: Ssa, s: set<nat>, h: nat | Region(f, x, s) && h in s && h < |t'.inn| && x in t'.inn[h]
      ensures Rooted(f, t', sub, x, s, h)
    {
      assert Rooted(f, t, sub, x, s, h);
      RootedUpdate(f, t, sub, b, i, ph', x, s, h);
    }
  }

  lemma {:induction false} RootedUpdate(f: Function, t: Track, sub: Ssa -> Ssa, b: nat, i: nat, ph': PhiTracker, x: Ssa,
                                        s: set<nat>, h: nat)
    requires Rooted(f, t, sub, x, s, h) && b < |t.phis| && i < |t.phis[b]| && Updated(t.phis[b][i], sub, ph')
    ensures Rooted(f, WithUpdate(t, b, i, ph'), sub, x, s, h)
  {
    var r: nat :| RootedIn(f, t, sub, x, s, h, r);
    PhiIndexUpdate(t.phis[b], i, ph', x);
    assert PhiAt(WithUpdate(t, b, i, ph'), r, x, sub(t.inn[h][x]));
    assert RootedIn(f, WithUpdate(t, b, i, ph'), sub, x, s, h, r);
  }

  /** A predecessor whose name the phi of block `b` takes is with `b`, or with the block of the phi
      of that name. */
  lemma {:induction false} PredIsWith(f: Function, t: Track, sub: Ssa -> Ssa, x: Ssa, s: set<nat>, b: nat, p: nat,
                                      r: nat, v: Ssa, d: Ssa)
    requires PhisOk(t) && Hands(t, sub, x, s, b, p) && Rooted(f, t, sub, x, s, p)
    requires PhiAt(t, b, x, d) && PhiAt(t, r, x, v)
    requires var n := sub(t.phis[b][PhiIndex(t.phis[b], x)].srcs[p]); n == v || n == d
    ensures Together(f.g, s, p, r) || Together(f.g, s, p, b)
  {
    var q: nat :| RootedIn(f, t, sub, x, s, p, q);
    if sub(t.inn[p][x]) == v {
      RootUnique(t, x, q, r, v);
    } else {
      RootUnique(t, x, q, b, d);
    }
  }

  ghost predicate PredsReady(f: Function, t: Track, sub: Ssa -> Ssa, x: Ssa, s: set<nat>, b: nat) {
    forall p: nat {:trigger f.g.Edge(p, b)} :: f.g.Edge(p, b) ==>
      Hands(t, sub, x, s, b, p) && Rooted(f, t, sub, x, s, p)
  }

  /** Every source of the phi stands for `v` or `d`, that for `a` stands for `v`. */
  ghost predicate PhiTakes(ph: PhiTracker, sub: Ssa -> Ssa, a: nat, v: Ssa, d: Ssa) {
    a in ph.srcs && sub(ph.srcs[a]) == v && forall p :: p in ph.srcs ==> sub(ph.srcs[p]) == v || sub(ph.srcs[p]) == d
  }

  /** When the phi of block `b` is dropped for `v`, what was rooted in it is rooted in the phi named
      `v`: the predecessors of `b` are with `b` or with that phi's block. */
  lemma {:induction false} RootMoves(f: Function, t: Track, sub: Ssa -> Ssa, x: Ssa, s: set<nat>, b: nat, v: Ssa,
                                     d: Ssa, a: nat) returns (r: nat)
    requires PhisOk(t) && b in s && PhiAt(t, b, x, d) && f.g.Edge(a, b)
    requires PredsReady(f, t, sub, x, s, b)
    requires PhiTakes(t.phis[b][PhiIndex(t.phis[b], x)], sub, a, v, d)
    ensures r in s && PhiAt(t, r, x, v) && Together(f.g, s, b, r)
  {
    assert Hands(t, sub, x, s, b, a);
    r :| RootedIn(f, t, sub, x, s, a, r);
    forall p: nat | f.g.Edge(p, b) ensures Together(f.g, s, p, r) || Together(f.g, s, p, b) {
      PredIsWith(f, t, sub, x, s, b, p, r, v, d);
    }
    TakenOver(f.g, s, a, b, r);
  }

  lemma {:induction false} PhiAtWithout(t: Track, b: nat, i: nat, r: nat, x: Ssa, d: Ssa)
    requires PhisOk(t) && b < |t.phis| && i < |t.phis[b]| && PhiAt(t, r, x, d) && d != t.phis[b][i].dst
    ensures PhiAt(Without(t, b, i), r, x, d)
  {
    assert PhisNamed(t, b);
    PhiIndexWithout(t.phis[b], i, x);
    UniquePhi(t.phis[b], i);
  }

  lemma {:induction false} RootedDrop(f: Function, t: Track, sub: Ssa -> Ssa, b: nat, i: nat,
                                      v: Ssa, sub': Ssa -> Ssa, x: Ssa, s: set<nat>, h: nat)
    requires PhisOk(t) && AllHands(f, t, sub) && AllRooted(f, t, sub) && SrcsAreEdges(f, t.phis)
    requires b < |t.phis| && i < |t.phis[b]| && Redundant(t.phis[b][i], sub, v)
    requires Redirects(sub, t.phis[b][i].dst, v, sub')
    requires Region(f, x, s) && Rooted(f, t, sub, x, s, h)
    ensures Rooted(f, Without(t, b, i), sub', x, s, h)
  {
    var ph, t' := t.phis[b][i], Without(t, b, i);
    var r: nat :| RootedIn(f, t, sub, x, s, h, r);
    if sub(t.inn[h][x]) == ph.dst {
      var q := DroppedRoot(f, t, sub, b, i, v, x, s, r);
      PhiAtWithout(t, b, i, q, x, v);
      assert RootedIn(f, t', sub', x, s, h, q);
    } else {
      PhiAtWithout(t, b, i, r, x, sub(t.inn[h][x]));
      assert RootedIn(f, t', sub', x, s, h, r);
    }
  }

  lemma {:induction false} DroppedRoot(f: Function, t: Track, sub: Ssa -> Ssa, b: nat, i: nat, v: Ssa, x: Ssa,
                                       s: set<nat>, r: nat) returns (q: nat)
    requires PhisOk(t) && AllHands(f, t, sub) && AllRooted(f, t, sub) && SrcsAreEdges(f, t.phis)
    requires b < |t.phis| && i < |t.phis[b]| && Redundant(t.phis[b][i], sub, v)
    requires Region(f, x, s) && r in s && PhiAt(t, r, x, t.phis[b][i].dst)
    ensures q in s && PhiAt(t, q, x, v) && Together(f.g, s, r, q)
  {
    var ph := t.phis[b][i];
    SamePhi(t, b, i, x, r);
    PredsRooted(f, t, sub, x, s, b);
    var a: nat :| a in ph.srcs && sub(ph.srcs[a]) == v;
    q := RootMoves(f, t, sub, x, s, b, v, ph.dst, a);
  }

  lemma {:induction false} SamePhi(t: Track, b: nat, i: nat, x: Ssa, r: nat)
    requires PhisOk(t) && b < |t.phis| && i < |t.phis[b]| && PhiAt(t, r, x, t.phis[b][i].dst)
    ensures r == b && x == t.phis[b][i].orig && PhiIndex(t.phis[b], x) == i && x in t.inn[b]
  {
    assert PhisNamed(t, b) && PhisNamed(t, r);
    assert t.site[t.phis[b][i].dst] == PhiSite(b, t.phis[b][i].orig) && t.site[t.phis[b][i].dst] == PhiSite(r, x);
    UniquePhi(t.phis[b], i);
  }

  lemma {:induction false} PredsRooted(f: Function, t: Track, sub: Ssa -> Ssa, x: Ssa, s: set<nat>, b: nat)
    requires AllHands(f, t, sub) && AllRooted(f, t, sub) && Region(f, x, s) && b in s && b < |t.inn| && x in t.inn[b]
    ensures PredsReady(f, t, sub, x, s, b)
  {
    forall p: nat | f.g.Edge(p, b) ensures Hands(t, sub, x, s, b, p) && Rooted(f, t, sub, x, s, p) {
      assert Hands(t, sub, x, s, b, p);
    }
  }

  lemma {:induction false} AllRootedDrop(f: Function, t: Track, sub: Ssa -> Ssa, b: nat,
                                         i: nat, v: Ssa, sub': Ssa -> Ssa)
    requires PhisOk(t) && AllHands(f, t, sub) && AllRooted(f, t, sub) && SrcsAreEdges(f, t.phis)
    requires b < |t.phis| && i < |t.phis[b]| && Redundant(t.phis[b][i], sub, v)
    requires Redirects(sub, t.phis[b][i].dst, v, sub')
    ensures AllRooted(f, Without(t, b, i), sub')
  {
    var t' := Without(t, b, i);
    forall x: Ssa, s: set<nat>, h: nat | Region(f, x, s) && h in s && h < |t'.inn| && x in t'.inn[h]
      ensures Rooted(f, t', sub', x, s, h)
    {
      assert Rooted(f, t, sub, x, s, h);
      RootedDrop(f, t, sub, b, i, v, sub', x, s, h);
    }
  }

  // ---- a phi with no source but itself comes from a region that collapses ----

  /** The blocks where the name `d` stands for `x`. */
  ghost function Named(t: Track, sub: Ssa -> Ssa, x: Ssa, d: Ssa): set<nat> {
    set h: nat | h < |t.inn| && x in t.inn[h] && sub(t.inn[h][x]) == d
  }

  lemma {:induction false} NamedPred(f: Function, multi: set<Ssa>, base: nat, t: Track, sub: Ssa -> Ssa, b: nat, i: nat,
                                     h: nat, p: nat)
    requires Repaired(f, multi, base, t, sub) && b < |t.phis| && i < |t.phis[b]|
    requires OnlyName(t.phis[b][i], sub, {}, None)
    requires h in Named(t, sub, t.phis[b][i].orig, t.phis[b][i].dst) && f.g.Edge(p, h)
    ensures p in Named(t, sub, t.phis[b][i].orig, t.phis[b][i].dst) && !DefinedIn(f.blocks[p], t.phis[b][i].orig)
  {
    var ph, x, d := t.phis[b][i], t.phis[b][i].orig, t.phis[b][i].dst;
    assert PhisNamed(t, b) && PhisNamed(t, h) && BlockNamed(t, p, f.blocks[p], multi);
    assert CurOwned(t.inn[h], t.site, multi);
    assert HandedOver(f, multi, t, sub, h, x, p);
    UniquePhi(t.phis[b], i);
    var j := PhiIndex(t.phis[h], x);
    if j < |t.phis[h]| {
      assert sub(t.phis[h][j].dst) == t.phis[h][j].dst;
      assert t.site[t.phis[h][j].dst] == t.site[d];
    }
    var n := Out(f, multi, t, p)[x];
    assert sub(n) == d;
    assert SubAt(t.site, sub, n);
    OutPasses(f, multi, base, t, sub, p, x);
  }

  lemma {:induction false} NamedIsRegion(f: Function, multi: set<Ssa>, base: nat, t: Track, sub: Ssa -> Ssa, b: nat,
                                         i: nat)
    requires Repaired(f, multi, base, t, sub) && Grounded(f.g, t.inn, t.site) && b < |t.phis| && i < |t.phis[b]|
    requires OnlyName(t.phis[b][i], sub, {}, None)
    ensures var s := Named(t, sub, t.phis[b][i].orig, t.phis[b][i].dst); b in s && Region(f, t.phis[b][i].orig, s)
  {
    var x, s := t.phis[b][i].orig, Named(t, sub, t.phis[b][i].orig, t.phis[b][i].dst);
    assert PhisNamed(t, b) && sub(t.phis[b][i].dst) == t.phis[b][i].dst;
    assert b in s;
    forall h | h in s ensures Fed(f, x, s, h) {
      NamedIsFed(f, multi, base, t, sub, b, i, h);
    }
  }

  lemma {:induction false} NamedIsFed(f: Function, multi: set<Ssa>, base: nat, t: Track, sub: Ssa -> Ssa, b: nat,
                                      i: nat, h: nat)
    requires Repaired(f, multi, base, t, sub) && Grounded(f.g, t.inn, t.site) && b < |t.phis| && i < |t.phis[b]|
    requires OnlyName(t.phis[b][i], sub, {}, None)
    requires h in Named(t, sub, t.phis[b][i].orig, t.phis[b][i].dst)
    ensures Fed(f, t.phis[b][i].orig, Named(t, sub, t.phis[b][i].orig, t.phis[b][i].dst), h)
  {
    var x, s := t.phis[b][i].orig, Named(t, sub, t.phis[b][i].orig, t.phis[b][i].dst);
    assert PhisNamed(t, b) && GroundedAt(f.g, t.inn, t.site, h, x);
    assert EntersLive(f, h, x);
    assert SubAt(t.site, sub, t.inn[h][x]);
    forall p: nat | f.g.Edge(p, h) ensures p in s && p < |f.blocks| && !DefinedIn(f.blocks[p], x) {
      NamedPred(f, multi, base, t, sub, b, i, h, p);
    }
  }

  lemma {:induction false} NamedTogether(f: Function, t: Track, sub: Ssa -> Ssa, x: Ssa, s: set<nat>, b: nat, h: nat)
    requires PhisOk(t) && Rooted(f, t, sub, x, s, h) && h < |t.inn| && x in t.inn[h] && PhiAt(t, b, x, sub(t.inn[h][x]))
    ensures Together(f.g, s, h, b)
  {
    var r: nat :| RootedIn(f, t, sub, x, s, h, r);
    RootUnique(t, x, r, b, sub(t.inn[h][x]));
  }

  /** A region where one phi's name stands for the variable collapses. */
  lemma {:induction false} NamedCollapses(f: Function, t: Track, sub: Ssa -> Ssa, x: Ssa, d: Ssa, b: nat)
    requires PhisOk(t) && |f.blocks| == f.g.len && AllRooted(f, t, sub) && PhiAt(t, b, x, d)
    requires Region(f, x, Named(t, sub, x, d))
    ensures Collapses(f.g, Named(t, sub, x, d))
  {
    var s := Named(t, sub, x, d);
    forall h | h in s ensures Together(f.g, s, h, b) {
      assert Rooted(f, t, sub, x, s, h);
      NamedTogether(f, t, sub, x, s, b, h);
    }
    AllTogether(f.g, s, b);
    CollapsesIffInseparable(f, x, s);
  }

  lemma {:induction false} PhiIsAt(f: Function, multi: set<Ssa>, base: nat, t: Track, sub: Ssa -> Ssa, b: nat, i: nat)
    requires Repaired(f, multi, base, t, sub) && b < |t.phis| && i < |t.phis[b]|
    ensures t.phis[b][i].orig in multi && PhiAt(t, b, t.phis[b][i].orig, t.phis[b][i].dst)
  {
    assert PhisNamed(t, b) && CurOwned(t.inn[b], t.site, multi);
    UniquePhi(t.phis[b], i);
  }

  lemma {:induction false} CircularCause(f: Function, multi: set<Ssa>, base: nat, t: Track, sub: Ssa -> Ssa, b: nat,
                                         i: nat)
    requires Repaired(f, multi, base, t, sub) && AllRooted(f, t, sub) && b < |t.phis| && i < |t.phis[b]|
    requires OnlyName(t.phis[b][i], sub, {}, None)
    ensures CircularIn(f, multi)
  {
    var x, d := t.phis[b][i].orig, t.phis[b][i].dst;
    NamedIsRegion(f, multi, base, t, sub, b, i);
    PhiIsAt(f, multi, base, t, sub, b, i);
    RepairedHands(f, multi, base, t, sub);
    CircularFound(f, multi, t, sub, x, d, b);
  }

  lemma {:induction false} CircularFound(f: Function, multi: set<Ssa>, t: Track, sub: Ssa -> Ssa, x: Ssa, d: Ssa,
                                         b: nat)
    requires PhisOk(t) && |f.blocks| == f.g.len && AllRooted(f, t, sub) && PhiAt(t, b, x, d)
    requires Region(f, x, Named(t, sub, x, d)) && x in multi
    ensures CircularIn(f, multi)
  {
    NamedCollapses(f, t, sub, x, d, b);
  }

  // ---- and a region that collapses does not come through ----

  /** Blocks know the renamed variables that are live into them. */
  ghost predicate LiveKnown(f: Function, multi: set<Ssa>, t: Track) {
    forall b: nat, x: Ssa {:trigger EntersLive(f, b, x)} :: b < |t.inn| && x in multi && EntersLive(f, b, x) ==>
      x in t.inn[b]
  }

  lemma {:induction false} LiveIsKnown(f: Function, multi: set<Ssa>, base: nat, t: Track)
    requires Repair.Inv(f, multi, base, t) && Repair.CompleteBefore(f, t, |f.blocks|) && t.needs == {} == t.pending
    ensures LiveKnown(f, multi, t)
  {
    forall b: nat, x: Ssa | b < |t.inn| && x in multi && EntersLive(f, b, x) ensures x in t.inn[b] {
      var p :| LivePath(f, p, x) && p[0] == b;
      Repair.LiveIsKnown(f, multi, base, t, p, x);
    }
  }

  ghost function ByName(f: Function, t: Track, sub: Ssa -> Ssa, x: Ssa): Grouping
    requires |t.inn| == f.g.len
  {
    seq(f.g.len, h requires 0 <= h < f.g.len => if x in t.inn[h] then sub(t.inn[h][x]) else 0)
  }

  /** The phi of block `b` is needed, and stands for itself. */
  ghost predicate FirmAt(f: Function, t: Track, sub: Ssa -> Ssa, x: Ssa, b: nat)
    requires b < |t.phis| && b < |t.inn| && HasPhi(t.phis[b], x)
  {
    var ph := t.phis[b][PhiIndex(t.phis[b], x)];
    && Needed(ph, sub) && x in t.inn[b] && sub(t.inn[b][x]) == ph.dst
    && forall p: nat :: p in ph.srcs ==> f.g.Edge(p, b)
  }

  /** A phi that is needed has predecessors of different names. */
  lemma {:induction false} NeededIsTwo(f: Function, t: Track, sub: Ssa -> Ssa, x: Ssa, s: set<nat>, b: nat)
    requires |t.inn| == |t.phis| == f.g.len && b < f.g.len && x in t.inn[b] && HasPhi(t.phis[b], x)
    requires FirmAt(f, t, sub, x, b)
    requires forall p: nat {:trigger f.g.Edge(p, b)} :: f.g.Edge(p, b) ==> Hands(t, sub, x, s, b, p)
    ensures TwoOthers(f.g, ByName(f, t, sub, x), b)
  {
    var ph, group := t.phis[b][PhiIndex(t.phis[b], x)], ByName(f, t, sub, x);
    var p, q :| p in ph.srcs && q in ph.srcs && sub(ph.srcs[p]) != sub(ph.srcs[q]) && sub(ph.srcs[p]) != ph.dst &&
      sub(ph.srcs[q]) != ph.dst;
    assert f.g.Edge(p, b) && f.g.Edge(q, b);
    assert group[p] == sub(ph.srcs[p]) && group[q] == sub(ph.srcs[q]) && group[b] == ph.dst;
  }

  lemma {:induction false} PassIsOwn(f: Function, t: Track, sub: Ssa -> Ssa, x: Ssa, s: set<nat>, b: nat)
    requires |t.inn| == |t.phis| == f.g.len && b < f.g.len && x in t.inn[b] && !HasPhi(t.phis[b], x)
    requires forall p: nat {:trigger f.g.Edge(p, b)} :: f.g.Edge(p, b) ==> Hands(t, sub, x, s, b, p)
    ensures OnlyOwn(f.g, ByName(f, t, sub, x), b)
  {
    var group := ByName(f, t, sub, x);
    forall p: nat | f.g.Edge(p, b) ensures group[p] == group[b] {
      assert Hands(t, sub, x, s, b, p);
    }
  }

  /** Phis that are left are needed, and stand for themselves. */
  ghost predicate Firm(f: Function, t: Track, sub: Ssa -> Ssa) {
    SrcsAreEdges(f, t.phis) && AllNeeded(t.phis, sub, |t.phis|) && PhisOk(t) && AllHands(f, t, sub) && SubOk(t, sub)
  }

  lemma {:induction false} FirmPhi(f: Function, t: Track, sub: Ssa -> Ssa, x: Ssa, b: nat)
    requires Firm(f, t, sub) && b < |t.phis| == |t.inn| && HasPhi(t.phis[b], x)
    ensures FirmAt(f, t, sub, x, b)
  {
    var i := PhiIndex(t.phis[b], x);
    assert NoneRedundant(t.phis[b], sub, |t.phis[b]|) && PhisNamed(t, b);
    assert sub(t.phis[b][i].dst) == t.phis[b][i].dst;
  }

  /** Where there is a phi names meet, elsewhere they pass. */
  ghost predicate GroupedAt(g: Cfg, t: Track, group: Grouping, x: Ssa, b: nat)
    requires |t.phis| == g.len == |group|
  {
    b < g.len && if HasPhi(t.phis[b], x) then TwoOthers(g, group, b) else OnlyOwn(g, group, b)
  }

  /** Once no phi is redundant, the names at the heads of the blocks are a settled grouping. */
  lemma {:induction false} NamesSettled(f: Function, t: Track, sub: Ssa -> Ssa, x: Ssa, s: set<nat>, b: nat)
    requires Firm(f, t, sub) && Region(f, x, s) && b in s && b < |t.inn| && x in t.inn[b]
    ensures GroupedAt(f.g, t, ByName(f, t, sub, x), x, b)
  {
    forall p: nat | f.g.Edge(p, b) ensures Hands(t, sub, x, s, b, p) {
      assert Hands(t, sub, x, s, b, p);
    }
    if HasPhi(t.phis[b], x) {
      FirmPhi(f, t, sub, x, b);
      NeededIsTwo(f, t, sub, x, s, b);
    } else {
      PassIsOwn(f, t, sub, x, s, b);
    }
  }

  lemma {:induction false} NotCollapsing(f: Function, multi: set<Ssa>, t: Track, sub: Ssa -> Ssa, x: Ssa, s: set<nat>)
    requires Firm(f, t, sub) && AllRooted(f, t, sub) && LiveKnown(f, multi, t)
    requires x in multi && Region(f, x, s)
    ensures !Collapses(f.g, s)
  {
    var group := ByName(f, t, sub, x);
    forall b | b in s ensures b < |t.inn| && x in t.inn[b] && GroupedAt(f.g, t, group, x, b) {
      assert Fed(f, x, s, b) && EntersLive(f, b, x);
      NamesSettled(f, t, sub, x, s, b);
    }
    var h :| h in s;
    assert Rooted(f, t, sub, x, s, h);
    var r: nat :| RootedIn(f, t, sub, x, s, h, r);
    RegionInward(f, x, s);
    GroupedSeparate(f.g, t, s, group, x, r);
  }

  lemma {:induction false} GroupedSeparate(g: Cfg, t: Track, s: set<nat>, group: Grouping, x: Ssa, r: nat)
    requires Inward(g, s) && |t.phis| == g.len == |group| && r in s && r < g.len && HasPhi(t.phis[r], x)
    requires forall b {:trigger b in s} :: b in s ==> GroupedAt(g, t, group, x, b)
    ensures !Collapses(g, s)
  {
    TwoOthersSeparate(g, s, group, r);
  }

  lemma {:induction false} NothingCircular(f: Function, multi: set<Ssa>, base: nat, t: Track, sub: Ssa -> Ssa)
    requires Repaired(f, multi, base, t, sub) && AllRooted(f, t, sub) && LiveKnown(f, multi, t)
    requires SrcsAreEdges(f, t.phis) && AllNeeded(t.phis, sub, |t.phis|)
    ensures !CircularIn(f, multi)
  {
    RepairedHands(f, multi, base, t, sub);
    forall x: Ssa, s: set<nat> | x in multi && Region(f, x, s) ensures !Collapses(f.g, s) {
      NotCollapsing(f, multi, t, sub, x, s);
    }
  }
}
