/**
 SSA repair: definitions of a variable that has several get names of their own, and phis
 are placed on demand where their values meet.
 */
module RepairSsa {
  import opened Basics
  import opened Cfgs
  import opened Programs
  import opened SsaForm

  /** There is an entry block, and the graph and the code fit together. */
  ghost predicate Sound(f: Function) {
    |f.blocks| == f.g.len > 0 && Closed(f.g)
  }

  /** A renamed variable may be used undefined: some path from the entry to a use does not define
      it, and nothing leads back to the entry. */
  ghost predicate EntryUndefined(f: Function, multi: set<Ssa>) {
    !HasPred(f.g, 0) && exists x :: x in multi && LiveIn(f, 0, x)
  }

  // ---- what the search for names keeps ----

  /** Source `p` of a phi is the name at the end of block `p`. */
  ghost predicate SrcOk(t: Track, ph: PhiTracker, p: nat) {
    p in ph.srcs && p < |t.defs| && ph.orig in t.defs[p] && ph.srcs[p] == t.defs[p][ph.orig]
  }

  /** Sources of a phi are there for forward edges, and there or announced for back edges. */
  ghost predicate PhiOk(f: Function, t: Track, b: nat, ph: PhiTracker) {
    && (forall p: nat {:trigger SrcOk(t, ph, p)} :: p in ph.srcs ==> f.g.Edge(p, b) && SrcOk(t, ph, p))
    && (forall p: nat {:trigger f.g.Edge(p, b)} :: f.g.Edge(p, b) ==>
           p in ph.srcs || (p >= b && (p in t.needs || p in t.pending)))
  }

  /** Without a phi all predecessors come earlier and agree. */
  ghost predicate PassOk(f: Function, t: Track, b: nat, x: Ssa, v: Ssa) {
    forall p: nat {:trigger f.g.Edge(p, b)} :: f.g.Edge(p, b) ==>
      p < b && p < |t.defs| && x in t.defs[p] && t.defs[p][x] == v
  }

  /** Why block `b` has a phi with these sources: a predecessor is not laid out before it, or two
      sources differ. */
  ghost predicate Meets(f: Function, b: nat, srcs: map<nat, Ssa>) {
    || (exists p: nat :: p >= b && f.g.Edge(p, b))
    || (exists p: nat, q: nat :: p in srcs && q in srcs && srcs[p] != srcs[q])
  }

  ghost predicate InOk(f: Function, multi: set<Ssa>, t: Track, b: nat, x: Ssa)
    requires b < |t.inn| && b < |t.phis| && x in t.inn[b]
  {
    && x in multi && Owned(t.site, t.inn[b][x], x) && LiveIn(f, b, x)
    && (HasPred(f.g, b) || (b != 0 && t.site[t.inn[b][x]].UndefSite?))
    && if HasPhi(t.phis[b], x) then
         PhiOk(f, t, b, t.phis[b][PhiIndex(t.phis[b], x)]) && Meets(f, b, t.phis[b][PhiIndex(t.phis[b], x)].srcs)
       else PassOk(f, t, b, x, t.inn[b][x])
  }

  ghost predicate BlockOk(f: Function, multi: set<Ssa>, t: Track, b: nat)
    requires Sized(f, t) && b < |f.blocks|
  {
    && BlockNamed(t, b, f.blocks[b], multi) && PhisNamed(t, b)
    && t.defs[b] == Out(f, multi, t, b)
  }

  ghost predicate Inv(f: Function, multi: set<Ssa>, base: nat, t: Track) {
    && Sized(f, t)
    && (forall n: Ssa :: n in t.site <==> base <= n < t.next)
    && (forall p :: p in t.needs ==> p < |f.blocks|) && UndefsNamed(f, multi, t) && AllMade(t, Same())
    && (forall b: nat {:trigger BlockOk(f, multi, t, b)} :: b < |f.blocks| ==> BlockOk(f, multi, t, b))
    && (forall b: nat, x: Ssa {:trigger InOk(f, multi, t, b, x)} :: b < |f.blocks| && x in t.inn[b] ==>
           InOk(f, multi, t, b, x))
  }

  /** Block `q` learns the name `v` for `x` at its head. */
  ghost function Learned(t: Track, q: nat, x: Ssa, v: Ssa): Track
    requires q < |t.defs| && q < |t.inn|
  {
    var d: map<Ssa, Ssa> := t.defs[q][x := v];
    var i: map<Ssa, Ssa> := t.inn[q][x := v];
    t.(defs := t.defs[q := d], inn := t.inn[q := i])
  }

  /** Block `q` gets a phi for `x`, named by the next free name. */
  ghost function WithPhi(f: Function, t: Track, q: nat, x: Ssa, srcs: map<nat, Ssa>, backs: set<nat>): Track
    requires q < |t.phis|
  {
    t.(next := t.next + 1, site := t.site[t.next := PhiSite(q, x)], needs := t.needs + backs,
       phis := t.phis[q := t.phis[q] + [PhiTracker(x, t.next, srcs)]])
  }

  /** Names stay where they are when only phis, names of instructions and undefined values are added. */
  ghost predicate Adds(t: Track, t': Track) {
    && |t'.names| == |t.names| && |t'.phis| == |t.phis| && t.undefs <= t'.undefs
    && (forall b :: 0 <= b < |t.names| ==> t.names[b] <= t'.names[b])
    && (forall b, n :: 0 <= b < |t.phis| && PhiFor(t.phis[b], n) ==> PhiFor(t'.phis[b], n))
    && (forall n :: n in t.site ==> n in t'.site && t'.site[n] == t.site[n])
  }

  lemma {:induction false} MadeStays(t: Track, t': Track)
    requires AllMade(t, Same()) && Adds(t, t') && forall n :: n in t'.site && n !in t.site ==> Made(t', n)
    ensures AllMade(t', Same())
  {
    forall n: Ssa | n in t'.site ensures Made(t', n) {
      if n in t.site { assert Made(t, n); }
    }
  }

  // ---- learning a name keeps everything else ----

  lemma {:induction false} CurKeysGrow(inn: map<Ssa, Ssa>, bb: Block, ns: seq<Names>, multi: set<Ssa>, j: nat, ip: nat,
                                       x: Ssa)
    requires Shaped(bb, ns) && j <= ip <= |ns| && x in Cur(inn, bb, ns, multi, j)
    ensures x in Cur(inn, bb, ns, multi, ip)
  {
    CurKeys(inn, bb, ns, multi, j, x);
    CurKeys(inn, bb, ns, multi, ip, x);
  }

  lemma {:induction false} LearnedUses(inn: map<Ssa, Ssa>, bb: Block, ns: seq<Names>, multi: set<Ssa>, x: Ssa, v: Ssa,
                                       j: nat, k: nat)
    requires Shaped(bb, ns) && j < |ns| && k < |ns[j].uses| && x !in Cur(inn, bb, ns, multi, |ns|)
    requires UseOk(inn, bb, ns, multi, j, k)
    ensures UseOk(inn[x := v], bb, ns, multi, j, k)
  {
    if x in Cur(inn, bb, ns, multi, j) {
      CurKeysGrow(inn, bb, ns, multi, j, |ns|, x);
    }
    CurAdd(inn, bb, ns, multi, j, x, v);
  }

  lemma {:induction false} LearnedBlock(f: Function, multi: set<Ssa>, t: Track, q: nat, x: Ssa, v: Ssa)
    requires Sized(f, t) && q < |f.blocks| && BlockOk(f, multi, t, q) && x !in t.defs[q]
    ensures BlockOk(f, multi, Learned(t, q, x, v), q)
  {
    var bb, ns := f.blocks[q], t.names[q];
    var t' := Learned(t, q, x, v);
    CurAdd(t.inn[q], bb, ns, multi, |ns|, x, v);
    forall j: nat, k: nat | j < |ns| && k < |ns[j].uses| ensures UseOk(t'.inn[q], bb, ns, multi, j, k) {
      LearnedUses(t.inn[q], bb, ns, multi, x, v, j, k);
    }
    CurKeys(t.inn[q], bb, ns, multi, |ns|, x);
    forall i | 0 <= i < |t.phis[q]| ensures t.phis[q][i].orig != x {
      assert t.phis[q][i].orig in t.inn[q];
    }
    assert PhisNamed(t', q);
    assert forall j: nat, k: nat :: j < |ns| && k < |ns[j].defs| && DefOk(t.site, q, bb, ns, multi, j, k) ==>
      DefOk(t'.site, q, bb, ns, multi, j, k);
  }

  /** A block that did not change is still right when only new sites and other blocks' facts came. */
  lemma {:induction false} OtherBlock(f: Function, multi: set<Ssa>, t: Track, t': Track, b: nat)
    requires Sized(f, t) && Sized(f, t') && b < |f.blocks| && BlockOk(f, multi, t, b)
    requires t'.defs[b] == t.defs[b] && t'.inn[b] == t.inn[b] && t'.names[b] == t.names[b] && t'.phis[b] == t.phis[b]
    requires forall n :: n in t.site ==> n in t'.site && t'.site[n] == t.site[n]
    ensures BlockOk(f, multi, t', b)
  {
    var bb, ns := f.blocks[b], t.names[b];
    forall j: nat, k: nat | j < |ns| && k < |ns[j].uses| ensures UseOk(t'.inn[b], bb, ns, multi, j, k) {
      assert UseOk(t.inn[b], bb, ns, multi, j, k);
    }
    forall j: nat, k: nat | j < |ns| && k < |ns[j].defs| ensures DefOk(t'.site, b, bb, ns, multi, j, k) {
      assert DefOk(t.site, b, bb, ns, multi, j, k);
    }
  }

  /** Facts about a name at a block head survive when blocks only learn more. */
  ghost predicate Grown(t: Track, t': Track) {
    && |t'.defs| == |t.defs| && t.needs <= t'.needs && t.pending <= t'.pending
    && (forall n :: n in t.site ==> n in t'.site && t'.site[n] == t.site[n])
    && (forall b, x :: 0 <= b < |t.defs| && x in t.defs[b] ==> x in t'.defs[b] && t'.defs[b][x] == t.defs[b][x])
  }

  lemma {:induction false} InOkGrows(f: Function, multi: set<Ssa>, t: Track, t': Track, b: nat, x: Ssa)
    requires Grown(t, t') && b < |t.inn| == |t'.inn| && b < |t.phis| == |t'.phis| && x in t.inn[b]
    requires InOk(f, multi, t, b, x)
    requires x in t'.inn[b] && t'.inn[b][x] == t.inn[b][x]
    requires HasPhi(t'.phis[b], x) <==> HasPhi(t.phis[b], x)
    requires HasPhi(t.phis[b], x) ==> t'.phis[b][PhiIndex(t'.phis[b], x)] == t.phis[b][PhiIndex(t.phis[b], x)]
    ensures InOk(f, multi, t', b, x)
  {
    if HasPhi(t.phis[b], x) {
      var ph := t.phis[b][PhiIndex(t.phis[b], x)];
      forall p: nat | p in ph.srcs ensures f.g.Edge(p, b) && SrcOk(t', ph, p) {
        assert SrcOk(t, ph, p);
      }
    }
  }

  lemma {:induction false} PhiIndexAppend(phis: seq<PhiTracker>, ph: PhiTracker, y: Ssa)
    ensures y != ph.orig ==> (HasPhi(phis + [ph], y) <==> HasPhi(phis, y))
    ensures HasPhi(phis, y) ==>
      HasPhi(phis + [ph], y) && (phis + [ph])[PhiIndex(phis + [ph], y)] == phis[PhiIndex(phis, y)]
    ensures y == ph.orig && !HasPhi(phis, y) ==> HasPhi(phis + [ph], y) && (phis + [ph])[PhiIndex(phis + [ph], y)] == ph
  {
    var all := phis + [ph];
    var i, j := PhiIndex(phis, y), PhiIndex(all, y);
    assert forall k :: 0 <= k < |phis| ==> all[k] == phis[k];
    assert all[|phis|] == ph;
    assert i < |phis| ==> all[i].orig == y;
  }

  lemma {:induction false} NoPhiYet(f: Function, multi: set<Ssa>, base: nat, t: Track, q: nat, x: Ssa)
    requires Inv(f, multi, base, t) && q < |f.blocks| && x !in t.defs[q]
    ensures !HasPhi(t.phis[q], x) && x !in t.inn[q]
  {
    assert BlockOk(f, multi, t, q);
    CurKeys(t.inn[q], f.blocks[q], t.names[q], multi, |t.names[q]|, x);
  }

  /** What must be known before block `q` can learn a name for `x`. */
  ghost predicate Resolvable(f: Function, multi: set<Ssa>, t: Track, q: nat, x: Ssa) {
    && Sized(f, t) && q < |f.blocks| && x !in t.defs[q] && x in multi && LiveIn(f, q, x)
    && forall p: nat {:trigger f.g.Edge(p, q)} :: f.g.Edge(p, q) && p < q ==> x in t.defs[p]
  }

  /** All predecessors agree: their name is the block's. */
  lemma {:induction false} LearnPass(f: Function, multi: set<Ssa>, base: nat, t: Track, q: nat, x: Ssa, v: Ssa)
    requires Inv(f, multi, base, t) && Resolvable(f, multi, t, q, x) && Owned(t.site, v, x) && PassOk(f, t, q, x, v)
    requires HasPred(f.g, q) || (q != 0 && t.site[v].UndefSite?)
    ensures Inv(f, multi, base, Learned(t, q, x, v)) && Grown(t, Learned(t, q, x, v))
  {
    var t' := Learned(t, q, x, v);
    NoPhiYet(f, multi, base, t, q, x);
    MadeStays(t, t');
    forall b: nat | b < |f.blocks| ensures BlockOk(f, multi, t', b) {
      assert BlockOk(f, multi, t, b);
      if b == q { LearnedBlock(f, multi, t, q, x, v); } else { OtherBlock(f, multi, t, t', b); }
    }
    forall b: nat, y: Ssa | b < |f.blocks| && y in t'.inn[b] ensures InOk(f, multi, t', b, y) {
      if b == q && y == x {
        forall p: nat | f.g.Edge(p, q) ensures p < q && p < |t'.defs| && x in t'.defs[p] && t'.defs[p][x] == v {}
      } else {
        assert InOk(f, multi, t, b, y);
        InOkGrows(f, multi, t, t', b, y);
      }
    }
  }

  ghost predicate PhiReady(f: Function, t: Track, q: nat, x: Ssa, srcs: map<nat, Ssa>, backs: set<nat>) {
    && (forall p: nat {:trigger p in srcs} :: p in srcs ==>
           f.g.Edge(p, q) && p < q && p < |t.defs| && x in t.defs[p] && srcs[p] == t.defs[p][x])
    && (forall p: nat {:trigger f.g.Edge(p, q)} :: f.g.Edge(p, q) ==> if p < q then p in srcs else p in backs)
    && (forall p :: p in backs ==> p < |f.blocks|)
  }

  /** Otherwise the block gets a phi. */
  lemma {:induction false} LearnPhi(f: Function, multi: set<Ssa>, base: nat, t: Track, q: nat, x: Ssa,
                                    srcs: map<nat, Ssa>, backs: set<nat>)
    requires Inv(f, multi, base, t) && base <= t.next && Resolvable(f, multi, t, q, x)
    requires PhiReady(f, t, q, x, srcs, backs) && HasPred(f.g, q) && Meets(f, q, srcs)
    ensures var t' := Learned(WithPhi(f, t, q, x, srcs, backs), q, x, t.next); Inv(f, multi, base, t') && Grown(t, t')
  {
    var t' := Learned(WithPhi(f, t, q, x, srcs, backs), q, x, t.next);
    NoPhiYet(f, multi, base, t, q, x);
    assert t.next !in t.site;
    PhiMade(f, t, q, x, srcs, backs);
    forall b: nat | b < |f.blocks| ensures BlockOk(f, multi, t', b) {
      assert BlockOk(f, multi, t, b);
      LearnPhiBlock(f, multi, t, q, x, srcs, backs, b);
    }
    forall b: nat, y: Ssa | b < |f.blocks| && y in t'.inn[b] ensures InOk(f, multi, t', b, y) {
      assert (b != q || y != x) ==> InOk(f, multi, t, b, y);
      LearnPhiIn(f, multi, t, q, x, srcs, backs, b, y);
    }
  }

  lemma {:induction false} LearnPhiBlock(f: Function, multi: set<Ssa>, t: Track, q: nat, x: Ssa,
                                         srcs: map<nat, Ssa>, backs: set<nat>, b: nat)
    requires Sized(f, t) && q < |f.blocks| && x !in t.defs[q] && x !in t.inn[q] && t.next !in t.site
    requires b < |f.blocks| && BlockOk(f, multi, t, b)
    ensures BlockOk(f, multi, Learned(WithPhi(f, t, q, x, srcs, backs), q, x, t.next), b)
  {
    if b == q {
      LearnedPhiBlock(f, multi, t, q, x, srcs, backs);
    } else {
      OtherBlock(f, multi, t, Learned(WithPhi(f, t, q, x, srcs, backs), q, x, t.next), b);
    }
  }

  lemma {:induction false} LearnPhiIn(f: Function, multi: set<Ssa>, t: Track, q: nat, x: Ssa,
                                      srcs: map<nat, Ssa>, backs: set<nat>, b: nat, y: Ssa)
    requires Resolvable(f, multi, t, q, x) && !HasPhi(t.phis[q], x) && x !in t.inn[q] && t.next !in t.site
    requires PhiReady(f, t, q, x, srcs, backs) && HasPred(f.g, q) && Meets(f, q, srcs)
    requires b < |f.blocks| && ((b == q && y == x) || (y in t.inn[b] && InOk(f, multi, t, b, y)))
    ensures var t' := Learned(WithPhi(f, t, q, x, srcs, backs), q, x, t.next);
      y in t'.inn[b] && InOk(f, multi, t', b, y)
  {
    if b == q && y == x {
      LearnPhiHere(f, multi, t, q, x, srcs, backs);
    } else {
      LearnPhiElse(f, multi, t, q, x, srcs, backs, b, y);
    }
  }

  lemma {:induction false} PhiMade(f: Function, t: Track, q: nat, x: Ssa, srcs: map<nat, Ssa>, backs: set<nat>)
    requires Sized(f, t) && q < |f.blocks| && AllMade(t, Same()) && t.next !in t.site
    ensures AllMade(Learned(WithPhi(f, t, q, x, srcs, backs), q, x, t.next), Same())
  {
    var t' := Learned(WithPhi(f, t, q, x, srcs, backs), q, x, t.next);
    assert t'.phis[q][|t.phis[q]|].dst == t.next;
    forall b, n | 0 <= b < |t.phis| && PhiFor(t.phis[b], n) ensures PhiFor(t'.phis[b], n) {
      var i: nat :| i < |t.phis[b]| && t.phis[b][i].dst == n;
      assert t'.phis[b][i].dst == n;
    }
    MadeStays(t, t');
  }

  /** What was known elsewhere, or of other variables, still holds. */
  lemma {:induction false} LearnPhiElse(f: Function, multi: set<Ssa>, t: Track, q: nat, x: Ssa,
                                        srcs: map<nat, Ssa>, backs: set<nat>, b: nat, y: Ssa)
    requires Sized(f, t) && q < |f.blocks| && x !in t.defs[q] && x !in t.inn[q] && t.next !in t.site
    requires b < |f.blocks| && y in t.inn[b] && InOk(f, multi, t, b, y)
    ensures var t' := Learned(WithPhi(f, t, q, x, srcs, backs), q, x, t.next);
      y in t'.inn[b] && InOk(f, multi, t', b, y)
  {
    var t' := Learned(WithPhi(f, t, q, x, srcs, backs), q, x, t.next);
    if b == q {
      PhiIndexAppend(t.phis[q], PhiTracker(x, t.next, srcs), y);
    }
    InOkGrows(f, multi, t, t', b, y);
  }

  lemma {:induction false} LearnPhiHere(f: Function, multi: set<Ssa>, t: Track, q: nat, x: Ssa,
                                        srcs: map<nat, Ssa>, backs: set<nat>)
    requires Resolvable(f, multi, t, q, x) && !HasPhi(t.phis[q], x)
    requires PhiReady(f, t, q, x, srcs, backs) && HasPred(f.g, q) && Meets(f, q, srcs)
    ensures var t' := Learned(WithPhi(f, t, q, x, srcs, backs), q, x, t.next);
      x in t'.inn[q] && InOk(f, multi, t', q, x)
  {
    var ph := PhiTracker(x, t.next, srcs);
    PhiIndexAppend(t.phis[q], ph, x);
    NewPhiOk(f, Learned(WithPhi(f, t, q, x, srcs, backs), q, x, t.next), q, ph, backs);
  }

  lemma {:induction false} NewPhiOk(f: Function, t': Track, q: nat, ph: PhiTracker, backs: set<nat>)
    requires forall p: nat {:trigger p in ph.srcs} :: p in ph.srcs ==>
      f.g.Edge(p, q) && p < |t'.defs| && ph.orig in t'.defs[p] && ph.srcs[p] == t'.defs[p][ph.orig]
    requires forall p: nat {:trigger f.g.Edge(p, q)} :: f.g.Edge(p, q) ==> if p < q then p in ph.srcs else p in backs
    requires backs <= t'.needs
    ensures PhiOk(f, t', q, ph)
  {
  }

  lemma {:induction false} LearnedPhiBlock(f: Function, multi: set<Ssa>, t: Track, q: nat, x: Ssa, srcs: map<nat, Ssa>,
                                           backs: set<nat>)
    requires Sized(f, t) && q < |f.blocks| && BlockOk(f, multi, t, q) && x !in t.defs[q] && x !in t.inn[q]
    requires t.next !in t.site
    ensures BlockOk(f, multi, Learned(WithPhi(f, t, q, x, srcs, backs), q, x, t.next), q)
  {
    LearnedBlock(f, multi, t, q, x, t.next);
    var u, t' := Learned(t, q, x, t.next), Learned(WithPhi(f, t, q, x, srcs, backs), q, x, t.next);
    var bb, ns := f.blocks[q], t.names[q];
    forall j: nat, k: nat | j < |ns| && k < |ns[j].uses| ensures UseOk(t'.inn[q], bb, ns, multi, j, k) {
      assert UseOk(u.inn[q], bb, ns, multi, j, k);
    }
    forall j: nat, k: nat | j < |ns| && k < |ns[j].defs| ensures DefOk(t'.site, q, bb, ns, multi, j, k) {
      assert DefOk(u.site, q, bb, ns, multi, j, k);
    }
    forall i | 0 <= i < |t.phis[q]| ensures t.phis[q][i].orig != x && t'.phis[q][i] == t.phis[q][i] {
      assert t.phis[q][i].orig in t.inn[q];
    }
    assert PhisNamed(t', q);
  }

  // ---- the search ----

  /** What a search for `x` in blocks up to `bound` changes: those blocks may learn `x`, with or
      without a phi whose sources are forward edges; all else stays. */
  ghost predicate Searched(f: Function, t: Track, t': Track, x: Ssa, bound: nat) {
    && Grown(t, t') && t'.names == t.names && t.next <= t'.next && t'.pending == t.pending
    && |t'.defs| == |t'.inn| == |t'.phis| == |t.defs| == |t.inn| == |t.phis|
    && (t'.needs != t.needs ==> Unresolved(t', x) < Unresolved(t, x))
    && forall b: nat {:trigger SearchedAt(f, t, t', x, bound, b)} :: b < |t.defs| ==> SearchedAt(f, t, t', x, bound, b)
  }

  ghost predicate SearchedAt(f: Function, t: Track, t': Track, x: Ssa, bound: nat, b: nat)
    requires |t'.defs| == |t'.inn| == |t'.phis| == |t.defs| == |t.inn| == |t.phis| && b < |t.defs|
  {
    && (forall y :: y in t'.defs[b] && y != x ==> y in t.defs[b])
    && (x in t.defs[b] || b > bound ==> t'.defs[b] == t.defs[b] && t'.inn[b] == t.inn[b] && t'.phis[b] == t.phis[b])
    && t.phis[b] <= t'.phis[b]
    && (forall i, p :: |t.phis[b]| <= i < |t'.phis[b]| && p in t'.phis[b][i].srcs ==> p < b)
    && (|t.phis[b]| < |t'.phis[b]| ==> forall p: nat :: f.g.Edge(p, b) && p >= b ==> p in t'.needs)
  }

  /** The blocks that do not know `x` yet. */
  ghost function Unresolved(t: Track, x: Ssa): set<nat> {
    set q: nat | q < |t.defs| && x !in t.defs[q]
  }

  lemma {:induction false} GrownResolves(t: Track, t': Track, x: Ssa)
    requires Grown(t, t')
    ensures Unresolved(t', x) <= Unresolved(t, x)
  {
  }

  lemma {:induction false} SearchedRefl(f: Function, t: Track, x: Ssa, bound: nat)
    requires |t.defs| == |t.inn| == |t.phis|
    ensures Searched(f, t, t, x, bound)
  {
  }

  lemma {:induction false} SearchedTrans(f: Function, t: Track, t1: Track, t2: Track, x: Ssa, bound: nat)
    requires Searched(f, t, t1, x, bound) && Searched(f, t1, t2, x, bound)
    ensures Searched(f, t, t2, x, bound)
  {
    GrownResolves(t, t1, x);
    GrownResolves(t1, t2, x);
    forall b: nat | b < |t.defs| ensures SearchedAt(f, t, t2, x, bound, b) {
      assert SearchedAt(f, t, t1, x, bound, b) && SearchedAt(f, t1, t2, x, bound, b);
    }
  }

  lemma {:induction false} LearnedSearched(f: Function, t: Track, q: nat, x: Ssa, v: Ssa, bound: nat)
    requires Sized(f, t) && q < |t.defs| && q <= bound && x !in t.defs[q]
    ensures Searched(f, t, Learned(t, q, x, v), x, bound)
  {
  }

  lemma {:induction false} PhiSearched(f: Function, t: Track, q: nat, x: Ssa, srcs: map<nat, Ssa>, backs: set<nat>,
                                       bound: nat)
    requires Sized(f, t) && q < |t.defs| && q <= bound && x !in t.defs[q] && t.next !in t.site
    requires forall p :: p in srcs ==> p < q
    requires forall p: nat {:trigger f.g.Edge(p, q)} :: f.g.Edge(p, q) ==> if p < q then p in srcs else p in backs
    ensures Searched(f, t, Learned(WithPhi(f, t, q, x, srcs, backs), q, x, t.next), x, bound)
  {
    var t' := Learned(WithPhi(f, t, q, x, srcs, backs), q, x, t.next);
    assert q in Unresolved(t, x) && q !in Unresolved(t', x);
    forall b: nat | b < |t.defs| ensures SearchedAt(f, t, t', x, bound, b) {
      if b == q { assert t'.phis[q] == t.phis[q] + [PhiTracker(x, t.next, srcs)]; }
    }
  }

  lemma {:induction false} PhiPlaced(f: Function, multi: set<Ssa>, base: nat, t: Track, q: nat, x: Ssa,
                                     srcs: map<nat, Ssa>, backs: set<nat>, bound: nat)
    requires Inv(f, multi, base, t) && base <= t.next && Resolvable(f, multi, t, q, x)
    requires PhiReady(f, t, q, x, srcs, backs) && Meets(f, q, srcs)
    requires HasPred(f.g, q) && q <= bound
    ensures var t' := Learned(WithPhi(f, t, q, x, srcs, backs), q, x, t.next);
      Inv(f, multi, base, t') && Searched(f, t, t', x, bound)
  {
    LearnPhi(f, multi, base, t, q, x, srcs, backs);
    PhiSearched(f, t, q, x, srcs, backs, bound);
  }

  /** Blocks before `bound` have been named completely. */
  ghost predicate CompleteBefore(f: Function, t: Track, bound: nat)
    requires Sized(f, t)
  {
    forall p: nat :: p < bound && p < |f.blocks| ==> |t.names[p]| == |f.blocks[p]|
  }

  /** A predecessor that does not know `x` does not define it, so `x` is live into it too. */
  lemma {:induction false} LiveInPred(f: Function, multi: set<Ssa>, base: nat, t: Track, p: nat, q: nat, x: Ssa)
    requires Inv(f, multi, base, t) && f.g.Edge(p, q) && |t.names[p]| == |f.blocks[p]|
    requires x in multi && x !in t.defs[p] && LiveIn(f, q, x)
    ensures LiveIn(f, p, x)
  {
    assert BlockOk(f, multi, t, p);
    CurKeys(t.inn[p], f.blocks[p], t.names[p], multi, |t.names[p]|, x);
    ThroughLive(f, p, q, x);
  }

  lemma {:induction false} DefsOwned(f: Function, multi: set<Ssa>, base: nat, t: Track, p: nat, x: Ssa)
    requires Inv(f, multi, base, t) && p < |f.blocks| && x in t.defs[p]
    ensures Owned(t.site, t.defs[p][x], x) && x in multi
  {
    assert BlockOk(f, multi, t, p);
    forall y | y in t.inn[p] ensures y in multi && Owned(t.site, t.inn[p][y], y) {
      assert InOk(f, multi, t, p, y);
    }
    CurIsOwned(t, p, f.blocks[p], multi, |t.names[p]|);
  }

  /** An undefined value for `x` at the head of a block without predecessors. */
  ghost function WithUndef(t: Track, q: nat, x: Ssa): Track {
    t.(next := t.next + 1, site := t.site[t.next := UndefSite(q, x)], undefs := t.undefs + [(q, t.next)])
  }

  lemma {:induction false} UndefMade(f: Function, multi: set<Ssa>, t: Track, q: nat, x: Ssa)
    requires UndefsNamed(f, multi, t) && AllMade(t, Same()) && t.next !in t.site
    requires 0 < q < |f.blocks| && !HasPred(f.g, q) && x in multi && LiveIn(f, q, x)
    ensures UndefsNamed(f, multi, WithUndef(t, q, x)) && AllMade(WithUndef(t, q, x), Same())
  {
    var t' := WithUndef(t, q, x);
    forall i | 0 <= i < |t'.undefs| ensures UndefOk(f, multi, t', t'.undefs[i].0, t'.undefs[i].1) {
      if i < |t.undefs| { assert UndefOk(f, multi, t, t.undefs[i].0, t.undefs[i].1); }
    }
    assert t'.undefs[|t.undefs|] == (q, t.next);
    MadeStays(t, t');
  }

  lemma {:induction false} UndefKeeps(f: Function, multi: set<Ssa>, base: nat, t: Track, q: nat, x: Ssa)
    requires Inv(f, multi, base, t) && base <= t.next && Resolvable(f, multi, t, q, x) && 0 < q && !HasPred(f.g, q)
    ensures Inv(f, multi, base, WithUndef(t, q, x)) && Grown(t, WithUndef(t, q, x))
    ensures Owned(WithUndef(t, q, x).site, t.next, x)
  {
    var t' := WithUndef(t, q, x);
    assert t.next !in t.site;
    UndefMade(f, multi, t, q, x);
    forall b: nat | b < |f.blocks| ensures BlockOk(f, multi, t', b) {
      assert BlockOk(f, multi, t, b);
      OtherBlock(f, multi, t, t', b);
    }
    forall b: nat, y: Ssa | b < |f.blocks| && y in t'.inn[b] ensures InOk(f, multi, t', b, y) {
      assert InOk(f, multi, t, b, y);
      InOkGrows(f, multi, t, t', b, y);
    }
  }

  lemma {:induction false} UndefSearched(f: Function, t: Track, q: nat, x: Ssa, bound: nat)
    requires Sized(f, t) && q < |t.defs| && q <= bound && x !in t.defs[q] && t.next !in t.site
    ensures Searched(f, t, Learned(WithUndef(t, q, x), q, x, t.next), x, bound)
  {
  }

  /** The numbers below every waiting block that does not know `x`. */
  ghost function BelowWaiting(t: Track, x: Ssa, work: multiset<nat>): set<nat> {
    set k: nat | k < |t.defs| && Under(t, x, work, k)
  }

  ghost predicate Under(t: Track, x: Ssa, work: multiset<nat>, k: nat) {
    forall h :: h in work && h in Unresolved(t, x) ==> k < h
  }

  /** Adding a smaller waiting block moves the lower end down. */
  lemma {:induction false} BelowShrinks(t: Track, x: Ssa, work: multiset<nat>, work': multiset<nat>, top: nat, h: nat)
    requires work <= work' && h in work' && h in Unresolved(t, x) && h < top
    requires forall k :: k in work ==> top <= k
    requires top in Unresolved(t, x)
    ensures BelowWaiting(t, x, work') < BelowWaiting(t, x, work)
  {
    assert h in BelowWaiting(t, x, work) && h !in BelowWaiting(t, x, work');
    forall k | k in BelowWaiting(t, x, work') ensures k in BelowWaiting(t, x, work) {
      assert Under(t, x, work', k);
    }
  }

  /** Taking away a block that knows `x` does not. */
  lemma {:induction false} BelowSame(t: Track, x: Ssa, work: multiset<nat>, top: nat)
    requires top in work && top !in Unresolved(t, x)
    ensures BelowWaiting(t, x, work - multiset{top}) == BelowWaiting(t, x, work)
  {
  }

  lemma {:induction false} NoPreds(f: Function, q: nat)
    requires Sound(f) && q < |f.blocks|
    ensures HasPred(f.g, q) <==> f.g.Predecessors(q) != []
  {
    PredsAreEdges(f, q);
  }

  method Minimum(work: multiset<nat>) returns (m: nat)
    requires |work| > 0
    ensures m in work && forall h :: h in work ==> m <= h
  {
    m :| m in work;
    var todo := work;
    while |todo| > 0
      invariant m in work && todo <= work && forall h :: h in work ==> m <= h || h in todo
      decreases |todo|
    {
      var h :| h in todo;
      if h < m {
        m := h;
      }
      todo := todo[h := 0];
    }
  }

  // ---- naming the instructions of a block ----

  /** While block `c` is being named: phis have sources for forward edges only, and later
      blocks are untouched. */
  ghost predicate Forwards(t: Track, c: nat) {
    && |t.defs| == |t.inn| == |t.phis| == |t.names|
    && (forall q, i, p :: 0 <= q < |t.phis| && 0 <= i < |t.phis[q]| && p in t.phis[q][i].srcs ==> p < q)
    && (forall q :: c < q < |t.defs| ==> t.inn[q] == map[] && t.phis[q] == [] && t.defs[q] == map[] && t.names[q] == [])
  }

  lemma {:induction false} ForwardsSearched(f: Function, t: Track, t': Track, x: Ssa, c: nat)
    requires Forwards(t, c) && Searched(f, t, t', x, c)
    ensures Forwards(t', c)
  {
    forall q, i, p | 0 <= q < |t'.phis| && 0 <= i < |t'.phis[q]| && p in t'.phis[q][i].srcs ensures p < q {
      assert SearchedAt(f, t, t', x, c, q);
      if i < |t.phis[q]| { assert t'.phis[q][i] == t.phis[q][i]; }
    }
    forall q | c < q < |t'.defs| ensures t'.inn[q] == map[] && t'.phis[q] == [] && t'.defs[q] == map[] {
      assert SearchedAt(f, t, t', x, c, q);
    }
  }

  /** A use of a variable that the block does not know so far is exposed. */
  lemma {:induction false} UnknownIsLive(f: Function, multi: set<Ssa>, base: nat, t: Track, b: nat, x: Ssa)
    requires Inv(f, multi, base, t) && b < |f.blocks| && |t.names[b]| < |f.blocks[b]|
    requires x in multi && x in f.blocks[b][|t.names[b]|].uses && x !in t.defs[b]
    ensures LiveIn(f, b, x)
  {
    var bb, ip := f.blocks[b], |t.names[b]|;
    assert BlockOk(f, multi, t, b);
    CurKeys(t.inn[b], bb, t.names[b], multi, ip, x);
    assert UsedAt(bb, ip, x) && Exposed(bb, ip, x);
    UpwardUseLive(f, b, x);
  }

  ghost predicate UsesNamed(uses: seq<Ssa>, multi: set<Ssa>, cur: map<Ssa, Ssa>, us: seq<Ssa>, n: nat) {
    |us| == n <= |uses| && forall k :: 0 <= k < n ==>
      if uses[k] in multi then uses[k] in cur && us[k] == cur[uses[k]] else us[k] == uses[k]
  }

  /** The new names of the uses and definitions of the next instruction of block `b`. */
  ghost predicate NamesReady(f: Function, multi: set<Ssa>, t: Track, b: nat, ns: Names, site': map<Ssa, Site>)
    requires Sized(f, t) && b < |f.blocks| && |t.names[b]| < |f.blocks[b]|
  {
    var i, ip := f.blocks[b][|t.names[b]|], |t.names[b]|;
    && UsesNamed(i.uses, multi, t.defs[b], ns.uses, |i.uses|) && |ns.defs| == |i.Defs()|
    && (forall k :: 0 <= k < |i.Defs()| ==>
           if i.Defs()[k] in multi then ns.defs[k] in site' && site'[ns.defs[k]] == DefSite(b, ip, k, i.Defs()[k])
           else ns.defs[k] == i.Defs()[k])
    && (forall n :: n in t.site ==> n in site' && site'[n] == t.site[n])
    && (forall n :: n in site' && n !in t.site ==> DefinedBy(i.Defs(), b, ip, ns.defs, site'[n], n))
  }

  /** The name is that of a definition of instruction `ip` of block `b`. */
  ghost predicate DefinedBy(ds: seq<Ssa>, b: nat, ip: nat, ns: seq<Ssa>, s: Site, n: Ssa) {
    exists k: nat :: k < |ns| && k < |ds| && ns[k] == n && s == DefSite(b, ip, k, ds[k])
  }

  ghost function Named(f: Function, multi: set<Ssa>, t: Track, b: nat, ns: Names, next': nat,
                       site': map<Ssa, Site>): Track
    requires Sized(f, t) && b < |f.blocks| && |t.names[b]| < |f.blocks[b]|
    requires |ns.defs| == |f.blocks[b][|t.names[b]|].Defs()|
  {
    t.(defs := t.defs[b := Bind(t.defs[b], f.blocks[b][|t.names[b]|].Defs(), ns.defs, multi)],
       names := t.names[b := t.names[b] + [ns]], next := next', site := site')
  }

  lemma {:induction false} NamedBlock(f: Function, multi: set<Ssa>, t: Track, b: nat, ns: Names, next': nat,
                                      site': map<Ssa, Site>)
    requires Sized(f, t) && b < |f.blocks| && |t.names[b]| < |f.blocks[b]| && BlockOk(f, multi, t, b)
    requires NamesReady(f, multi, t, b, ns, site')
    ensures BlockOk(f, multi, Named(f, multi, t, b, ns, next', site'), b)
  {
    var t' := Named(f, multi, t, b, ns, next', site');
    var bb, old_, new_ := f.blocks[b], t.names[b], t'.names[b];
    var ip := |old_|;
    assert Shaped(bb, new_);
    forall j: nat | j <= ip ensures Cur(t.inn[b], bb, new_, multi, j) == Cur(t.inn[b], bb, old_, multi, j) {
      CurPrefix(t.inn[b], bb, old_, [ns], multi, j);
    }
    forall j: nat, k: nat | j < |new_| && k < |new_[j].uses| ensures UseOk(t'.inn[b], bb, new_, multi, j, k) {
      if j < ip { assert UseOk(t.inn[b], bb, old_, multi, j, k); }
    }
    forall j: nat, k: nat | j < |new_| && k < |new_[j].defs| ensures DefOk(t'.site, b, bb, new_, multi, j, k) {
      if j < ip { assert DefOk(t.site, b, bb, old_, multi, j, k); }
    }
    assert PhisNamed(t', b);
  }

  lemma {:induction false} InOkStays(f: Function, multi: set<Ssa>, t: Track, t': Track, b: nat, x: Ssa)
    requires b < |t.inn| == |t'.inn| && b < |t.phis| == |t'.phis| && x in t.inn[b] && InOk(f, multi, t, b, x)
    requires t'.inn[b] == t.inn[b] && t'.phis[b] == t.phis[b] && t'.needs == t.needs && t'.pending == t.pending
    requires |t'.defs| == |t.defs|
    requires forall n :: n in t.site ==> n in t'.site && t'.site[n] == t.site[n]
    requires forall p: nat :: p < b && p < |t.defs| ==> t'.defs[p] == t.defs[p]
    requires forall i, p :: 0 <= i < |t.phis[b]| && p in t.phis[b][i].srcs ==> p < b
    ensures InOk(f, multi, t', b, x)
  {
    if HasPhi(t.phis[b], x) {
      var ph := t.phis[b][PhiIndex(t.phis[b], x)];
      forall p: nat | p in ph.srcs ensures f.g.Edge(p, b) && SrcOk(t', ph, p) {
        assert SrcOk(t, ph, p);
      }
    }
  }

  lemma {:induction false} NamedMade(f: Function, multi: set<Ssa>, t: Track, b: nat, ns: Names, next': nat,
                                     site': map<Ssa, Site>)
    requires Sized(f, t) && UndefsNamed(f, multi, t) && AllMade(t, Same())
    requires b < |f.blocks| && |t.names[b]| < |f.blocks[b]| && NamesReady(f, multi, t, b, ns, site')
    ensures var t' := Named(f, multi, t, b, ns, next', site'); UndefsNamed(f, multi, t') && AllMade(t', Same())
  {
    var t' := Named(f, multi, t, b, ns, next', site');
    var i, ip := f.blocks[b][|t.names[b]|], |t.names[b]|;
    forall i | 0 <= i < |t'.undefs| ensures UndefOk(f, multi, t', t'.undefs[i].0, t'.undefs[i].1) {
      assert UndefOk(f, multi, t, t.undefs[i].0, t.undefs[i].1);
    }
    assert t'.names[b][ip] == ns;
    forall n | n in site' && n !in t.site ensures Made(t', n) {
      assert DefinedBy(i.Defs(), b, ip, ns.defs, site'[n], n);
    }
    MadeStays(t, t');
  }

  /** Naming the next instruction keeps everything. */
  lemma {:induction false} NameInstr(f: Function, multi: set<Ssa>, base: nat, t: Track, b: nat, ns: Names, next': nat,
                                     site': map<Ssa, Site>)
    requires Inv(f, multi, base, t) && Forwards(t, b) && b < |f.blocks| && |t.names[b]| < |f.blocks[b]|
    requires NamesReady(f, multi, t, b, ns, site')
    requires forall n: Ssa :: n in site' <==> base <= n < next'
    ensures Inv(f, multi, base, Named(f, multi, t, b, ns, next', site'))
    ensures Forwards(Named(f, multi, t, b, ns, next', site'), b)
  {
    var t' := Named(f, multi, t, b, ns, next', site');
    NamedMade(f, multi, t, b, ns, next', site');
    forall q: nat | q < |f.blocks| ensures BlockOk(f, multi, t', q) {
      assert BlockOk(f, multi, t, q);
      if q == b { NamedBlock(f, multi, t, b, ns, next', site'); } else { OtherBlock(f, multi, t, t', q); }
    }
    forall q: nat, x: Ssa | q < |f.blocks| && x in t'.inn[q] ensures InOk(f, multi, t', q, x) {
      assert InOk(f, multi, t, q, x);
      assert q <= b;
      InOkStays(f, multi, t, t', q, x);
    }
  }

  // ---- phi sources for back edges ----

  /** Phi `i` of block `s` takes `v` from block `b`. */
  ghost function WithSrc(t: Track, s: nat, i: nat, b: nat, v: Ssa): Track
    requires s < |t.phis| && i < |t.phis[s]|
  {
    var ph := t.phis[s][i];
    t.(phis := t.phis[s := t.phis[s][i := ph.(srcs := ph.srcs[b := v])]])
  }

  /** Giving a phi the source it lacks keeps everything. */
  lemma {:induction false} SetSrc(f: Function, multi: set<Ssa>, base: nat, t: Track, s: nat, i: nat, b: nat)
    requires Inv(f, multi, base, t) && f.g.Edge(b, s) && i < |t.phis[s]| && t.phis[s][i].orig in t.defs[b]
    ensures Inv(f, multi, base, WithSrc(t, s, i, b, t.defs[b][t.phis[s][i].orig]))
  {
    var ph, v := t.phis[s][i], t.defs[b][t.phis[s][i].orig];
    var ph' := ph.(srcs := ph.srcs[b := v]);
    var t' := WithSrc(t, s, i, b, v);
    SetSrcMade(t, s, i, b, v);
    forall q: nat | q < |f.blocks| ensures BlockOk(f, multi, t', q) {
      assert BlockOk(f, multi, t, q);
      if q == s { SetSrcBlock(f, multi, t, s, i, b, v); } else { OtherBlock(f, multi, t, t', q); }
    }
    forall q: nat, x: Ssa | q < |f.blocks| && x in t'.inn[q] ensures InOk(f, multi, t', q, x) {
      assert InOk(f, multi, t, q, x);
      if q == s { PhiIndexUpdate(t.phis[s], i, ph', x); }
      if q == s && PhiIndex(t.phis[s], x) == i {
        SetSrcPhi(f, t, t', s, ph, b, v);
        SetSrcMeets(f, t, s, ph, b, v);
      } else {
        InOkGrows(f, multi, t, t', q, x);
      }
    }
  }

  lemma {:induction false} SetSrcMade(t: Track, s: nat, i: nat, b: nat, v: Ssa)
    requires s < |t.phis| && i < |t.phis[s]| && AllMade(t, Same())
    ensures AllMade(WithSrc(t, s, i, b, v), Same())
  {
    var t' := WithSrc(t, s, i, b, v);
    forall q, n | 0 <= q < |t.phis| && PhiFor(t.phis[q], n) ensures PhiFor(t'.phis[q], n) {
      var j: nat :| j < |t.phis[q]| && t.phis[q][j].dst == n;
      assert t'.phis[q][j].dst == n;
    }
    MadeStays(t, t');
  }

  lemma {:induction false} SetSrcBlock(f: Function, multi: set<Ssa>, t: Track, s: nat, i: nat, b: nat, v: Ssa)
    requires Sized(f, t) && s < |f.blocks| && i < |t.phis[s]| && BlockOk(f, multi, t, s)
    ensures BlockOk(f, multi, WithSrc(t, s, i, b, v), s)
  {
  }

  lemma {:induction false} SetSrcPhi(f: Function, t: Track, t': Track, s: nat, ph: PhiTracker, b: nat, v: Ssa)
    requires PhiOk(f, t, s, ph) && f.g.Edge(b, s) && b < |t.defs| && ph.orig in t.defs[b] && v == t.defs[b][ph.orig]
    requires t'.defs == t.defs && t'.needs == t.needs && t'.pending == t.pending
    ensures PhiOk(f, t', s, ph.(srcs := ph.srcs[b := v]))
  {
    var ph' := ph.(srcs := ph.srcs[b := v]);
    forall p: nat | p in ph'.srcs ensures f.g.Edge(p, s) && SrcOk(t', ph', p) {
      if p != b { assert SrcOk(t, ph, p); }
    }
  }

  lemma {:induction false} SetSrcMeets(f: Function, t: Track, s: nat, ph: PhiTracker, b: nat, v: Ssa)
    requires PhiOk(f, t, s, ph) && Meets(f, s, ph.srcs) && b < |t.defs| && ph.orig in t.defs[b]
    requires v == t.defs[b][ph.orig]
    ensures Meets(f, s, ph.srcs[b := v])
  {
    if p: nat, q: nat :| p in ph.srcs && q in ph.srcs && ph.srcs[p] != ph.srcs[q] {
      assert SrcOk(t, ph, p) && SrcOk(t, ph, q);
      assert ph.srcs[b := v][p] == ph.srcs[p] && ph.srcs[b := v][q] == ph.srcs[q];
    }
  }

  /** All phis of block `s` have a source for `b`, or `b` will be looked at again. */
  ghost predicate FilledTo(t: Track, s: nat, b: nat, n: nat)
    requires s < |t.phis|
  {
    b in t.needs || forall i :: 0 <= i < n && i < |t.phis[s]| ==> b in t.phis[s][i].srcs
  }

  lemma {:induction false} FilledSearched(f: Function, t: Track, t': Track, x: Ssa, b: nat, s: nat)
    requires Searched(f, t, t', x, b) && f.g.Edge(b, s) && s <= b && s < |t.phis| && FilledTo(t, s, b, |t.phis[s]|)
    ensures FilledTo(t', s, b, |t'.phis[s]|)
  {
    assert SearchedAt(f, t, t', x, b, s);
    if b !in t'.needs {
      assert |t'.phis[s]| == |t.phis[s]| && t'.phis[s] == t.phis[s];
    }
  }

  /** The successors of `b` looked at so far. */
  ghost predicate FilledAll(f: Function, t: Track, b: nat, succs: seq<nat>, k: nat)
    requires k <= |succs|
  {
    forall j :: 0 <= j < k && succs[j] <= b && succs[j] < |t.phis| ==> FilledTo(t, succs[j], b, |t.phis[succs[j]]|)
  }

  lemma {:induction false} FilledStay(f: Function, t: Track, t1: Track, x: Ssa, b: nat, succs: seq<nat>, k: nat)
    requires Searched(f, t, t1, x, b) && k <= |succs| && succs == f.g.Successors(b) && InBounds(succs, f.g.len)
    requires b < f.g.len && FilledAll(f, t, b, succs, k)
    ensures FilledAll(f, t1, b, succs, k)
  {
    forall j | 0 <= j < k && succs[j] <= b && succs[j] < |t1.phis|
      ensures FilledTo(t1, succs[j], b, |t1.phis[succs[j]]|)
    {
      assert succs[j] in succs;
      FilledSearched(f, t, t1, x, b, succs[j]);
    }
  }

  /** With its source for `b`, phi `i` of block `s` is done too. */
  lemma {:induction false} FilledSource(f: Function, multi: set<Ssa>, base: nat, t: Track, b: nat, s: nat, i: nat,
                                        succs: seq<nat>, k: nat)
    requires Inv(f, multi, base, t) && f.g.Edge(b, s) && i < |t.phis[s]| && t.phis[s][i].orig in t.defs[b]
    requires k <= |succs| && FilledAll(f, t, b, succs, k) && FilledTo(t, s, b, i)
    ensures var t' := WithSrc(t, s, i, b, t.defs[b][t.phis[s][i].orig]);
      Inv(f, multi, base, t') && FilledAll(f, t', b, succs, k) && FilledTo(t', s, b, i + 1)
  {
    SetSrc(f, multi, base, t, s, i, b);
  }

  /** Pairs of a block and a variable it does not know. */
  ghost function Open(multi: set<Ssa>, t: Track): set<(nat, Ssa)> {
    set q: nat, x: Ssa | q < |t.defs| && x in multi && x !in t.defs[q] :: (q, x)
  }

  lemma {:induction false} OpenShrinks(multi: set<Ssa>, t: Track, t': Track, x: Ssa)
    requires Grown(t, t') && x in multi
    ensures Open(multi, t') <= Open(multi, t)
    ensures Unresolved(t', x) < Unresolved(t, x) ==> Open(multi, t') < Open(multi, t)
  {
    if Unresolved(t', x) < Unresolved(t, x) {
      var q :| q in Unresolved(t, x) && q !in Unresolved(t', x);
      assert (q, x) in Open(multi, t) && (q, x) !in Open(multi, t');
    }
  }

  /** The variable of a phi is live at the end of every predecessor. */
  lemma {:induction false} PhiVariable(f: Function, multi: set<Ssa>, base: nat, t: Track, b: nat, s: nat, i: nat)
    requires Inv(f, multi, base, t) && f.g.Edge(b, s) && i < |t.phis[s]| && |t.names[b]| == |f.blocks[b]|
    ensures var x := t.phis[s][i].orig; x in multi && x in t.defs[s] && (x in t.defs[b] || LiveIn(f, b, x))
  {
    var x := t.phis[s][i].orig;
    assert BlockOk(f, multi, t, s) && x in t.inn[s];
    assert InOk(f, multi, t, s, x);
    CurKeys(t.inn[s], f.blocks[s], t.names[s], multi, |t.names[s]|, x);
    if x !in t.defs[b] {
      LiveInPred(f, multi, base, t, b, s, x);
    }
  }

  method Least(s: set<nat>) returns (m: nat)
    requires s != {}
    ensures m in s && forall x :: x in s ==> m <= x
  {
    m :| m in s;
    var todo := s;
    while todo != {}
      invariant m in s && todo <= s && forall x :: x in s ==> m <= x || x in todo
    {
      var x :| x in todo;
      if x < m {
        m := x;
      }
      todo := todo - {x};
    }
  }

  lemma {:induction false} NowPending(f: Function, multi: set<Ssa>, base: nat, t: Track, b: nat)
    requires Inv(f, multi, base, t) && t.pending == {}
    ensures Inv(f, multi, base, t.(needs := t.needs - {b}, pending := {b}))
  {
    var t' := t.(needs := t.needs - {b}, pending := {b});
    MadeStays(t, t');
    forall q: nat | q < |f.blocks| ensures BlockOk(f, multi, t', q) {
      assert BlockOk(f, multi, t, q);
      OtherBlock(f, multi, t, t', q);
    }
    forall q: nat, x: Ssa | q < |f.blocks| && x in t'.inn[q] ensures InOk(f, multi, t', q, x) {
      assert InOk(f, multi, t, q, x);
      var phis, i := t.phis[q], PhiIndex(t.phis[q], x);
      if i < |phis| {
        forall p: nat | p in phis[i].srcs ensures f.g.Edge(p, q) &&
          SrcOk(t', phis[i], p) { assert SrcOk(t, phis[i], p); }
      }
    }
  }

  /** Once nothing is pending for `b` that lacks a source, the block is done with. */
  lemma {:induction false} NothingPending(f: Function, multi: set<Ssa>, base: nat, t: Track, b: nat)
    requires Inv(f, multi, base, t) && b < |f.blocks| && t.pending == {b}
    requires FilledAll(f, t, b, f.g.Successors(b), |f.g.Successors(b)|)
    ensures Inv(f, multi, base, t.(pending := {}))
  {
    var t' := t.(pending := {});
    MadeStays(t, t');
    forall q: nat | q < |f.blocks| ensures BlockOk(f, multi, t', q) {
      assert BlockOk(f, multi, t, q);
      OtherBlock(f, multi, t, t', q);
    }
    forall q: nat, x: Ssa | q < |f.blocks| && x in t'.inn[q] ensures InOk(f, multi, t', q, x) {
      assert InOk(f, multi, t, q, x);
      var phis, i := t.phis[q], PhiIndex(t.phis[q], x);
      if i < |phis| {
        forall p: nat | p in phis[i].srcs ensures f.g.Edge(p, q) &&
          SrcOk(t', phis[i], p) { assert SrcOk(t, phis[i], p); }
        forall p: nat | f.g.Edge(p, q) ensures p in phis[i].srcs || (p >= q && p in t'.needs) {
          if p == b && p >= q {
            var succs := f.g.Successors(b);
            var j :| 0 <= j < |succs| && succs[j] == q;
            assert FilledTo(t, succs[j], b, |t.phis[succs[j]]|);
          }
        }
      }
    }
  }

  // ---- what is left undefined is noticed ----

  /** At the end every block knows the renamed variables that are live into it. */
  lemma {:induction false} LiveIsKnown(f: Function, multi: set<Ssa>, base: nat, t: Track, p: seq<nat>, x: Ssa)
    requires Inv(f, multi, base, t) && CompleteBefore(f, t, |f.blocks|) && t.needs == {} == t.pending
    requires x in multi && LivePath(f, p, x)
    ensures p[0] < |t.inn| && x in t.inn[p[0]]
    decreases |p|
  {
    var b := p[0];
    var bb, ns := f.blocks[b], t.names[b];
    assert BlockOk(f, multi, t, b);
    if |p| == 1 {
      var ip: nat :| Exposed(bb, ip, x);
      var k :| 0 <= k < |bb[ip].uses| && bb[ip].uses[k] == x;
      assert UseOk(t.inn[b], bb, ns, multi, ip, k);
      CurKeys(t.inn[b], bb, ns, multi, ip, x);
    } else {
      var c := p[1];
      assert f.g.Edge(p[0], p[0 + 1]) && !DefinedIn(f.blocks[p[0]], x);
      assert forall i :: 0 <= i < |p| - 1 ==> p[1..][i] == p[i + 1];
      LiveIsKnown(f, multi, base, t, p[1..], x);
      assert InOk(f, multi, t, c, x);
      KnownFromPred(f, t, c, x, b);
      CurKeys(t.inn[b], bb, ns, multi, |ns|, x);
    }
  }

  lemma {:induction false} KnownFromPred(f: Function, t: Track, c: nat, x: Ssa, b: nat)
    requires c < |t.inn| && c < |t.phis| && x in t.inn[c] && f.g.Edge(b, c) && t.needs == {} == t.pending
    requires if HasPhi(t.phis[c], x) then PhiOk(f, t, c, t.phis[c][PhiIndex(t.phis[c], x)])
      else PassOk(f, t, c, x, t.inn[c][x])
    ensures b < |t.defs| && x in t.defs[b]
  {
    var i := PhiIndex(t.phis[c], x);
    if i < |t.phis[c]| {
      assert b in t.phis[c][i].srcs;
      assert SrcOk(t, t.phis[c][i], b);
    }
  }

  lemma {:induction false} LiveEntryHasPred(f: Function, multi: set<Ssa>, base: nat, t: Track, x: Ssa)
    requires Sound(f) && Inv(f, multi, base, t) && CompleteBefore(f, t, |f.blocks|) && t.needs == {} == t.pending
    requires x in multi && LiveIn(f, 0, x)
    ensures HasPred(f.g, 0)
  {
    var p :| LivePath(f, p, x) && p[0] == 0;
    LiveIsKnown(f, multi, base, t, p, x);
    assert InOk(f, multi, t, 0, x);
  }

  /** So naming does not succeed when a variable may be used undefined. */
  lemma {:induction false} UndefinedIsNoticed(f: Function, multi: set<Ssa>, base: nat, t: Track)
    requires Sound(f) && Inv(f, multi, base, t) && CompleteBefore(f, t, |f.blocks|) && t.needs == {} == t.pending
    ensures !EntryUndefined(f, multi)
  {
    if x :| x in multi && LiveIn(f, 0, x) {
      LiveEntryHasPred(f, multi, base, t, x);
    }
  }

  /** The blocks the search for `x` in `b` still has to look at. */
  ghost predicate Waiting(f: Function, t: Track, x: Ssa, b: nat, work: multiset<nat>) {
    && b < |t.defs|
    && (forall h :: h in work ==> h <= b && (x in t.defs[h] || LiveIn(f, h, x)))
    && (b in work || x in t.defs[b])
  }

  /** The first `k` predecessors that do not know `x` have been added to the work. */
  ghost predicate Pushed(preds: seq<nat>, k: nat, q: nat, x: Ssa, defs: seq<map<Ssa, Ssa>>, work: multiset<nat>,
                         pushed: bool, work': multiset<nat>)
    requires k <= |preds| && q < |defs| && InBounds(preds, |defs|)
  {
    && work <= work' && (!pushed ==> work' == work)
    && (forall h :: h in work' && h !in work ==> h in preds && h < q && x !in defs[h])
    && (pushed ==> exists h :: h in work' && h < q && x !in defs[h])
  }

  /** If none was added, the others have been compared. */
  ghost predicate Compared(preds: seq<nat>, k: nat, q: nat, x: Ssa, defs: seq<map<Ssa, Ssa>>, pushed: bool, same: bool,
                           v: Option<Ssa>)
    requires k <= |preds| && q < |defs| && InBounds(preds, |defs|)
  {
    && (!pushed ==> forall i :: 0 <= i < k && preds[i] < q ==> x in defs[preds[i]])
    && (!pushed && same ==> forall i :: 0 <= i < k ==>
          preds[i] < q && x in defs[preds[i]] && v == Some(defs[preds[i]][x]))
    && (v.Some? || !same ==> k > 0)
    && (v.Some? ==> exists i :: 0 <= i < k && preds[i] < q && x in defs[preds[i]] && v.value == defs[preds[i]][x])
    && (!same ==> Differ(preds[..k], q, x, defs))
  }

  /** One of the predecessors is not laid out before the block, or two of them hand over different
      names. */
  ghost predicate Differ(preds: seq<nat>, q: nat, x: Ssa, defs: seq<map<Ssa, Ssa>>)
    requires InBounds(preds, |defs|)
  {
    || (exists p :: p in preds && p >= q)
    || (exists p, r :: p in preds && r in preds && p < q && r < q && x in defs[p] && x in defs[r] &&
          defs[p][x] != defs[r][x])
  }

  lemma {:induction false} DifferMore(preds: seq<nat>, p: nat, q: nat, x: Ssa, defs: seq<map<Ssa, Ssa>>)
    requires InBounds(preds, |defs|) && p < |defs| && Differ(preds, q, x, defs)
    ensures Differ(preds + [p], q, x, defs)
  {
    if n :| n in preds && n >= q {
      assert n in preds + [p];
    } else {
      var n, r :| n in preds && r in preds && n < q && r < q && x in defs[n] && x in defs[r] &&
        defs[n][x] != defs[r][x];
      assert n in preds + [p] && r in preds + [p];
    }
  }

  lemma {:induction false} PushedStep(preds: seq<nat>, k: nat, q: nat, x: Ssa, defs: seq<map<Ssa, Ssa>>,
                                      work: multiset<nat>, pushed: bool, work': multiset<nat>)
    requires k < |preds| && q < |defs| && InBounds(preds, |defs|) && preds[k] < q && x !in defs[preds[k]]
    requires Pushed(preds, k, q, x, defs, work, pushed, work')
    ensures Pushed(preds, k + 1, q, x, defs, work, true, work' + multiset{preds[k]})
  {
    assert preds[k] in work' + multiset{preds[k]};
  }

  /** Predecessor `k` comes later (`n` is none), or hands over the name `n`. */
  lemma {:induction false} ComparedStep(preds: seq<nat>, k: nat, q: nat, x: Ssa, defs: seq<map<Ssa, Ssa>>, pushed: bool,
                                        same: bool, v: Option<Ssa>, n: Option<Ssa>)
    requires k < |preds| && q < |defs| && InBounds(preds, |defs|) && Compared(preds, k, q, x, defs, pushed, same, v)
    requires if n.None? then preds[k] >= q else preds[k] < q && x in defs[preds[k]] && n == Some(defs[preds[k]][x])
    ensures var v' := if v.None? then n else v;
      Compared(preds, k + 1, q, x, defs, pushed, same && n.Some? && v' == n, v')
  {
    assert preds[..k + 1] == preds[..k] + [preds[k]];
    if !same {
      DifferMore(preds[..k], preds[k], q, x, defs);
    } else if n.None? {
      assert preds[k] in preds[..k + 1];
    } else if v.Some? && v != n {
      var i :| 0 <= i < k && preds[i] < q && x in defs[preds[i]] && v.value == defs[preds[i]][x];
      assert preds[..k + 1][i] == preds[i] && preds[i] in preds[..k + 1] && preds[k] in preds[..k + 1];
    }
  }

  lemma {:induction false} ComparedPushed(preds: seq<nat>, k: nat, q: nat, x: Ssa, defs: seq<map<Ssa, Ssa>>,
                                          pushed: bool, same: bool, v: Option<Ssa>)
    requires k < |preds| && q < |defs| && InBounds(preds, |defs|) && Compared(preds, k, q, x, defs, pushed, same, v)
    ensures Compared(preds, k + 1, q, x, defs, true, same, v)
  {
    assert preds[..k + 1] == preds[..k] + [preds[k]];
    if !same { DifferMore(preds[..k], preds[k], q, x, defs); }
  }

  /** What is known once all predecessors have been looked at. */
  lemma {:induction false} ScanDone(f: Function, q: nat, x: Ssa, defs: seq<map<Ssa, Ssa>>, work: multiset<nat>,
                                    pushed: bool, same: bool, v: Option<Ssa>, work': multiset<nat>)
    requires Sound(f) && q < |f.blocks| == |defs| && InBounds(f.g.Predecessors(q), |defs|)
    requires var preds := f.g.Predecessors(q);
      Pushed(preds, |preds|, q, x, defs, work, pushed, work') && Compared(preds, |preds|, q, x, defs, pushed, same, v)
    ensures forall h :: h in work' && h !in work ==> f.g.Edge(h, q) && h < q && x !in defs[h]
    ensures !pushed ==> forall p: nat :: f.g.Edge(p, q) && p < q ==> x in defs[p]
    ensures !pushed && same ==> forall p: nat :: f.g.Edge(p, q) ==> p < q && x in defs[p] && v == Some(defs[p][x])
    ensures v.Some? || !same ==> HasPred(f.g, q)
  {
    PredsAreEdges(f, q);
    var preds := f.g.Predecessors(q);
    forall p: nat | f.g.Edge(p, q) ensures exists i :: 0 <= i < |preds| && preds[i] == p {
      assert p in preds;
    }
  }

  lemma {:induction false} PredsAreEdges(f: Function, q: nat)
    requires Sound(f) && q < |f.blocks|
    ensures InBounds(f.g.Predecessors(q), |f.blocks|)
    ensures forall p: nat :: p in f.g.Predecessors(q) <==> f.g.Edge(p, q)
    ensures f.g.Predecessors(q) != [] ==> HasPred(f.g, q)
  {
    forall p: nat | p in f.g.Predecessors(q) ensures f.g.Edge(p, q) {
      assert InBounds(f.g.Predecessors(q), f.g.len);
    }
    if f.g.Predecessors(q) != [] {
      assert f.g.Predecessors(q)[0] in f.g.Predecessors(q);
    }
  }

  lemma {:induction false} ReadyMeets(f: Function, t: Track, q: nat, x: Ssa, srcs: map<nat, Ssa>, backs: set<nat>)
    requires Sound(f) && q < |f.blocks| && |t.defs| == |f.blocks| && PhiReady(f, t, q, x, srcs, backs)
    requires InBounds(f.g.Predecessors(q), |t.defs|) && Differ(f.g.Predecessors(q), q, x, t.defs)
    ensures Meets(f, q, srcs)
  {
    PredsAreEdges(f, q);
    var preds := f.g.Predecessors(q);
    if p :| p in preds && p >= q {
      assert f.g.Edge(p, q);
    } else {
      var p, r :| p in preds && r in preds && p < q && r < q && x in t.defs[p] && x in t.defs[r] &&
        t.defs[p][x] != t.defs[r][x];
      assert f.g.Edge(p, q) && f.g.Edge(r, q);
      assert p in srcs && r in srcs && srcs[p] != srcs[r];
    }
  }

  class Repairer {
    const f: Function
    const multi: set<Ssa>
    const base: nat
    var defs: seq<map<Ssa, Ssa>>
    var phis: seq<seq<PhiTracker>>
    var next: nat
    var needs: set<nat>
    var names: seq<seq<Names>>
    var undefs: seq<(nat, Ssa)>
    ghost var inn: seq<map<Ssa, Ssa>>
    ghost var site: map<Ssa, Site>
    ghost var pending: set<nat>

    ghost function View(): Track
      reads this
    {
      Track(defs, phis, next, needs, pending, names, undefs, inn, site)
    }

    constructor (f: Function, multi: set<Ssa>, base: nat)
      ensures this.f == f && this.multi == multi && this.base == base && next == base && needs == {} == pending
      ensures site == map[] && undefs == []
      ensures |defs| == |phis| == |names| == |inn| == |f.blocks|
      ensures forall b :: 0 <= b < |defs| ==> defs[b] == map[] && phis[b] == [] && names[b] == [] && inn[b] == map[]
    {
      this.f, this.multi, this.base, next, needs := f, multi, base, base, {};
      var n := |f.blocks|;
      defs, phis, names := seq(n, _ => map[]), seq(n, _ => []), seq(n, _ => []);
      inn, site, pending, undefs := seq(n, _ => map[]), map[], {}, [];
    }

    /** Looks at the predecessors of `q`: those that do not know `x` yet are added to the work,
        the others are compared. */
    method ScanPreds(q: nat, x: Ssa, work: multiset<nat>)
      returns (pushed: bool, same: bool, v: Option<Ssa>, work': multiset<nat>)
      requires Sound(f) && Sized(f, View()) && q < |f.blocks|
      ensures work <= work' && (!pushed ==> work' == work)
      ensures forall h :: h in work' && h !in work ==> f.g.Edge(h, q) && h < q && x !in defs[h]
      ensures pushed ==> exists h :: h in work' && h < q && x !in defs[h]
      ensures !pushed ==> forall p: nat :: f.g.Edge(p, q) && p < q ==> x in defs[p]
      ensures !pushed && same ==> forall p: nat :: f.g.Edge(p, q) ==> p < q && x in defs[p] && v == Some(defs[p][x])
      ensures v.Some? || !same ==> HasPred(f.g, q)
      ensures !same ==> InBounds(f.g.Predecessors(q), |defs|) && Differ(f.g.Predecessors(q), q, x, defs)
    {
      pushed, same, v, work' := false, true, None, work;
      var preds := f.g.Predecessors(q);
      PredsAreEdges(f, q);
      for k := 0 to |preds|
        invariant Pushed(preds, k, q, x, defs, work, pushed, work')
        invariant Compared(preds, k, q, x, defs, pushed, same, v)
      {
        var p := preds[k];
        if p >= q {
          ComparedStep(preds, k, q, x, defs, pushed, same, v, None);
          same := false;
        } else if x in defs[p] {
          ComparedStep(preds, k, q, x, defs, pushed, same, v, Some(defs[p][x]));
          if v.None? {
            v := Some(defs[p][x]);
          }
          if v.value != defs[p][x] {
            same := false;
          }
        } else {
          PushedStep(preds, k, q, x, defs, work, pushed, work');
          ComparedPushed(preds, k, q, x, defs, pushed, same, v);
          work' := work' + multiset{p};
          pushed := true;
        }
      }
      assert preds[..|preds|] == preds;
      ScanDone(f, q, x, defs, work, pushed, same, v, work');
    }

    /** Names `x` at the head of block `q`, whose forward predecessors all know it. Fails at the
        entry when nothing leads back to it. */
    method Resolve(q: nat, x: Ssa, same: bool, v: Option<Ssa>, ghost bound: nat) returns (ok: bool)
      requires Sound(f) && Inv(f, multi, base, View()) && base <= next && q <= bound
      requires Resolvable(f, multi, View(), q, x)
      requires same ==> forall p: nat :: f.g.Edge(p, q) ==> p < q && x in defs[p] && v == Some(defs[p][x])
      requires v.Some? || !same ==> HasPred(f.g, q)
      requires !same ==> InBounds(f.g.Predecessors(q), |defs|) && Differ(f.g.Predecessors(q), q, x, defs)
      modifies this
      ensures ok ==>
        Inv(f, multi, base, View()) && base <= next && Searched(f, old(View()), View(), x, bound) && x in defs[q]
      ensures !ok ==> q == 0 && EntryUndefined(f, multi)
    {
      ok := true;
      if !same {
        PlacePhi(q, x, bound);
      } else if v.Some? {
        ghost var p: nat :| f.g.Edge(p, q);
        DefsOwned(f, multi, base, View(), p, x);
        TakeName(q, x, v.value, bound);
      } else {
        NoPreds(f, q);
        if q != 0 && f.g.Predecessors(q) == [] {
          MakeUndef(q, x, bound);
        } else {
          ok := false;
        }
      }
    }

    method MakeUndef(q: nat, x: Ssa, ghost bound: nat)
      requires Inv(f, multi, base, View()) && base <= next && 0 < q <= bound && Resolvable(f, multi, View(), q, x)
      requires !HasPred(f.g, q)
      modifies this
      ensures Inv(f, multi, base, View()) && base <= next && Searched(f, old(View()), View(), x, bound) && x in defs[q]
    {
      ghost var t := View();
      UndefKeeps(f, multi, base, t, q, x);
      ghost var t1 := WithUndef(t, q, x);
      LearnPass(f, multi, base, t1, q, x, next);
      UndefSearched(f, t, q, x, bound);
      undefs := undefs + [(q, next)];
      var d: map<Ssa, Ssa> := defs[q][x := next];
      defs := defs[q := d];
      next := next + 1;
      ghost var t' := Learned(t1, q, x, t.next);
      inn, site := t'.inn, t'.site;
      assert View() == t';
    }

    method TakeName(q: nat, x: Ssa, v: Ssa, ghost bound: nat)
      requires Inv(f, multi, base, View()) && q <= bound && Resolvable(f, multi, View(), q, x)
      requires Owned(site, v, x) && PassOk(f, View(), q, x, v) && HasPred(f.g, q)
      modifies this`defs, this`inn
      ensures Inv(f, multi, base, View()) && Searched(f, old(View()), View(), x, bound) && x in defs[q]
    {
      ghost var t := View();
      LearnPass(f, multi, base, t, q, x, v);
      LearnedSearched(f, t, q, x, v, bound);
      var d: map<Ssa, Ssa> := defs[q][x := v];
      defs := defs[q := d];
      inn := Learned(t, q, x, v).inn;
    }

    method PlacePhi(q: nat, x: Ssa, ghost bound: nat)
      requires Sound(f) && Inv(f, multi, base, View()) && base <= next && q <= bound
      requires Resolvable(f, multi, View(), q, x)
      requires HasPred(f.g, q) && InBounds(f.g.Predecessors(q), |defs|) && Differ(f.g.Predecessors(q), q, x, defs)
      modifies this
      ensures Inv(f, multi, base, View()) && base <= next && Searched(f, old(View()), View(), x, bound) && x in defs[q]
    {
      ghost var t := View();
      var srcs, backs := PhiSources(q, x);
      ReadyMeets(f, t, q, x, srcs, backs);
      PhiPlaced(f, multi, base, t, q, x, srcs, backs, bound);
      AddPhi(q, x, srcs, backs);
    }

    method AddPhi(q: nat, x: Ssa, srcs: map<nat, Ssa>, backs: set<nat>)
      requires Sized(f, View()) && q < |f.blocks|
      modifies this
      ensures View() == Learned(WithPhi(f, old(View()), q, x, srcs, backs), q, x, old(next))
    {
      ghost var t := View();
      ghost var t' := Learned(WithPhi(f, t, q, x, srcs, backs), q, x, t.next);
      needs := needs + backs;
      phis := phis[q := phis[q] + [PhiTracker(x, next, srcs)]];
      var d: map<Ssa, Ssa> := defs[q][x := next];
      defs := defs[q := d];
      next := next + 1;
      inn, site := t'.inn, t'.site;
    }

    /** The sources of a phi that are known, and the blocks its other sources will come from. */
    method PhiSources(q: nat, x: Ssa) returns (srcs: map<nat, Ssa>, backs: set<nat>)
      requires Sound(f) && Resolvable(f, multi, View(), q, x)
      ensures PhiReady(f, View(), q, x, srcs, backs)
    {
      srcs, backs := map[], {};
      var preds := f.g.Predecessors(q);
      for k := 0 to |preds|
        invariant forall p: nat {:trigger p in srcs} :: p in srcs ==>
          f.g.Edge(p, q) && p < q && x in defs[p] && srcs[p] == defs[p][x]
        invariant forall i :: 0 <= i < k ==> if preds[i] < q then preds[i] in srcs else preds[i] in backs
        invariant forall p :: p in backs ==> p < |f.blocks|
      {
        var p := preds[k];
        assert f.g.Edge(p, q) by {
          assert InBounds(f.g.Predecessors(q), f.g.len) && p in preds;
        }
        if p >= q {
          backs := backs + {p};
        } else {
          srcs := srcs[p := defs[p][x]];
        }
      }
      forall p: nat | f.g.Edge(p, q) ensures p in preds {}
    }

    /** One turn of the search: a waiting block is done, waits for its predecessors, or is named. */
    method SearchTurn(b: nat, x: Ssa, work: multiset<nat>) returns (ok: bool, work': multiset<nat>)
      requires Sound(f) && Inv(f, multi, base, View()) && base <= next && CompleteBefore(f, View(), b)
      requires b < |f.blocks| && x in multi
      requires |work| > 0 && Waiting(f, View(), x, b, work)
      modifies this
      ensures !ok ==> EntryUndefined(f, multi)
      ensures ok ==> Inv(f, multi, base, View()) && base <= next && Searched(f, old(View()), View(), x, b)
      ensures ok ==> Waiting(f, View(), x, b, work')
      ensures ok ==>
              || Unresolved(View(), x) < Unresolved(old(View()), x)
              || (View() == old(View()) && BelowWaiting(View(), x, work') < BelowWaiting(View(), x, work))
              || (View() == old(View()) && BelowWaiting(View(), x, work') == BelowWaiting(View(), x, work) &&
                     |work'| < |work|)
    {
      var top := Minimum(work);
      ghost var t := View();
      ok := true;
      SearchedRefl(f, t, x, b);
      if x in defs[top] {
        BelowSame(t, x, work, top);
        work' := work - multiset{top};
        return;
      }
      var pushed, same, v;
      pushed, same, v, work' := ScanPreds(top, x, work);
      if pushed {
        forall h | h in work' && h !in work ensures LiveIn(f, h, x) {
          LiveInPred(f, multi, base, t, h, top, x);
        }
        ghost var h :| h in work' && h < top && x !in defs[h];
        BelowShrinks(t, x, work, work', top, h);
      } else {
        ok := Resolve(top, x, same, v, b);
        work' := work - multiset{top};
        if ok {
          GrownResolves(t, View(), x);
          assert top in Unresolved(t, x) && top !in Unresolved(View(), x);
        }
      }
    }

    /** The name of `x` at the end of block `b`, as far as the block has been processed; phis are
        placed where the search through the predecessors needs them. */
    method GetSsaOrPhi(b: nat, x: Ssa) returns (r: Result<Ssa>)
      requires Sound(f) && Inv(f, multi, base, View()) && base <= next && CompleteBefore(f, View(), b)
      requires b < |f.blocks| && x in multi && (x in defs[b] || LiveIn(f, b, x))
      modifies this
      ensures r.Err? ==> EntryUndefined(f, multi)
      ensures r.Ok? ==> Inv(f, multi, base, View()) && base <= next && Searched(f, old(View()), View(), x, b)
      ensures r.Ok? ==> x in defs[b] && r.value == defs[b][x]
    {
      var work := multiset{b};
      SearchedRefl(f, View(), x, b);
      while |work| > 0
        invariant Inv(f, multi, base, View()) && base <= next && Searched(f, old(View()), View(), x, b)
        invariant Waiting(f, View(), x, b, work)
        decreases Unresolved(View(), x), BelowWaiting(View(), x, work), |work|
      {
        ghost var t := View();
        var ok;
        ok, work := SearchTurn(b, x, work);
        if !ok {
          return Err;
        }
        SearchedTrans(f, old(View()), t, View(), x, b);
      }
      r := Ok(defs[b][x]);
    }

    /** The names of the uses of the next instruction of block `b`. */
    method RenameUses(b: nat) returns (r: Result<seq<Ssa>>)
      requires Sound(f) && Inv(f, multi, base, View()) && base <= next && b < |f.blocks| && |names[b]| < |f.blocks[b]|
      requires Forwards(View(), b) && CompleteBefore(f, View(), b)
      modifies this
      ensures r.Err? ==> EntryUndefined(f, multi)
      ensures r.Ok? ==>
        Inv(f, multi, base, View()) && base <= next && names == old(names) && pending == old(pending) &&
        Forwards(View(), b)
      ensures r.Ok? ==>
        |names| == |f.blocks| &&
        UsesNamed(f.blocks[b][|names[b]|].uses, multi, defs[b], r.value, |f.blocks[b][|names[b]|].uses|)
    {
      var us: seq<Ssa> := [];
      var i := f.blocks[b][|names[b]|];
      for k := 0 to |i.uses|
        invariant Inv(f, multi, base, View()) && base <= next && names == old(names) && pending == old(pending)
        invariant Forwards(View(), b)
        invariant UsesNamed(i.uses, multi, defs[b], us, k)
      {
        var x := i.uses[k];
        if x in multi {
          ghost var t := View();
          if x !in defs[b] {
            UnknownIsLive(f, multi, base, t, b, x);
          }
          var v := GetSsaOrPhi(b, x);
          if v.Err? {
            return Err;
          }
          ForwardsSearched(f, t, View(), x, b);
          us := us + [v.value];
        } else {
          us := us + [x];
        }
      }
      r := Ok(us);
    }

    /** Gives the definitions of the next instruction of block `b` their names, and records it. */
    method RenameDefs(b: nat, us: seq<Ssa>)
      requires Inv(f, multi, base, View()) && base <= next && b < |f.blocks| && |names[b]| < |f.blocks[b]|
      requires Forwards(View(), b)
      requires UsesNamed(f.blocks[b][|names[b]|].uses, multi, defs[b], us, |f.blocks[b][|names[b]|].uses|)
      modifies this
      ensures Inv(f, multi, base, View()) && base <= next && pending == old(pending) && Forwards(View(), b)
      ensures |names| == |old(names)| && |names[b]| == |old(names)[b]| + 1
      ensures forall q :: 0 <= q < |names| && q != b ==> names[q] == old(names)[q]
    {
      ghost var t := View();
      var ip := |names[b]|;
      var ns, m, n;
      ghost var st;
      ns, m, n, st := FreshNames(f.blocks[b][ip].Defs(), b, ip);
      NameInstr(f, multi, base, t, b, Names(us, ns), n, st);
      defs := defs[b := m];
      names := names[b := names[b] + [Names(us, ns)]];
      next, site := n, st;
      assert View() == Named(f, multi, t, b, Names(us, ns), n, st);
    }

    /** New names for the definitions of variables that have several. */
    method FreshNames(ds: seq<Ssa>, b: nat, ip: nat)
      returns (ns: seq<Ssa>, m: map<Ssa, Ssa>, n: nat, ghost st: map<Ssa, Site>)
      requires b < |defs| && base <= next && forall x: Ssa :: x in site <==> base <= x < next
      ensures |ns| == |ds| && m == Bind(defs[b], ds, ns, multi) && n >= next
      ensures forall x: Ssa :: x in st <==> base <= x < n
      ensures forall x :: x in site ==> x in st && st[x] == site[x]
      ensures forall j :: 0 <= j < |ds| ==>
        if ds[j] in multi then ns[j] in st && st[ns[j]] == DefSite(b, ip, j, ds[j]) else ns[j] == ds[j]
      ensures forall x :: x in st && x !in site ==> DefinedBy(ds, b, ip, ns, st[x], x)
    {
      ns, m, n, st := [], defs[b], next, site;
      for k := 0 to |ds|
        invariant |ns| == k && m == Bind(defs[b], ds[..k], ns, multi) && n >= next
        invariant forall x: Ssa :: x in st <==> base <= x < n
        invariant forall x :: x in site ==> x in st && st[x] == site[x]
        invariant forall j :: 0 <= j < k ==>
          if ds[j] in multi then ns[j] in st && st[ns[j]] == DefSite(b, ip, j, ds[j]) else ns[j] == ds[j]
        invariant forall x :: x in st && x !in site ==> DefinedBy(ds, b, ip, ns, st[x], x)
      {
        ghost var ns0, st0 := ns, st;
        assert ds[..k + 1][..k] == ds[..k];
        if ds[k] in multi {
          assert (ns + [n])[..k] == ns;
          ns := ns + [n];
          m := m[ds[k] := n];
          st := st[n := DefSite(b, ip, k, ds[k])];
          n := n + 1;
        } else {
          assert (ns + [ds[k]])[..k] == ns;
          ns := ns + [ds[k]];
        }
        forall x | x in st0 && x !in site ensures DefinedBy(ds, b, ip, ns, st0[x], x) {
          var j: nat :| j < |ns0| && j < |ds| && ns0[j] == x && st0[x] == DefSite(b, ip, j, ds[j]);
          assert ns[j] == x;
        }
      }
      assert ds[..|ds|] == ds;
    }

    method RenameBlock(b: nat) returns (ok: bool)
      requires Sound(f) && Inv(f, multi, base, View()) && base <= next && b < |f.blocks| && names[b] == []
      requires Forwards(View(), b) && CompleteBefore(f, View(), b)
      modifies this
      ensures !ok ==> EntryUndefined(f, multi)
      ensures ok ==>
        Inv(f, multi, base, View()) && base <= next && pending == old(pending) && Forwards(View(), b) &&
        CompleteBefore(f, View(), b + 1)
    {
      for ip := 0 to |f.blocks[b]|
        invariant Inv(f, multi, base, View()) && base <= next && pending == old(pending) && Forwards(View(), b)
        invariant CompleteBefore(f, View(), b)
        invariant |names[b]| == ip
      {
        var us := RenameUses(b);
        if us.Err? {
          return false;
        }
        RenameDefs(b, us.value);
      }
      ok := true;
    }

    /** Names every instruction, block by block. */
    method RenameAll() returns (ok: bool)
      requires Sound(f) && Inv(f, multi, base, View()) && base <= next && Forwards(View(), 0) && names[0] == []
      modifies this
      ensures !ok ==> EntryUndefined(f, multi)
      ensures ok ==>
        Inv(f, multi, base, View()) && base <= next && pending == old(pending) && CompleteBefore(f, View(), |f.blocks|)
    {
      for b := 0 to |f.blocks|
        invariant Inv(f, multi, base, View()) && base <= next && pending == old(pending) && CompleteBefore(f, View(), b)
        invariant b < |f.blocks| ==> Forwards(View(), b) && names[b] == []
      {
        ok := RenameBlock(b);
        if !ok {
          return;
        }
      }
      ok := true;
    }

    /** Gives the phis of successor `s` of block `b` their source for `b`. */
    method FillPhis(b: nat, s: nat, succs: seq<nat>, ghost k: nat) returns (ok: bool)
      requires Sound(f) && Inv(f, multi, base, View()) && base <= next && CompleteBefore(f, View(), |f.blocks|)
      requires f.g.Edge(b, s) && s <= b && k < |succs| && succs[k] == s && succs == f.g.Successors(b)
      requires FilledAll(f, View(), b, succs, k)
      modifies this
      ensures !ok ==> EntryUndefined(f, multi)
      ensures ok ==>
        Inv(f, multi, base, View()) && base <= next && CompleteBefore(f, View(), |f.blocks|) && pending == old(pending)
      ensures ok ==> FilledAll(f, View(), b, succs, k + 1)
      ensures ok ==>
        Open(multi, View()) < Open(multi, old(View())) ||
        (Open(multi, View()) == Open(multi, old(View())) && needs == old(needs))
    {
      for i := 0 to |phis[s]|
        invariant Inv(f, multi, base, View()) && base <= next && CompleteBefore(f, View(), |f.blocks|)
        invariant pending == old(pending)
        invariant FilledAll(f, View(), b, succs, k) && |phis[s]| == |old(phis)[s]| && FilledTo(View(), s, b, i)
        invariant Open(multi, View()) < Open(multi, old(View())) ||
          (Open(multi, View()) == Open(multi, old(View())) && needs == old(needs))
      {
        if b !in phis[s][i].srcs {
          ok := FillPhi(b, s, i, succs, k);
          if !ok {
            return;
          }
        }
      }
      ok := true;
    }

    method FillPhi(b: nat, s: nat, i: nat, ghost succs: seq<nat>, ghost k: nat) returns (ok: bool)
      requires Sound(f) && Inv(f, multi, base, View()) && base <= next && CompleteBefore(f, View(), |f.blocks|)
      requires f.g.Edge(b, s) && s <= b && i < |phis[s]| && k < |succs| && succs == f.g.Successors(b)
      requires FilledAll(f, View(), b, succs, k)
      requires FilledTo(View(), s, b, i)
      modifies this
      ensures !ok ==> EntryUndefined(f, multi)
      ensures ok ==>
        Inv(f, multi, base, View()) && base <= next && CompleteBefore(f, View(), |f.blocks|) && pending == old(pending)
      ensures ok ==>
        FilledAll(f, View(), b, succs, k) && |phis| == |old(phis)| && |phis[s]| == |old(phis)[s]| &&
        FilledTo(View(), s, b, i + 1)
      ensures ok ==>
        Open(multi, View()) < Open(multi, old(View())) ||
        (Open(multi, View()) == Open(multi, old(View())) && needs == old(needs))
    {
      ghost var t := View();
      var x := phis[s][i].orig;
      PhiVariable(f, multi, base, t, b, s, i);
      var v := GetSsaOrPhi(b, x);
      if v.Err? {
        return false;
      }
      ghost var t1 := View();
      OpenShrinks(multi, t, t1, x);
      assert SearchedAt(f, t, t1, x, b, s);
      FilledStay(f, t, t1, x, b, succs, k);
      FilledSource(f, multi, base, t1, b, s, i, succs, k);
      var ph := phis[s][i];
      phis := phis[s := phis[s][i := ph.(srcs := ph.srcs[b := v.value])]];
      assert View() == WithSrc(t1, s, i, b, v.value);
      assert Open(multi, View()) == Open(multi, t1);
      ok := true;
    }

    /** Looks at all back edges of block `b`. */
    method FillFrom(b: nat) returns (ok: bool)
      requires Sound(f) && Inv(f, multi, base, View()) && base <= next && CompleteBefore(f, View(), |f.blocks|)
      requires b < |f.blocks| && pending == {b}
      modifies this
      ensures !ok ==> EntryUndefined(f, multi)
      ensures ok ==>
        Inv(f, multi, base, View()) && base <= next && CompleteBefore(f, View(), |f.blocks|) && pending == {}
      ensures ok ==>
        Open(multi, View()) < Open(multi, old(View())) ||
        (Open(multi, View()) == Open(multi, old(View())) && needs == old(needs))
    {
      var succs := f.g.Successors(b);
      for k := 0 to |succs|
        invariant Inv(f, multi, base, View()) && base <= next && CompleteBefore(f, View(), |f.blocks|) && pending == {b}
        invariant FilledAll(f, View(), b, succs, k)
        invariant Open(multi, View()) < Open(multi, old(View())) ||
          (Open(multi, View()) == Open(multi, old(View())) && needs == old(needs))
      {
        if succs[k] <= b {
          assert f.g.Edge(b, succs[k]) by {
            assert InBounds(f.g.Successors(b), f.g.len) && succs[k] in f.g.Successors(b);
          }
          ok := FillPhis(b, succs[k], succs, k);
          if !ok {
            return;
          }
        }
      }
      NothingPending(f, multi, base, View(), b);
      pending := {};
      ok := true;
    }

    /** Fills the phi sources of all back edges. */
    method FillBackEdges() returns (ok: bool)
      requires Sound(f) && Inv(f, multi, base, View()) && base <= next && CompleteBefore(f, View(), |f.blocks|)
      requires pending == {}
      modifies this
      ensures !ok ==> EntryUndefined(f, multi)
      ensures ok ==> Inv(f, multi, base, View()) && CompleteBefore(f, View(), |f.blocks|) && needs == {} == pending
    {
      while needs != {}
        invariant Inv(f, multi, base, View()) && base <= next && CompleteBefore(f, View(), |f.blocks|) && pending == {}
        decreases Open(multi, View()), needs
      {
        var b := Least(needs);
        ghost var t := View();
        NowPending(f, multi, base, t, b);
        needs, pending := needs - {b}, {b};
        assert Open(multi, View()) == Open(multi, t);
        ok := FillFrom(b);
        if !ok {
          return;
        }
      }
      ok := true;
    }
  }
}
