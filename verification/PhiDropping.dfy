/**
 What dropping a redundant phi does to a consistent renaming: its name is redirected to the one
 name its sources stand for.
 */
module PhiDropping {
  import opened Basics
  import opened Cfgs
  import opened Programs
  import opened SsaForm

  ghost predicate SrcsAreEdges(f: Function, phis: seq<seq<PhiTracker>>) {
    forall b: nat, i, p: nat :: b < |phis| && 0 <= i < |phis[b]| && p in phis[b][i].srcs ==> f.g.Edge(p, b)
  }

  // ---- substituting a name for a phi ----

  ghost function Without(t: Track, b: nat, i: nat): Track
    requires b < |t.phis| && i < |t.phis[b]|
  {
    t.(phis := t.phis[b := t.phis[b][..i] + t.phis[b][i + 1..]])
  }

  /** Everything that stood for `d` now stands for `v`. */
  ghost predicate Redirects(sub: Ssa -> Ssa, d: Ssa, v: Ssa, sub': Ssa -> Ssa) {
    forall n: Ssa :: sub'(n) == if sub(n) == d then v else sub(n)
  }

  /** All sources of the phi stand for `v` or for the phi itself. */
  ghost predicate Redundant(ph: PhiTracker, sub: Ssa -> Ssa, v: Ssa) {
    && v != ph.dst && (exists p :: p in ph.srcs && sub(ph.srcs[p]) == v)
    && forall p :: p in ph.srcs ==> sub(ph.srcs[p]) == v || sub(ph.srcs[p]) == ph.dst
  }

  lemma {:induction false} PhiIndexWithout(phis: seq<PhiTracker>, i: nat, y: Ssa)
    requires i < |phis| && forall a, b :: 0 <= a < b < |phis| ==> phis[a].orig != phis[b].orig
    ensures var rest := phis[..i] + phis[i + 1..];
      if y == phis[i].orig then !HasPhi(rest, y)
      else
        && (HasPhi(rest, y) <==> HasPhi(phis, y))
        && (HasPhi(phis, y) ==> rest[PhiIndex(rest, y)] == phis[PhiIndex(phis, y)])
  {
    var rest := phis[..i] + phis[i + 1..];
    forall k | 0 <= k < |rest| ensures rest[k] == phis[if k < i then k else k + 1] {}
    var j, m := PhiIndex(phis, y), PhiIndex(rest, y);
    if y != phis[i].orig {
      if j < |phis| { assert rest[if j < i then j else j - 1].orig == y; }
      if m < |rest| { assert phis[if m < i then m else m + 1].orig == y; }
    }
  }

  /** The name that replaces a phi belongs to the same variable and stands for itself. */
  lemma {:induction false} ReplacementOwned(f: Function, multi: set<Ssa>, base: nat, t: Track, sub: Ssa -> Ssa, b: nat,
                                            i: nat, v: Ssa)
    requires Repaired(f, multi, base, t, sub) && b < |f.blocks| && i < |t.phis[b]| && Redundant(t.phis[b][i], sub, v)
    requires forall p :: p in t.phis[b][i].srcs ==> f.g.Edge(p, b)
    ensures sub(v) == v && Owned(t.site, v, t.phis[b][i].orig)
  {
    var ph := t.phis[b][i];
    var p :| p in ph.srcs && sub(ph.srcs[p]) == v;
    assert SubAt(t.site, sub, ph.srcs[p]);
    assert PhisNamed(t, b) && BlockNamed(t, p, f.blocks[p], multi);
    assert HandedOver(f, multi, t, sub, b, ph.orig, p);
    UniquePhi(t.phis[b], i);
    CurIsOwned(t, p, f.blocks[p], multi, |t.names[p]|);
    assert Owned(t.site, Out(f, multi, t, p)[ph.orig], ph.orig);
    assert SubAt(t.site, sub, Out(f, multi, t, p)[ph.orig]);
  }

  lemma {:induction false} UniquePhi(phis: seq<PhiTracker>, i: nat)
    requires i < |phis| && forall a, b :: 0 <= a < b < |phis| ==> phis[a].orig != phis[b].orig
    ensures PhiIndex(phis, phis[i].orig) == i
  {
  }

  /** The dropped phi's name is that of no other phi, and of no definition. */
  lemma {:induction false} SubStaysOk(t: Track, sub: Ssa -> Ssa, b: nat, i: nat, v: Ssa, sub': Ssa -> Ssa)
    requires b < |t.phis| && i < |t.phis[b]| && |t.inn| == |t.phis|
    requires forall q: nat :: q < |t.phis| ==> PhisNamed(t, q)
    requires SubOk(t, sub) && sub(v) == v && v != t.phis[b][i].dst && Owned(t.site, v, t.phis[b][i].orig)
    requires Redirects(sub, t.phis[b][i].dst, v, sub')
    ensures SubOk(Without(t, b, i), sub')
  {
    var t', ph := Without(t, b, i), t.phis[b][i];
    assert PhisNamed(t, b);
    forall n: Ssa ensures SubAt(t.site, sub', n) {
      assert SubAt(t.site, sub, n);
    }
    forall q, j | 0 <= q < |t'.phis| && 0 <= j < |t'.phis[q]| ensures sub'(t'.phis[q][j].dst) == t'.phis[q][j].dst {
      assert PhisNamed(t, q);
      var k := if q == b && j >= i then j + 1 else j;
      assert t'.phis[q][j] == t.phis[q][k];
      assert sub(t.phis[q][k].dst) == t.phis[q][k].dst;
      assert t.site[t.phis[q][k].dst] != t.site[ph.dst];
    }
  }

  lemma {:induction false} HandedOverWithout(f: Function, multi: set<Ssa>, base: nat, t: Track, sub: Ssa -> Ssa, b: nat,
                                             i: nat, v: Ssa, sub': Ssa -> Ssa, c: nat, x: Ssa, p: nat)
    requires Repaired(f, multi, base, t, sub) && b < |f.blocks| && i < |t.phis[b]| && Redundant(t.phis[b][i], sub, v)
    requires sub(v) == v
    requires Redirects(sub, t.phis[b][i].dst, v, sub')
    requires c < |f.blocks| && x in t.inn[c] && f.g.Edge(p, c) && Shaped(f.blocks[p], t.names[p])
    ensures Sized(f, Without(t, b, i)) && HandedOver(f, multi, Without(t, b, i), sub', c, x, p)
  {
    var t', ph := Without(t, b, i), t.phis[b][i];
    assert HandedOver(f, multi, t, sub, c, x, p);
    assert Out(f, multi, t', p) == Out(f, multi, t, p);
    assert PhisNamed(t, b);
    if c == b {
      PhiIndexWithout(t.phis[b], i, x);
      if x == ph.orig {
        UniquePhi(t.phis[b], i);
        assert sub(ph.dst) == ph.dst;
      }
    }
  }

  lemma {:induction false} NamedWithout(f: Function, multi: set<Ssa>, base: nat, t: Track, sub: Ssa -> Ssa, b: nat,
                                        i: nat, q: nat)
    requires Repaired(f, multi, base, t, sub) && b < |f.blocks| && i < |t.phis[b]| && q < |f.blocks|
    ensures BlockNamed(t, q, f.blocks[q], multi) && BlockNamed(Without(t, b, i), q, f.blocks[q], multi)
    ensures PhisNamed(Without(t, b, i), q)
  {
    assert BlockNamed(t, q, f.blocks[q], multi) && PhisNamed(t, q);
    var t' := Without(t, b, i);
    if q == b {
      forall k | 0 <= k < |t'.phis[b]| ensures t'.phis[b][k] == t.phis[b][if k < i then k else k + 1] {}
    }
  }

  /** Dropping a redundant phi, with its name redirected, keeps the renaming consistent. */
  lemma {:induction false} DropPhi(f: Function, multi: set<Ssa>, base: nat, t: Track, sub: Ssa -> Ssa, b: nat, i: nat,
                                   v: Ssa, sub': Ssa -> Ssa)
    requires Repaired(f, multi, base, t, sub) && b < |f.blocks| && i < |t.phis[b]| && Redundant(t.phis[b][i], sub, v)
    requires forall p :: p in t.phis[b][i].srcs ==> f.g.Edge(p, b)
    requires Redirects(sub, t.phis[b][i].dst, v, sub')
    ensures Repaired(f, multi, base, Without(t, b, i), sub')
  {
    var t' := Without(t, b, i);
    ReplacementOwned(f, multi, base, t, sub, b, i, v);
    SubStaysOk(t, sub, b, i, v, sub');
    forall q: nat | q < |f.blocks| ensures BlockNamed(t', q, f.blocks[q], multi) && PhisNamed(t', q) {
      NamedWithout(f, multi, base, t, sub, b, i, q);
    }
    MadeWithout(t, sub, b, i, v, sub');
    forall c: nat, x: Ssa, p: nat | c < |f.blocks| && x in t'.inn[c] && f.g.Edge(p, c)
      ensures HandedOver(f, multi, t', sub', c, x, p)
    {
      NamedWithout(f, multi, base, t, sub, b, i, p);
      HandedOverWithout(f, multi, base, t, sub, b, i, v, sub', c, x, p);
    }
  }

  /** Every name but the dropped one still stands somewhere. */
  lemma {:induction false} MadeWithout(t: Track, sub: Ssa -> Ssa, b: nat, i: nat, v: Ssa, sub': Ssa -> Ssa)
    requires b < |t.phis| && i < |t.phis[b]| && AllMade(t, sub) && Redirects(sub, t.phis[b][i].dst, v, sub')
    requires sub(v) == v && v != t.phis[b][i].dst
    ensures AllMade(Without(t, b, i), sub')
  {
    var t', ph := Without(t, b, i), t.phis[b][i];
    forall n: Ssa | n in t.site && sub'(n) == n ensures Made(t', n) {
      assert sub(n) == n && n != ph.dst && Made(t, n);
      if t.site[n].PhiSite? && t.site[n].b == b {
        var j: nat :| j < |t.phis[b]| && t.phis[b][j].dst == n;
        assert t'.phis[b][if j < i then j else j - 1] == t.phis[b][j];
      }
    }
  }

  lemma {:induction false} EdgesWithout(f: Function, phis: seq<seq<PhiTracker>>, b: nat, i: nat)
    requires SrcsAreEdges(f, phis) && b < |phis| && i < |phis[b]|
    ensures SrcsAreEdges(f, phis[b := phis[b][..i] + phis[b][i + 1..]])
  {
  }

  // ---- replacing sources ----

  /** Some sources have been replaced by what they stand for. */
  ghost predicate Updated(ph: PhiTracker, sub: Ssa -> Ssa, ph': PhiTracker) {
    && ph'.orig == ph.orig && ph'.dst == ph.dst && ph'.srcs.Keys == ph.srcs.Keys
    && forall p :: p in ph.srcs ==> ph'.srcs[p] == ph.srcs[p] || ph'.srcs[p] == sub(ph.srcs[p])
  }

  ghost function WithUpdate(t: Track, b: nat, i: nat, ph': PhiTracker): Track
    requires b < |t.phis| && i < |t.phis[b]|
  {
    t.(phis := t.phis[b := t.phis[b][i := ph']])
  }

  lemma {:induction false} MadeUpdate(t: Track, sub: Ssa -> Ssa, b: nat, i: nat, ph': PhiTracker)
    requires b < |t.phis| && i < |t.phis[b]| && AllMade(t, sub) && ph'.dst == t.phis[b][i].dst
    ensures AllMade(WithUpdate(t, b, i, ph'), sub)
  {
    var t' := WithUpdate(t, b, i, ph');
    forall n: Ssa | n in t.site && sub(n) == n ensures Made(t', n) {
      assert Made(t, n);
      if t.site[n].PhiSite? && t.site[n].b == b {
        var j: nat :| j < |t.phis[b]| && t.phis[b][j].dst == n;
        assert t'.phis[b][j].dst == n;
      }
    }
  }

  lemma {:induction false} UpdateKeeps(f: Function, multi: set<Ssa>, base: nat, t: Track, sub: Ssa -> Ssa, b: nat,
                                       i: nat, ph': PhiTracker)
    requires Repaired(f, multi, base, t, sub) && b < |f.blocks| && i < |t.phis[b]| && Updated(t.phis[b][i], sub, ph')
    ensures Repaired(f, multi, base, WithUpdate(t, b, i, ph'), sub)
  {
    var t', ph := WithUpdate(t, b, i, ph'), t.phis[b][i];
    MadeUpdate(t, sub, b, i, ph');
    forall q: nat | q < |f.blocks| ensures BlockNamed(t', q, f.blocks[q], multi) && PhisNamed(t', q) {
      assert BlockNamed(t, q, f.blocks[q], multi) && PhisNamed(t, q);
    }
    assert SubOk(t', sub) by {
      forall q, j | 0 <= q < |t'.phis| && 0 <= j < |t'.phis[q]| ensures sub(t'.phis[q][j].dst) == t'.phis[q][j].dst {
        assert t'.phis[q][j].dst == t.phis[q][j].dst;
      }
    }
    forall c: nat, x: Ssa, p: nat | c < |f.blocks| && x in t'.inn[c] && f.g.Edge(p, c)
      ensures HandedOver(f, multi, t', sub, c, x, p)
    {
      assert HandedOver(f, multi, t, sub, c, x, p);
      assert Out(f, multi, t', p) == Out(f, multi, t, p);
      if c == b {
        PhiIndexUpdate(t.phis[b], i, ph', x);
        if PhiIndex(t.phis[b], x) == i { assert SubAt(t.site, sub, ph.srcs[p]); }
      }
    }
  }

  // ---- which phis are redundant ----

  ghost predicate OnlyName(ph: PhiTracker, sub: Ssa -> Ssa, todo: set<nat>, v: Option<Ssa>) {
    && (forall p :: p in ph.srcs && p !in todo ==> sub(ph.srcs[p]) == ph.dst || v == Some(sub(ph.srcs[p])))
    && (v.Some? ==> v.value != ph.dst && exists p :: p in ph.srcs && sub(ph.srcs[p]) == v.value)
  }

  lemma {:induction false} OnlyNameStep(ph: PhiTracker, sub: Ssa -> Ssa, todo: set<nat>, v: Option<Ssa>, p: nat)
    requires OnlyName(ph, sub, todo, v) && p in todo && p in ph.srcs
    ensures var n := sub(ph.srcs[p]);
      && (n == ph.dst || v == Some(n) ==> OnlyName(ph, sub, todo - {p}, v))
      && (n != ph.dst && v == None ==> OnlyName(ph, sub, todo - {p}, Some(n)))
  {
  }

  ghost predicate Needed(ph: PhiTracker, sub: Ssa -> Ssa) {
    exists p, q :: p in ph.srcs && q in ph.srcs && sub(ph.srcs[p]) != sub(ph.srcs[q]) &&
      sub(ph.srcs[p]) != ph.dst && sub(ph.srcs[q]) != ph.dst
  }

  lemma {:induction false} NeededUpdated(t: Track, ph: PhiTracker, sub: Ssa -> Ssa, ph': PhiTracker)
    requires SubOk(t, sub) && Updated(ph, sub, ph')
    ensures Needed(ph, sub) ==> Needed(ph', sub)
  {
    if Needed(ph, sub) {
      var p, q :| p in ph.srcs && q in ph.srcs && sub(ph.srcs[p]) != sub(ph.srcs[q]) &&
        sub(ph.srcs[p]) != ph.dst && sub(ph.srcs[q]) != ph.dst;
      assert SubAt(t.site, sub, ph.srcs[p]) && SubAt(t.site, sub, ph.srcs[q]);
      assert p in ph'.srcs && q in ph'.srcs && sub(ph'.srcs[p]) == sub(ph.srcs[p]) &&
        sub(ph'.srcs[q]) == sub(ph.srcs[q]);
    }
  }

  /** The first `n` phis of the row have two sources that stand for different names, neither the
      phi itself. */
  ghost predicate NoneRedundant(row: seq<PhiTracker>, sub: Ssa -> Ssa, n: nat) {
    forall i :: 0 <= i < n && i < |row| ==> Needed(row[i], sub)
  }

  /** No phi of the first `n` blocks is redundant. */
  ghost predicate AllNeeded(phis: seq<seq<PhiTracker>>, sub: Ssa -> Ssa, n: nat) {
    forall b :: 0 <= b < n && b < |phis| ==> NoneRedundant(phis[b], sub, |phis[b]|)
  }

  /** The substitution after a union, as a function. */
  ghost function Redirected(sub: Ssa -> Ssa, d: Ssa, v: Ssa): Ssa -> Ssa {
    (n: Ssa) => if sub(n) == d then v else sub(n)
  }

  lemma {:induction false} StandsForItself(f: Function, multi: set<Ssa>, base: nat, t: Track, sub: Ssa -> Ssa, b: nat,
                                           i: nat, v: Ssa)
    requires Repaired(f, multi, base, t, sub) && b < |t.phis| && i < |t.phis[b]|
    requires exists p :: p in t.phis[b][i].srcs && sub(t.phis[b][i].srcs[p]) == v
    ensures sub(v) == v && sub(t.phis[b][i].dst) == t.phis[b][i].dst
  {
    var p :| p in t.phis[b][i].srcs && sub(t.phis[b][i].srcs[p]) == v;
    assert SubAt(t.site, sub, t.phis[b][i].srcs[p]);
  }
}
