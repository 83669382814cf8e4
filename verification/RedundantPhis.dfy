/**
 Removal of phis whose sources are all one name, or the phi itself, and the whole repair.
 */
module RedundantPhis {
  import opened Basics
  import opened Cfgs
  import opened Programs
  import opened SsaForm
  import opened UnionFinds
  import opened DefCounts
  import opened PhiDropping
  import opened CircularPhis
  import opened PhiRegions
  import opened Dominators
  import Repair = RepairSsa

  // ---- after the search ----

  lemma {:induction false} InIsLive(f: Function, multi: set<Ssa>, base: nat, t: Track, b: nat, x: Ssa)
    requires Repair.Inv(f, multi, base, t) && b < |f.blocks| && x in t.inn[b]
    ensures LiveIn(f, b, x)
  {
    assert Repair.InOk(f, multi, t, b, x);
  }

  /** With all phi sources filled in, the renaming is complete and consistent. */
  lemma {:induction false} SearchedIsRepaired(f: Function, multi: set<Ssa>, base: nat, t: Track)
    requires Repair.Sound(f) && Repair.Inv(f, multi, base, t) && t.needs == {} == t.pending
    requires Repair.CompleteBefore(f, t, |f.blocks|)
    ensures Repaired(f, multi, base, t, Same())
  {
    forall b: nat | b < |f.blocks|
      ensures BlockNamed(t, b, f.blocks[b], multi) && PhisNamed(t, b) && CurOwned(t.inn[b], t.site, multi)
    {
      assert Repair.BlockOk(f, multi, t, b);
      forall x | x in t.inn[b] ensures x in multi && Owned(t.site, t.inn[b][x], x) {
        assert Repair.InOk(f, multi, t, b, x);
      }
    }
    forall b: nat, x: Ssa | b < |f.blocks| && x in t.inn[b] ensures EntersLive(f, b, x) {
      InIsLive(f, multi, base, t, b, x);
    }
    forall b: nat, x: Ssa, p: nat | b < |f.blocks| && x in t.inn[b] && f.g.Edge(p, b)
      ensures HandedOver(f, multi, t, Same(), b, x, p)
    {
      assert Repair.InOk(f, multi, t, b, x) && Repair.BlockOk(f, multi, t, p);
      var i := PhiIndex(t.phis[b], x);
      if i < |t.phis[b]| {
        var ph := t.phis[b][i];
        assert Repair.SrcOk(t, ph, p);
      }
    }
  }

  // ---- the pass ----

  /** The substitution recorded in the union-find structure. */
  ghost predicate Records(uf: UnionFind<Ssa>, sub: Ssa -> Ssa)
    reads uf
  {
    uf.Valid() && forall n: Ssa :: uf.Rep(n) == sub(n)
  }

  /** What a name stands for. */
  method Lookup(uf: UnionFind<Ssa>, n: Ssa, ghost sub: Ssa -> Ssa) returns (r: Ssa)
    requires Records(uf, sub)
    modifies uf`nodes
    ensures Records(uf, sub) && r == sub(n)
  {
    r := uf.Find(n);
  }

  /** Looks for a source other than `v` and the phi itself. */
  method CheckPhi(uf: UnionFind<Ssa>, ph: PhiTracker, ghost sub: Ssa -> Ssa)
    returns (ph': PhiTracker, redundant: bool, v: Option<Ssa>)
    requires Records(uf, sub)
    modifies uf`nodes
    ensures Records(uf, sub) && Updated(ph, sub, ph')
    ensures if redundant then OnlyName(ph, sub, {}, v) else Needed(ph, sub)
  {
    ph', redundant, v := ph, true, None;
    var todo := ph.srcs.Keys;
    while todo != {}
      invariant todo <= ph.srcs.Keys && Records(uf, sub) && Updated(ph, sub, ph') && OnlyName(ph, sub, todo, v)
      invariant forall p :: p in todo ==> ph'.srcs[p] == ph.srcs[p]
    {
      var p :| p in todo;
      var n := Lookup(uf, ph'.srcs[p], sub);
      ph' := ph'.(srcs := ph'.srcs[p := n]);
      OnlyNameStep(ph, sub, todo, v, p);
      if n != ph.dst {
        if v.None? {
          v := Some(n);
        }
        if v.value != n {
          return ph', false, v;
        }
      }
      todo := todo - {p};
    }
  }

  ghost function Total(phis: seq<seq<PhiTracker>>): nat {
    if phis == [] then 0 else |phis[0]| + Total(phis[1..])
  }

  lemma {:induction false} TotalUpdate(phis: seq<seq<PhiTracker>>, b: nat, row: seq<PhiTracker>)
    requires b < |phis|
    ensures Total(phis[b := row]) == Total(phis) - |phis[b]| + |row|
    decreases b
  {
    if b == 0 {
      assert phis[0 := row][1..] == phis[1..];
    } else {
      assert phis[b := row][1..] == phis[1..][b - 1 := row];
      TotalUpdate(phis[1..], b - 1, row);
    }
  }

  /** The consistent renaming under way: `t` with the phis that are left. */
  ghost predicate Working(f: Function, multi: set<Ssa>, base: nat, t: Track, phis: seq<seq<PhiTracker>>,
                          sub: Ssa -> Ssa) {
    Repaired(f, multi, base, t.(phis := phis), sub) && SrcsAreEdges(f, phis) && AllRooted(f, t.(phis := phis), sub)
  }

  lemma {:induction false} WorkingUpdate(f: Function, multi: set<Ssa>, base: nat, t: Track, phis: seq<seq<PhiTracker>>,
                                         sub: Ssa -> Ssa, b: nat, i: nat, ph': PhiTracker)
    requires Working(f, multi, base, t, phis, sub) && b < |phis| && i < |phis[b]| && Updated(phis[b][i], sub, ph')
    ensures Working(f, multi, base, t, phis[b := phis[b][i := ph']], sub)
  {
    UpdateKeeps(f, multi, base, t.(phis := phis), sub, b, i, ph');
    AllRootedUpdate(f, t.(phis := phis), sub, b, i, ph');
    assert WithUpdate(t.(phis := phis), b, i, ph') == t.(phis := phis[b := phis[b][i := ph']]);
  }

  lemma {:induction false} WorkingDrop(f: Function, multi: set<Ssa>, base: nat, t: Track, phis: seq<seq<PhiTracker>>,
                                       sub: Ssa -> Ssa, b: nat, i: nat, v: Ssa, sub': Ssa -> Ssa)
    requires Working(f, multi, base, t, phis, sub) && b < |phis| && i < |phis[b]| && Redundant(phis[b][i], sub, v)
    requires Redirects(sub, phis[b][i].dst, v, sub')
    ensures Working(f, multi, base, t, phis[b := phis[b][..i] + phis[b][i + 1..]], sub')
  {
    var u := t.(phis := phis);
    var phis' := phis[b := phis[b][..i] + phis[b][i + 1..]];
    DropPhi(f, multi, base, u, sub, b, i, v, sub');
    RepairedHands(f, multi, base, u, sub);
    AllRootedDrop(f, u, sub, b, i, v, sub');
    assert Without(u, b, i) == t.(phis := phis');
    EdgesWithout(f, phis, b, i);
  }

  method UnionInto(uf: UnionFind<Ssa>, v: Ssa, d: Ssa, ghost sub: Ssa -> Ssa)
    requires Records(uf, sub) && sub(d) == d && sub(v) == v
    modifies uf
    ensures Records(uf, Redirected(sub, d, v))
  {
    uf.Union(v, d);
  }

  /** Only the phis of block `b` have changed. */
  ghost predicate OnlyIn(phis: seq<seq<PhiTracker>>, phis': seq<seq<PhiTracker>>, b: nat) {
    |phis'| == |phis| && forall c :: 0 <= c < |phis| && c != b ==> phis'[c] == phis[c]
  }

  /** Going over the phis of block `b` without dropping one, up to phi `i`. */
  ghost predicate Kept(phis: seq<seq<PhiTracker>>, phis': seq<seq<PhiTracker>>, b: nat, sub: Ssa -> Ssa, i: nat)
    requires b < |phis'|
  {
    OnlyIn(phis, phis', b) && NoneRedundant(phis'[b], sub, i)
  }

  /** A phi that is needed stays, its sources replaced by what they stand for. */
  lemma {:induction false} KeepOne(f: Function, multi: set<Ssa>, base: nat, t: Track, phis: seq<seq<PhiTracker>>,
                                   sub: Ssa -> Ssa, b: nat, i: nat, ph: PhiTracker)
    requires Working(f, multi, base, t, phis, sub) && b < |phis| && i < |phis[b]|
    requires Updated(phis[b][i], sub, ph) && Needed(phis[b][i], sub)
    ensures var next := phis[b := phis[b][i := ph]];
      Working(f, multi, base, t, next, sub) && Total(next) == Total(phis) && Needed(ph, sub)
  {
    WorkingUpdate(f, multi, base, t, phis, sub, b, i, ph);
    TotalUpdate(phis, b, phis[b][i := ph]);
    NeededUpdated(t.(phis := phis), phis[b][i], sub, ph);
  }

  lemma {:induction false} KeptNext(was: seq<seq<PhiTracker>>, phis: seq<seq<PhiTracker>>, sub: Ssa -> Ssa, b: nat,
                                    i: nat, ph: PhiTracker)
    requires b < |phis| && i < |phis[b]| && Kept(was, phis, b, sub, i) && Needed(ph, sub)
    ensures Kept(was, phis[b := phis[b][i := ph]], b, sub, i + 1)
  {
  }

  /** Goes over the phis of block `b`, dropping the redundant ones. */
  method RetainPhis(f: Function, multi: set<Ssa>, base: nat, ghost t: Track, phis: seq<seq<PhiTracker>>,
                    uf: UnionFind<Ssa>, b: nat, ghost sub: Ssa -> Ssa)
    returns (ok: bool, phis': seq<seq<PhiTracker>>, dropped: bool, ghost sub': Ssa -> Ssa)
    requires Working(f, multi, base, t, phis, sub) && Records(uf, sub) && b < |phis|
    modifies uf
    ensures !ok ==> CircularIn(f, multi)
    ensures ok ==> Working(f, multi, base, t, phis', sub') && Records(uf, sub') && |phis'| == |phis|
    ensures if dropped then Total(phis') < Total(phis) else Total(phis') == Total(phis)
    ensures ok && !dropped ==> sub' == sub && Kept(phis, phis', b, sub, |phis'[b]|)
  {
    ok, phis', dropped, sub' := true, phis, false, sub;
    var i := 0;
    while i < |phis'[b]|
      invariant Working(f, multi, base, t, phis', sub') && Records(uf, sub') && |phis'| == |phis| && i <= |phis'[b]|
      invariant if dropped then Total(phis') < Total(phis) else Total(phis') == Total(phis)
      invariant !dropped ==> sub' == sub && Kept(phis, phis', b, sub, i)
      decreases |phis'[b]| - i
    {
      var ph, redundant, v := CheckPhi(uf, phis'[b][i], sub');
      if redundant {
        if v.None? {
          CircularCause(f, multi, base, t.(phis := phis'), sub', b, i);
          return false, phis', dropped, sub';
        }
        phis', sub' := DropOne(f, multi, base, t, phis', uf, b, i, v, sub');
        dropped := true;
      } else {
        KeepOne(f, multi, base, t, phis', sub', b, i, ph);
        if !dropped { KeptNext(phis, phis', sub', b, i, ph); }
        phis' := phis'[b := phis'[b][i := ph]];
        i := i + 1;
      }
    }
  }

  /** Drops one redundant phi and redirects its name. */
  method DropOne(f: Function, multi: set<Ssa>, base: nat, ghost t: Track, phis: seq<seq<PhiTracker>>,
                 uf: UnionFind<Ssa>, b: nat, i: nat, v: Option<Ssa>, ghost sub: Ssa -> Ssa)
    returns (phis': seq<seq<PhiTracker>>, ghost sub': Ssa -> Ssa)
    requires Working(f, multi, base, t, phis, sub) && Records(uf, sub) && b < |phis| && i < |phis[b]|
    requires OnlyName(phis[b][i], sub, {}, v) && v.Some?
    modifies uf
    ensures Working(f, multi, base, t, phis', sub') && Records(uf, sub') && |phis'| == |phis|
    ensures Total(phis') == Total(phis) - 1 && |phis'[b]| == |phis[b]| - 1
  {
    var ph := phis[b][i];
    DropOk(f, multi, base, t, phis, sub, b, i, v);
    sub' := Redirected(sub, ph.dst, v.value);
    UnionInto(uf, v.value, ph.dst, sub);
    var row := phis[b][..i] + phis[b][i + 1..];
    TotalUpdate(phis, b, row);
    phis' := phis[b := row];
  }

  /** A phi with one name among its sources can be dropped for it. */
  lemma {:induction false} DropOk(f: Function, multi: set<Ssa>, base: nat, t: Track, phis: seq<seq<PhiTracker>>,
                                  sub: Ssa -> Ssa, b: nat, i: nat, v: Option<Ssa>)
    requires Working(f, multi, base, t, phis, sub) && b < |phis| && i < |phis[b]| && OnlyName(phis[b][i], sub, {}, v)
    requires v.Some?
    ensures sub(v.value) == v.value && sub(phis[b][i].dst) == phis[b][i].dst
    ensures Working(f, multi, base, t, phis[b := phis[b][..i] + phis[b][i + 1..]],
                    Redirected(sub, phis[b][i].dst, v.value))
  {
    var ph := phis[b][i];
    var u := t.(phis := phis);
    StandsForItself(f, multi, base, u, sub, b, i, v.value);
    WorkingDrop(f, multi, base, t, phis, sub, b, i, v.value, Redirected(sub, ph.dst, v.value));
  }

  /** Repeats until no phi is redundant. Fails at a phi that has no source but itself:
      exactly when a renamed variable has a region without definitions that collapses. */
  method RemoveRedundant(f: Function, multi: set<Ssa>, base: nat, ghost t: Track, phis: seq<seq<PhiTracker>>,
                         uf: UnionFind<Ssa>, ghost sub: Ssa -> Ssa)
    returns (ok: bool, phis': seq<seq<PhiTracker>>, ghost sub': Ssa -> Ssa)
    requires Working(f, multi, base, t, phis, sub) && Records(uf, sub) && |phis| == |f.blocks|
    requires LiveKnown(f, multi, t)
    modifies uf
    ensures ok <==> !CircularIn(f, multi)
    ensures ok ==> Working(f, multi, base, t, phis', sub') && Records(uf, sub') && |phis'| == |phis|
    ensures ok ==> AllNeeded(phis', sub', |phis'|)
  {
    ok, phis', sub' := true, phis, sub;
    var todo := true;
    while todo
      invariant Working(f, multi, base, t, phis', sub') && Records(uf, sub') && |phis'| == |phis|
      invariant !todo ==> AllNeeded(phis', sub', |phis'|)
      decreases Total(phis'), todo
    {
      todo := false;
      ghost var before := Total(phis');
      for b := 0 to |f.blocks|
        invariant Working(f, multi, base, t, phis', sub') && Records(uf, sub') && |phis'| == |phis|
        invariant if todo then Total(phis') < before else Total(phis') == before && AllNeeded(phis', sub', b)
      {
        var dropped;
        ok, phis', dropped, sub' := RetainPhis(f, multi, base, t, phis', uf, b, sub');
        if !ok {
          return;
        }
        todo := todo || dropped;
      }
    }
    NothingCircular(f, multi, base, t.(phis := phis'), sub');
  }

  // ---- the whole repair ----

  /** The code in which every use and phi source is replaced by what it stands for. */
  ghost predicate Applied(names: seq<seq<Names>>, sub: Ssa -> Ssa, code: seq<seq<Names>>) {
    && |code| == |names|
    && forall b :: 0 <= b < |code| ==> |code[b]| == |names[b]| && forall ip :: 0 <= ip < |code[b]| ==>
         AppliedAt(names[b][ip], sub, code[b][ip])
  }

  ghost predicate AppliedAt(ns: Names, sub: Ssa -> Ssa, out: Names) {
    out.defs == ns.defs && |out.uses| == |ns.uses| && forall k :: 0 <= k < |out.uses| ==> out.uses[k] == sub(ns.uses[k])
  }

  method ApplyInstr(ns: Names, uf: UnionFind<Ssa>, ghost sub: Ssa -> Ssa) returns (out: Names)
    requires Records(uf, sub)
    modifies uf`nodes
    ensures Records(uf, sub) && AppliedAt(ns, sub, out)
  {
    var us: seq<Ssa> := [];
    for k := 0 to |ns.uses|
      invariant Records(uf, sub) && |us| == k && forall j :: 0 <= j < k ==> us[j] == sub(ns.uses[j])
    {
      var u := Lookup(uf, ns.uses[k], sub);
      us := us + [u];
    }
    out := Names(us, ns.defs);
  }

  method ApplyAll(names: seq<seq<Names>>, uf: UnionFind<Ssa>, ghost sub: Ssa -> Ssa) returns (code: seq<seq<Names>>)
    requires Records(uf, sub)
    modifies uf`nodes
    ensures Records(uf, sub) && Applied(names, sub, code)
  {
    code := [];
    for b := 0 to |names|
      invariant Records(uf, sub) && |code| == b
      invariant forall c :: 0 <= c < b ==> |code[c]| == |names[c]| && forall ip :: 0 <= ip < |code[c]| ==>
        AppliedAt(names[c][ip], sub, code[c][ip])
    {
      var row: seq<Names> := [];
      for ip := 0 to |names[b]|
        invariant Records(uf, sub) && |row| == ip && forall j :: 0 <= j < ip ==> AppliedAt(names[b][j], sub, row[j])
      {
        var out := ApplyInstr(names[b][ip], uf, sub);
        row := row + [out];
      }
      code := code + [row];
    }
  }

  lemma {:induction false} StartInv(f: Function, multi: set<Ssa>, base: nat, t: Track)
    requires Sized(f, t) && t.next == base && t.needs == {} && t.site == map[] && t.undefs == []
    requires forall b :: 0 <= b < |t.defs| ==>
      t.defs[b] == map[] && t.phis[b] == [] && t.names[b] == [] && t.inn[b] == map[]
    ensures Repair.Inv(f, multi, base, t) && Repair.Forwards(t, 0)
  {
  }

  lemma {:induction false} InvEdges(f: Function, multi: set<Ssa>, base: nat, t: Track)
    requires Repair.Inv(f, multi, base, t)
    ensures SrcsAreEdges(f, t.phis)
  {
    forall b: nat, i, p: nat | b < |t.phis| && 0 <= i < |t.phis[b]| && p in t.phis[b][i].srcs ensures f.g.Edge(p, b) {
      var ph := t.phis[b][i];
      assert Repair.BlockOk(f, multi, t, b) && ph.orig in t.inn[b];
      assert Repair.InOk(f, multi, t, b, ph.orig);
      UniquePhi(t.phis[b], i);
      assert Repair.SrcOk(t, ph, p);
    }
  }

  /** The phis in which every source is replaced by what it stands for. */
  ghost predicate ResolvedAt(ph: PhiTracker, sub: Ssa -> Ssa, out: PhiTracker) {
    out.orig == ph.orig && out.dst == ph.dst && out.srcs.Keys == ph.srcs.Keys && forall p :: p in ph.srcs ==>
      out.srcs[p] == sub(ph.srcs[p])
  }

  ghost predicate ResolvedRow(row: seq<PhiTracker>, sub: Ssa -> Ssa, out: seq<PhiTracker>) {
    |out| == |row| && forall i :: 0 <= i < |row| ==> ResolvedAt(row[i], sub, out[i])
  }

  ghost predicate Resolved(phis: seq<seq<PhiTracker>>, sub: Ssa -> Ssa, out: seq<seq<PhiTracker>>) {
    |out| == |phis| && forall b :: 0 <= b < |phis| ==> ResolvedRow(phis[b], sub, out[b])
  }

  method ResolvePhi(ph: PhiTracker, uf: UnionFind<Ssa>, ghost sub: Ssa -> Ssa) returns (out: PhiTracker)
    requires Records(uf, sub)
    modifies uf`nodes
    ensures Records(uf, sub) && ResolvedAt(ph, sub, out)
  {
    out := ph;
    var todo := ph.srcs.Keys;
    while todo != {}
      invariant todo <= ph.srcs.Keys && Records(uf, sub) && out.orig == ph.orig && out.dst == ph.dst
      invariant out.srcs.Keys == ph.srcs.Keys
      invariant forall p :: p in ph.srcs ==> out.srcs[p] == if p in todo then ph.srcs[p] else sub(ph.srcs[p])
    {
      var p :| p in todo;
      var n := Lookup(uf, ph.srcs[p], sub);
      out := out.(srcs := out.srcs[p := n]);
      todo := todo - {p};
    }
  }

  method ResolvePhis(phis: seq<seq<PhiTracker>>, uf: UnionFind<Ssa>, ghost sub: Ssa -> Ssa)
    returns (out: seq<seq<PhiTracker>>)
    requires Records(uf, sub)
    modifies uf`nodes
    ensures Records(uf, sub) && Resolved(phis, sub, out)
  {
    out := [];
    for b := 0 to |phis|
      invariant Records(uf, sub) && |out| == b && forall c :: 0 <= c < b ==> ResolvedRow(phis[c], sub, out[c])
    {
      var row: seq<PhiTracker> := [];
      for i := 0 to |phis[b]|
        invariant Records(uf, sub) && |row| == i && forall j :: 0 <= j < i ==> ResolvedAt(phis[b][j], sub, row[j])
      {
        var ph := ResolvePhi(phis[b][i], uf, sub);
        row := row + [ph];
      }
      out := out + [row];
    }
  }

  /** The code and phis are a consistent renaming of the function, names replaced by what they
      stand for, in which exactly the variables with two definitions have been renamed. */
  ghost predicate IsRepair(f: Function, base: nat, out: Output) {
    exists multi, t, sub :: RepairedBy(f, base, out, multi, t, sub)
  }

  /** The new names of all instructions, the phis, and the undefined values to be put at the heads
      of blocks. */
  datatype Output = Output(code: seq<seq<Names>>, phis: seq<seq<PhiTracker>>, undefs: seq<(nat, Ssa)>)

  ghost predicate RepairedBy(f: Function, base: nat, out: Output, multi: set<Ssa>, t: Track, sub: Ssa -> Ssa) {
    Repaired(f, multi, base, t, sub) && Applied(t.names, sub, out.code) && Resolved(t.phis, sub, out.phis) &&
      out.undefs == t.undefs && SrcsAreEdges(f, t.phis) && forall x: Ssa :: x in multi <==> Twice(f, x)
  }

  lemma {:induction false} ResolvedNeeded(t: Track, phis: seq<seq<PhiTracker>>, sub: Ssa -> Ssa,
                                          out: seq<seq<PhiTracker>>)
    requires t.phis == phis && SubOk(t, sub) && Resolved(phis, sub, out) && AllNeeded(phis, sub, |phis|)
    ensures AllNeeded(out, Same(), |out|)
  {
    forall b, i | 0 <= b < |out| && 0 <= i < |out[b]| ensures Needed(out[b][i], Same()) {
      assert ResolvedRow(phis[b], sub, out[b]);
      assert ResolvedAt(phis[b][i], sub, out[b][i]);
      assert NoneRedundant(phis[b], sub, |phis[b]|);
      assert Needed(phis[b][i], sub);
      var ph := phis[b][i];
      var p, q :| p in ph.srcs && q in ph.srcs && sub(ph.srcs[p]) != sub(ph.srcs[q]) &&
        sub(ph.srcs[p]) != ph.dst && sub(ph.srcs[q]) != ph.dst;
      assert p in out[b][i].srcs && q in out[b][i].srcs;
    }
  }

  /** A variable with two definitions may be used undefined, and nothing leads back to the entry. */
  ghost predicate UndefinedUse(f: Function) {
    !HasPred(f.g, 0) && exists x :: Twice(f, x) && LiveIn(f, 0, x)
  }

  /** A variable with two definitions is wanted in a region of blocks that get it only from each
      other and do not define it, and the region collapses. */
  ghost predicate CircularUse(f: Function) {
    exists x: Ssa, s: set<nat> :: Twice(f, x) && Region(f, x, s) && Collapses(f.g, s)
  }

  /** Repairs the function: definitions of variables with several get names of their own, with
      phis where they meet. When there is a loop, redundant phis are dropped; without one, each phi
      has two different sources or stands before one of its predecessors. It fails exactly when a
      path leads from the entry to a use without a definition and nothing leads back to the entry,
      or there is a loop and some region of undefined uses collapses. */
  method RepairFunction(f: Function, base: nat) returns (r: Result<Output>)
    requires Repair.Sound(f) && Older(f, base)
    ensures r.Ok? ==> IsRepair(f, base, r.value) && (HasLoop(f.g) ==> AllNeeded(r.value.phis, Same(), |r.value.phis|))
    ensures r.Ok? && !HasLoop(f.g) ==> PhisMeet(f, r.value.phis)
    ensures r.Err? <==> UndefinedUse(f) || (HasLoop(f.g) && CircularUse(f))
  {
    var several := CountDefs(f);
    var r0 := new Repair.Repairer(f, several, base);
    StartInv(f, several, base, r0.View());
    var ok := r0.RenameAll();
    if !ok {
      return Err;
    }
    ok := r0.FillBackEdges();
    if !ok {
      return Err;
    }
    ghost var t := r0.View();
    NamedOk(f, several, base, t);
    var doms := ComputeDomAnalysis(f.g);
    var hasLoop := DetectBackEdges(f.g, doms);
    r := Finish(f, several, base, t, r0.names, r0.phis, r0.undefs, hasLoop);
  }

  /** Every phi has two different sources, or stands before one of its predecessors. */
  ghost predicate PhisMeet(f: Function, phis: seq<seq<PhiTracker>>) {
    forall b: nat, i: nat :: b < |phis| && i < |phis[b]| ==> Repair.Meets(f, b, phis[b][i].srcs)
  }

  lemma {:induction false} SearchedMeet(f: Function, multi: set<Ssa>, base: nat, t: Track)
    requires Repair.Inv(f, multi, base, t)
    ensures PhisMeet(f, t.phis)
  {
    forall b: nat, i: nat | b < |t.phis| && i < |t.phis[b]| ensures Repair.Meets(f, b, t.phis[b][i].srcs) {
      assert Repair.BlockOk(f, multi, t, b);
      UniquePhi(t.phis[b], i);
      assert Repair.InOk(f, multi, t, b, t.phis[b][i].orig);
    }
  }

  lemma {:induction false} ResolvedMeet(f: Function, phis: seq<seq<PhiTracker>>, out: seq<seq<PhiTracker>>)
    requires PhisMeet(f, phis) && Resolved(phis, Same(), out)
    ensures PhisMeet(f, out)
  {
    forall b: nat, i: nat | b < |out| && i < |out[b]| ensures Repair.Meets(f, b, out[b][i].srcs) {
      assert ResolvedRow(phis[b], Same(), out[b]);
      assert ResolvedAt(phis[b][i], Same(), out[b][i]);
      assert Repair.Meets(f, b, phis[b][i].srcs);
    }
  }

  lemma {:induction false} NamedOk(f: Function, multi: set<Ssa>, base: nat, t: Track)
    requires Repair.Sound(f) && Repair.Inv(f, multi, base, t) && t.needs == {} == t.pending
    requires Repair.CompleteBefore(f, t, |f.blocks|)
    requires forall x: Ssa :: x in multi <==> Twice(f, x)
    ensures Working(f, multi, base, t, t.phis, Same()) && LiveKnown(f, multi, t) && !UndefinedUse(f)
    ensures PhisMeet(f, t.phis)
  {
    SearchedMeet(f, multi, base, t);
    SearchedIsRepaired(f, multi, base, t);
    InvEdges(f, multi, base, t);
    Repair.UndefinedIsNoticed(f, multi, base, t);
    AllRootedAtFirst(f, multi, base, t);
    LiveIsKnown(f, multi, base, t);
    assert t.(phis := t.phis) == t;
  }

  /** Drops redundant phis, if there may be some, and puts the names in their places. */
  method Finish(f: Function, several: set<Ssa>, base: nat, ghost t: Track, names: seq<seq<Names>>,
                phis: seq<seq<PhiTracker>>, undefs: seq<(nat, Ssa)>, hasLoop: bool) returns (r: Result<Output>)
    requires Working(f, several, base, t, t.phis, Same()) && LiveKnown(f, several, t)
    requires forall x: Ssa :: x in several <==> Twice(f, x)
    requires t.names == names && t.phis == phis && t.undefs == undefs && PhisMeet(f, phis)
    ensures r.Ok? && !hasLoop ==> PhisMeet(f, r.value.phis)
    ensures r.Ok? ==> IsRepair(f, base, r.value) && (hasLoop ==> AllNeeded(r.value.phis, Same(), |r.value.phis|))
    ensures r.Err? <==> hasLoop && CircularUse(f)
  {
    var uf := new UnionFind<Ssa>();
    ghost var sub := Same();
    var left := phis;
    assert t.(phis := left) == t;
    if hasLoop {
      var ok;
      ok, left, sub := RemoveRedundant(f, several, base, t, left, uf, sub);
      if !ok {
        return Err;
      }
    }
    ghost var t' := t.(phis := left);
    var code := ApplyAll(names, uf, sub);
    var out := ResolvePhis(left, uf, sub);
    assert RepairedBy(f, base, Output(code, out, undefs), several, t', sub);
    if hasLoop {
      ResolvedNeeded(t', left, sub, out);
    } else {
      ResolvedMeet(f, left, out);
    }
    r := Ok(Output(code, out, undefs));
  }

  // ---- every name is defined once ----

  /** Definition `k` of instruction `ip` of block `b` is named `n`. */
  ghost predicate Defines(code: seq<seq<Names>>, b: nat, ip: nat, k: nat, n: Ssa) {
    b < |code| && ip < |code[b]| && k < |code[b][ip].defs| && code[b][ip].defs[k] == n
  }

  /** Phi `i` of block `b` is named `n`. */
  ghost predicate PhiDefines(phis: seq<seq<PhiTracker>>, b: nat, i: nat, n: Ssa) {
    b < |phis| && i < |phis[b]| && phis[b][i].dst == n
  }

  /** Undefined value `u` is named `n`. */
  ghost predicate UndefDefines(undefs: seq<(nat, Ssa)>, u: nat, n: Ssa) {
    u < |undefs| && undefs[u].1 == n
  }

  /** A definition has a name of its own place, or keeps that of its variable. */
  lemma {:induction false} DefinitionNamed(f: Function, base: nat, out: Output,
                                           multi: set<Ssa>, t: Track, sub: Ssa -> Ssa, b: nat, ip: nat, k: nat, n: Ssa)
    requires RepairedBy(f, base, out, multi, t, sub) && Older(f, base) && Defines(out.code, b, ip, k, n)
    ensures b < |f.blocks| && ip < |f.blocks[b]| && k < |f.blocks[b][ip].Defs()|
    ensures var x := f.blocks[b][ip].Defs()[k];
      if x in multi then n >= base && n in t.site && t.site[n] == DefSite(b, ip, k, x) else n == x && n < base
  {
    assert AppliedAt(t.names[b][ip], sub, out.code[b][ip]);
    assert BlockNamed(t, b, f.blocks[b], multi);
    assert DefOk(t.site, b, f.blocks[b], t.names[b], multi, ip, k);
    assert f.blocks[b][ip].Defs()[k] in f.blocks[b][ip].Defs();
  }

  lemma {:induction false} PhiIsNamed(f: Function, base: nat, out: Output,
                                      multi: set<Ssa>, t: Track, sub: Ssa -> Ssa, b: nat, i: nat, n: Ssa)
    requires RepairedBy(f, base, out, multi, t, sub) && PhiDefines(out.phis, b, i, n)
    ensures b < |t.phis| && i < |t.phis[b]| && n >= base && n in t.site && t.site[n] == PhiSite(b, t.phis[b][i].orig)
    ensures PhiIndex(t.phis[b], t.phis[b][i].orig) == i
  {
    assert ResolvedRow(t.phis[b], sub, out.phis[b]);
    assert ResolvedAt(t.phis[b][i], sub, out.phis[b][i]);
    assert PhisNamed(t, b);
    UniquePhi(t.phis[b], i);
  }

  lemma {:induction false} UndefIsNamed(f: Function, base: nat, out: Output, multi: set<Ssa>, t: Track, sub: Ssa -> Ssa,
                                        u: nat, n: Ssa)
    requires RepairedBy(f, base, out, multi, t, sub)
    ensures UndefDefines(out.undefs, u, n) ==> n >= base && n in t.site && t.site[n].UndefSite?
  {
  }

  lemma {:induction false} DefinitionsDiffer(f: Function, base: nat, out: Output,
                                             b: nat, ip: nat, k: nat, c: nat, jp: nat, l: nat, n: Ssa)
    requires IsRepair(f, base, out) && Older(f, base) && Defines(out.code, b, ip, k, n)
    requires Defines(out.code, c, jp, l, n)
    ensures (b, ip, k) == (c, jp, l)
  {
    var multi, t, sub :| RepairedBy(f, base, out, multi, t, sub);
    DefinitionNamed(f, base, out, multi, t, sub, b, ip, k, n);
    DefinitionNamed(f, base, out, multi, t, sub, c, jp, l, n);
    if n < base && (b, ip, k) != (c, jp, l) {
      assert Occurs(f, b, ip, k, n) && Occurs(f, c, jp, l, n);
      assert Earlier(b, ip, k, c, jp, l) || Earlier(c, jp, l, b, ip, k);
      assert Twice(f, n);
    }
  }

  /** No name of the repaired function is defined twice: not by two definitions, renamed or not,
      not by a definition and a phi, not by two phis, and not by a value made undefined and anything else. */
  lemma {:induction false} RepairDefinesOnce(f: Function, base: nat, out: Output)
    requires IsRepair(f, base, out) && Older(f, base)
    ensures forall b: nat, ip: nat, k: nat, c: nat, jp: nat, l: nat, n: Ssa ::
      Defines(out.code, b, ip, k, n) && Defines(out.code, c, jp, l, n) ==> (b, ip, k) == (c, jp, l)
    ensures forall b: nat, ip: nat, k: nat, c: nat, i: nat, n: Ssa :: Defines(out.code, b, ip, k, n) ==>
      !PhiDefines(out.phis, c, i, n)
    ensures forall b: nat, i: nat, c: nat, j: nat, n: Ssa ::
      PhiDefines(out.phis, b, i, n) && PhiDefines(out.phis, c, j, n) ==> (b, i) == (c, j)
    ensures forall b: nat, ip: nat, k: nat, u: nat, n: Ssa :: Defines(out.code, b, ip, k, n) ==>
      !UndefDefines(out.undefs, u, n)
    ensures forall b: nat, i: nat, u: nat, n: Ssa :: PhiDefines(out.phis, b, i, n) ==> !UndefDefines(out.undefs, u, n)
    ensures forall u: nat, v: nat, n: Ssa :: UndefDefines(out.undefs, u, n) && UndefDefines(out.undefs, v, n) ==> u == v
  {
    var multi, t, sub :| RepairedBy(f, base, out, multi, t, sub);
    forall b: nat, ip: nat, k: nat, c: nat, jp: nat, l: nat, n: Ssa | Defines(out.code, b, ip, k, n) &&
      Defines(out.code, c, jp, l, n)
      ensures (b, ip, k) == (c, jp, l)
    {
      DefinitionsDiffer(f, base, out, b, ip, k, c, jp, l, n);
    }
    forall b: nat, ip: nat, k: nat, c: nat, i: nat, n: Ssa | Defines(out.code, b, ip, k, n)
      ensures !PhiDefines(out.phis, c, i, n)
    {
      DefinitionNamed(f, base, out, multi, t, sub, b, ip, k, n);
      if PhiDefines(out.phis, c, i, n) { PhiIsNamed(f, base, out, multi, t, sub, c, i, n); }
    }
    forall b: nat, i: nat, c: nat, j: nat, n: Ssa | PhiDefines(out.phis, b, i, n) && PhiDefines(out.phis, c, j, n)
      ensures (b, i) == (c, j)
    {
      PhiIsNamed(f, base, out, multi, t, sub, b, i, n);
      PhiIsNamed(f, base, out, multi, t, sub, c, j, n);
    }
    forall b: nat, ip: nat, k: nat, u: nat, n: Ssa | Defines(out.code, b, ip, k, n)
      ensures !UndefDefines(out.undefs, u, n)
    {
      DefinitionNamed(f, base, out, multi, t, sub, b, ip, k, n);
      UndefIsNamed(f, base, out, multi, t, sub, u, n);
    }
    forall b: nat, i: nat, u: nat, n: Ssa | PhiDefines(out.phis, b, i, n) ensures !UndefDefines(out.undefs, u, n) {
      PhiIsNamed(f, base, out, multi, t, sub, b, i, n);
      UndefIsNamed(f, base, out, multi, t, sub, u, n);
    }
  }

  // ---- every name used is defined ----

  /** Some definition, phi or undefined value of the repaired function has the name. */
  ghost predicate HasDefinition(out: Output, n: Ssa) {
    || (exists b: nat, ip: nat, k: nat :: Defines(out.code, b, ip, k, n))
    || (exists b: nat, i: nat :: PhiDefines(out.phis, b, i, n))
    || (exists u: nat :: UndefDefines(out.undefs, u, n))
  }

  lemma {:induction false} MadeIsDefined(f: Function, base: nat, out: Output, multi: set<Ssa>, t: Track,
                                         sub: Ssa -> Ssa, m: Ssa)
    requires RepairedBy(f, base, out, multi, t, sub) && m in t.site
    ensures HasDefinition(out, sub(m))
  {
    var n := sub(m);
    assert SubAt(t.site, sub, m) && Made(t, n);
    match t.site[n]
    case DefSite(b, ip, k, _) =>
      assert AppliedAt(t.names[b][ip], sub, out.code[b][ip]);
      assert Defines(out.code, b, ip, k, n);
    case PhiSite(b, _) =>
      var i: nat :| i < |t.phis[b]| && t.phis[b][i].dst == n;
      assert ResolvedRow(t.phis[b], sub, out.phis[b]);
      assert ResolvedAt(t.phis[b][i], sub, out.phis[b][i]);
      assert PhiDefines(out.phis, b, i, n);
    case UndefSite(b, _) =>
      var u :| 0 <= u < |t.undefs| && t.undefs[u] == (b, n);
      assert UndefDefines(out.undefs, u, n);
  }

  /** A use of a renamed variable has a name that is defined; other uses keep their names. */
  lemma {:induction false} UsesAreDefined(f: Function, base: nat, out: Output, b: nat, ip: nat, k: nat)
    requires IsRepair(f, base, out) && Older(f, base)
    requires b < |f.blocks| && ip < |f.blocks[b]| && k < |f.blocks[b][ip].uses|
    ensures |out.code| == |f.blocks| && |out.code[b]| == |f.blocks[b]|
    ensures |out.code[b][ip].uses| == |f.blocks[b][ip].uses|
    ensures var x, n := f.blocks[b][ip].uses[k], out.code[b][ip].uses[k];
      if Twice(f, x) then HasDefinition(out, n) else n == x
  {
    var multi, t, sub :| RepairedBy(f, base, out, multi, t, sub);
    var x := f.blocks[b][ip].uses[k];
    assert BlockNamed(t, b, f.blocks[b], multi) && UseOk(t.inn[b], f.blocks[b], t.names[b], multi, ip, k);
    assert AppliedAt(t.names[b][ip], sub, out.code[b][ip]);
    if x in multi {
      CurIsOwned(t, b, f.blocks[b], multi, ip);
      MadeIsDefined(f, base, out, multi, t, sub, t.names[b][ip].uses[k]);
    } else {
      assert SubAt(t.site, sub, x);
      OldHasNoSite(f, base, out, multi, t, sub, b, ip, x);
    }
  }

  lemma {:induction false} OldHasNoSite(f: Function, base: nat, out: Output, multi: set<Ssa>, t: Track, sub: Ssa -> Ssa,
                                        b: nat, ip: nat, x: Ssa)
    requires RepairedBy(f, base, out, multi, t, sub) && Older(f, base)
    requires b < |f.blocks| && ip < |f.blocks[b]| && x in f.blocks[b][ip].uses
    ensures x !in t.site
  {
  }

  /** A phi for a variable that has several definitions and is live into the block, with a source for
      each predecessor and no others, each a name that is defined. */
  ghost predicate PhiComplete(f: Function, out: Output, b: nat, ph: PhiTracker) {
    && Twice(f, ph.orig) && LiveIn(f, b, ph.orig)
    && (forall p: nat :: p in ph.srcs <==> f.g.Edge(p, b))
    && forall p: nat :: p in ph.srcs ==> HasDefinition(out, ph.srcs[p])
  }

  lemma {:induction false} PhiStands(f: Function, base: nat, out: Output, multi: set<Ssa>, t: Track, sub: Ssa -> Ssa,
                                     b: nat, i: nat)
    requires RepairedBy(f, base, out, multi, t, sub) && b < |out.phis| && i < |out.phis[b]|
    ensures b < |t.phis| && b < |t.inn| && i < |t.phis[b]| && PhisNamed(t, b)
    ensures ResolvedAt(t.phis[b][i], sub, out.phis[b][i])
    ensures Twice(f, out.phis[b][i].orig) && LiveIn(f, b, out.phis[b][i].orig)
    ensures forall p: nat :: p in out.phis[b][i].srcs ==> f.g.Edge(p, b)
  {
    assert ResolvedRow(t.phis[b], sub, out.phis[b]);
    assert PhisNamed(t, b) && CurOwned(t.inn[b], t.site, multi);
    assert EntersLive(f, b, t.phis[b][i].orig);
  }

  lemma {:induction false} SourceIsDefined(f: Function, base: nat, out: Output, multi: set<Ssa>, t: Track,
                                           sub: Ssa -> Ssa, b: nat, i: nat, p: nat)
    requires RepairedBy(f, base, out, multi, t, sub) && b < |out.phis| && i < |out.phis[b]| && f.g.Edge(p, b)
    ensures p in out.phis[b][i].srcs && HasDefinition(out, out.phis[b][i].srcs[p])
  {
    PhiStands(f, base, out, multi, t, sub, b, i);
    var x := t.phis[b][i].orig;
    UniquePhi(t.phis[b], i);
    assert BlockNamed(t, p, f.blocks[p], multi) && CurOwned(t.inn[p], t.site, multi);
    assert HandedOver(f, multi, t, sub, b, x, p);
    CurIsOwned(t, p, f.blocks[p], multi, |t.names[p]|);
    MadeIsDefined(f, base, out, multi, t, sub, Out(f, multi, t, p)[x]);
  }

  /** Every phi of the repaired function is complete. */
  lemma {:induction false} PhisAreComplete(f: Function, base: nat, out: Output, b: nat, i: nat)
    requires IsRepair(f, base, out) && b < |out.phis| && i < |out.phis[b]|
    ensures PhiComplete(f, out, b, out.phis[b][i])
  {
    var multi, t, sub :| RepairedBy(f, base, out, multi, t, sub);
    PhiStands(f, base, out, multi, t, sub, b, i);
    forall p: nat | f.g.Edge(p, b) ensures p in out.phis[b][i].srcs && HasDefinition(out, out.phis[b][i].srcs[p]) {
      SourceIsDefined(f, base, out, multi, t, sub, b, i, p);
    }
  }

  /** Undefined values stand at the heads of blocks that nothing leads to, the entry apart. */
  lemma {:induction false} UndefsAreUnreached(f: Function, base: nat, out: Output, u: nat)
    requires IsRepair(f, base, out) && u < |out.undefs|
    ensures var b := out.undefs[u].0;
      0 < b < |f.blocks| && !HasPred(f.g, b) && exists x: Ssa :: Twice(f, x) && LiveIn(f, b, x)
  {
    var multi, t, sub :| RepairedBy(f, base, out, multi, t, sub);
    var (b, n) := t.undefs[u];
    assert UndefOk(f, multi, t, b, n);
    assert Twice(f, t.site[n].x);
  }

  // ---- the repaired function reads what the old one read ----

  /** The repaired code and phis alone, as they run. */
  ghost function Alone(code: seq<seq<Names>>, phis: seq<seq<PhiTracker>>): Track {
    Track([], phis, 0, {}, {}, code, [], [], map[])
  }

  ghost predicate SameEnv<V(!new)>(a: Env<V>, b: Env<V>) {
    forall y: Ssa :: a(y) == b(y)
  }

  lemma {:induction false} DefineSame<V(!new)>(a: Env<V>, b: Env<V>, ds: seq<Ssa>, w: nat -> V)
    requires SameEnv(a, b)
    ensures SameEnv(Define(a, ds, w), Define(b, ds, w))
    decreases |ds|
  {
    if ds != [] {
      DefineSame(a, b, ds[..|ds| - 1], w);
    }
  }

  lemma {:induction false} WithinSame<V(!new)>(ns: seq<Names>, sub: Ssa -> Ssa, out: seq<Names>, w: (nat, nat) -> V,
                                        a: Env<V>, b: Env<V>, ip: nat)
    requires |out| == |ns| && (forall j :: 0 <= j < |ns| ==> AppliedAt(ns[j], sub, out[j])) && SameEnv(a, b)
    requires ip <= |ns|
    ensures SameEnv(WithinNew(ns, w, a, ip), WithinNew(out, w, b, ip))
  {
    if ip > 0 {
      WithinSame(ns, sub, out, w, a, b, ip - 1);
      assert AppliedAt(ns[ip - 1], sub, out[ip - 1]);
      DefineSame(WithinNew(ns, w, a, ip - 1), WithinNew(out, w, b, ip - 1), ns[ip - 1].defs, OfInstr(w, ip - 1));
    }
  }

  lemma {:induction false} TakeSame<V(!new)>(phis: seq<PhiTracker>, sub: Ssa -> Ssa, out: seq<PhiTracker>, p: nat,
                                      from: Env<V>, from': Env<V>, a: Env<V>, b: Env<V>)
    requires ResolvedRow(phis, sub, out) && SameEnv(from, from') && SameEnv(a, b)
    ensures SameEnv(TakePhis(phis, sub, p, from, a), TakePhis(out, Same(), p, from', b))
    decreases |phis|
  {
    if phis != [] {
      var last := |phis| - 1;
      assert ResolvedAt(phis[last], sub, out[last]);
      TakeSame(phis[..last], sub, out[..last], p, from, from', a, b);
    }
  }

  lemma {:induction false} AloneSame<V(!new)>(t: Track, sub: Ssa -> Ssa, code: seq<seq<Names>>,
                                       phis: seq<seq<PhiTracker>>,
                                              w: (nat, nat, nat) -> V, env: Env<V>, path: seq<nat>, n: nat)
    requires |t.phis| == |t.names| && Applied(t.names, sub, code) && Resolved(t.phis, sub, phis) && n < |path|
    requires forall i :: 0 <= i < |path| ==> path[i] < |t.names|
    ensures SameEnv(AtNew(t, sub, w, env, path, n), AtNew(Alone(code, phis), Same(), w, env, path, n))
  {
    if n > 0 {
      AloneSame(t, sub, code, phis, w, env, path, n - 1);
      var b := path[n - 1];
      var wn := OfStep(w, n - 1);
      var a, a' := AtNew(t, sub, w, env, path, n - 1), AtNew(Alone(code, phis), Same(), w, env, path, n - 1);
      WithinSame(t.names[b], sub, code[b], wn, a, a', |t.names[b]|);
      var e, e' := WithinNew(t.names[b], wn, a, |t.names[b]|), WithinNew(code[b], wn, a', |code[b]|);
      TakeSame(t.phis[path[n]], sub, phis[path[n]], b, e, e', e, e');
    }
  }

  /** Along every run, whatever the definitions write, every use in the repaired code reads what
      the use in the old code reads: the value of the last definition of its variable, if there has
      been one. */
  lemma {:induction false} RepairReadsTheSame<V(!new)>(f: Function, base: nat, out: Output,
                                                       w: (nat, nat, nat) -> V, env: Env<V>, path: seq<nat>, n: nat,
                                                         ip: nat, k: nat)
    requires IsRepair(f, base, out) && Older(f, base) && IsPath(f.g, path, |f.blocks|) && n < |path|
    requires ip < |f.blocks[path[n]]| && k < |f.blocks[path[n]][ip].uses|
    requires var x := f.blocks[path[n]][ip].uses[k]; Twice(f, x) ==>
      x in KnownIn(f.blocks[path[n]], KnownAt(f, path, n), ip)
    ensures |out.code| == |out.phis| == |f.blocks| && |out.code[path[n]]| == |f.blocks[path[n]]|
    ensures k < |out.code[path[n]][ip].uses|
    ensures var wn := OfStep(w, n);
      WithinNew(out.code[path[n]], wn, AtNew(Alone(out.code, out.phis), Same(), w, env, path, n),
                ip)(out.code[path[n]][ip].uses[k]) ==
      Within(f.blocks[path[n]], wn, At(f, w, env, path, n), ip)(f.blocks[path[n]][ip].uses[k])
  {
    var multi, t, sub :| RepairedBy(f, base, out, multi, t, sub);
    var b := path[n];
    var wn := OfStep(w, n);
    UsesReadTheSame(f, multi, base, t, sub, w, env, path, n, ip, k);
    AloneSame(t, sub, out.code, out.phis, w, env, path, n);
    assert AppliedAt(t.names[b][ip], sub, out.code[b][ip]);
    WithinSame(t.names[b], sub, out.code[b], wn, AtNew(t, sub, w, env, path, n),
               AtNew(Alone(out.code, out.phis), Same(), w, env, path, n), ip);
  }

  /** When every path from the entry to a use has a definition, that is every use. */
  lemma {:induction false} DefinedUsesReadTheSame<V(!new)>(f: Function, base: nat, out: Output,
                                                           w: (nat, nat, nat) -> V, env: Env<V>, path: seq<nat>, n: nat,
                                                             ip: nat, k: nat)
    requires IsRepair(f, base, out) && Older(f, base) && IsPath(f.g, path, |f.blocks|) && n < |path|
    requires forall x: Ssa :: Twice(f, x) ==> !LiveIn(f, 0, x)
    requires ip < |f.blocks[path[n]]| && k < |f.blocks[path[n]][ip].uses|
    ensures |out.code| == |out.phis| == |f.blocks| && |out.code[path[n]]| == |f.blocks[path[n]]|
    ensures k < |out.code[path[n]][ip].uses|
    ensures var wn := OfStep(w, n);
      WithinNew(out.code[path[n]], wn, AtNew(Alone(out.code, out.phis), Same(), w, env, path, n),
                ip)(out.code[path[n]][ip].uses[k]) ==
      Within(f.blocks[path[n]], wn, At(f, w, env, path, n), ip)(f.blocks[path[n]][ip].uses[k])
  {
    var x := f.blocks[path[n]][ip].uses[k];
    assert UsedAt(f.blocks[path[n]], ip, x);
    if Twice(f, x) {
      UsedIsKnown(f, path, n, ip, x);
    }
    RepairReadsTheSame(f, base, out, w, env, path, n, ip, k);
  }
}
