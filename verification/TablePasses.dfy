/**
 Passes that keep one table for a whole function: of each value, what its definition
 computes. A table entry may be used wherever the definition dominates, in any block.
 */
module TablePasses {
  import opened Basics
  import opened Cfgs
  import opened SsaRuns

  /** Where a pass is working: `def` says where each value is defined, and no block has more than
      `width` instructions. */
  datatype Site = Site(g: Cfg, def: Ssa -> Place, width: nat, q: Place) {
    /** Where the value is defined. */
    ghost function Of(v: Ssa): Site {
      this.(q := def(v))
    }

    ghost function Ip(ip: nat): Site {
      this.(q := Place(q.b, ip))
    }

    ghost function Block(b: nat): Site {
      this.(q := Place(b, 0))
    }

    /** The value's definition dominates the place; if it cannot be reached, it is also laid out
        before. */
    ghost predicate Knows(v: Ssa) {
      Reaches(g, def(v), q) && (g.Reachable(def(v).b) || def(v).Precedes(q))
    }

    /** The place within a block, up to its width. */
    ghost function Inner(v: Ssa): nat {
      if def(v).ip < width then def(v).ip else width
    }

    /** A number for a definition, larger than for those that dominate it; blocks that cannot be
        reached come last, as laid out. */
    ghost function Rank(v: Ssa): nat {
      var level := Level(g, def(v).b);
      level * (width + 1) + Inner(v)
    }
  }

  ghost function Level(g: Cfg, b: nat): nat {
    |DominatorsOf(g, b)| + if g.Reachable(b) then 0 else 1 + b
  }

  ghost function Width<I>(f: seq<seq<I>>): (w: nat)
    ensures forall b :: 0 <= b < |f| ==> |f[b]| <= w
  {
    if f == [] then 0
    else
      var w := Width(f[..|f| - 1]);
      if w < |f[|f| - 1]| then |f[|f| - 1]| else w
  }

  ghost function SiteOf<I>(g: Cfg, def: Ssa -> Place, f: seq<seq<I>>): (at: Site)
    ensures at.g == g && at.def == def && forall b :: 0 <= b < |f| ==> |f[b]| <= at.width
  {
    Site(g, def, Width(f), Place(0, 0))
  }

  lemma {:induction false} LevelGrows(at: Site, l: nat, m: nat, i: nat, j: nat)
    requires l < m || (l == m && i < j)
    requires i <= at.width
    ensures l * (at.width + 1) + i < m * (at.width + 1) + j
  {
    if l < m {
      assert (l + 1) * (at.width + 1) <= m * (at.width + 1);
    }
  }

  lemma {:induction false} RankGrows(at: Site, u: Ssa, v: Ssa)
    requires at.Of(v).Knows(u) && at.def(v).ip < at.width
    ensures at.Rank(u) < at.Rank(v)
  {
    var g, b, c := at.g, at.def(u).b, at.def(v).b;
    if g.Reachable(c) {
      DominatorReachable(g, b, c);
      if b != c { DominatorsGrow(g, b, c); }
    } else {
      UnreachableDominated(g, b, c);
      if !g.Reachable(b) { UnreachableDominated(g, c, b); }
    }
    LevelGrows(at, Level(g, b), Level(g, c), at.Inner(u), at.Inner(v));
  }

  /** What dominates the definition of a value, dominates where the value is known. */
  lemma {:induction false} KnowsTrans(at: Site, u: Ssa, v: Ssa)
    requires at.Of(v).Knows(u) && at.Knows(v)
    ensures at.Knows(u)
  {
    var g, a, b, c := at.g, at.def(u).b, at.def(v).b, at.q.b;
    DominatesTrans(g, a, b, c);
    if g.Reachable(b) {
      DominatorReachable(g, a, b);
      if a == c && a != b {
        var p :| g.PathTo(p, b);
        DominatesAntisymmetric(g, p, a, b);
      }
    } else if g.Reachable(c) {
      DominatorReachable(g, b, c);
    }
  }

  // ---- strict form ----

  /** What a pass sees of an instruction: its destinations, whether the pass does not understand it,
      and the values that the pass may look through. */
  datatype Shape<!I> = Shape(dsts: I -> seq<Option<Ssa>>, other: I -> bool, uses: I -> set<Ssa>)

  /** Values are defined here and nowhere else, by one destination, and read where they are known. */
  ghost predicate Strict<I>(sh: Shape<I>, i: I, at: Site) {
    && (forall k: nat :: k < |sh.dsts(i)| && sh.dsts(i)[k].Some? ==> at.def(sh.dsts(i)[k].value) == at.q)
    && (!sh.other(i) ==> forall j: nat, k: nat ::
          j < k < |sh.dsts(i)| && sh.dsts(i)[j].Some? ==> sh.dsts(i)[j] != sh.dsts(i)[k])
    && (forall v :: v in sh.uses(i) ==> at.Knows(v))
  }

  /** Strict SSA form: every value is defined once, at its `def`, and read only where its definition
      dominates. Where code cannot be reached, and dominance says nothing, definitions come first. */
  ghost predicate StrictSsa<I>(sh: Shape<I>, g: Cfg, def: Ssa -> Place, f: seq<seq<I>>) {
    && |f| == g.len
    && forall b: nat, ip: nat :: b < |f| && ip < |f[b]| ==> Strict(sh, f[b][ip], Site(g, def, 0, Place(b, ip)))
  }

  ghost predicate BlockStrict<I>(sh: Shape<I>, code: seq<I>, at: Site) {
    |code| <= at.width && forall ip: nat :: ip < |code| ==> Strict(sh, code[ip], at.Ip(ip))
  }

  lemma {:induction false} StrictBlock<I>(sh: Shape<I>, at: Site, f: seq<seq<I>>, b: nat)
    requires StrictSsa(sh, at.g, at.def, f) && b < |f| && |f[b]| <= at.width
    ensures BlockStrict(sh, f[b], at.Block(b))
  {
    forall ip: nat | ip < |f[b]| ensures Strict(sh, f[b][ip], at.Block(b).Ip(ip)) {
      assert Strict(sh, f[b][ip], Site(at.g, at.def, 0, Place(b, ip)));
    }
  }

  // ---- the table ----

  /** How instructions run, given constants `C` that no instruction changes; and what an entry of
      the table looks at and says. */
  datatype Pass<!I, !E, !C, !W> =
    Pass(lanes: nat, meaning: C -> Meaning<I, W>, srcs: E -> set<Ssa>, holds: (C, Ssa, E, Env<W>) -> bool)

  type Table<E> = map<Ssa, E>

  ghost function EntrySources<I, E, C, W>(p: Pass<I, E, C, W>, t: Table<E>): Ssa -> set<Ssa> {
    (v: Ssa) => if v in t then p.srcs(t[v]) else {}
  }

  ghost function EntriesHold<I, E, C, W>(p: Pass<I, E, C, W>, t: Table<E>, c: C): (Ssa, Env<W>) -> bool {
    (v: Ssa, e: Env<W>) => v in t && p.holds(c, v, t[v], e)
  }

  ghost function FrameOf<I, E, C, W>(p: Pass<I, E, C, W>, t: Table<E>, def: Ssa -> Place, c: C): Frame<W> {
    Frame(def, t.Keys, EntrySources(p, t), EntriesHold(p, t, c))
  }

  /** What has become of one instruction. */
  ghost predicate Kept<I, E, C(!new), W(!new)>(p: Pass<I, E, C, W>, t: Table<E>, at: Site, i: I, i': I) {
    forall c: C :: PlaceOk(at.g, p.meaning(c), p.lanes, FrameOf(p, t, at.def, c), i, i', at.q)
  }

  /** The entry says what the value's definition computes. */
  ghost predicate Sound<I, E, C(!new), W(!new)>(p: Pass<I, E, C, W>, at: Site, v: Ssa, e: E) {
    && (forall y :: y in p.srcs(e) ==> at.Of(v).Knows(y))
    && forall c: C, a: Env<W>, b: Env<W> {:trigger p.holds(c, v, e, a), p.holds(c, v, e, b)} ::
         AgreeOn(p.lanes, p.srcs(e) + {v}, a, b) && p.holds(c, v, e, a) ==> p.holds(c, v, e, b)
  }

  ghost predicate AllSound<I, E, C(!new), W(!new)>(p: Pass<I, E, C, W>, at: Site, t: Table<E>) {
    forall v :: v in t ==> Sound(p, at, v, t[v])
  }

  ghost predicate Extends<E>(t: Table<E>, t': Table<E>) {
    forall v :: v in t ==> v in t' && t'[v] == t[v]
  }

  /** New entries are for values defined at the place. */
  ghost predicate NewHere<E>(t: Table<E>, t': Table<E>, at: Site) {
    Extends(t, t') && forall v :: v in t' && v !in t ==> at.def(v) == at.q
  }

  /** New entries are for values defined by the first `n` instructions of the block. */
  ghost predicate NewInBlock<E>(t: Table<E>, t': Table<E>, at: Site, n: nat) {
    Extends(t, t') && forall v :: v in t' && v !in t ==> at.def(v).b == at.q.b && at.def(v).ip < n
  }

  /** Everything in the table has been defined earlier in the code. */
  ghost predicate Passed<E>(t: Table<E>, at: Site) {
    forall v :: v in t ==> at.def(v).Precedes(at.q)
  }

  lemma {:induction false} TabShrinks<I, E, C, W>(p: Pass<I, E, C, W>, t: Table<E>, t': Table<E>, at: Site, c: C,
                                                  e: Env<W>)
    requires Extends(t, t') && TabAt(at.g, FrameOf(p, t', at.def, c), e, at.q)
    ensures TabAt(at.g, FrameOf(p, t, at.def, c), e, at.q)
  {
    var fr, fr' := FrameOf(p, t, at.def, c), FrameOf(p, t', at.def, c);
    forall v | v in fr.tab && Reaches(at.g, fr.def(v), at.q) ensures fr.holds(v, e) {
      assert fr'.holds(v, e);
    }
  }

  /** Entries for other instructions change nothing about this one. */
  lemma {:induction false} KeptMore<I, E, C(!new), W(!new)>(p: Pass<I, E, C, W>, t: Table<E>, t': Table<E>, at: Site,
                                            i: I, i': I)
    requires Kept(p, t, at, i, i') && Extends(t, t') && forall v :: v in t' && v !in t ==> at.def(v) != at.q
    ensures Kept(p, t', at, i, i')
  {
    forall c: C ensures PlaceOk(at.g, p.meaning(c), p.lanes, FrameOf(p, t', at.def, c), i, i', at.q) {
      PlaceMore(p, t, t', at, i, i', c);
    }
  }

  lemma {:induction false} PlaceMore<I, E, C(!new), W(!new)>(p: Pass<I, E, C, W>, t: Table<E>, t': Table<E>, at: Site,
                                             i: I, i': I, c: C)
    requires Extends(t, t') && forall v :: v in t' && v !in t ==> at.def(v) != at.q
    requires PlaceOk(at.g, p.meaning(c), p.lanes, FrameOf(p, t, at.def, c), i, i', at.q)
    ensures PlaceOk(at.g, p.meaning(c), p.lanes, FrameOf(p, t', at.def, c), i, i', at.q)
  {
    var m, fr, fr' := p.meaning(c), FrameOf(p, t, at.def, c), FrameOf(p, t', at.def, c);
    if !m.other(i) {
      forall a: Env<W>, b: Env<W>, k: nat, l: nat
        | Agree(p.lanes, a, b) && TabAt(at.g, fr', b, at.q) && k < |m.dsts(i)| && m.dsts(i)[k].Some? && l < p.lanes
        ensures m.result(i, k, a, l) == m.result(i', k, b, l)
      {
        TabShrinks(p, t, t', at, c, b);
        assert ResultsSame(at.g, m, p.lanes, fr, i, i', at.q);
      }
      assert ResultsSame(at.g, m, p.lanes, fr', i, i', at.q);
    }
    forall v | v in fr'.tab && fr'.def(v) == at.q ensures EntryFollows(m, p.lanes, fr', i', v) {
      assert v in t && EntryFollows(m, p.lanes, fr, i', v);
      forall a: Env<W>, b: Env<W> | AgreeOn(p.lanes, fr'.srcs(v), a, b) && Writes(m, p.lanes, i', v, a, b)
        ensures fr'.holds(v, b)
      {
        assert AgreeOn(p.lanes, fr.srcs(v), a, b) && fr.holds(v, b);
      }
    }
  }

  // ---- blocks and functions ----

  ghost predicate BlockKept<I, E, C(!new), W(!new)>(p: Pass<I, E, C, W>, t: Table<E>, at: Site, code: seq<I>,
                                    code': seq<I>) {
    |code'| <= |code| && forall ip: nat :: ip < |code'| ==> Kept(p, t, at.Ip(ip), code[ip], code'[ip])
  }

  ghost predicate AllKept<I, E, C(!new), W(!new)>(p: Pass<I, E, C, W>, t: Table<E>, at: Site, f: seq<seq<I>>,
                                  f': seq<seq<I>>) {
    |f'| <= |f| && forall b: nat :: b < |f'| ==> |f'[b]| == |f[b]| && BlockKept(p, t, at.Block(b), f[b], f'[b])
  }

  /** Entries are for values defined in the first `n` blocks. */
  ghost predicate Inside<I, E>(t: Table<E>, at: Site, f: seq<seq<I>>, n: nat) {
    forall v :: v in t ==> at.def(v).b < n <= |f| && at.def(v).ip < |f[at.def(v).b]|
  }

  /** One more instruction of a block. */
  lemma {:induction false} BlockStep<I, E, C(!new), W(!new)>(p: Pass<I, E, C, W>, t0: Table<E>, t: Table<E>,
                                             t': Table<E>, at: Site,
                                                             code: seq<I>, code': seq<I>, i': I)
    requires BlockKept(p, t, at, code, code') && |code'| < |code| && NewInBlock(t0, t, at, |code'|)
    requires NewHere(t, t', at.Ip(|code'|)) && Kept(p, t', at.Ip(|code'|), code[|code'|], i')
    ensures BlockKept(p, t', at, code, code' + [i']) && NewInBlock(t0, t', at, |code'| + 1)
  {
    var c := code' + [i'];
    forall ip: nat | ip < |c| ensures Kept(p, t', at.Ip(ip), code[ip], c[ip]) {
      if ip < |code'| {
        KeptMore(p, t, t', at.Ip(ip), code[ip], code'[ip]);
      }
    }
  }

  /** One more block of a function. */
  lemma {:induction false} AllStep<I, E, C(!new), W(!new)>(p: Pass<I, E, C, W>, t: Table<E>, t': Table<E>, at: Site,
                                                           f: seq<seq<I>>, f': seq<seq<I>>, code': seq<I>)
    requires AllKept(p, t, at, f, f') && |f'| < |f| && Inside(t, at, f, |f'|) && |code'| == |f[|f'|]|
    requires BlockKept(p, t', at.Block(|f'|), f[|f'|], code') && NewInBlock(t, t', at.Block(|f'|), |code'|)
    ensures AllKept(p, t', at, f, f' + [code']) && Inside(t', at, f, |f'| + 1)
  {
    var h := f' + [code'];
    forall b: nat | b < |h| ensures |h[b]| == |f[b]| && BlockKept(p, t', at.Block(b), f[b], h[b]) {
      if b < |f'| {
        forall ip: nat | ip < |f'[b]| ensures Kept(p, t', at.Block(b).Ip(ip), f[b][ip], h[b][ip]) {
          KeptMore(p, t, t', at.Block(b).Ip(ip), f[b][ip], f'[b][ip]);
        }
      }
    }
  }

  /** Only instructions that the pass understands have changed, and they define what they did. */
  ghost predicate SameShape<I>(dsts: I -> seq<Option<Ssa>>, other: I -> bool, code: seq<I>, code': seq<I>) {
    |code'| <= |code| && forall ip :: 0 <= ip < |code'| ==>
      dsts(code'[ip]) == dsts(code[ip]) && other(code'[ip]) == other(code[ip]) &&
        (other(code[ip]) ==> code'[ip] == code[ip])
  }

  lemma {:induction false} ShapeMore<I>(dsts: I -> seq<Option<Ssa>>, other: I -> bool, code: seq<I>, code': seq<I>,
                                        i: I)
    requires SameShape(dsts, other, code, code') && |code'| < |code|
    requires dsts(i) == dsts(code[|code'|]) && other(i) == other(code[|code'|]) && (other(i) ==> i == code[|code'|])
    ensures SameShape(dsts, other, code, code' + [i])
  {
  }

  ghost predicate SameShapes<I>(dsts: I -> seq<Option<Ssa>>, other: I -> bool, f: seq<seq<I>>, f': seq<seq<I>>) {
    |f'| <= |f| && forall b :: 0 <= b < |f'| ==> SameShape(dsts, other, f[b], f'[b])
  }

  /** Before every instruction of every run all lanes of all values are the same. */
  ghost predicate SameRuns<I, E, C(!new), W(!new)>(p: Pass<I, E, C, W>, g: Cfg, f: seq<seq<I>>, f': seq<seq<I>>) {
    && |f'| == |f| && (forall b: nat :: b < |f| ==> |f'[b]| == |f[b]|)
    && forall c: C, w: Oracle<W>, env: Env<W>, path: seq<nat>, n: nat, ip: nat ::
         IsPath(g, path, |f|) && n < |path| && ip <= |f[path[n]]| ==>
           Agree(p.lanes, Before(p.meaning(c), f, w, env, path, n, ip), Before(p.meaning(c), f', w, env, path, n, ip))
  }

  lemma {:induction false} AllFramed<I, E, C(!new), W(!new)>(p: Pass<I, E, C, W>, t: Table<E>, at: Site, f: seq<seq<I>>,
                                             f': seq<seq<I>>, c: C)
    requires AllKept(p, t, at, f, f') && |f'| == |f| == at.g.len && Inside(t, at, f, |f|) && AllSound(p, at, t)
    ensures Framed(at.g, p.meaning(c), p.lanes, FrameOf(p, t, at.def, c), f, f')
    ensures DefsInside(FrameOf(p, t, at.def, c), f)
  {
    var m, fr := p.meaning(c), FrameOf(p, t, at.def, c);
    forall v, a: Env<W>, b: Env<W> | v in fr.tab && AgreeOn(p.lanes, fr.srcs(v) + {v}, a, b) && fr.holds(v, a)
      ensures fr.holds(v, b)
    {
      assert Sound(p, at, v, t[v]) && p.holds(c, v, t[v], a);
    }
    forall v, y | v in fr.tab && y in fr.srcs(v) ensures Reaches(at.g, fr.def(y), fr.def(v)) {
      assert Sound(p, at, v, t[v]) && at.Of(v).Knows(y);
    }
    forall b: nat | b < |f| ensures CodeOk(at.g, m, p.lanes, fr, f[b], f'[b], b) {
      forall ip: nat | ip < |f[b]| ensures PlaceOk(at.g, m, p.lanes, fr, f[b][ip], f'[b][ip], Place(b, ip)) {
        assert Kept(p, t, at.Block(b).Ip(ip), f[b][ip], f'[b][ip]);
      }
    }
  }

  /** What a pass that keeps such a table makes of a function runs as the function does. */
  lemma {:induction false} KeptRunsSame<I, E, C(!new), W(!new)>(p: Pass<I, E, C, W>, t: Table<E>, at: Site,
                                                f: seq<seq<I>>, f': seq<seq<I>>)
    requires AllKept(p, t, at, f, f') && |f'| == |f| == at.g.len && Inside(t, at, f, |f|) && AllSound(p, at, t)
    ensures SameRuns(p, at.g, f, f')
  {
    forall c: C, w: Oracle<W>, env: Env<W>, path: seq<nat>, n: nat, ip: nat | IsPath(at.g, path, |f|) && n < |path| &&
      ip <= |f[path[n]]|
      ensures Agree(p.lanes, Before(p.meaning(c), f, w, env, path, n, ip),
                    Before(p.meaning(c), f', w, env, path, n, ip))
    {
      AllFramed(p, t, at, f, f', c);
      RunsAgree(at.g, p.meaning(c), p.lanes, FrameOf(p, t, at.def, c), f, f', w, env, path, n, ip);
    }
  }

  // ---- what is recorded, and used ----

  /** What an instruction records for a value that it defines, and what becomes of an instruction
      when the table is as given. */
  datatype Folding<!I, !E> =
    Folding(sh: Shape<I>, entry: (E, I, Ssa) -> bool, fold: (Table<E>, I, I) -> bool)

  /** The instruction is one that the pass understands and defines the value. */
  ghost predicate Recording<I>(sh: Shape<I>, i: I, v: Ssa) {
    !sh.other(i) && Some(v) in sh.dsts(i)
  }

  ghost predicate RecordedAt<I>(sh: Shape<I>, f: seq<seq<I>>, q: Place, v: Ssa) {
    q.b < |f| && q.ip < |f[q.b]| && Recording(sh, f[q.b][q.ip], v)
  }

  /** The table has an entry for exactly the values so defined in `f`, with what is recorded there. */
  ghost predicate TableOf<I, E>(fd: Folding<I, E>, def: Ssa -> Place, f: seq<seq<I>>, t: Table<E>) {
    && (forall v :: v in t <==> RecordedAt(fd.sh, f, def(v), v))
    && forall v :: v in t ==> fd.entry(t[v], f[def(v).b][def(v).ip], v)
  }

  /** The values that the instruction defines are recorded, and nothing else is. */
  ghost predicate TableGrows<I, E>(fd: Folding<I, E>, t: Table<E>, t': Table<E>, i: I) {
    && Extends(t, t') && (forall v :: v in t' <==> v in t || Recording(fd.sh, i, v))
    && forall v :: v in t' && v !in t ==> fd.entry(t'[v], i, v)
  }

  /** The instruction has been folded with all that the new code records before it. */
  ghost predicate FoldedAt<I, E(!new)>(fd: Folding<I, E>, def: Ssa -> Place, before: seq<seq<I>>, code: seq<I>,
                                       code': seq<I>, ip: nat)
    requires ip < |code'| <= |code|
  {
    exists t :: TableOf(fd, def, before + [code'[..ip]], t) && fd.fold(t, code[ip], code'[ip])
  }

  ghost predicate BlockFolded<I, E(!new)>(fd: Folding<I, E>, def: Ssa -> Place, before: seq<seq<I>>, code: seq<I>,
                                    code': seq<I>) {
    |code'| <= |code| && forall ip: nat :: ip < |code'| ==> FoldedAt(fd, def, before, code, code', ip)
  }

  ghost predicate AllFolded<I, E(!new)>(fd: Folding<I, E>, def: Ssa -> Place, f: seq<seq<I>>, f': seq<seq<I>>) {
    |f'| <= |f| && forall b: nat :: b < |f'| ==> BlockFolded(fd, def, f'[..b], f[b], f'[b])
  }

  /** What the next instruction of a block records. */
  lemma {:induction false} TableStep<I, E>(fd: Folding<I, E>, def: Ssa -> Place, before: seq<seq<I>>, code': seq<I>,
                                           t: Table<E>, t': Table<E>, i': I)
    requires TableOf(fd, def, before + [code'], t) && TableGrows(fd, t, t', i')
    requires forall v :: Recording(fd.sh, i', v) ==> def(v) == Place(|before|, |code'|)
    ensures TableOf(fd, def, before + [code' + [i']], t')
  {
    var f, f' := before + [code'], before + [code' + [i']];
    forall v ensures RecordedAt(fd.sh, f', def(v), v) <==> RecordedAt(fd.sh, f, def(v), v) || Recording(fd.sh, i', v)
      ensures RecordedAt(fd.sh, f, def(v), v) ==> f'[def(v).b][def(v).ip] == f[def(v).b][def(v).ip]
    {
    }
    forall v | v in t' ensures fd.entry(t'[v], f'[def(v).b][def(v).ip], v) {
      if v in t {
        assert fd.entry(t[v], f[def(v).b][def(v).ip], v);
      }
    }
  }

  /** One more instruction is folded. */
  lemma {:induction false} FoldStep<I, E(!new)>(fd: Folding<I, E>, def: Ssa -> Place, before: seq<seq<I>>, code: seq<I>,
                                          code': seq<I>, t: Table<E>, i': I)
    requires BlockFolded(fd, def, before, code, code') && |code'| < |code|
    requires TableOf(fd, def, before + [code'], t) && fd.fold(t, code[|code'|], i')
    ensures BlockFolded(fd, def, before, code, code' + [i'])
  {
    var c := code' + [i'];
    forall ip: nat | ip < |c| ensures FoldedAt(fd, def, before, code, c, ip) {
      if ip < |code'| {
        assert c[..ip] == code'[..ip] && FoldedAt(fd, def, before, code, code', ip);
      } else {
        assert c[..ip] == code';
      }
    }
  }

  /** Nothing is recorded at the start of a block. */
  lemma {:induction false} TableAtStart<I, E>(fd: Folding<I, E>, def: Ssa -> Place, f: seq<seq<I>>, t: Table<E>)
    requires TableOf(fd, def, f, t)
    ensures TableOf(fd, def, f + [[]], t)
  {
    forall v ensures RecordedAt(fd.sh, f + [[]], def(v), v) <==> RecordedAt(fd.sh, f, def(v), v) {}
  }

  /** One more block is folded. */
  lemma {:induction false} FoldBlock<I, E(!new)>(fd: Folding<I, E>, def: Ssa -> Place, f: seq<seq<I>>, f': seq<seq<I>>,
                                           code': seq<I>)
    requires AllFolded(fd, def, f, f') && |f'| < |f| && BlockFolded(fd, def, f', f[|f'|], code')
    ensures AllFolded(fd, def, f, f' + [code'])
  {
    var h := f' + [code'];
    forall b: nat | b < |h| ensures BlockFolded(fd, def, h[..b], f[b], h[b]) {
      assert h[..b] == f'[..b];
      assert b == |f'| ==> f'[..b] == f';
    }
  }
}
