/**
 Folding of byte permutations into each other. A permutation picks each of its four
 result bytes from one of two sources, possibly replicating the sign of that byte.
 */
module PrmtFolding {
  import opened Basics
  import opened Cfgs
  import opened SsaRuns
  import opened TablePasses

  /** A 32-bit immediate by its bytes, lowest first. */
  type Imm = b: seq<nat> | |b| == 4 && forall i :: 0 <= i < 4 ==> b[i] < 256 witness [0, 0, 0, 0]

  datatype Src = Zero | Imm32(bytes: Imm) | CBuf(buf: nat, offset: nat) | Value(v: Ssa) {
    predicate IsImm() {
      Zero? || Imm32?
    }

    function Byte(b: nat): nat
      requires IsImm() && b < 4
    {
      if Zero? then 0 else bytes[b]
    }
  }

  datatype SelByte = SelByte(src: nat, byte: nat, msb: bool) {
    ghost predicate Valid() {
      src < 2 && byte < 4
    }
  }

  type Sel = s: seq<SelByte> | |s| == 4 && forall i :: 0 <= i < 4 ==> s[i].Valid()
    witness [SelByte(0, 0, false), SelByte(0, 1, false), SelByte(0, 2, false), SelByte(0, 3, false)]

  /** Without a selector known at compile time a permutation is left alone. */
  datatype Prmt = Prmt(dst: Option<Ssa>, src0: Src, src1: Src, sel: Option<Sel>) {
    function Src(i: nat): Src {
      if i == 0 then src0 else src1
    }

    function WithSrc(i: nat, s: Src): Prmt {
      if i == 0 then this.(src0 := s) else this.(src1 := s)
    }
  }

  // ---- meaning ----

  /** The bytes of values and constant buffers. */
  datatype State = State(value: Env<nat>, cbuf: (nat, nat, nat) -> nat)

  function Sign(b: nat): nat {
    if b >= 128 then 255 else 0
  }

  function SignIf(msb: bool, b: nat): nat {
    if msb then Sign(b) else b
  }

  ghost function ByteOf(env: State, s: Src, b: nat): nat
    requires b < 4
  {
    match s
    case Zero => 0
    case Imm32(bytes) => bytes[b]
    case CBuf(buf, offset) => env.cbuf(buf, offset, b)
    case Value(v) => env.value(v, b)
  }

  /** Byte `i` of the result. */
  ghost function Picked(env: State, op: Prmt, i: nat): nat
    requires op.sel.Some? && i < 4
  {
    var s := op.sel.value[i];
    SignIf(s.msb, ByteOf(env, op.Src(s.src), s.byte))
  }

  /** Neither the destination nor whether the selector is known changes. */
  ghost predicate SameKind(a: Prmt, b: Prmt) {
    a.dst == b.dst && (a.sel.Some? <==> b.sel.Some?) && (a.sel.None? ==> a == b)
  }

  ghost predicate SameBytes(env: State, a: Prmt, b: Prmt) {
    SameKind(a, b) && (a.sel.Some? ==> forall i: nat :: i < 4 ==> Picked(env, a, i) == Picked(env, b, i))
  }

  /** Permutations already seen, by the value they define. */
  type Prmts = Table<Prmt>

  /** Their selectors are known. */
  ghost predicate Known(t: Prmts) {
    forall v :: v in t ==> t[v].sel.Some?
  }

  ghost predicate EntryHolds(env: State, v: Ssa, op: Prmt) {
    op.sel.Some? && forall b: nat :: b < 4 ==> env.value(v, b) == Picked(env, op, b)
  }

  /** The entries of values whose definitions dominate the place hold. */
  ghost predicate TableAt(env: State, t: Prmts, at: Site) {
    forall v :: v in t && Reaches(at.g, at.def(v), at.q) ==> EntryHolds(env, v, t[v])
  }

  /** The sources are known at the place. */
  ghost predicate Behind(op: Prmt, at: Site) {
    (op.src0.Value? ==> at.Knows(op.src0.v)) && (op.src1.Value? ==> at.Knows(op.src1.v))
  }

  /** Entries have known selectors and look only at values known where theirs is defined. */
  ghost predicate TableOk(t: Prmts, at: Site) {
    forall v :: v in t ==> t[v].sel.Some? && Behind(t[v], at.Of(v)) && at.def(v).ip < at.width
  }

  ghost predicate SameUnder(t: Prmts, at: Site, a: Prmt, b: Prmt) {
    SameKind(a, b) && forall env :: TableAt(env, t, at) ==> SameBytes(env, a, b)
  }

  lemma {:induction false} SameUnderTrans(t: Prmts, at: Site, a: Prmt, b: Prmt, c: Prmt)
    requires SameUnder(t, at, a, b) && SameUnder(t, at, b, c)
    ensures SameUnder(t, at, a, c)
  {
  }

  function GetPrmt(t: Prmts, s: Src): Option<Prmt> {
    if s.Value? && s.v in t then Some(t[s.v]) else None
  }

  ghost function Depth(s: Src, at: Site): nat {
    if s.Value? then 1 + at.Rank(s.v) else 0
  }

  /** What a definition looks at has a lower rank. */
  lemma {:induction false} SourceEarlier(t: Prmts, at: Site, op: Prmt, k: nat, j: nat)
    requires TableOk(t, at) && Behind(op, at) && GetPrmt(t, op.Src(k)).Some?
    ensures var src := GetPrmt(t, op.Src(k)).value.Src(j);
      (src.Value? ==> at.Knows(src.v)) && Depth(src, at) < Depth(op.Src(k), at)
  {
    var v, src := op.Src(k).v, t[op.Src(k).v].Src(j);
    if src.Value? {
      KnowsTrans(at, src.v, v);
      RankGrows(at, src.v, v);
    }
  }

  // ---- one source comes from one source ----

  /** The selector byte that goes through the inner permutation. */
  ghost function Through(outer: SelByte, inner: Sel, srcIdx: nat): SelByte
    requires outer.Valid() && srcIdx < 2
  {
    var s := inner[outer.byte];
    SelByte(srcIdx, s.byte, outer.msb || s.msb)
  }

  /** What the loop over the four bytes has found out after `n` of them: the new selector
      bytes, and the one inner source used. */
  ghost predicate ThroughTo(sel: Sel, inner: Sel, srcIdx: nat, n: nat, news: seq<SelByte>, from: Option<nat>)
    requires srcIdx < 2 && n <= 4
  {
    && |news| == n && (from.Some? ==> from.value < 2)
    && (forall i :: 0 <= i < n && sel[i].src != srcIdx ==> news[i] == sel[i])
    && (forall i :: 0 <= i < n && sel[i].src == srcIdx ==>
          news[i] == Through(sel[i], inner, srcIdx) && from == Some(inner[sel[i].byte].src))
    && (from.Some? ==> exists i: nat :: i < n && sel[i].src == srcIdx)
  }

  /** The source is defined by a permutation in the table. */
  ghost predicate Recorded(t: Prmts, s: Src) {
    s.Value? && s.v in t && t[s.v].sel.Some?
  }

  /** Nothing can be done with one source alone: no permutation is recorded for it, or bytes of both
      of that one's sources matter. */
  ghost predicate SrcStuck(t: Prmts, op: Prmt, k: nat) {
    op.sel.Some? && Recorded(t, op.Src(k)) ==>
      var sel, inner := op.sel.value, t[op.Src(k).v].sel.value;
      exists i: nat, j: nat :: i < 4 && j < 4 && sel[i].src == k && sel[j].src == k &&
        inner[sel[i].byte].src != inner[sel[j].byte].src
  }

  /** One source has been replaced by the source that all its bytes come from, or by zero if none is
      used; the other bytes are as they were. */
  ghost predicate LooksThrough(t: Prmts, op: Prmt, k: nat, op': Prmt) {
    && k < 2 && op.sel.Some? && Recorded(t, op.Src(k)) && op'.sel.Some? && op'.dst == op.dst
    && op'.Src(1 - k) == op.Src(1 - k)
    && var sel, sel', inner := op.sel.value, op'.sel.value, t[op.Src(k).v];
      && (forall i: nat :: i < 4 && sel[i].src != k ==> sel'[i] == sel[i])
      && (forall i: nat :: i < 4 && sel[i].src == k ==>
            var b := inner.sel.value[sel[i].byte];
            sel'[i] == SelByte(k, b.byte, sel[i].msb || b.msb) && op'.Src(k) == inner.Src(b.src))
      && ((forall i: nat :: i < 4 ==> sel[i].src != k) ==> op'.Src(k) == Zero)
  }

  /** Looks through the permutation that defines one source, if only one of its sources matters. */
  method TryOptPrmtSrc(t: Prmts, op: Prmt, srcIdx: nat, ghost at: Site) returns (r: Option<Prmt>)
    requires srcIdx < 2 && TableOk(t, at) && Behind(op, at)
    ensures r.None? ==> op.sel.None? || SrcStuck(t, op, srcIdx)
    ensures r.Some? ==> LooksThrough(t, op, srcIdx, r.value)
    ensures r.Some? ==> SameUnder(t, at, op, r.value) && Behind(r.value, at) && r.value.dst == op.dst
    ensures r.Some? ==> Depth(r.value.Src(srcIdx), at) < Depth(op.Src(srcIdx), at)
  {
    if op.sel.None? {
      return None;
    }
    var inner := GetPrmt(t, op.Src(srcIdx));
    if inner.None? {
      return None;
    }
    var sel, src := op.sel.value, inner.value;
    var news: seq<SelByte>, from: Option<nat> := [], None;
    for i := 0 to 4
      invariant ThroughTo(sel, src.sel.value, srcIdx, i, news, from)
    {
      var s := sel[i];
      if s.src != srcIdx {
        news := news + [s];
      } else {
        var b := src.sel.value[s.byte];
        if from.Some? && from.value != b.src {
          assert SrcStuck(t, op, srcIdx) by {
            var j: nat :| j < i && sel[j].src == srcIdx;
            assert src.sel.value[sel[i].byte].src != src.sel.value[sel[j].byte].src;
          }
          return None;
        }
        from := Some(b.src);
        news := news + [SelByte(srcIdx, b.byte, s.msb || b.msb)];
      }
    }
    var newSrc := if from.None? then Zero else src.Src(from.value);
    var op' := op.(sel := Some(news)).WithSrc(srcIdx, newSrc);
    forall env | TableAt(env, t, at) ensures SameBytes(env, op, op') {
      ThroughSame(env, t, at, op, srcIdx, news, from);
    }
    SourceEarlier(t, at, op, srcIdx, if from.None? then 0 else from.value);
    r := Some(op');
  }

  lemma {:induction false} ThroughSame(env: State, t: Prmts, at: Site, op: Prmt, srcIdx: nat, news: Sel,
                                       from: Option<nat>)
    requires srcIdx < 2 && op.sel.Some? && Behind(op, at) && TableAt(env, t, at) && GetPrmt(t, op.Src(srcIdx)).Some?
    requires var src := GetPrmt(t, op.Src(srcIdx)).value;
      src.sel.Some? && ThroughTo(op.sel.value, src.sel.value, srcIdx, 4, news, from)
    ensures var src := GetPrmt(t, op.Src(srcIdx)).value;
      SameBytes(env, op, op.(sel := Some(news)).WithSrc(srcIdx, if from.None? then Zero else src.Src(from.value)))
  {
    var src := GetPrmt(t, op.Src(srcIdx)).value;
    var sel := op.sel.value;
    var op' := op.(sel := Some(news)).WithSrc(srcIdx, if from.None? then Zero else src.Src(from.value));
    forall i: nat | i < 4 ensures Picked(env, op, i) == Picked(env, op', i) {
      if sel[i].src == srcIdx {
        assert env.value(op.Src(srcIdx).v, sel[i].byte) == Picked(env, src, sel[i].byte);
      }
    }
  }

  // ---- packing four bytes into two sources ----

  /** What one result byte is: a constant, or a byte of a source that is no immediate. */
  datatype Item = Constant(u: nat) | Chosen(src: Src, byte: nat, msb: bool)

  function ItemOf(s: Src, b: nat, msb: bool): Item
    requires b < 4
  {
    if s.IsImm() then Constant(SignIf(msb, s.Byte(b))) else Chosen(s, b, msb)
  }

  /** Result byte `i` of a permutation, looking through the one that defines its source. */
  function ItemAt(t: Prmts, op: Prmt, i: nat): Item
    requires op.sel.Some? && i < 4 && Known(t)
  {
    var s := op.sel.value[i];
    match GetPrmt(t, op.Src(s.src))
    case Some(inner) =>
      var b := inner.sel.value[s.byte];
      var src := inner.Src(b.src);
      if src.IsImm() then Constant(SignIf(s.msb, SignIf(b.msb, src.Byte(b.byte))))
      else Chosen(src, b.byte, s.msb || b.msb)
    case None => ItemOf(op.Src(s.src), s.byte, s.msb)
  }

  ghost function ItemValue(env: State, it: Item): nat
    requires it.Chosen? ==> it.byte < 4
  {
    match it
    case Constant(u) => u
    case Chosen(s, b, msb) => SignIf(msb, ByteOf(env, s, b))
  }

  ghost predicate ItemOk(it: Item) {
    match it
    case Constant(u) => u < 256
    case Chosen(s, b, _) => b < 4 && !s.IsImm()
  }

  lemma {:induction false} ItemAtIs(env: State, t: Prmts, at: Site, op: Prmt, i: nat)
    requires op.sel.Some? && i < 4 && Known(t) && Behind(op, at) && TableAt(env, t, at)
    ensures ItemOk(ItemAt(t, op, i)) && ItemValue(env, ItemAt(t, op, i)) == Picked(env, op, i)
  {
    var s := op.sel.value[i];
    var inner := GetPrmt(t, op.Src(s.src));
    if inner.Some? {
      assert at.Knows(op.Src(s.src).v);
      assert env.value(op.Src(s.src).v, s.byte) == Picked(env, inner.value, s.byte);
    }
  }

  /** The sources gathered so far; constants share one immediate. */
  datatype Gathered = Gathered(srcs: seq<Src>, numSrcs: nat, immSrc: Option<nat>, numImmBytes: nat)

  /** `n` bytes have been placed. */
  ghost predicate GatheredOk(g: Gathered, n: nat) {
    && |g.srcs| == 2 && g.numSrcs <= 2 && g.numImmBytes <= n
    && (forall k :: g.numSrcs <= k < 2 ==> g.srcs[k] == Zero)
    && (forall k :: 0 <= k < g.numSrcs && Some(k) != g.immSrc ==> !g.srcs[k].IsImm())
    && match g.immSrc
       case None => g.numImmBytes == 0
       case Some(m) =>
         && m < g.numSrcs && g.srcs[m].IsImm() && 0 < g.numImmBytes
         && (g.srcs[m].Zero? ==> g.numImmBytes == 1)
         && (g.srcs[m].Imm32? ==> exists b :: 0 <= b < 4 && g.srcs[m].bytes[b] != 0)
         && forall b :: g.numImmBytes <= b < 4 ==> g.srcs[m].Byte(b) == 0
  }

  /** The state after a step, and the slot or byte given out. */
  datatype Added = Added(g: Gathered, at: nat)

  ghost function AddSrc(g: Gathered, src: Src): Option<Added>
    requires |g.srcs| == 2 && g.numSrcs <= 2
  {
    if g.numSrcs > 0 && g.srcs[0] == src then Some(Added(g, 0))
    else if g.numSrcs > 1 && g.srcs[1] == src then Some(Added(g, 1))
    else if g.numSrcs < 2 then Some(Added(g.(numSrcs := g.numSrcs + 1, srcs := g.srcs[g.numSrcs := src]), g.numSrcs))
    else None
  }

  /** Puts a byte into an immediate that is zero there. */
  function WithByte(s: Src, b: nat, u: nat): Src
    requires s.IsImm() && b < 4 && u < 256
  {
    Imm32((if s.Zero? then [0, 0, 0, 0] else s.bytes)[b := u])
  }

  ghost function AddImm(g: Gathered, u: nat): Option<Added>
    requires |g.srcs| == 2 && g.numSrcs <= 2 && g.numImmBytes < 4 && u < 256
    requires g.immSrc.Some? ==> g.immSrc.value < 2 && g.srcs[g.immSrc.value].IsImm()
    requires g.immSrc.None? && g.numSrcs < 2 ==> g.srcs[g.numSrcs].IsImm()
  {
    if g.immSrc.None? && g.numSrcs >= 2 then None
    else
      var h := if g.immSrc.None? then g.(immSrc := Some(g.numSrcs), numSrcs := g.numSrcs + 1) else g;
      var m := h.immSrc.value;
      if h.srcs[m].Zero? && u == 0 then Some(Added(h.(numImmBytes := 1), 0))
      else Some(Added(h.(srcs := h.srcs[m := WithByte(h.srcs[m], h.numImmBytes, u)], numImmBytes := h.numImmBytes + 1),
                      h.numImmBytes))
  }

  /** What a selector byte means in the gathered sources. */
  ghost function Unpack(g: Gathered, s: SelByte): Item
    requires |g.srcs| == 2 && s.Valid()
  {
    ItemOf(g.srcs[s.src], s.byte, s.msb)
  }

  /** The selector byte refers to something already placed. */
  ghost predicate Placed(g: Gathered, s: SelByte) {
    s.Valid() && s.src < g.numSrcs && (Some(s.src) == g.immSrc ==> s.byte < g.numImmBytes)
  }

  ghost function PlaceItem(g: Gathered, it: Item, n: nat): Option<(Gathered, SelByte)>
    requires GatheredOk(g, n) && n < 4 && ItemOk(it)
  {
    match it
    case Constant(u) =>
      (match AddImm(g, u)
       case Some(a) => Some((a.g, SelByte(a.g.immSrc.value, a.at, false)))
       case None => None)
    case Chosen(s, b, msb) =>
      (match AddSrc(g, s)
       case Some(a) => Some((a.g, SelByte(a.at, b, msb)))
       case None => None)
  }

  /** A placed byte reads back as what was placed, and what was placed before still does. */
  lemma {:induction false} PlaceItemOk(g: Gathered, it: Item, n: nat)
    requires GatheredOk(g, n) && n < 4 && ItemOk(it) && PlaceItem(g, it, n).Some?
    ensures var (h, s) := PlaceItem(g, it, n).value;
      GatheredOk(h, n + 1) && Placed(h, s) && Unpack(h, s) == it && g.numSrcs <= h.numSrcs
  {
    var (h, s) := PlaceItem(g, it, n).value;
    if it.Constant? {
      var m := h.immSrc.value;
      forall b | h.numImmBytes <= b < 4 ensures h.srcs[m].Byte(b) == 0 {
        assert g.srcs[m].Byte(b) == 0;
      }
      if g.srcs[m].Imm32? {
        var b :| 0 <= b < 4 && g.srcs[m].bytes[b] != 0;
        assert g.srcs[m].Byte(b) == g.srcs[m].bytes[b];
        assert h.srcs[m].bytes[b] != 0;
      } else if it.u != 0 {
        assert h.srcs[m].bytes[g.numImmBytes] == it.u;
      }
    }
  }

  lemma {:induction false} PlaceItemKeeps(g: Gathered, it: Item, n: nat, old_: SelByte)
    requires GatheredOk(g, n) && n < 4 && ItemOk(it) && PlaceItem(g, it, n).Some? && Placed(g, old_)
    ensures var (h, s) := PlaceItem(g, it, n).value; Placed(h, old_) && Unpack(h, old_) == Unpack(g, old_)
  {
  }

  const EMPTY := Gathered([Zero, Zero], 0, None, 0)

  /** Placing the first `n` items. */
  ghost function PackTo(items: seq<Item>, n: nat): Option<(Gathered, seq<SelByte>)>
    requires |items| == 4 && n <= 4 && forall i :: 0 <= i < 4 ==> ItemOk(items[i])
    ensures PackTo(items, n).Some? ==> GatheredOk(PackTo(items, n).value.0, n) && |PackTo(items, n).value.1| == n
  {
    if n == 0 then Some((EMPTY, []))
    else
      match PackTo(items, n - 1)
      case None => None
      case Some((g, sel)) =>
        match PlaceItem(g, items[n - 1], n - 1)
        case None => None
        case Some((h, s)) => PlaceItemOk(g, items[n - 1], n - 1); Some((h, sel + [s]))
  }

  /** Packed bytes read back as the items packed. */
  lemma {:induction false} PackReadsBack(items: seq<Item>, n: nat)
    requires |items| == 4 && n <= 4 && (forall i :: 0 <= i < 4 ==> ItemOk(items[i])) && PackTo(items, n).Some?
    ensures var (g, sel) := PackTo(items, n).value; forall i :: 0 <= i < n ==>
      Placed(g, sel[i]) && Unpack(g, sel[i]) == items[i]
  {
    if n > 0 {
      PackReadsBack(items, n - 1);
      var (g, sel) := PackTo(items, n - 1).value;
      var (h, s) := PlaceItem(g, items[n - 1], n - 1).value;
      PlaceItemOk(g, items[n - 1], n - 1);
      forall i | 0 <= i < n - 1 ensures Placed(h, sel[i]) && Unpack(h, sel[i]) == items[i] {
        PlaceItemKeeps(g, items[n - 1], n - 1, sel[i]);
      }
    }
  }

  class PrmtSrcs {
    var srcs: seq<Src>
    var numSrcs: nat
    var immSrc: Option<nat>
    var numImmBytes: nat

    ghost function View(): Gathered
      reads this
    {
      Gathered(srcs, numSrcs, immSrc, numImmBytes)
    }

    constructor ()
      ensures View() == EMPTY
    {
      srcs, numSrcs, immSrc, numImmBytes := [Zero, Zero], 0, None, 0;
    }

    method TryAddSrc(src: Src) returns (r: Option<nat>)
      requires |srcs| == 2 && numSrcs <= 2
      modifies this
      ensures match AddSrc(old(View()), src)
        case Some(a) => r == Some(a.at) && View() == a.g
        case None => r == None && View() == old(View())
    {
      for i := 0 to numSrcs
        invariant View() == old(View()) && forall k :: 0 <= k < i ==> srcs[k] != src
      {
        if srcs[i] == src {
          return Some(i);
        }
      }
      if numSrcs < 2 {
        r := Some(numSrcs);
        srcs := srcs[numSrcs := src];
        numSrcs := numSrcs + 1;
      } else {
        r := None;
      }
    }

    /** Never needs more than four bytes: `n` of them at most have been used. */
    method TryAddImmU8(u: nat, ghost n: nat) returns (r: Option<nat>)
      requires GatheredOk(View(), n) && n < 4 && u < 256
      modifies this
      ensures match AddImm(old(View()), u)
        case Some(a) => r == Some(a.at) && View() == a.g
        case None => r == None && View() == old(View())
    {
      if immSrc == None {
        if numSrcs >= 2 {
          return None;
        }
        immSrc := Some(numSrcs);
        numSrcs := numSrcs + 1;
      }
      var m := immSrc.value;
      var s := srcs[m];
      if s.Zero? && u == 0 {
        numImmBytes := 1;
        r := Some(0);
      } else {
        var b := numImmBytes;
        numImmBytes := numImmBytes + 1;
        assert s.Byte(b) == 0;
        srcs := srcs[m := WithByte(s, b, u)];
        r := Some(b);
      }
    }
  }

  ghost function Items(t: Prmts, op: Prmt): seq<Item>
    requires op.sel.Some? && Known(t)
  {
    seq(4, i requires 0 <= i < 4 => ItemAt(t, op, i))
  }

  lemma {:induction false} ItemsOk(t: Prmts, op: Prmt)
    requires op.sel.Some? && Known(t)
    ensures forall i :: 0 <= i < 4 ==> ItemOk(Items(t, op)[i])
  {
  }

  ghost function Repacked(t: Prmts, op: Prmt): Option<Prmt>
    requires op.sel.Some? && Known(t)
  {
    ItemsOk(t, op);
    var items := Items(t, op);
    match PackTo(items, 4)
    case None => None
    case Some((g, sel)) => PackReadsBack(items, 4); Some(Prmt(op.dst, g.srcs[0], g.srcs[1], Some(sel)))
  }

  /** Looks through the permutations of both sources at once. */
  method TryOptPrmt4(t: Prmts, op: Prmt) returns (r: Option<Prmt>)
    requires Known(t)
    ensures op.sel.None? ==> r == None
    ensures op.sel.Some? ==> r == if Repacked(t, op) == Some(op) then None else Repacked(t, op)
  {
    if op.sel.None? {
      return None;
    }
    var srcs := new PrmtSrcs();
    ghost var items := Items(t, op);
    ItemsOk(t, op);
    var sel: seq<SelByte> := [];
    for i := 0 to 4
      invariant PackTo(items, i) == Some((srcs.View(), sel))
    {
      var item := ItemAt(t, op, i);
      assert item == items[i];
      match item {
        case Constant(u) =>
          var b := srcs.TryAddImmU8(u, i);
          if b.None? {
            PackStops(items, i);
            return None;
          }
          sel := sel + [SelByte(srcs.immSrc.value, b.value, false)];
        case Chosen(s, b, msb) =>
          var k := srcs.TryAddSrc(s);
          if k.None? {
            PackStops(items, i);
            return None;
          }
          sel := sel + [SelByte(k.value, b, msb)];
      }
    }
    PackReadsBack(items, 4);
    if sel == op.sel.value && srcs.srcs[0] == op.src0 && srcs.srcs[1] == op.src1 {
      return None;
    }
    r := Some(Prmt(op.dst, srcs.srcs[0], srcs.srcs[1], Some(sel)));
  }

  // ---- when four bytes fit ----

  /** Where result byte `i` comes from, looking through the permutation that defines its source. */
  ghost function Leaf(t: Prmts, op: Prmt, i: nat): Src
    requires op.sel.Some? && i < 4
  {
    var s := op.sel.value[i];
    if Recorded(t, op.Src(s.src)) then
      var inner := t[op.Src(s.src).v];
      inner.Src(inner.sel.value[s.byte].src)
    else op.Src(s.src)
  }

  /** The different sources that the first `n` bytes come from, immediates left out. */
  ghost function Leaves(t: Prmts, op: Prmt, n: nat): set<Src>
    requires op.sel.Some? && n <= 4
  {
    set i: nat | i < n && !Leaf(t, op, i).IsImm() :: Leaf(t, op, i)
  }

  ghost predicate SomeImm(t: Prmts, op: Prmt, n: nat)
    requires op.sel.Some? && n <= 4
  {
    exists i: nat :: i < n && Leaf(t, op, i).IsImm()
  }

  /** How many sources the first `n` bytes need; all immediates share one. */
  ghost function Needs(t: Prmts, op: Prmt, n: nat): nat
    requires op.sel.Some? && n <= 4
  {
    |Leaves(t, op, n)| + if SomeImm(t, op, n) then 1 else 0
  }

  lemma {:induction false} ItemLeaf(t: Prmts, op: Prmt, i: nat)
    requires op.sel.Some? && i < 4 && Known(t)
    ensures var it := ItemAt(t, op, i);
      ItemOk(it) && (it.Constant? <==> Leaf(t, op, i).IsImm()) && (it.Chosen? ==> it.src == Leaf(t, op, i))
  {
  }

  lemma {:induction false} LeavesGrow(t: Prmts, op: Prmt, n: nat)
    requires op.sel.Some? && n < 4
    ensures var l := Leaf(t, op, n); Leaves(t, op, n + 1) == Leaves(t, op, n) + (if l.IsImm() then {} else {l})
  {
    var l := Leaf(t, op, n);
    forall s | s in Leaves(t, op, n + 1) ensures s in Leaves(t, op, n) || (!l.IsImm() && s == l) {
      var i: nat :| i < n + 1 && !Leaf(t, op, i).IsImm() && Leaf(t, op, i) == s;
      assert i < n || i == n;
    }
  }

  lemma {:induction false} SomeImmGrows(t: Prmts, op: Prmt, n: nat)
    requires op.sel.Some? && n < 4
    ensures SomeImm(t, op, n + 1) <==> SomeImm(t, op, n) || Leaf(t, op, n).IsImm()
  {
    if i: nat :| i < n + 1 && Leaf(t, op, i).IsImm() {
      assert i < n || i == n;
    }
  }

  lemma {:induction false} LeavesNext(t: Prmts, op: Prmt, n: nat)
    requires op.sel.Some? && n < 4
    ensures var l := Leaf(t, op, n);
      && Leaves(t, op, n + 1) == Leaves(t, op, n) + (if l.IsImm() then {} else {l})
      && (SomeImm(t, op, n + 1) <==> SomeImm(t, op, n) || l.IsImm())
      && Needs(t, op, n + 1) == Needs(t, op, n) +
           if (if l.IsImm() then SomeImm(t, op, n) else l in Leaves(t, op, n)) then 0 else 1
  {
    var l, a, b := Leaf(t, op, n), Leaves(t, op, n), Leaves(t, op, n + 1);
    LeavesGrow(t, op, n);
    SomeImmGrows(t, op, n);
    AddedSize(a, l);
    assert l.IsImm() ==> b == a;
  }

  lemma {:induction false} AddedSize(a: set<Src>, l: Src)
    ensures |a + {l}| == |a| + if l in a then 0 else 1
  {
    if l in a { assert a + {l} == a; }
  }

  /** The sources gathered besides the shared immediate are just these. */
  ghost predicate Holds(g: Gathered, leaves: set<Src>) {
    |g.srcs| == 2 && forall l :: l in leaves <==>
      || (g.numSrcs > 0 && g.immSrc != Some(0) && g.srcs[0] == l)
      || (g.numSrcs > 1 && g.immSrc != Some(1) && g.srcs[1] == l)
  }

  lemma {:induction false} AddSrcHolds(g: Gathered, n: nat, src: Src, leaves: set<Src>)
    requires GatheredOk(g, n) && Holds(g, leaves) && !src.IsImm()
    ensures src in leaves ==> AddSrc(g, src).Some? && AddSrc(g, src).value.g == g
    ensures src !in leaves && g.numSrcs < 2 ==> AddSrc(g, src).Some? && var h := AddSrc(g, src).value.g;
      Holds(h, leaves + {src}) && h.numSrcs == g.numSrcs + 1 && h.immSrc == g.immSrc
    ensures src !in leaves && g.numSrcs == 2 ==> AddSrc(g, src).None?
  {
    if src !in leaves && g.numSrcs < 2 {
      var h := AddSrc(g, src).value.g;
      assert h.srcs[g.numSrcs] == src && h.immSrc != Some(g.numSrcs);
    }
  }

  lemma {:induction false} AddImmHolds(g: Gathered, n: nat, u: nat, leaves: set<Src>)
    requires GatheredOk(g, n) && n < 4 && u < 256 && Holds(g, leaves)
    ensures g.immSrc.None? && g.numSrcs == 2 <==> AddImm(g, u).None?
    ensures AddImm(g, u).Some? ==> var h := AddImm(g, u).value.g;
      Holds(h, leaves) && h.immSrc.Some? && h.numSrcs == g.numSrcs + if g.immSrc.Some? then 0 else 1
  {
  }

  /** The sources gathered are those of the first `n` bytes. */
  ghost predicate Gathers(g: Gathered, t: Prmts, op: Prmt, n: nat)
    requires op.sel.Some? && n <= 4
  {
    && GatheredOk(g, n) && g.numSrcs == Needs(t, op, n)
    && (g.immSrc.Some? <==> SomeImm(t, op, n)) && Holds(g, Leaves(t, op, n))
  }

  lemma {:induction false} GathersMore(g: Gathered, t: Prmts, op: Prmt, n: nat)
    requires op.sel.Some? && n < 4 && Known(t) && Gathers(g, t, op, n)
    ensures ItemOk(ItemAt(t, op, n))
    ensures PlaceItem(g, ItemAt(t, op, n), n).Some? <==> Needs(t, op, n + 1) <= 2
    ensures PlaceItem(g, ItemAt(t, op, n), n).Some? ==>
      Gathers(PlaceItem(g, ItemAt(t, op, n), n).value.0, t, op, n + 1)
  {
    var it, leaves := ItemAt(t, op, n), Leaves(t, op, n);
    ItemLeaf(t, op, n);
    LeavesNext(t, op, n);
    if it.Chosen? {
      AddSrcHolds(g, n, it.src, leaves);
      if it.src in leaves {
        assert leaves + {it.src} == leaves;
      }
    } else {
      AddImmHolds(g, n, it.u, leaves);
      assert leaves + {} == leaves;
    }
    if PlaceItem(g, it, n).Some? {
      PlaceItemOk(g, it, n);
    }
  }

  /** Bytes are packed exactly if they need no more than two sources. */
  lemma {:induction false} PacksIff(t: Prmts, op: Prmt, n: nat)
    requires op.sel.Some? && Known(t) && n <= 4 && forall i :: 0 <= i < 4 ==> ItemOk(Items(t, op)[i])
    ensures match PackTo(Items(t, op), n)
      case Some((g, _)) => Gathers(g, t, op, n)
      case None => Needs(t, op, n) > 2
  {
    if n > 0 {
      PacksIff(t, op, n - 1);
      LeavesNext(t, op, n - 1);
      match PackTo(Items(t, op), n - 1)
      case Some((g, _)) => GathersMore(g, t, op, n - 1);
      case None =>
    }
  }

  lemma {:induction false} RepackedIff(t: Prmts, op: Prmt)
    requires op.sel.Some? && Known(t)
    ensures Repacked(t, op).Some? <==> Needs(t, op, 4) <= 2
  {
    ItemsOk(t, op);
    PacksIff(t, op, 4);
  }

  lemma {:induction false} PackStops(items: seq<Item>, n: nat)
    requires |items| == 4 && n < 4 && forall i :: 0 <= i < 4 ==> ItemOk(items[i])
    requires PackTo(items, n).Some? && PlaceItem(PackTo(items, n).value.0, items[n], n).None?
    ensures PackTo(items, 4).None?
  {
    assert PackTo(items, n + 1).None?;
    PackNever(items, n + 1);
  }

  lemma {:induction false} PackNever(items: seq<Item>, n: nat)
    requires |items| == 4 && n <= 4 && (forall i :: 0 <= i < 4 ==> ItemOk(items[i])) && PackTo(items, n).None?
    ensures PackTo(items, 4).None?
    decreases 4 - n
  {
    if n < 4 {
      PackNever(items, n + 1);
    }
  }

  /** Repacking keeps every result byte. */
  lemma {:induction false} RepackedSame(t: Prmts, at: Site, op: Prmt)
    requires op.sel.Some? && Known(t) && Behind(op, at) && Repacked(t, op).Some?
    ensures SameUnder(t, at, op, Repacked(t, op).value)
  {
    var op', items := Repacked(t, op).value, Items(t, op);
    ItemsOk(t, op);
    PackReadsBack(items, 4);
    var (g, sel) := PackTo(items, 4).value;
    forall env | TableAt(env, t, at) ensures SameBytes(env, op, op') {
      forall i: nat | i < 4 ensures Picked(env, op, i) == Picked(env, op', i) {
        ItemAtIs(env, t, at, op, i);
        assert Unpack(g, sel[i]) == items[i];
        assert op'.Src(sel[i].src) == g.srcs[sel[i].src];
      }
    }
  }

  lemma {:induction false} PlaceItemSrcs(g: Gathered, it: Item, n: nat, k: nat)
    requires GatheredOk(g, n) && n < 4 && ItemOk(it) && PlaceItem(g, it, n).Some? && k < 2
    ensures var h := PlaceItem(g, it, n).value.0;
      |h.srcs| == 2 && (h.srcs[k] == g.srcs[k] || h.srcs[k].IsImm() || (it.Chosen? && h.srcs[k] == it.src))
  {
  }

  /** The gathered sources are immediates or come from the items. */
  lemma {:induction false} PackedFrom(items: seq<Item>, n: nat, k: nat)
    requires |items| == 4 && n <= 4 && (forall i :: 0 <= i < 4 ==> ItemOk(items[i])) && PackTo(items, n).Some? && k < 2
    ensures var s := PackTo(items, n).value.0.srcs[k]; s.IsImm() || exists i ::
      0 <= i < n && items[i].Chosen? && items[i].src == s
  {
    if n > 0 {
      PackedFrom(items, n - 1, k);
      var (g, sel) := PackTo(items, n - 1).value;
      PlaceItemSrcs(g, items[n - 1], n - 1, k);
    }
  }

  lemma {:induction false} ItemEarlier(t: Prmts, op: Prmt, i: nat, at: Site)
    requires op.sel.Some? && i < 4 && TableOk(t, at) && Behind(op, at)
    ensures var it, src := ItemAt(t, op, i), op.Src(op.sel.value[i].src);
      it.Chosen? ==>
        && (it.src.Value? ==> at.Knows(it.src.v)) && Depth(it.src, at) <= Depth(src, at)
        && (GetPrmt(t, src).Some? ==> Depth(it.src, at) < Depth(src, at))
  {
    var s := op.sel.value[i];
    var inner := GetPrmt(t, op.Src(s.src));
    if inner.Some? {
      SourceEarlier(t, at, op, s.src, inner.value.sel.value[s.byte].src);
    }
  }

  lemma {:induction false} RepackedBefore(t: Prmts, op: Prmt, at: Site)
    requires op.sel.Some? && TableOk(t, at) && Behind(op, at) && Repacked(t, op).Some?
    ensures Behind(Repacked(t, op).value, at)
  {
    var items := Items(t, op);
    ItemsOk(t, op);
    forall i: nat | i < 4 && items[i].Chosen? && items[i].src.Value? ensures at.Knows(items[i].src.v) {
      ItemEarlier(t, op, i, at);
    }
    PackedFrom(items, 4, 0);
    PackedFrom(items, 4, 1);
  }

  // ---- looking through both sources ends ----

  ghost function ByteDepth(op: Prmt, i: nat, at: Site): nat
    requires op.sel.Some? && i < 4
  {
    Depth(op.Src(op.sel.value[i].src), at)
  }

  ghost function Weight(op: Prmt, at: Site): nat {
    if op.sel.None? then 0
      else ByteDepth(op, 0, at) + ByteDepth(op, 1, at) + ByteDepth(op, 2, at) + ByteDepth(op, 3, at)
  }

  /** Byte `i` of the repacked permutation has the source of its item. */
  lemma {:induction false} RepackedByte(t: Prmts, op: Prmt, i: nat)
    requires op.sel.Some? && Known(t) && Repacked(t, op).Some? && i < 4
    ensures var op' := Repacked(t, op).value; var s := op'.sel.value[i];
      ItemOf(op'.Src(s.src), s.byte, s.msb) == ItemAt(t, op, i)
  {
    var items := Items(t, op);
    ItemsOk(t, op);
    PackReadsBack(items, 4);
    var (g, sel) := PackTo(items, 4).value;
    assert Unpack(g, sel[i]) == items[i];
  }

  lemma {:induction false} ByteDepthDrops(t: Prmts, op: Prmt, i: nat, at: Site)
    requires op.sel.Some? && i < 4 && TableOk(t, at) && Behind(op, at) && Repacked(t, op).Some?
    ensures ByteDepth(Repacked(t, op).value, i, at) <= ByteDepth(op, i, at)
    ensures GetPrmt(t, op.Src(op.sel.value[i].src)).Some? ==>
      ByteDepth(Repacked(t, op).value, i, at) < ByteDepth(op, i, at)
  {
    RepackedByte(t, op, i);
    ItemEarlier(t, op, i, at);
  }

  /** No byte comes from a known permutation. */
  ghost predicate Flat(t: Prmts, op: Prmt)
    requires op.sel.Some?
  {
    forall i: nat :: i < 4 ==> !Recorded(t, op.Src(op.sel.value[i].src))
  }

  /** So it is when repacking changes nothing. */
  lemma {:induction false} FixedIsFlat(t: Prmts, op: Prmt, at: Site)
    requires op.sel.Some? && TableOk(t, at) && Behind(op, at) && Repacked(t, op) == Some(op)
    ensures Flat(t, op)
  {
    forall i: nat | i < 4 ensures !Recorded(t, op.Src(op.sel.value[i].src)) {
      RepackedByte(t, op, i);
      ItemEarlier(t, op, i, at);
    }
  }

  /** Then repacking twice is repacking once. */
  lemma {:induction false} RepackedTwice(t: Prmts, op: Prmt)
    requires op.sel.Some? && Known(t) && Flat(t, op) && Repacked(t, op).Some?
    ensures Repacked(t, Repacked(t, op).value) == Repacked(t, op)
  {
    var op' := Repacked(t, op).value;
    forall i: nat | i < 4 ensures ItemAt(t, op', i) == ItemAt(t, op, i) {
      RepackedByte(t, op, i);
      assert !Recorded(t, op.Src(op.sel.value[i].src));
    }
    assert Items(t, op') == Items(t, op);
  }

  ghost predicate Normal(t: Prmts, op: Prmt)
    requires op.sel.Some? ==> Known(t)
  {
    op.sel.Some? ==> Repacked(t, op) == Some(op)
  }

  lemma {:induction false} RepackingEnds(t: Prmts, op: Prmt, at: Site)
    requires op.sel.Some? && TableOk(t, at) && Behind(op, at) && Repacked(t, op).Some? && Repacked(t, op) != Some(op)
    ensures var op' := Repacked(t, op).value;
      Weight(op', at) < Weight(op, at) || (Weight(op', at) == Weight(op, at) && !Normal(t, op) && Normal(t, op'))
  {
    ByteDepthDrops(t, op, 0, at);
    ByteDepthDrops(t, op, 1, at);
    ByteDepthDrops(t, op, 2, at);
    ByteDepthDrops(t, op, 3, at);
    if Flat(t, op) {
      RepackedTwice(t, op);
    } else {
      var i: nat :| i < 4 && Recorded(t, op.Src(op.sel.value[i].src));
      ByteDepthDrops(t, op, i, at);
      assert i == 0 || i == 1 || i == 2 || i == 3;
    }
  }

  // ---- one permutation ----

  ghost predicate LooksBy(t: Prmts, op: Prmt, k: nat, op': Prmt, n: nat)
    decreases n
  {
    if n == 0 then op' == op else exists o :: LooksBy(t, op, k, o, n - 1) && LooksThrough(t, o, k, op')
  }

  /** One source has been looked through until that is stuck. */
  ghost predicate LookedThrough(t: Prmts, op: Prmt, k: nat, op': Prmt) {
    SrcStuck(t, op', k) && exists n: nat :: LooksBy(t, op, k, op', n)
  }

  /** The first `n` sources, one after the other. */
  ghost predicate LookedTo(t: Prmts, op: Prmt, n: nat, op': Prmt)
    decreases n
  {
    if n == 0 then op' == op
    else
      var k := n - 1;
      exists o :: LookedTo(t, op, k, o) && LookedThrough(t, o, k, op')
  }

  ghost predicate RepacksOnce(t: Prmts, op: Prmt, op': Prmt) {
    Known(t) && op.sel.Some? && Repacked(t, op) == Some(op') && op' != op
  }

  ghost predicate RepacksBy(t: Prmts, op: Prmt, op': Prmt, n: nat)
    decreases n
  {
    if n == 0 then op' == op else exists o :: RepacksBy(t, op, o, n - 1) && RepacksOnce(t, o, op')
  }

  /** The bytes need too many sources, or none comes from a recorded permutation and repacking would
      change nothing. */
  ghost predicate Finished(t: Prmts, op: Prmt) {
    Known(t) && (op.sel.Some? ==> Needs(t, op, 4) > 2 || (Flat(t, op) && Repacked(t, op) == Some(op)))
  }

  ghost predicate FullyRepacked(t: Prmts, op: Prmt, op': Prmt) {
    Finished(t, op') && exists n: nat :: RepacksBy(t, op, op', n)
  }

  /** What becomes of a permutation: each source is looked through, then both are at once. */
  ghost predicate FoldedPrmt(t: Prmts, op: Prmt, op': Prmt) {
    exists o :: LookedTo(t, op, 2, o) && FullyRepacked(t, o, op')
  }

  method OptPrmt(t: Prmts, op: Prmt, ghost at: Site) returns (op': Prmt)
    requires TableOk(t, at) && Behind(op, at)
    ensures SameUnder(t, at, op, op') && Behind(op', at) && FoldedPrmt(t, op, op')
  {
    op' := op;
    for i := 0 to 2
      invariant SameUnder(t, at, op, op') && Behind(op', at) && LookedTo(t, op, i, op')
    {
      ghost var o := op';
      op' := OptPrmtSrc(t, op', i, at);
      SameUnderTrans(t, at, op, o, op');
    }
    ghost var o := op';
    op' := OptPrmt4(t, op', at);
    SameUnderTrans(t, at, op, o, op');
  }

  /** How far one source has been looked through. */
  ghost predicate Looking(t: Prmts, at: Site, op: Prmt, i: nat, op': Prmt) {
    SameUnder(t, at, op, op') && Behind(op', at) && exists n: nat :: LooksBy(t, op, i, op', n)
  }

  lemma {:induction false} LookingStart(t: Prmts, at: Site, op: Prmt, i: nat)
    requires Behind(op, at)
    ensures Looking(t, at, op, i, op)
  {
    assert LooksBy(t, op, i, op, 0);
  }

  lemma {:induction false} LookingStep(t: Prmts, at: Site, op: Prmt, i: nat, o: Prmt, op': Prmt)
    requires Looking(t, at, op, i, o) && SameUnder(t, at, o, op') && Behind(op', at) && LooksThrough(t, o, i, op')
    ensures Looking(t, at, op, i, op')
  {
    SameUnderTrans(t, at, op, o, op');
    var n: nat :| LooksBy(t, op, i, o, n);
    assert LooksBy(t, op, i, op', n + 1);
  }

  /** Repeats for one source. */
  method OptPrmtSrc(t: Prmts, op: Prmt, i: nat, ghost at: Site) returns (op': Prmt)
    requires i < 2 && TableOk(t, at) && Behind(op, at)
    ensures SameUnder(t, at, op, op') && Behind(op', at) && LookedThrough(t, op, i, op')
  {
    op' := op;
    LookingStart(t, at, op, i);
    var r := TryOptPrmtSrc(t, op', i, at);
    while r.Some?
      invariant Looking(t, at, op, i, op')
      invariant r.Some? ==> SameUnder(t, at, op', r.value) && Behind(r.value, at) && LooksThrough(t, op', i, r.value)
      invariant r.Some? ==> Depth(r.value.Src(i), at) < Depth(op'.Src(i), at)
      invariant r.None? ==> SrcStuck(t, op', i)
      decreases Depth(op'.Src(i), at)
    {
      LookingStep(t, at, op, i, op', r.value);
      op' := r.value;
      r := TryOptPrmtSrc(t, op', i, at);
    }
  }

  /** How far a permutation has been repacked. */
  ghost predicate Repacking(t: Prmts, at: Site, op: Prmt, op': Prmt) {
    SameUnder(t, at, op, op') && Behind(op', at) && exists n: nat :: RepacksBy(t, op, op', n)
  }

  lemma {:induction false} RepackingStart(t: Prmts, at: Site, op: Prmt)
    requires Behind(op, at)
    ensures Repacking(t, at, op, op)
  {
    assert RepacksBy(t, op, op, 0);
  }

  lemma {:induction false} RepackingStep(t: Prmts, at: Site, op: Prmt, o: Prmt, op': Prmt)
    requires TableOk(t, at) && Repacking(t, at, op, o) && o.sel.Some? && Repacked(t, o) == Some(op') && op' != o
    ensures Repacking(t, at, op, op')
  {
    RepackedSame(t, at, o);
    RepackedBefore(t, o, at);
    SameUnderTrans(t, at, op, o, op');
    RepacksMore(t, op, o, op');
  }

  lemma {:induction false} RepacksMore(t: Prmts, op: Prmt, o: Prmt, op': Prmt)
    requires (exists n: nat :: RepacksBy(t, op, o, n)) && RepacksOnce(t, o, op')
    ensures exists n: nat :: RepacksBy(t, op, op', n)
  {
    var n: nat :| RepacksBy(t, op, o, n);
    assert RepacksBy(t, op, op', n + 1);
  }

  lemma {:induction false} RepackingDone(t: Prmts, at: Site, op: Prmt, op': Prmt)
    requires TableOk(t, at) && Repacking(t, at, op, op')
    requires op'.sel.Some? ==> Repacked(t, op') == Some(op') || Repacked(t, op') == None
    ensures FullyRepacked(t, op, op')
  {
    if op'.sel.Some? {
      RepackedIff(t, op');
      if Repacked(t, op') == Some(op') { FixedIsFlat(t, op', at); }
    }
  }

  /** Repeats until nothing changes. */
  method OptPrmt4(t: Prmts, op: Prmt, ghost at: Site) returns (op': Prmt)
    requires TableOk(t, at) && Behind(op, at)
    ensures SameUnder(t, at, op, op') && Behind(op', at) && FullyRepacked(t, op, op')
  {
    op' := op;
    RepackingStart(t, at, op);
    var r := TryOptPrmt4(t, op');
    while r.Some?
      invariant Repacking(t, at, op, op')
      invariant r == if op'.sel.None? || Repacked(t, op') == Some(op') then None else Repacked(t, op')
      decreases Weight(op', at), !Normal(t, op')
    {
      RepackingStep(t, at, op, op', r.value);
      RepackingEnds(t, op', at);
      op' := r.value;
      r := TryOptPrmt4(t, op');
    }
    RepackingDone(t, at, op, op');
  }

  // ---- how permutations run ----

  /** The pass does not look into other instructions. */
  datatype Instr = Permute(op: Prmt) | Other(defs: seq<Option<Ssa>>)

  ghost function Dsts(i: Instr): seq<Option<Ssa>> {
    match i
    case Permute(op) => [op.dst]
    case Other(vs) => vs
  }

  /** Without a known selector nothing is known of the result. */
  ghost predicate IsOther(i: Instr) {
    i.Other? || i.op.sel.None?
  }

  type Constants = (nat, nat, nat) -> nat

  /** Byte `b` of the result of a permutation. */
  ghost function Gives(env: State, i: Instr, b: nat): nat {
    if IsOther(i) || b >= 4 then 0 else Picked(env, i.op, b)
  }

  /** For given contents of the constant buffers. */
  ghost function Bytes(cbuf: Constants): Meaning<Instr, nat> {
    Meaning(Dsts, IsOther, (i: Instr, k: nat, e: Env<nat>, b: nat) => Gives(State(e, cbuf), i, b))
  }

  ghost function Sources(op: Prmt): set<Ssa> {
    (if op.src0.Value? then {op.src0.v} else {}) + (if op.src1.Value? then {op.src1.v} else {})
  }

  ghost function Permuting(): Pass<Instr, Prmt, Constants, nat> {
    Pass(4, Bytes, Sources, (cbuf: Constants, v: Ssa, op: Prmt, env: Env<nat>) => EntryHolds(State(env, cbuf), v, op))
  }

  /** Permutations look only at their sources. */
  lemma {:induction false} SourcesDecide(a: State, b: State, op: Prmt, i: nat)
    requires op.sel.Some? && i < 4 && AgreeOn(4, Sources(op), a.value, b.value) && a.cbuf == b.cbuf
    ensures Picked(a, op, i) == Picked(b, op, i)
  {
    var src := op.Src(op.sel.value[i].src);
    if src.Value? { assert src.v in Sources(op); }
  }

  lemma {:induction false} TableSound(t: Prmts, at: Site)
    requires TableOk(t, at)
    ensures AllSound(Permuting(), at, t)
  {
    forall v | v in t ensures Sound(Permuting(), at, v, t[v]) {
      forall cbuf, a: Env<nat>, b: Env<nat> | AgreeOn(4, Sources(t[v]) + {v}, a, b) &&
        EntryHolds(State(a, cbuf), v, t[v])
        ensures EntryHolds(State(b, cbuf), v, t[v])
      {
        forall i: nat | i < 4 ensures b(v, i) == Picked(State(b, cbuf), t[v], i) {
          SourcesDecide(State(a, cbuf), State(b, cbuf), t[v], i);
        }
      }
    }
  }

  ghost function Reads(i: Instr): set<Ssa> {
    if i.Permute? then Sources(i.op) else {}
  }

  /** How strict form sees permutations. */
  ghost function Form(): Shape<Instr> {
    Shape(Dsts, IsOther, Reads)
  }

  /** The table with the entry of the instruction. */
  function AddPrmt(t: Prmts, op: Prmt): Prmts {
    if op.dst.Some? && op.sel.Some? then t[op.dst.value := op] else t
  }

  /** The entry of a value is the permutation that defines it. */
  ghost predicate EntryOf(e: Prmt, i: Instr, v: Ssa) {
    i == Permute(e) && e.dst == Some(v) && e.sel.Some?
  }

  ghost predicate FoldedInstr(t: Prmts, i: Instr, i': Instr) {
    if i.Permute? then i'.Permute? && FoldedPrmt(t, i.op, i'.op) else i' == i
  }

  /** How the pass folds. */
  ghost function Folds(): Folding<Instr, Prmt> {
    Folding(Form(), EntryOf, FoldedInstr)
  }

  lemma {:induction false} AddPrmtGrows(t: Prmts, op: Prmt, at: Site)
    requires Passed(t, at) && (op.dst.Some? ==> at.def(op.dst.value) == at.q)
    ensures TableGrows(Folds(), t, AddPrmt(t, op), Permute(op))
  {
    assert Dsts(Permute(op)) == [op.dst];
    assert op.dst in Dsts(Permute(op));
  }

  lemma {:induction false} RecordFollows(t: Prmts, v: Ssa, at: Site, cbuf: Constants)
    requires v in t && t[v].sel.Some? && t[v].dst == Some(v)
    ensures EntryFollows(Bytes(cbuf), 4, FrameOf(Permuting(), t, at.def, cbuf), Permute(t[v]), v)
  {
    var fr, i := FrameOf(Permuting(), t, at.def, cbuf), Permute(t[v]);
    forall a: Env<nat>, b: Env<nat> | AgreeOn(4, fr.srcs(v), a, b) && Writes(Bytes(cbuf), 4, i, v, a, b)
      ensures fr.holds(v, b)
    {
      forall l: nat | l < 4 ensures b(v, l) == Picked(State(b, cbuf), t[v], l) {
        SourcesDecide(State(a, cbuf), State(b, cbuf), t[v], l);
        assert b(v, l) == Gives(State(a, cbuf), i, l);
      }
    }
  }

  /** A rewritten permutation and its entry are what the frame asks for. */
  lemma {:induction false} RewrittenKept(t: Prmts, at: Site, op: Prmt, op': Prmt)
    requires Strict(Form(), Permute(op), at) && Passed(t, at) && SameUnder(t, at, op, op')
    ensures Kept(Permuting(), AddPrmt(t, op'), at, Permute(op), Permute(op')) && NewHere(t, AddPrmt(t, op'), at)
  {
    DstPlaced(op, at);
    forall cbuf
      ensures PlaceOk(at.g, Bytes(cbuf), 4, FrameOf(Permuting(), AddPrmt(t, op'), at.def, cbuf), Permute(op),
                      Permute(op'), at.q)
    {
      RewrittenPlace(t, at, op, op', cbuf);
    }
  }

  lemma {:induction false} DstPlaced(op: Prmt, at: Site)
    requires Strict(Form(), Permute(op), at)
    ensures op.dst.Some? ==> at.def(op.dst.value) == at.q
  {
    assert Dsts(Permute(op))[0] == op.dst;
  }

  lemma {:induction false} RewrittenPlace(t: Prmts, at: Site, op: Prmt, op': Prmt, cbuf: Constants)
    requires Strict(Form(), Permute(op), at) && Passed(t, at) && SameUnder(t, at, op, op')
    ensures PlaceOk(at.g, Bytes(cbuf), 4, FrameOf(Permuting(), AddPrmt(t, op'), at.def, cbuf), Permute(op),
                    Permute(op'), at.q)
  {
    DstPlaced(op, at);
    var t', m, i, i' := AddPrmt(t, op'), Bytes(cbuf), Permute(op), Permute(op');
    var fr := FrameOf(Permuting(), t', at.def, cbuf);
    if op.sel.Some? {
      forall a: Env<nat>, b: Env<nat>, k: nat, l: nat | Agree(4, a, b) && TabAt(at.g, fr, b, at.q) && k < |m.dsts(i)| &&
        l < 4
        ensures m.result(i, k, a, l) == m.result(i', k, b, l)
      {
        forall v | v in t && Reaches(at.g, at.def(v), at.q) ensures EntryHolds(State(b, cbuf), v, t[v]) {
          assert fr.holds(v, b);
        }
        SourcesDecide(State(a, cbuf), State(b, cbuf), op, l);
        assert SameBytes(State(b, cbuf), op, op');
      }
    }
    forall v | v in fr.tab && fr.def(v) == at.q
      ensures Some(v) == op.dst && op.sel.Some? && EntryFollows(m, 4, fr, i', v)
    {
      RecordFollows(t', v, at, cbuf);
    }
  }

  // ---- the pass ----

  lemma {:induction false} OtherKept(t: Prmts, at: Site, i: Instr)
    requires i.Other? && Strict(Form(), i, at) && Passed(t, at)
    ensures Kept(Permuting(), t, at, i, i)
  {
    forall cbuf ensures PlaceOk(at.g, Bytes(cbuf), 4, FrameOf(Permuting(), t, at.def, cbuf), i, i, at.q) {}
  }

  method OptInstr(t: Prmts, i: Instr, ghost at: Site) returns (i': Instr, t': Prmts)
    requires TableOk(t, at) && Passed(t, at) && Strict(Form(), i, at) && at.q.ip < at.width
    ensures Dsts(i') == Dsts(i) && IsOther(i') == IsOther(i) && (IsOther(i) ==> i' == i)
    ensures Kept(Permuting(), t', at, i, i') && NewHere(t, t', at) && TableOk(t', at)
    ensures FoldedInstr(t, i, i') && TableGrows(Folds(), t, t', i')
  {
    match i {
      case Permute(op) =>
        DstPlaced(op, at);
        var op' := OptPrmt(t, op, at);
        i', t' := Permute(op'), AddPrmt(t, op');
        RewrittenKept(t, at, op, op');
        AddPrmtGrows(t, op', at);
      case Other(_) =>
        i', t' := i, t;
        OtherKept(t, at, i);
    }
  }

  /** The first instructions of a block are folded into `code'`, from table `t0` on. */
  ghost predicate BlockDone(t0: Prmts, t: Prmts, at: Site, before: seq<seq<Instr>>, code: seq<Instr>,
                            code': seq<Instr>) {
    && TableOk(t, at) && SameShape(Dsts, IsOther, code, code')
    && BlockKept(Permuting(), t, at, code, code') && NewInBlock(t0, t, at, |code'|)
    && BlockFolded(Folds(), at.def, before, code, code') && TableOf(Folds(), at.def, before + [code'], t)
  }

  lemma {:induction false} BlockMore(t0: Prmts, t: Prmts, t': Prmts, at: Site, before: seq<seq<Instr>>,
                                     code: seq<Instr>, code': seq<Instr>, i: Instr)
    requires BlockDone(t0, t, at, before, code, code') && |code'| < |code| && at.q.b == |before|
    requires BlockStrict(Form(), code, at) && TableOk(t', at.Ip(|code'|))
    requires Dsts(i) == Dsts(code[|code'|]) && IsOther(i) == IsOther(code[|code'|])
    requires IsOther(i) ==> i == code[|code'|]
    requires Kept(Permuting(), t', at.Ip(|code'|), code[|code'|], i) && NewHere(t, t', at.Ip(|code'|))
    requires FoldedInstr(t, code[|code'|], i) && TableGrows(Folds(), t, t', i)
    ensures BlockDone(t0, t', at, before, code, code' + [i])
  {
    ShapeMore(Dsts, IsOther, code, code', i);
    BlockStep(Permuting(), t0, t, t', at, code, code', i);
    InstrFolded(t, t', at, before, code, code', i);
  }

  lemma {:induction false} InstrFolded(t: Prmts, t': Prmts, at: Site, before: seq<seq<Instr>>, code: seq<Instr>,
                                       code': seq<Instr>, i: Instr)
    requires |code'| < |code| && BlockStrict(Form(), code, at) && at.q.b == |before|
    requires BlockFolded(Folds(), at.def, before, code, code') && TableOf(Folds(), at.def, before + [code'], t)
    requires FoldedInstr(t, code[|code'|], i) && TableGrows(Folds(), t, t', i) && Dsts(i) == Dsts(code[|code'|])
    requires IsOther(i) == IsOther(code[|code'|])
    ensures BlockFolded(Folds(), at.def, before, code, code' + [i])
    ensures TableOf(Folds(), at.def, before + [code' + [i]], t')
  {
    assert Strict(Form(), code[|code'|], at.Ip(|code'|));
    forall v: Ssa | Recording(Folds().sh, i, v) ensures at.def(v) == Place(|before|, |code'|) {
      var k: nat :| k < |Dsts(i)| && Dsts(i)[k] == Some(v);
    }
    FoldStep(Folds(), at.def, before, code, code', t, i);
    TableStep(Folds(), at.def, before, code', t, t', i);
  }

  method OptBlock(t: Prmts, code: seq<Instr>, ghost at: Site, ghost before: seq<seq<Instr>>)
    returns (code': seq<Instr>, t': Prmts)
    requires TableOk(t, at) && Passed(t, at.Ip(0)) && BlockStrict(Form(), code, at)
    requires at.q.b == |before| && TableOf(Folds(), at.def, before, t)
    ensures |code'| == |code| && BlockDone(t, t', at, before, code, code')
  {
    code', t' := [], t;
    TableAtStart(Folds(), at.def, before, t);
    for ip := 0 to |code|
      invariant |code'| == ip && BlockDone(t, t', at, before, code, code')
    {
      ghost var was := t';
      var i;
      i, t' := OptInstr(t', code[ip], at.Ip(ip));
      BlockMore(t, was, t', at, before, code, code', i);
      code' := code' + [i];
    }
  }

  /** The blocks of `f'` are folded, and the table is good for the next one. */
  ghost predicate FoldedSoFar(t: Prmts, at: Site, f: seq<seq<Instr>>, f': seq<seq<Instr>>) {
    && TableOk(t, at) && SameShapes(Dsts, IsOther, f, f')
    && AllKept(Permuting(), t, at, f, f') && Inside(t, at, f, |f'|)
    && AllFolded(Folds(), at.def, f, f') && TableOf(Folds(), at.def, f', t)
  }

  lemma {:induction false} FoldedMore(was: Prmts, t: Prmts, at: Site, f: seq<seq<Instr>>, f': seq<seq<Instr>>,
                                      code: seq<Instr>)
    requires FoldedSoFar(was, at, f, f') && |f'| < |f| && |code| == |f[|f'|]|
    requires BlockDone(was, t, at.Block(|f'|), f', f[|f'|], code)
    ensures FoldedSoFar(t, at, f, f' + [code])
  {
    AllStep(Permuting(), was, t, at, f, f', code);
    FoldBlock(Folds(), at.def, f, f', code);
  }

  /** Folds all permutations of a function. On every run, whatever the other instructions write,
      all bytes of all values are the same in the old and the new code. Each is folded until nothing
      more can be done, with all permutations laid out before it recorded. */
  method OptPrmts(f: seq<seq<Instr>>, ghost g: Cfg, ghost def: Ssa -> Place) returns (f': seq<seq<Instr>>)
    requires StrictSsa(Form(), g, def, f)
    ensures SameRuns(Permuting(), g, f, f') && SameShapes(Dsts, IsOther, f, f')
    ensures AllFolded(Folds(), def, f, f')
  {
    var t: Prmts := map[];
    ghost var at := SiteOf(g, def, f);
    f' := [];
    for b := 0 to |f|
      invariant |f'| == b && FoldedSoFar(t, at, f, f')
    {
      ghost var was := t;
      StrictBlock(Form(), at, f, b);
      var code;
      code, t := OptBlock(t, f[b], at.Block(b), f');
      FoldedMore(was, t, at, f, f', code);
      f' := f' + [code];
    }
    TableSound(t, at);
    KeptRunsSame(Permuting(), t, at, f, f');
  }

  /** After a permutation its destination holds what it computes. */
  lemma {:induction false} StepGives(i: Instr, cbuf: Constants, w: (nat, nat) -> nat, env: Env<nat>, b: nat)
    requires !IsOther(i) && i.op.dst.Some?
    ensures Step(Bytes(cbuf), i, w, env)(i.op.dst.value, b) == Gives(State(env, cbuf), i, b)
  {
    var k := WriteAt(env, Dsts(i), Results(Bytes(cbuf), i, w, env), i.op.dst.value);
    assert Dsts(i)[0] == i.op.dst;
  }

  /** Every permutation gives its destination the same bytes whenever control comes to it. */
  lemma {:induction false} FoldingKeepsBytes(g: Cfg, def: Ssa -> Place, f: seq<seq<Instr>>, f': seq<seq<Instr>>,
                                             cbuf: Constants,
                                             w: Oracle<nat>, env: Env<nat>, path: seq<nat>, n: nat, ip: nat, b: nat)
    requires StrictSsa(Form(), g, def, f) && SameRuns(Permuting(), g, f, f') && SameShapes(Dsts, IsOther, f, f')
    requires IsPath(g, path, |f|) && n < |path|
    requires ip < |f[path[n]]| && !IsOther(f[path[n]][ip]) && f[path[n]][ip].op.dst.Some? && b < 4
    ensures Gives(State(Before(Bytes(cbuf), f', w, env, path, n, ip), cbuf), f'[path[n]][ip], b) ==
      Gives(State(Before(Bytes(cbuf), f, w, env, path, n, ip), cbuf), f[path[n]][ip], b)
  {
    var i, i' := f[path[n]][ip], f'[path[n]][ip];
    assert SameShape(Dsts, IsOther, f[path[n]], f'[path[n]]);
    var old_, new_ := Before(Bytes(cbuf), f, w, env, path, n, ip), Before(Bytes(cbuf), f', w, env, path, n, ip);
    var u := OfInstr(OfStep(w, n), ip);
    assert Agree(4, Before(Bytes(cbuf), f, w, env, path, n, ip + 1), Before(Bytes(cbuf), f', w, env, path, n, ip + 1));
    assert Dsts(i)[0] == i.op.dst && Dsts(i')[0] == i'.op.dst;
    StepGives(i, cbuf, u, old_, b);
    StepGives(i', cbuf, u, new_, b);
  }
}
