/**
 Jump threading: branches to trivial blocks are redirected past them, the control-flow
 graph is rebuilt, and branches to the next block are dropped.
 */
module JumpThread {
  import opened Basics
  import opened Cfgs

  type Label = nat

  /** A condition: always true, or decided at run time. */
  datatype Cond = True | On(id: nat)

  datatype Op = Plain(id: nat) | Bra(cond: Cond, target: Label) | Exit {
    predicate IsBranch() {
      !Plain?
    }
  }

  datatype Instr = Instr(pred: Cond, op: Op) {
    predicate IsBranchAlwaysTaken() {
      pred == True && op.IsBranch() && (op.Bra? ==> op.cond == True)
    }
  }

  datatype Block = Block(name: Label, instrs: seq<Instr>) {
    function Branch(): Option<Instr> {
      if instrs != [] && instrs[|instrs| - 1].op.IsBranch() then Some(instrs[|instrs| - 1]) else None
    }

    predicate FallsThrough() {
      Branch().Some? ==> !Branch().value.IsBranchAlwaysTaken()
    }

    /** The instructions before the branch. */
    ghost function Body(): seq<Instr> {
      if Branch().Some? then instrs[..|instrs| - 1] else instrs
    }
  }

  type Function = seq<Block>

  /** Labels tell blocks apart, and only the last instruction of a block may branch. */
  ghost predicate FunctionOk(f: Function) {
    && (forall i, j :: 0 <= i < j < |f| ==> f[i].name != f[j].name)
    && (forall i, k :: 0 <= i < |f| && 0 <= k < |f[i].Body()| ==> f[i].Body()[k].op.Plain?)
  }

  // ---- running ----

  /** Where control is: at a block, or stopped. */
  datatype Place = At(block: nat) | Exited | OffTheEnd | Unknown(target: Label)

  function Resolve(f: Function, l: Label, n: nat): Place
    requires n <= |f|
  {
    if n == 0 then Unknown(l) else if f[n - 1].name == l then At(n - 1) else Resolve(f, l, n - 1)
  }

  ghost function Following(f: Function, i: nat): Place {
    if i + 1 < |f| then At(i + 1) else OffTheEnd
  }

  ghost predicate Holds(c: Cond, truth: nat -> bool) {
    c == True || (c.On? && truth(c.id))
  }

  ghost function Destination(f: Function, op: Op): Place {
    if op.Bra? then Resolve(f, op.target, |f|) else Exited
  }

  ghost predicate Taken(b: Instr, truth: nat -> bool) {
    Holds(b.pred, truth) && (b.op.Bra? ==> Holds(b.op.cond, truth))
  }

  /** Where control goes after the body of block `i`, under the given truth of conditions. */
  ghost function Transfer(f: Function, i: nat, truth: nat -> bool): Place
    requires i < |f|
  {
    match f[i].Branch()
    case Some(b) => if Taken(b, truth) then Destination(f, b.op) else Following(f, i)
    case None => Following(f, i)
  }

  /** What the machine does with the instructions that are not branches. */
  datatype Machine<!S> = Machine(exec: (Instr, S) -> S, test: (nat, S) -> bool)

  /** A running function; `trace` lists the instructions executed, branches left out. */
  datatype Config<S> = Config(place: Place, state: S, trace: seq<Instr>)

  ghost function Executed<S>(m: Machine<S>, body: seq<Instr>, s: S): S {
    if body == [] then s else m.exec(body[|body| - 1], Executed(m, body[..|body| - 1], s))
  }

  /** Runs one block. */
  ghost function Step<S>(m: Machine<S>, f: Function, c: Config<S>): Config<S> {
    if c.place.At? && c.place.block < |f| then
      var body := f[c.place.block].Body();
      var s := Executed(m, body, c.state);
      Config(Transfer(f, c.place.block, (id: nat) => m.test(id, s)), s, c.trace + body)
    else c
  }

  ghost function Run<S>(m: Machine<S>, f: Function, c: Config<S>, n: nat): Config<S>
    decreases n
  {
    if n == 0 then c else Run(m, f, Step(m, f, c), n - 1)
  }

  // ---- skipping silent blocks ----

  /** Block `i` only passes control on: where to, whatever the conditions. */
  ghost predicate Silent(f: Function, i: nat, next: Place) {
    i < |f| && f[i].Body() == [] && forall truth: nat -> bool :: Transfer(f, i, truth) == next
  }

  /** `q` is where `p` leads through silent blocks. */
  ghost predicate Leads(f: Function, p: Place, q: Place, n: nat)
    decreases n
  {
    if n == 0 then p == q else p.At? && exists next :: Silent(f, p.block, next) && Leads(f, next, q, n - 1)
  }

  ghost predicate Skips(f: Function, p: Place, q: Place) {
    exists n: nat :: Leads(f, p, q, n)
  }

  lemma {:induction false} SkipsRefl(f: Function, p: Place)
    ensures Skips(f, p, p)
  {
    assert Leads(f, p, p, 0);
  }

  lemma {:induction false} SkipsSilent(f: Function, i: nat, next: Place, q: Place)
    requires Silent(f, i, next) && Skips(f, next, q)
    ensures Skips(f, At(i), q)
  {
    var n: nat :| Leads(f, next, q, n);
    assert Leads(f, At(i), q, n + 1);
  }

  /** The rewritten function has the same blocks and bodies, and goes where the old one went,
      silent blocks skipped. */
  ghost predicate Threads(f: Function, g: Function) {
    && |g| == |f|
    && forall i: nat {:trigger ThreadsAt(f, g, i)} :: i < |f| ==> ThreadsAt(f, g, i)
  }

  ghost predicate ThreadsAt(f: Function, g: Function, i: nat)
    requires |g| == |f| && i < |f|
  {
    && g[i].name == f[i].name && g[i].Body() == f[i].Body()
    && forall truth: nat -> bool :: Skips(f, Transfer(f, i, truth), Transfer(g, i, truth))
  }

  // ---- the stuttering simulation ----

  lemma {:induction false} RunMore<S>(m: Machine<S>, f: Function, c: Config<S>, n: nat, k: nat)
    ensures Run(m, f, c, n + k) == Run(m, f, Run(m, f, c, n), k)
    decreases n
  {
    if n > 0 {
      RunMore(m, f, Step(m, f, c), n - 1, k);
    }
  }

  lemma {:induction false} RunLeads<S>(m: Machine<S>, f: Function, c: Config<S>, q: Place, n: nat)
    requires Leads(f, c.place, q, n)
    ensures Run(m, f, c, n) == c.(place := q)
    decreases n
  {
    if n > 0 {
      var next :| Silent(f, c.place.block, next) && Leads(f, next, q, n - 1);
      assert Step(m, f, c) == c.(place := next);
      RunLeads(m, f, c.(place := next), q, n - 1);
    }
  }

  /** One step of the rewritten function is one or more steps of the old one. */
  lemma {:induction false} StepSimulates<S>(m: Machine<S>, f: Function, g: Function, c: Config<S>) returns (k: nat)
    requires Threads(f, g)
    ensures k >= 1 && Run(m, f, c, k) == Step(m, g, c)
  {
    var d := Step(m, f, c);
    if c.place.At? && c.place.block < |f| {
      var i := c.place.block;
      assert ThreadsAt(f, g, i);
      var truth := (id: nat) => m.test(id, Executed(m, f[i].Body(), c.state));
      var q := Transfer(g, i, truth);
      assert Skips(f, Transfer(f, i, truth), q);
      assert d.place == Transfer(f, i, truth);
      var n: nat :| Leads(f, d.place, q, n);
      RunLeads(m, f, d, q, n);
      k := n + 1;
    } else {
      assert Run(m, f, c, 1) == Run(m, f, d, 0);
      k := 1;
    }
  }

  /** Whatever the rewritten function has done after `n` blocks, the old one does after `k`
      blocks with `k >= n`: same instructions, same state, same place. */
  lemma {:induction false} Simulates<S>(m: Machine<S>, f: Function, g: Function, c: Config<S>, n: nat) returns (k: nat)
    requires Threads(f, g)
    ensures k >= n && Run(m, f, c, k) == Run(m, g, c, n)
    decreases n
  {
    if n == 0 {
      k := 0;
    } else {
      var a := StepSimulates(m, f, g, c);
      var b := Simulates(m, f, g, Step(m, g, c), n - 1);
      RunMore(m, f, c, a, b);
      k := a + b;
    }
  }

  lemma {:induction false} RunStopped<S>(m: Machine<S>, f: Function, c: Config<S>, n: nat)
    requires Stopped(f, c)
    ensures Run(m, f, c, n) == c
  {
    if n > 0 { RunStopped(m, f, c, n - 1); }
  }

  lemma {:induction false} TraceGrows<S>(m: Machine<S>, f: Function, c: Config<S>, n: nat)
    ensures c.trace <= Run(m, f, c, n).trace
    decreases n
  {
    if n > 0 { TraceGrows(m, f, Step(m, f, c), n - 1); }
  }

  ghost predicate Stopped<S>(f: Function, c: Config<S>) {
    !(c.place.At? && c.place.block < |f|)
  }

  ghost predicate Reaches<S(!new)>(m: Machine<S>, f: Function, c: Config<S>, d: Config<S>) {
    exists k: nat :: Run(m, f, c, k) == d
  }

  /** If the old function stops, the new one stops no later, in the same way, after the same
      instructions; all that the new one does the old one does; and the new one is never
      behind. So either both stop alike or both run for ever on the same instructions. */
  lemma {:induction false} SameBehaviour<S(!new)>(m: Machine<S>, f: Function, g: Function, c: Config<S>, n: nat)
    requires Threads(f, g)
    ensures Stopped(f, Run(m, f, c, n)) ==> Run(m, g, c, n) == Run(m, f, c, n)
    ensures Reaches(m, f, c, Run(m, g, c, n))
    ensures Run(m, f, c, n).trace <= Run(m, g, c, n).trace
  {
    var k := Simulates(m, f, g, c, n);
    var d := Run(m, f, c, n);
    RunMore(m, f, c, n, k - n);
    TraceGrows(m, f, d, k - n);
    if Stopped(f, d) {
      RunStopped(m, f, d, k - n);
    }
  }

  // ---- the pass ----

  /** A branch that is always taken can be copied to where it leads from. */
  function CloneBranch(op: Op): Op
    requires op.Exit? || (op.Bra? && op.cond == True)
  {
    op
  }

  /** Every replacement is an exit or an unconditional branch. */
  ghost predicate Unconditional(reps: map<Label, Op>) {
    forall l :: l in reps ==> reps[l].Exit? || (reps[l].Bra? && reps[l].cond == True)
  }

  /** A branch to the label of block `j` may be replaced by `op`. */
  ghost predicate Replaces(f: Function, j: nat, op: Op) {
    (op.Exit? || (op.Bra? && op.cond == True)) && Skips(f, At(j), Destination(f, op))
  }

  /** Every replacement is for a block. */
  ghost predicate ReplacementsOk(f: Function, reps: map<Label, Op>) {
    forall l :: l in reps ==> exists j: nat :: j < |f| && f[j].name == l && Replaces(f, j, reps[l])
  }

  lemma {:induction false} ResolveIs(f: Function, i: nat, n: nat)
    requires FunctionOk(f) && i < n <= |f|
    ensures Resolve(f, f[i].name, n) == At(i)
  {
    if i < n - 1 {
      ResolveIs(f, i, n - 1);
    }
  }

  lemma {:induction false} SameNames(f: Function, g: Function, l: Label, n: nat)
    requires |f| == |g| && n <= |f| && forall i :: 0 <= i < |f| ==> g[i].name == f[i].name
    ensures Resolve(g, l, n) == Resolve(f, l, n)
  {
    if n > 0 {
      SameNames(f, g, l, n - 1);
    }
  }

  /** The last instruction of a block, redirected if its target can be. */
  function Redirected(b: Block, reps: map<Label, Op>): (r: (Block, bool))
    requires Unconditional(reps)
  {
    if b.instrs == [] then (b, false)
    else
      var last := |b.instrs| - 1;
      var i := b.instrs[last];
      if i.op.Bra? && i.op.target in reps then
        var rep := reps[i.op.target];
        if i.op.cond == True then (b.(instrs := b.instrs[last := i.(op := CloneBranch(rep))]), true)
        else if rep.Bra? then (b.(instrs := b.instrs[last := i.(op := i.op.(target := rep.target))]), true)
        else (b, false)
      else (b, false)
  }

  lemma {:induction false} RedirectedShape(b: Block, reps: map<Label, Op>)
    requires Unconditional(reps)
    ensures var b' := Redirected(b, reps).0;
      b'.name == b.name && b'.Body() == b.Body() && |b'.instrs| == |b.instrs| &&
        (b'.Branch().Some? <==> b.Branch().Some?)
      && (b.Branch().Some? ==> b'.Branch().value.pred == b.Branch().value.pred)
  {
  }

  /** Redirecting a block only skips silent blocks. */
  lemma {:induction false} RedirectedThreads(f: Function, i: nat, reps: map<Label, Op>, truth: nat -> bool)
    requires FunctionOk(f) && i < |f| && ReplacementsOk(f, reps)
    ensures Unconditional(reps)
    ensures Skips(f, Transfer(f, i, truth), Transfer(f[i := Redirected(f[i], reps).0], i, truth))
  {
    var b := f[i];
    var (b', changed) := Redirected(b, reps);
    var g := f[i := b'];
    RedirectedShape(b, reps);
    forall l: Label ensures Resolve(g, l, |g|) == Resolve(f, l, |f|) {
      SameNames(f, g, l, |f|);
    }
    if changed {
      var t := b.Branch().value.op.target;
      var j: nat :| j < |f| && f[j].name == t && Replaces(f, j, reps[t]);
      ResolveIs(f, j, |f|);
      assert Destination(f, b.Branch().value.op) == At(j);
      assert Destination(g, b'.Branch().value.op) == Destination(f, reps[t]);
      SkipsRefl(f, Following(f, i));
    } else {
      assert g == f;
      SkipsRefl(f, Transfer(f, i, truth));
    }
  }

  ghost predicate SameShape(f: Function, g: Function) {
    |f| == |g| && forall i :: 0 <= i < |f| ==> g[i].name == f[i].name
  }

  lemma {:induction false} TransferLocal(f: Function, g: Function, i: nat, truth: nat -> bool)
    requires SameShape(f, g) && i < |f| && f[i] == g[i]
    ensures Transfer(f, i, truth) == Transfer(g, i, truth)
  {
    if f[i].Branch().Some? && f[i].Branch().value.op.Bra? {
      SameNames(f, g, f[i].Branch().value.op.target, |f|);
    }
  }

  lemma {:induction false} ThreadsAtLocal(f: Function, g: Function, g': Function, i: nat)
    requires SameShape(f, g) && SameShape(f, g') && i < |f| && g[i] == g'[i] && ThreadsAt(f, g, i)
    ensures ThreadsAt(f, g', i)
  {
    forall truth: nat -> bool ensures Skips(f, Transfer(f, i, truth), Transfer(g', i, truth)) {
      TransferLocal(g, g', i, truth);
      assert Skips(f, Transfer(f, i, truth), Transfer(g, i, truth));
    }
  }

  /** The blocks from `i` on have been redirected. */
  ghost predicate Progress(f: Function, g: Function, i: nat, reps: map<Label, Op>) {
    && SameShape(f, g) && i <= |f| && ReplacementsOk(f, reps)
    && (forall k :: 0 <= k < i ==> g[k] == f[k])
    && (forall k: nat {:trigger ThreadsAt(f, g, k)} :: i <= k < |f| ==> ThreadsAt(f, g, k))
  }

  lemma {:induction false} ProgressStep(f: Function, g: Function, i: nat, reps: map<Label, Op>)
    requires FunctionOk(f) && i < |f| && Progress(f, g, i + 1, reps)
    ensures Unconditional(reps)
    ensures Progress(f, g[i := Redirected(g[i], reps).0], i, reps)
  {
    var g' := g[i := Redirected(g[i], reps).0];
    RedirectedShape(f[i], reps);
    forall truth: nat -> bool ensures Skips(f, Transfer(f, i, truth), Transfer(g', i, truth)) {
      RedirectedThreads(f, i, reps, truth);
      TransferLocal(f[i := g'[i]], g', i, truth);
    }
    forall k: nat | i < k < |f| ensures ThreadsAt(f, g', k) {
      ThreadsAtLocal(f, g, g', k);
    }
  }

  /** What a branch to block `b`, followed by a block named `next`, may be replaced by. */
  function Shortcut(b: Block, next: Option<Label>, reps: map<Label, Op>): Option<Op>
    requires Unconditional(reps)
  {
    if |b.instrs| == 1 && b.instrs[0].IsBranchAlwaysTaken() then Some(CloneBranch(b.instrs[0].op))
    else if b.instrs == [] && next.Some? then
      Some(if next.value in reps then CloneBranch(reps[next.value]) else Bra(True, next.value))
    else None
  }

  function NextName(f: Function, i: nat): Option<Label> {
    if i + 1 < |f| then Some(f[i + 1].name) else None
  }

  lemma {:induction false} SameNext(f: Function, g: Function, i: nat)
    requires SameShape(f, g)
    ensures NextName(g, i) == NextName(f, i)
  {
  }

  lemma {:induction false} TrivialShortcut(f: Function, g: Function, i: nat, reps: map<Label, Op>)
    requires FunctionOk(f) && i < |f| && Progress(f, g, i, reps)
    requires g[i].instrs != [] && |g[i].instrs| == 1 && g[i].instrs[0].IsBranchAlwaysTaken()
    requires f[i].Branch().Some? && f[i].Branch().value.IsBranchAlwaysTaken()
    ensures Replaces(f, i, g[i].instrs[0].op)
  {
    var op := g[i].instrs[0].op;
    assert ThreadsAt(f, g, i) && g[i].Body() == [];
    var dest := Destination(f, f[i].Branch().value.op);
    forall truth: nat -> bool ensures Transfer(f, i, truth) == dest {}
    assert Silent(f, i, dest);
    var truth := (c: nat) => true;
    assert Transfer(g, i, truth) == Destination(g, op);
    if op.Bra? { SameNames(f, g, op.target, |f|); }
    assert Skips(f, Transfer(f, i, truth), Transfer(g, i, truth));
    SkipsSilent(f, i, dest, Destination(f, op));
  }

  lemma {:induction false} EmptyShortcut(f: Function, i: nat, reps: map<Label, Op>)
    requires FunctionOk(f) && i + 1 < |f| && f[i].instrs == [] && ReplacementsOk(f, reps)
    ensures var l := f[i + 1].name; Replaces(f, i, if l in reps then reps[l] else Bra(True, l))
  {
    var l := f[i + 1].name;
    forall truth: nat -> bool ensures Transfer(f, i, truth) == At(i + 1) {}
    assert Silent(f, i, At(i + 1));
    if l in reps {
      var j: nat :| j < |f| && f[j].name == l && Replaces(f, j, reps[l]);
      assert j == i + 1;
      SkipsSilent(f, i, At(i + 1), Destination(f, reps[l]));
    } else {
      ResolveIs(f, i + 1, |f|);
      SkipsRefl(f, At(i + 1));
      SkipsSilent(f, i, At(i + 1), At(i + 1));
    }
  }

  lemma {:induction false} ShortcutOk(f: Function, g: Function, i: nat, reps: map<Label, Op>)
    requires FunctionOk(f) && i < |f| && Progress(f, g, i, reps)
    requires Unconditional(reps)
    requires g[i] == Redirected(f[i], reps).0
    ensures var s := Shortcut(g[i], NextName(g, i), reps);
      s.Some? ==> Progress(f, g, i, reps[g[i].name := s.value])
  {
    var s := Shortcut(g[i], NextName(g, i), reps);
    if s.Some? {
      RedirectedShape(f[i], reps);
      if |g[i].instrs| == 1 && g[i].instrs[0].IsBranchAlwaysTaken() {
        TrivialShortcut(f, g, i, reps);
      } else {
        EmptyShortcut(f, i, reps);
      }
      var reps' := reps[g[i].name := s.value];
      forall l | l in reps' ensures exists j: nat :: j < |f| && f[j].name == l && Replaces(f, j, reps'[l]) {
        if l == g[i].name {
          assert f[i].name == l && Replaces(f, i, reps'[l]);
        }
      }
    }
  }

  // ---- edges ----

  /** Under some truth of the conditions block `i` passes control to block `j`. */
  ghost predicate CanGo(f: Function, i: nat, j: nat)
    requires i < |f|
  {
    exists truth: nat -> bool :: Transfer(f, i, truth) == At(j)
  }

  /** Under some truth of the conditions control passes to the next block. */
  ghost predicate CanFall(f: Function, i: nat)
    requires i < |f|
  {
    exists truth: nat -> bool :: Transfer(f, i, truth) == Following(f, i)
  }

  ghost predicate StartsWith(s: seq<nat>, x: nat) {
    s != [] && s[0] == x
  }

  /** The edges are the possible transfers, that to the next block first. */
  ghost predicate EdgesMatch(f: Function, g: Cfg) {
    && g.len == |f| && g.Mirrored()
    && (forall i: nat, j: nat :: i < |f| && j < |f| ==> (g.Edge(i, j) <==> CanGo(f, i, j)))
    && (forall i: nat :: i < |f| && CanFall(f, i) ==> StartsWith(g.Successors(i), i + 1))
  }

  /** The edges that leave block `i`: fall-through first. */
  function EdgesOf(f: Function, i: nat): seq<(nat, nat)>
    requires i < |f|
  {
    (if f[i].FallsThrough() then [(i, i + 1)] else []) +
    match f[i].Branch()
    case Some(b) => if b.op.Bra? && Resolve(f, b.op.target, |f|).At? then [(i, Resolve(f, b.op.target, |f|).block)]
      else []
    case None => []
  }

  lemma {:induction false} EdgesOfIs(f: Function, i: nat, j: nat)
    requires i < |f| && j < |f|
    ensures (i, j) in EdgesOf(f, i) <==> CanGo(f, i, j)
  {
    var yes, no := (c: nat) => true, (c: nat) => false;
    match f[i].Branch()
    case Some(b) =>
      assert Transfer(f, i, yes) == Destination(f, b.op);
      if f[i].FallsThrough() {
        assert Transfer(f, i, no) == Following(f, i);
      }
      var es := EdgesOf(f, i);
      if (i, j) in es {
        if f[i].FallsThrough() && j == i + 1 {
          assert CanGo(f, i, j);
        }
      }
      if truth: nat -> bool :| Transfer(f, i, truth) == At(j) {
        if Taken(b, truth) {
          assert (i, j) == es[|es| - 1];
        } else {
          assert f[i].FallsThrough() && es[0] == (i, j);
        }
      }
    case None =>
      assert Transfer(f, i, yes) == Following(f, i);
      assert EdgesOf(f, i) == [(i, i + 1)];
      assert (i, i + 1) in EdgesOf(f, i);
  }

  /** Where the edges from `a` lead, in order. */
  ghost function Heads(edges: seq<(nat, nat)>, a: nat): seq<nat> {
    if edges == [] then []
    else
      var (from, to) := edges[|edges| - 1];
      Heads(edges[..|edges| - 1], a) + if from == a then [to] else []
  }

  lemma {:induction false} HeadsAre(edges: seq<(nat, nat)>, a: nat, b: nat)
    ensures b in Heads(edges, a) <==> (a, b) in edges
  {
    if edges != [] {
      var init, last := edges[..|edges| - 1], edges[|edges| - 1];
      HeadsAre(init, a, b);
      assert edges == init + [last];
      assert (a, b) in edges <==> (a, b) in init || (a, b) == last;
    }
  }

  lemma {:induction false} HeadsConcat(edges: seq<(nat, nat)>, more: seq<(nat, nat)>, a: nat)
    ensures Heads(edges + more, a) == Heads(edges, a) + Heads(more, a)
  {
    if more == [] {
      assert edges + more == edges;
    } else {
      HeadsConcat(edges, more[..|more| - 1], a);
      assert (edges + more)[..|edges + more| - 1] == edges + more[..|more| - 1];
    }
  }

  lemma {:induction false} HeadsOfOthers(edges: seq<(nat, nat)>, a: nat)
    requires forall k :: 0 <= k < |edges| ==> edges[k].0 != a
    ensures Heads(edges, a) == []
  {
    if edges != [] { HeadsOfOthers(edges[..|edges| - 1], a); }
  }

  lemma {:induction false} EdgesAdded(f: Function, edges: seq<(nat, nat)>, i: nat)
    requires i < |f| && forall a: nat :: Heads(edges, a) == if a < i then Heads(EdgesOf(f, a), a) else []
    ensures forall a: nat :: Heads(edges + EdgesOf(f, i), a) == if a < i + 1 then Heads(EdgesOf(f, a), a) else []
  {
    forall a: nat
      ensures Heads(edges + EdgesOf(f, i), a) == if a < i + 1 then Heads(EdgesOf(f, a), a) else []
    {
      HeadsConcat(edges, EdgesOf(f, i), a);
      if a != i { HeadsOfOthers(EdgesOf(f, i), a); }
    }
  }

  lemma {:induction false} EdgeMirrored(g: Cfg, from: nat, to: nat)
    requires g.Mirrored()
    ensures g.(succs := g.succs[from := g.Successors(from) + [to]],
               preds := g.preds[to := g.Predecessors(to) + [from]]).Mirrored()
  {
    var g' := g.(succs := g.succs[from := g.Successors(from) + [to]],
                 preds := g.preds[to := g.Predecessors(to) + [from]]);
    forall a: nat, b: nat ensures b in g'.Successors(a) <==> a in g'.Predecessors(b) {
      assert b in g'.Successors(a) <==> b in g.Successors(a) || (a == from && b == to);
      assert a in g'.Predecessors(b) <==> a in g.Predecessors(b) || (a == from && b == to);
    }
  }

  /** The graph with the given edges, in order. */
  method Build(n: nat, edges: seq<(nat, nat)>) returns (g: Cfg)
    ensures g.len == n && g.Mirrored() && forall a: nat :: g.Successors(a) == Heads(edges, a)
  {
    g := Cfg(n, map[], map[]);
    for k := 0 to |edges|
      invariant g.len == n && g.Mirrored()
      invariant forall a: nat :: g.Successors(a) == Heads(edges[..k], a)
    {
      var (from, to) := edges[k];
      assert edges[..k + 1][..k] == edges[..k];
      EdgeMirrored(g, from, to);
      g := g.(succs := g.succs[from := g.Successors(from) + [to]], preds := g.preds[to := g.Predecessors(to) + [from]]);
    }
    assert edges[..|edges|] == edges;
  }

  /** The edges of one block, as the graph has them. */
  lemma {:induction false} BlockEdges(f: Function, g: Cfg, i: nat)
    requires i < |f| && g.Successors(i) == Heads(EdgesOf(f, i), i)
    ensures forall j: nat :: j < |f| ==> (j in g.Successors(i) <==> CanGo(f, i, j))
    ensures CanFall(f, i) ==> StartsWith(g.Successors(i), i + 1)
  {
    forall j: nat | j < |f| ensures j in g.Successors(i) <==> CanGo(f, i, j) {
      HeadsAre(EdgesOf(f, i), i, j);
      EdgesOfIs(f, i, j);
    }
    if CanFall(f, i) { FallEdge(f, i); }
  }

  lemma {:induction false} ResolveNames(f: Function, l: Label, n: nat)
    requires n <= |f|
    ensures Resolve(f, l, n).At? || Resolve(f, l, n) == Unknown(l)
  {
    if n > 0 { ResolveNames(f, l, n - 1); }
  }

  lemma {:induction false} FallEdge(f: Function, i: nat)
    requires i < |f| && CanFall(f, i)
    ensures StartsWith(Heads(EdgesOf(f, i), i), i + 1)
  {
    var es := EdgesOf(f, i);
    var truth: nat -> bool :| Transfer(f, i, truth) == Following(f, i);
    if !f[i].FallsThrough() {
      var b := f[i].Branch().value;
      assert Taken(b, truth) && Destination(f, b.op) == Following(f, i);
      if b.op.Bra? { ResolveNames(f, b.op.target, |f|); }
    }
    assert es != [] && es[0] == (i, i + 1);
    assert es == [es[0]] + es[1..];
    HeadsConcat([es[0]], es[1..], i);
    assert Heads([es[0]], i) == Heads([], i) + [i + 1];
  }

  // ---- fall-through ----

  /** Block `i` without its branch if that leads to the next block anyway. */
  function Dropped(f: Function, i: nat): Block
    requires i + 1 < |f|
  {
    match f[i].Branch()
    case Some(b) => if b.op.Bra? && b.op.target == f[i + 1].name then f[i].(instrs := f[i].instrs[..|f[i].instrs| - 1])
      else f[i]
    case None => f[i]
  }

  /** The block ends in a branch to the label. */
  ghost predicate BranchesTo(b: Block, l: Label) {
    b.instrs != [] && b.instrs[|b.instrs| - 1].op.Bra? && b.instrs[|b.instrs| - 1].op.target == l
  }

  /** Up to block `n`, the branches that lead to the next block anyway are gone, and nothing else is. */
  ghost predicate FellThrough(f: Function, g: Function, n: nat) {
    |g| == |f| && forall i: nat :: i < |f| ==> FallsOrStays(f, i, n, g[i])
  }

  ghost predicate FallsOrStays(f: Function, i: nat, n: nat, b: Block)
    requires i < |f|
  {
    if i < n && i + 1 < |f| && BranchesTo(f[i], f[i + 1].name)
    then b == f[i].(instrs := f[i].instrs[..|f[i].instrs| - 1])
    else b == f[i]
  }

  /** Same blocks, same bodies, same transfers. */
  ghost predicate SameTransfers(f: Function, g: Function) {
    && SameShape(f, g)
    && (forall i :: 0 <= i < |f| ==> g[i].Body() == f[i].Body())
    && (forall i: nat, truth: nat -> bool :: i < |f| ==> Transfer(g, i, truth) == Transfer(f, i, truth))
  }

  lemma {:induction false} DroppedSame(f: Function, i: nat)
    requires FunctionOk(f) && i + 1 < |f|
    ensures SameTransfers(f, f[i := Dropped(f, i)]) && FunctionOk(f[i := Dropped(f, i)])
  {
    var b := Dropped(f, i);
    var g := f[i := b];
    assert b.Body() == f[i].Body() by {
      if b != f[i] {
        assert b.instrs == f[i].Body();
        if b.instrs != [] { assert f[i].Body()[|b.instrs| - 1].op.Plain?; }
      }
    }
    forall k: nat, truth: nat -> bool | k < |f| ensures Transfer(g, k, truth) == Transfer(f, k, truth) {
      if k != i || b == f[i] {
        TransferLocal(f, g, k, truth);
      } else {
        ResolveIs(f, i + 1, |f|);
        if b.instrs != [] { assert f[i].Body()[|b.instrs| - 1].op.Plain?; }
        assert b.Branch() == None;
      }
    }
  }

  lemma {:induction false} SameTransfersTrans(f: Function, g: Function, h: Function)
    requires SameTransfers(f, g) && SameTransfers(g, h)
    ensures SameTransfers(f, h)
  {
  }

  lemma {:induction false} ThenSameTransfers(f: Function, g: Function, h: Function)
    requires Threads(f, g) && SameTransfers(g, h)
    ensures Threads(f, h)
  {
    forall i: nat | i < |f| ensures ThreadsAt(f, h, i) {
      assert ThreadsAt(f, g, i);
      forall truth: nat -> bool ensures Skips(f, Transfer(f, i, truth), Transfer(h, i, truth)) {
        assert Skips(f, Transfer(f, i, truth), Transfer(g, i, truth));
        assert Transfer(h, i, truth) == Transfer(g, i, truth);
      }
    }
  }

  lemma {:induction false} EdgesStillMatch(g: Function, h: Function, cfg: Cfg)
    requires EdgesMatch(g, cfg) && SameTransfers(g, h)
    ensures EdgesMatch(h, cfg)
  {
  }

  lemma {:induction false} ThreadsRefl(f: Function)
    ensures Threads(f, f)
  {
    forall i: nat, truth: nat -> bool | i < |f| ensures Skips(f, Transfer(f, i, truth), Transfer(f, i, truth)) {
      SkipsRefl(f, Transfer(f, i, truth));
    }
  }

  lemma {:induction false} ThreadsOk(f: Function, g: Function)
    requires FunctionOk(f) && Threads(f, g)
    ensures FunctionOk(g)
  {
    forall i | 0 <= i < |f| ensures g[i].name == f[i].name && g[i].Body() == f[i].Body() {
      assert ThreadsAt(f, g, i);
    }
  }

  // ---- which branches are redirected, and where to ----

  /** The block is a branch that is always taken and nothing else, or nothing at all before another
      block. */
  ghost predicate Trivial(f: Function, j: nat) {
    j < |f| && ((|f[j].instrs| == 1 && f[j].instrs[0].IsBranchAlwaysTaken()) || (f[j].instrs == [] && j + 1 < |f|))
  }

  /** The branch that a trivial block amounts to. */
  ghost function Jump(f: Function, j: nat): (op: Op)
    requires Trivial(f, j)
    ensures op.Exit? || (op.Bra? && op.cond == True)
  {
    if f[j].instrs == [] then Bra(True, f[j + 1].name) else f[j].instrs[0].op
  }

  /** Label `l` is of trivial block `k`, which is after block `i`. */
  ghost predicate Ahead(f: Function, i: nat, l: Label, k: nat) {
    i < k < |f| && f[k].name == l && Trivial(f, k)
  }

  /** Trivial block `j` leads to trivial block `k` further on. */
  ghost predicate Climbs(f: Function, j: nat, k: nat) {
    Trivial(f, j) && Jump(f, j).Bra? && Ahead(f, j, Jump(f, j).target, k)
  }

  /** The branch that ends the climb from a trivial block through trivial blocks further on. */
  ghost function Onward(f: Function, j: nat): (op: Op)
    requires Trivial(f, j)
    ensures op.Exit? || (op.Bra? && op.cond == True)
    decreases |f| - j
  {
    if k: nat :| Climbs(f, j, k) then Onward(f, k) else Jump(f, j)
  }

  /** Block `i` ends in a branch to trivial block `k` further on. */
  ghost predicate LeadsAhead(f: Function, i: nat, k: nat) {
    i < |f| && f[i].instrs != [] && var op := f[i].instrs[|f[i].instrs| - 1].op;
      op.Bra? && Ahead(f, i, op.target, k)
  }

  /** And that can be replaced: only an unconditional branch can become an exit. */
  ghost predicate Redirects(f: Function, i: nat, k: nat) {
    LeadsAhead(f, i, k) && (f[i].instrs[|f[i].instrs| - 1].op.cond == True || Onward(f, k).Bra?)
  }

  /** Block `b` is block `i` with its branch taken past the trivial blocks further on. */
  ghost predicate IsRedirected(f: Function, i: nat, b: Block)
    requires i < |f|
  {
    && ((exists k: nat :: Redirects(f, i, k)) || b == f[i])
    && forall k: nat :: Redirects(f, i, k) ==>
         var n, rest := |f[i].instrs| - 1, Onward(f, k);
         && b.name == f[i].name && |b.instrs| == n + 1 && b.instrs[..n] == f[i].instrs[..n]
         && b.instrs[n].pred == f[i].instrs[n].pred
         && b.instrs[n].op == if f[i].instrs[n].op.cond == True then rest
            else Bra(f[i].instrs[n].op.cond, rest.target)
  }

  ghost predicate RedirectedFrom(f: Function, g: Function, i: nat) {
    |g| == |f| && forall j: nat {:trigger IsRedirected(f, j, g[j])} :: i <= j < |f| ==> IsRedirected(f, j, g[j])
  }

  /** Some branch of the blocks from `i` on can be replaced. */
  ghost predicate ThreadableFrom(f: Function, i: nat) {
    exists j: nat, k: nat :: i <= j && Redirects(f, j, k)
  }

  /** The replacements are those of the trivial blocks from `i` on. */
  ghost predicate Replacements(f: Function, i: nat, reps: map<Label, Op>) {
    && (forall j: nat {:trigger Trivial(f, j)} :: i <= j && Trivial(f, j) ==>
          f[j].name in reps && reps[f[j].name] == Onward(f, j))
    && (forall l :: l in reps ==> exists j: nat :: i <= j && Trivial(f, j) && f[j].name == l)
  }

  lemma {:induction false} OneName(f: Function, i: nat, j: nat)
    requires FunctionOk(f) && i < |f| && j < |f| && f[i].name == f[j].name
    ensures i == j
  {
  }

  lemma {:induction false} OnwardClimbs(f: Function, j: nat, k: nat)
    requires FunctionOk(f) && Climbs(f, j, k)
    ensures Onward(f, j) == Onward(f, k)
  {
    forall m: nat | Climbs(f, j, m) ensures m == k {
      OneName(f, m, k);
    }
  }

  lemma {:induction false} OnlyJumps(f: Function, i: nat, reps: map<Label, Op>)
    requires Replacements(f, i, reps)
    ensures Unconditional(reps)
  {
    forall l | l in reps ensures reps[l].Exit? || (reps[l].Bra? && reps[l].cond == True) {
      var j: nat :| i <= j && Trivial(f, j) && f[j].name == l;
    }
  }

  /** A branch to a trivial block further on is redirected as it should be. */
  lemma {:induction false} RedirectedTo(f: Function, i: nat, reps: map<Label, Op>, j: nat)
    requires FunctionOk(f) && LeadsAhead(f, i, j) && Unconditional(reps)
    requires f[j].name in reps && reps[f[j].name] == Onward(f, j)
    ensures IsRedirected(f, i, Redirected(f[i], reps).0)
    ensures Redirected(f[i], reps).1 <==> Redirects(f, i, j)
  {
    forall k: nat | Redirects(f, i, k) ensures k == j {
      OneName(f, k, j);
    }
    var b := Redirected(f[i], reps).0;
    assert b == f[i] || Redirects(f, i, j);
  }

  /** With the replacements of the later blocks, a block is redirected as it should be. */
  lemma {:induction false} RedirectedIs(f: Function, i: nat, reps: map<Label, Op>)
    requires FunctionOk(f) && i < |f| && Replacements(f, i + 1, reps) && Unconditional(reps)
    ensures IsRedirected(f, i, Redirected(f[i], reps).0)
    ensures Redirected(f[i], reps).1 <==> exists k: nat :: Redirects(f, i, k)
  {
    if TargetIn(f, i, reps) {
      var k := TargetOf(f, i, reps);
      RedirectedTo(f, i, reps, k);
      forall m: nat | Redirects(f, i, m) ensures m == k {
        OneName(f, m, k);
      }
    } else {
      forall k: nat ensures !Redirects(f, i, k) {
        if LeadsAhead(f, i, k) { TargetRecorded(f, i, reps, k); }
      }
    }
  }

  /** The block ends in a branch with a replacement. */
  ghost predicate TargetIn(f: Function, i: nat, reps: map<Label, Op>)
    requires i < |f|
  {
    f[i].instrs != [] && var op := f[i].instrs[|f[i].instrs| - 1].op; op.Bra? && op.target in reps
  }

  lemma {:induction false} TargetOf(f: Function, i: nat, reps: map<Label, Op>) returns (k: nat)
    requires i < |f| && Replacements(f, i + 1, reps) && TargetIn(f, i, reps)
    ensures LeadsAhead(f, i, k) && f[k].name in reps && reps[f[k].name] == Onward(f, k)
  {
    var l := f[i].instrs[|f[i].instrs| - 1].op.target;
    k :| i + 1 <= k && Trivial(f, k) && f[k].name == l;
  }

  lemma {:induction false} TargetRecorded(f: Function, i: nat, reps: map<Label, Op>, k: nat)
    requires Replacements(f, i + 1, reps) && LeadsAhead(f, i, k)
    ensures TargetIn(f, i, reps)
  {
    assert Trivial(f, k);
  }

  /** A block has a replacement exactly if it is trivial. */
  lemma {:induction false} ShortcutOf(f: Function, i: nat, reps: map<Label, Op>)
    requires i < |f| && Unconditional(reps)
    ensures var s := Shortcut(Redirected(f[i], reps).0, NextName(f, i), reps);
      (s.Some? <==> Trivial(f, i)) && (Trivial(f, i) ==> var op := Jump(f, i);
      s == Some(if op.Bra? && op.target in reps then reps[op.target] else op))
  {
  }

  /** The replacement recorded for a trivial block is where it climbs to. */
  lemma {:induction false} ShortcutIs(f: Function, i: nat, reps: map<Label, Op>)
    requires FunctionOk(f) && i < |f| && Replacements(f, i + 1, reps) && Unconditional(reps)
    ensures var s := Shortcut(Redirected(f[i], reps).0, NextName(f, i), reps);
      (s.Some? <==> Trivial(f, i)) && (Trivial(f, i) ==> s == Some(Onward(f, i)))
  {
    ShortcutOf(f, i, reps);
    if Trivial(f, i) {
      OnwardRecorded(f, i, reps);
    }
  }

  lemma {:induction false} OnwardRecorded(f: Function, i: nat, reps: map<Label, Op>)
    requires FunctionOk(f) && Trivial(f, i) && Replacements(f, i + 1, reps)
    ensures var op := Jump(f, i);
      Onward(f, i) == if op.Bra? && op.target in reps then reps[op.target] else op
  {
    var op := Jump(f, i);
    if k: nat :| Climbs(f, i, k) {
      OnwardClimbs(f, i, k);
    } else if op.Bra? && op.target in reps {
      var j: nat :| i + 1 <= j && Trivial(f, j) && f[j].name == op.target;
      assert Climbs(f, i, j);
    }
  }

  ghost predicate Redirecting(f: Function, g: Function, i: nat, reps: map<Label, Op>, progress: bool) {
    Replacements(f, i, reps) && RedirectedFrom(f, g, i) && (progress <==> ThreadableFrom(f, i))
  }

  lemma {:induction false} RedirectingStep(f: Function, g: Function, i: nat, reps: map<Label, Op>, progress: bool)
    requires FunctionOk(f) && i < |f| && Redirecting(f, g, i + 1, reps, progress) && g[i] == f[i]
    ensures Unconditional(reps)
    ensures var (b, changed) := Redirected(g[i], reps);
      && RedirectedFrom(f, g[i := b], i) && (progress || changed <==> ThreadableFrom(f, i))
      && var s := Shortcut(b, NextName(f, i), reps);
         Replacements(f, i, if s.Some? then reps[b.name := s.value] else reps)
  {
    OnlyJumps(f, i + 1, reps);
    RedirectedIs(f, i, reps);
    ShortcutIs(f, i, reps);
    RedirectedShape(f[i], reps);
    ReplacementsStep(f, i, reps);
    if k: nat :| Redirects(f, i, k) {
      assert ThreadableFrom(f, i);
    }
  }

  /** The blocks from `i` on are done. */
  ghost predicate Redone(f: Function, g: Function, i: nat, reps: map<Label, Op>, progress: bool) {
    Progress(f, g, i, reps) && Redirecting(f, g, i, reps, progress) && (!progress ==> g == f)
  }

  lemma {:induction false} RedoneNone(f: Function)
    ensures Redone(f, f, |f|, map[], false)
  {
  }

  lemma {:induction false} RedoneAll(f: Function, g: Function, reps: map<Label, Op>, progress: bool)
    requires Redone(f, g, 0, reps, progress)
    ensures Threads(f, g) && RedirectedFrom(f, g, 0) && (progress <==> ThreadableFrom(f, 0))
    ensures if progress then |g| > 0 else g == f
  {
  }

  /** One turn of the loop over the blocks. */
  lemma {:induction false} BlockStep(f: Function, g: Function, i: nat, reps: map<Label, Op>, progress: bool)
    requires FunctionOk(f) && i < |f| && Redone(f, g, i + 1, reps, progress)
    ensures Unconditional(reps)
    ensures var (b, changed) := Redirected(g[i], reps);
      var g' := g[i := b];
      var s := Shortcut(b, NextName(g', i), reps);
      Redone(f, g', i, if s.Some? then reps[b.name := s.value] else reps, progress || changed)
  {
    ProgressStep(f, g, i, reps);
    RedirectingStep(f, g, i, reps, progress);
    var g' := g[i := Redirected(g[i], reps).0];
    ShortcutOk(f, g', i, reps);
    SameNext(f, g', i);
  }

  lemma {:induction false} ReplacementsStep(f: Function, i: nat, reps: map<Label, Op>)
    requires FunctionOk(f) && i < |f| && Replacements(f, i + 1, reps)
    ensures Replacements(f, i, if Trivial(f, i) then reps[f[i].name := Onward(f, i)] else reps)
  {
    var reps' := if Trivial(f, i) then reps[f[i].name := Onward(f, i)] else reps;
    forall j: nat | i <= j && Trivial(f, j) ensures f[j].name in reps' && reps'[f[j].name] == Onward(f, j) {
      if j > i && f[j].name == f[i].name { OneName(f, i, j); }
    }
    forall l | l in reps' ensures exists j: nat :: i <= j && Trivial(f, j) && f[j].name == l {
      if l in reps {
        var j: nat :| i + 1 <= j && Trivial(f, j) && f[j].name == l;
      } else {
        assert f[i].name == l;
      }
    }
  }

  /** Every branch that can be replaced is, and no branch to the next block is left. */
  ghost predicate Threaded(f: Function, h: Function) {
    && (exists g :: RedirectedFrom(f, g, 0) && FellThrough(g, h, |h|))
    && forall i :: 0 <= i < |h| - 1 ==> !BranchesTo(h[i], h[i + 1].name)
  }

  // ---- the function being optimised ----

  class Func {
    var blocks: Function
    var cfg: Cfg

    constructor (blocks: Function, cfg: Cfg)
      ensures this.blocks == blocks && this.cfg == cfg
    {
      this.blocks, this.cfg := blocks, cfg;
    }

    /** Redirects the branch of one block and records what branches to it may become. */
    method RedirectBlock(i: nat, reps: map<Label, Op>, progress: bool, ghost f: Function)
      returns (reps': map<Label, Op>, progress': bool)
      requires FunctionOk(f) && i < |f| && Redone(f, blocks, i + 1, reps, progress)
      modifies this`blocks
      ensures Redone(f, blocks, i, reps', progress')
    {
      BlockStep(f, blocks, i, reps, progress);
      var (b, changed) := Redirected(blocks[i], reps);
      blocks := blocks[i := b];
      progress' := progress || changed;
      var shortcut := Shortcut(b, NextName(blocks, i), reps);
      reps' := if shortcut.Some? then reps[b.name := shortcut.value] else reps;
    }

    /** Redirects the branches, from the last block on. */
    method RedirectBranches() returns (progress: bool)
      requires FunctionOk(blocks)
      modifies this`blocks
      ensures Threads(old(blocks), blocks) && RedirectedFrom(old(blocks), blocks, 0)
      ensures progress <==> ThreadableFrom(old(blocks), 0)
      ensures progress ==> |blocks| > 0
      ensures !progress ==> blocks == old(blocks)
    {
      progress := false;
      var reps: map<Label, Op> := map[];
      ghost var f := blocks;
      RedoneNone(f);
      for i := |blocks| downto 0
        invariant |blocks| == |f| && Redone(f, blocks, i, reps, progress)
      {
        reps, progress := RedirectBlock(i, reps, progress, f);
      }
      RedoneAll(f, blocks, reps, progress);
    }

    method JumpThread() returns (progress: bool)
      requires FunctionOk(blocks)
      modifies this
      ensures FunctionOk(blocks) && Threads(old(blocks), blocks)
      ensures RedirectedFrom(old(blocks), blocks, 0) && (progress <==> ThreadableFrom(old(blocks), 0))
      ensures progress ==> |blocks| > 0 && EdgesMatch(blocks, cfg)
      ensures !progress ==> blocks == old(blocks) && cfg == old(cfg)
    {
      progress := RedirectBranches();
      ThreadsOk(old(blocks), blocks);
      if progress {
        RewriteCfg();
      }
    }

    /** Rebuilds the edges from the blocks. */
    method RewriteCfg()
      modifies this`cfg
      ensures EdgesMatch(blocks, cfg)
    {
      var edges: seq<(nat, nat)> := [];
      for i := 0 to |blocks|
        invariant forall a: nat :: Heads(edges, a) == if a < i then Heads(EdgesOf(blocks, a), a) else []
      {
        EdgesAdded(blocks, edges, i);
        edges := edges + EdgesOf(blocks, i);
      }
      cfg := Build(|blocks|, edges);
      forall i: nat | i < |blocks|
        ensures forall j: nat :: j < |blocks| ==> (j in cfg.Successors(i) <==> CanGo(blocks, i, j))
        ensures CanFall(blocks, i) ==> StartsWith(cfg.Successors(i), i + 1)
      {
        BlockEdges(blocks, cfg, i);
      }
    }

    /** Drops branches to the following block. */
    method OptFallThrough()
      requires FunctionOk(blocks) && |blocks| > 0
      modifies this`blocks
      ensures FunctionOk(blocks) && SameTransfers(old(blocks), blocks)
      ensures FellThrough(old(blocks), blocks, |blocks|)
      ensures forall i :: 0 <= i < |blocks| - 1 ==> !BranchesTo(blocks[i], blocks[i + 1].name)
    {
      for i := 0 to |blocks| - 1
        invariant FunctionOk(blocks) && SameTransfers(old(blocks), blocks)
        invariant FellThrough(old(blocks), blocks, i)
        invariant forall k :: 0 <= k < i ==> !BranchesTo(blocks[k], blocks[k + 1].name)
      {
        DroppedSame(blocks, i);
        SameTransfersTrans(old(blocks), blocks, blocks[i := Dropped(blocks, i)]);
        DroppedHasNone(blocks, i);
        DroppedStep(old(blocks), blocks, i);
        blocks := blocks[i := Dropped(blocks, i)];
      }
    }

    /** The whole pass: the new function behaves like the old one. If some branch can be replaced, all
        that can are, branches to the next block are gone and the edges are the control transfers;
        otherwise nothing changes. */
    method OptJumpThread()
      requires FunctionOk(blocks)
      modifies this
      ensures FunctionOk(blocks) && Threads(old(blocks), blocks)
      ensures if ThreadableFrom(old(blocks), 0) then Threaded(old(blocks), blocks) && EdgesMatch(blocks, cfg)
        else blocks == old(blocks) && cfg == old(cfg)
    {
      ghost var f := blocks;
      var progress := JumpThread();
      if progress {
        ghost var g := blocks;
        OptFallThrough();
        ThenSameTransfers(f, g, blocks);
        EdgesStillMatch(g, blocks, cfg);
      } else {
        ThreadsRefl(f);
      }
    }
  }

  lemma {:induction false} DroppedHasNone(f: Function, i: nat)
    requires FunctionOk(f) && i + 1 < |f|
    ensures !BranchesTo(Dropped(f, i), f[i + 1].name) && Dropped(f, i).name == f[i].name
  {
    var b := Dropped(f, i);
    if b != f[i] && b.instrs != [] {
      assert b.instrs == f[i].Body() && f[i].Body()[|b.instrs| - 1].op.Plain?;
    }
  }

  lemma {:induction false} DroppedStep(f: Function, g: Function, i: nat)
    requires FellThrough(f, g, i) && i + 1 < |f| && SameShape(f, g)
    ensures FellThrough(f, g[i := Dropped(g, i)], i + 1)
  {
    var h := g[i := Dropped(g, i)];
    assert FallsOrStays(f, i, i, g[i]);
    forall k: nat | k < |f| ensures FallsOrStays(f, k, i + 1, h[k]) {
      assert FallsOrStays(f, k, i, g[k]);
    }
  }
}
