/**
 What jump threading leaves: which branches to trivial blocks further on are still there
 when the pass is done.
 */
module JumpTargets {
  import opened JumpThread

  /** Block `b`, at position `i`, ends in a branch to trivial block `a` further on. */
  ghost predicate EndsAhead(f: Function, i: nat, b: Block, a: nat) {
    i < a && Trivial(f, a) && BranchesTo(b, f[a].name)
  }

  /** The climb from the trivial block that `i` branches to turns back, to a trivial block that is
      still after `i`. */
  ghost predicate Rebounds(f: Function, i: nat, a: nat) {
    exists k: nat :: Redirects(f, i, k) && Onward(f, k).Bra? && Ahead(f, i, Onward(f, k).target, a)
  }

  /** A conditional branch to a trivial block that leads to an exit. */
  ghost predicate ExitsOnCondition(f: Function, i: nat, a: nat) {
    LeadsAhead(f, i, a) && f[i].instrs[|f[i].instrs| - 1].op.cond != True && Onward(f, a).Exit?
  }

  lemma {:induction false} OneTarget(f: Function, i: nat, k: nat, m: nat)
    requires FunctionOk(f) && LeadsAhead(f, i, k) && LeadsAhead(f, i, m)
    ensures k == m
  {
    OneName(f, k, m);
  }

  lemma {:induction false} RedirectedEnds(f: Function, i: nat, b: Block, a: nat)
    requires FunctionOk(f) && i < |f| && IsRedirected(f, i, b)
    ensures EndsAhead(f, i, b, a) <==> Rebounds(f, i, a) || ExitsOnCondition(f, i, a)
  {
    if k: nat :| Redirects(f, i, k) {
      forall m: nat | LeadsAhead(f, i, m) ensures m == k {
        OneTarget(f, i, k, m);
      }
      assert Rebounds(f, i, a) <==> Onward(f, k).Bra? && Ahead(f, i, Onward(f, k).target, a);
    } else {
      assert b == f[i] && !Redirects(f, i, a);
      assert EndsAhead(f, i, b, a) <==> LeadsAhead(f, i, a);
    }
  }

  /** After the pass a branch leads to a trivial block further on exactly when the climb turned back
      to one that is still ahead, or the branch is conditional and an exit is all that it leads to. */
  lemma {:induction false} TargetsLeft(f: Function, h: Function, i: nat, a: nat)
    requires FunctionOk(f) && Threaded(f, h) && i < |f|
    ensures |h| == |f|
    ensures EndsAhead(f, i, h[i], a) <==> a != i + 1 && (Rebounds(f, i, a) || ExitsOnCondition(f, i, a))
  {
    var g: Function :| RedirectedFrom(f, g, 0) && FellThrough(g, h, |h|);
    assert IsRedirected(f, i, g[i]) && FallsOrStays(g, i, |h|, h[i]);
    RedirectedEnds(f, i, g[i], a);
    StillDistinct(f, i + 1, a);
    if i + 1 < |f| {
      assert IsRedirected(f, i + 1, g[i + 1]);
      if BranchesTo(g[i], g[i + 1].name) {
        NothingAfterDrop(f, i, g[i]);
      }
    }
  }

  /** Below the branch of a block there is no other. */
  lemma {:induction false} NothingAfterDrop(f: Function, i: nat, b: Block)
    requires FunctionOk(f) && i < |f| && IsRedirected(f, i, b) && b.instrs != [] && b.instrs[|b.instrs| - 1].op.Bra?
    ensures |b.instrs| > 1 ==> b.instrs[|b.instrs| - 2].op.Plain?
  {
    var n := |b.instrs| - 1;
    if k: nat :| Redirects(f, i, k) {
      assert b.instrs[..n] == f[i].instrs[..n] == f[i].Body();
    } else {
      assert b.instrs[..n] == f[i].Body();
    }
    if n > 0 {
      assert f[i].Body()[n - 1].op.Plain?;
    }
  }

  lemma {:induction false} StillDistinct(f: Function, i: nat, a: nat)
    requires FunctionOk(f)
    ensures i < |f| && a < |f| && f[i].name == f[a].name ==> i == a
  {
  }

  // ---- when nothing is left ----

  /** The replacement of trivial block `k` branches to trivial block `a`. */
  ghost predicate StillTrivial(f: Function, k: nat, a: nat) {
    Trivial(f, k) && Onward(f, k).Bra? && Trivial(f, a) && f[a].name == Onward(f, k).target
  }

  /** Trivial block `t` branches to itself or to a trivial block before it. */
  ghost predicate TurnsBack(f: Function, t: nat, a: nat) {
    Trivial(f, t) && Jump(f, t).Bra? && a <= t && Trivial(f, a) && f[a].name == Jump(f, t).target
  }

  /** Where a climb ends. */
  lemma {:induction false} ClimbEnds(f: Function, k: nat) returns (t: nat)
    requires FunctionOk(f) && Trivial(f, k)
    ensures Trivial(f, t) && Onward(f, k) == Jump(f, t) && forall m: nat :: !Climbs(f, t, m)
    decreases |f| - k
  {
    if m: nat :| Climbs(f, k, m) {
      OnwardClimbs(f, k, m);
      t := ClimbEnds(f, m);
    } else {
      t := k;
    }
  }

  /** No replacement is a branch to a trivial block exactly when no trivial block branches back to one. */
  lemma {:induction false} NoneTrivialIff(f: Function)
    requires FunctionOk(f)
    ensures (exists k: nat, a: nat :: StillTrivial(f, k, a)) <==> exists t: nat, a: nat :: TurnsBack(f, t, a)
  {
    if k: nat, a: nat :| StillTrivial(f, k, a) {
      var t := ClimbEnds(f, k);
      assert !Climbs(f, t, a);
      assert TurnsBack(f, t, a);
    }
    if t: nat, a: nat :| TurnsBack(f, t, a) {
      forall m: nat ensures !Climbs(f, t, m) {
        StillDistinct(f, m, a);
      }
      assert StillTrivial(f, t, a);
    }
  }

  /** Without such blocks only conditional branches that lead to an exit are left. */
  lemma {:induction false} OnlyExitsLeft(f: Function, h: Function, i: nat, a: nat)
    requires FunctionOk(f) && Threaded(f, h) && i < |f| && forall t: nat, b: nat :: !TurnsBack(f, t, b)
    ensures |h| == |f| && (EndsAhead(f, i, h[i], a) ==> ExitsOnCondition(f, i, a))
  {
    TargetsLeft(f, h, i, a);
    NoneTrivialIff(f);
    if Rebounds(f, i, a) {
      var k: nat :| Redirects(f, i, k) && Onward(f, k).Bra? && Ahead(f, i, Onward(f, k).target, a);
      assert StillTrivial(f, k, a);
    }
  }

  // ---- a climb that turns back ----

  function Always(l: Label): Instr {
    Instr(True, Bra(True, l))
  }

  /** Block 0 branches to block 3, which is a branch back to block 2, which is a branch to block 4. */
  const TURNED: Function := [
    Block(0, [Instr(True, Plain(0)), Always(3)]), Block(1, [Instr(True, Plain(1)), Instr(True, Exit)]),
    Block(2, [Always(4)]), Block(3, [Always(2)]), Block(4, [Instr(True, Plain(2)), Instr(True, Exit)])]

  /** One reverse pass leaves block 0 with a branch to block 2, which is a branch and nothing else. */
  lemma {:induction false} TurnedBack(h: Function)
    requires Threaded(TURNED, h)
    ensures FunctionOk(TURNED) && |h| == 5 && EndsAhead(TURNED, 0, h[0], 2) && h[2].instrs == [Always(4)]
  {
    TurnedOk();
    assert Trivial(TURNED, 2) && Trivial(TURNED, 3) && !Trivial(TURNED, 4);
    forall m: nat ensures !Climbs(TURNED, 3, m) {}
    assert Onward(TURNED, 3) == Jump(TURNED, 3);
    assert Ahead(TURNED, 0, 3, 3) && LeadsAhead(TURNED, 0, 3) && Redirects(TURNED, 0, 3);
    assert Ahead(TURNED, 0, 2, 2) && Rebounds(TURNED, 0, 2);
    TargetsLeft(TURNED, h, 0, 2);
    TurnedStays(h);
  }

  lemma {:induction false} TurnedOk()
    ensures FunctionOk(TURNED)
  {
    assert forall i :: 0 <= i < 5 ==> TURNED[i].Branch().Some?;
  }

  lemma {:induction false} TurnedStays(h: Function)
    requires Threaded(TURNED, h)
    ensures |h| == 5 && h[2].instrs == [Always(4)]
  {
    var g: Function :| RedirectedFrom(TURNED, g, 0) && FellThrough(g, h, |h|);
    assert IsRedirected(TURNED, 2, g[2]) && FallsOrStays(g, 2, |h|, h[2]) && IsRedirected(TURNED, 3, g[3]);
    forall k: nat ensures !Redirects(TURNED, 2, k) {}
    assert g[2] == TURNED[2];
  }
}
