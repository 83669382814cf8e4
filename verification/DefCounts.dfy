/**
 Which variables have several definitions.
 */
module DefCounts {
  import opened Programs

  /** Definition `k` of instruction `ip` of block `b` is one of `x`. */
  ghost predicate Occurs(f: Function, b: nat, ip: nat, k: nat, x: Ssa) {
    b < |f.blocks| && ip < |f.blocks[b]| && k < |f.blocks[b][ip].Defs()| && f.blocks[b][ip].Defs()[k] == x
  }

  ghost predicate Earlier(b: nat, ip: nat, k: nat, b': nat, ip': nat, k': nat) {
    b < b' || (b == b' && (ip < ip' || (ip == ip' && k < k')))
  }

  /** `x` has a definition before the given place. */
  ghost predicate SeenBy(f: Function, x: Ssa, b: nat, ip: nat, k: nat) {
    exists c: nat, jp: nat, l: nat :: Occurs(f, c, jp, l, x) && Earlier(c, jp, l, b, ip, k)
  }

  /** `x` has two definitions before the given place. */
  ghost predicate AgainBy(f: Function, x: Ssa, b: nat, ip: nat, k: nat) {
    exists c: nat, jp: nat, l: nat ::
      Occurs(f, c, jp, l, x) && Earlier(c, jp, l, b, ip, k) && SeenBy(f, x, c, jp, l)
  }

  /** Before the given place `seen` holds the variables defined, `multi` those defined again. */
  ghost predicate Counted(f: Function, seen: set<Ssa>, multi: set<Ssa>, b: nat, ip: nat, k: nat) {
    forall x: Ssa :: (x in seen <==> SeenBy(f, x, b, ip, k)) && (x in multi <==> AgainBy(f, x, b, ip, k))
  }

  lemma {:induction false} CountedStep(f: Function, seen: set<Ssa>, multi: set<Ssa>, b: nat, ip: nat, k: nat, x: Ssa)
    requires Counted(f, seen, multi, b, ip, k) && Occurs(f, b, ip, k, x)
    ensures Counted(f, seen + {x}, if x in seen then multi + {x} else multi, b, ip, k + 1)
  {
    forall y: Ssa ensures SeenBy(f, y, b, ip, k + 1) <==> SeenBy(f, y, b, ip, k) || y == x {
      if c: nat, jp: nat, l: nat :| Occurs(f, c, jp, l, y) && Earlier(c, jp, l, b, ip, k + 1) {
        assert Earlier(c, jp, l, b, ip, k) || (c, jp, l) == (b, ip, k);
      }
      if c: nat, jp: nat, l: nat :| Occurs(f, c, jp, l, y) && Earlier(c, jp, l, b, ip, k) {
        assert Earlier(c, jp, l, b, ip, k + 1);
      }
      assert Earlier(b, ip, k, b, ip, k + 1);
    }
    forall y: Ssa ensures AgainBy(f, y, b, ip, k + 1) <==> AgainBy(f, y, b, ip, k) || (y == x && x in seen) {
      if c: nat, jp: nat, l: nat :|
        Occurs(f, c, jp, l, y) && Earlier(c, jp, l, b, ip, k + 1) && SeenBy(f, y, c, jp, l)
      {
        assert Earlier(c, jp, l, b, ip, k) || (c, jp, l) == (b, ip, k);
      }
      if c: nat, jp: nat, l: nat :| Occurs(f, c, jp, l, y) && Earlier(c, jp, l, b, ip, k) && SeenBy(f, y, c, jp, l) {
        assert Earlier(c, jp, l, b, ip, k + 1);
      }
      assert Earlier(b, ip, k, b, ip, k + 1);
    }
  }

  /** No definition lies between two places. */
  ghost predicate NothingBetween(f: Function, b: nat, ip: nat, k: nat, b': nat, ip': nat) {
    forall c: nat, jp: nat, l: nat, x: Ssa ::
      Occurs(f, c, jp, l, x) ==> (Earlier(c, jp, l, b', ip', 0) <==> Earlier(c, jp, l, b, ip, k))
  }

  lemma {:induction false} CountedNext(f: Function, seen: set<Ssa>, multi: set<Ssa>, b: nat, ip: nat, k: nat, b': nat,
                                       ip': nat)
    requires Counted(f, seen, multi, b, ip, k) && NothingBetween(f, b, ip, k, b', ip')
    ensures Counted(f, seen, multi, b', ip', 0)
  {
    forall x: Ssa ensures SeenBy(f, x, b', ip', 0) <==> SeenBy(f, x, b, ip, k) {}
    forall x: Ssa ensures AgainBy(f, x, b', ip', 0) <==> AgainBy(f, x, b, ip, k) {}
  }

  /** `x` is defined in two places. */
  ghost predicate Twice(f: Function, x: Ssa) {
    exists b: nat, ip: nat, k: nat, c: nat, jp: nat, l: nat ::
      Occurs(f, b, ip, k, x) && Occurs(f, c, jp, l, x) && Earlier(b, ip, k, c, jp, l)
  }

  lemma {:induction false} CountedAll(f: Function, seen: set<Ssa>, multi: set<Ssa>)
    requires Counted(f, seen, multi, |f.blocks|, 0, 0)
    ensures forall x: Ssa :: x in multi <==> Twice(f, x)
  {
    forall x: Ssa ensures Twice(f, x) <==> AgainBy(f, x, |f.blocks|, 0, 0) {
      if b: nat, ip: nat, k: nat, c: nat, jp: nat, l: nat :|
        Occurs(f, b, ip, k, x) && Occurs(f, c, jp, l, x) && Earlier(b, ip, k, c, jp, l)
      {
        assert Earlier(c, jp, l, |f.blocks|, 0, 0) && SeenBy(f, x, c, jp, l);
      }
    }
  }

  /** The variables with more than one definition. */
  method CountDefs(f: Function) returns (multi: set<Ssa>)
    ensures forall x: Ssa :: x in multi <==> Twice(f, x)
  {
    multi := {};
    var seen: set<Ssa> := {};
    for b := 0 to |f.blocks|
      invariant Counted(f, seen, multi, b, 0, 0)
    {
      for ip := 0 to |f.blocks[b]|
        invariant Counted(f, seen, multi, b, ip, 0)
      {
        var ds := f.blocks[b][ip].Defs();
        for k := 0 to |ds|
          invariant Counted(f, seen, multi, b, ip, k)
        {
          CountedStep(f, seen, multi, b, ip, k, ds[k]);
          if ds[k] in seen {
            multi := multi + {ds[k]};
          }
          seen := seen + {ds[k]};
        }
        CountedNext(f, seen, multi, b, ip, |ds|, b, ip + 1);
      }
      CountedNext(f, seen, multi, b, |f.blocks[b]|, 0, b + 1, 0);
    }
    CountedAll(f, seen, multi);
  }
}
