/**
 Dense bit sets as vectors of 64-bit words. Equality compares the vectors, so a set
 with extra zero words differs from one without.
 */
module BitSets {
  import opened Basics
  import opened Words

  const BITS_PER_WORD: nat := 64

  /** A 64-bit word, as the set of its one bits. */
  type Word64 = w: Bits | forall b :: b in w ==> b < 64

  datatype BitSet = BitSet(words: seq<Word64>, capacity: nat) {
    predicate Contains(i: nat) {
      i / BITS_PER_WORD < |words| && i % BITS_PER_WORD in words[i / BITS_PER_WORD]
    }

    function WordAt(k: nat): Word64 {
      if k < |words| then words[k] else {}
    }

    /** The vector grown to hold word `n - 1`. */
    function Resized(n: nat): (r: BitSet)
      ensures forall i: nat :: r.Contains(i) <==> Contains(i)
      ensures |r.words| == Max(n, |words|) && r.capacity == capacity
    {
      if n <= |words| then this else BitSet(words + seq(n - |words|, _ => {}), capacity)
    }

    function Insert(i: nat): (r: BitSet)
      ensures forall j: nat :: r.Contains(j) <==> Contains(j) || j == i
      ensures |r.words| == Max(i / BITS_PER_WORD + 1, |words|) && r.capacity == capacity
    {
      var s := Resized(i / BITS_PER_WORD + 1);
      var w := i / BITS_PER_WORD;
      var r := s.(words := s.words[w := s.words[w] + {i % BITS_PER_WORD}]);
      assert forall j: nat :: r.Contains(j) <==> Contains(j) || j == i by {
        forall j: nat ensures r.Contains(j) <==> Contains(j) || j == i {
          assert s.Contains(j) <==> Contains(j);
          SameBit(i, j);
        }
      }
      r
    }

    /** `self |= rhs`: grows to the longer vector, keeps its own capacity. */
    function Union(rhs: BitSet): (r: BitSet)
      ensures forall i: nat :: r.Contains(i) <==> Contains(i) || rhs.Contains(i)
      ensures |r.words| == Max(|words|, |rhs.words|) && r.capacity == capacity
    {
      BitSet(seq(Max(|words|, |rhs.words|), k requires 0 <= k < Max(|words|, |rhs.words|) => WordAt(k) + rhs.WordAt(k)),
             capacity)
    }

    /** `self | rhs`, a new set. */
    function BitOr(rhs: BitSet): (r: BitSet)
      ensures forall i: nat :: r.Contains(i) <==> Contains(i) || rhs.Contains(i)
      ensures |r.words| == Max(|words|, |rhs.words|) && r.capacity == Max(capacity, rhs.capacity)
    {
      Union(rhs).(capacity := Max(capacity, rhs.capacity))
    }

    /** `self - rhs`; the vector of the longer operand. */
    function Sub(rhs: BitSet): (r: BitSet)
      ensures forall i: nat :: r.Contains(i) <==> Contains(i) && !rhs.Contains(i)
      ensures |r.words| == Max(|words|, |rhs.words|) && r.capacity == Max(capacity, rhs.capacity)
    {
      BitSet(seq(Max(|words|, |rhs.words|), k requires 0 <= k < Max(|words|, |rhs.words|) => WordAt(k) - rhs.WordAt(k)),
             Max(capacity, rhs.capacity))
    }
  }

  const EMPTY := BitSet([], 0)

  lemma {:induction false} SameBit(i: nat, j: nat)
    ensures i / BITS_PER_WORD == j / BITS_PER_WORD && i % BITS_PER_WORD == j % BITS_PER_WORD <==> i == j
  {
  }

  // ---- aligned free ranges ----

  const USIZE: nat := 0x1_0000_0000_0000_0000

  /** Subtraction that wraps at the machine word. */
  function WrappingSub(a: nat, b: nat): nat
    requires b < USIZE
  {
    if a >= b then a - b else a + USIZE - b
  }

  ghost predicate Aligned(p: int, mul: nat, offset: nat)
    requires mul > 0
  {
    (p - offset) % mul == 0
  }

  /** An aligned run of `n` unset bits starts at `p`, within capacity. */
  ghost predicate Free(s: BitSet, p: nat, n: nat, mul: nat, offset: nat)
    requires mul > 0
  {
    Aligned(p, mul, offset) && AllUnset(s, p, n)
  }

  ghost predicate AllUnset(s: BitSet, p: nat, n: nat) {
    p + n <= s.capacity && forall q: nat :: p <= q < p + n ==> !s.Contains(q)
  }

  lemma {:induction false} MultipleIsFar(m: int, d: int)
    requires m > 0
    ensures d >= 1 ==> m * d >= m
    ensures d <= -1 ==> m * d <= -m
  {
  }

  lemma {:induction false} ModUnique(a: int, m: nat, q: int, r: int)
    requires m > 0 && a == m * q + r && 0 <= r < m
    ensures a % m == r
  {
    var d := a / m - q;
    assert a == m * (a / m) + a % m;
    assert m * d == r - a % m;
    MultipleIsFar(m, d);
  }

  lemma {:induction false} ModShift(a: int, k: int, m: nat)
    requires m > 0 && 0 <= k && a % m + k <= m
    ensures a % m + k < m ==> (a + k) % m == a % m + k
    ensures a % m + k == m ==> (a + k) % m == 0
  {
    assert a == m * (a / m) + a % m;
    if a % m + k < m {
      ModUnique(a + k, m, a / m, a % m + k);
    } else {
      assert a + k == m * (a / m + 1) + 0;
      ModUnique(a + k, m, a / m + 1, 0);
    }
  }

  /** The wrapped remainder is the true one exactly when nothing wraps or the modulus divides the word. */
  lemma {:induction false} WrappedRemainder(p: nat, mul: nat, offset: nat)
    requires mul > 0 && offset < USIZE
    ensures WrappingSub(p, offset) % mul == (p - offset) % mul <==> p >= offset || USIZE % mul == 0
  {
    if p < offset {
      var a := p - offset;
      assert a == mul * (a / mul) + a % mul;
      assert USIZE == mul * (USIZE / mul) + USIZE % mul;
      var r := a % mul + USIZE % mul;
      var q := a / mul + USIZE / mul;
      assert a + USIZE == mul * q + r by {
        assert mul * q == mul * (a / mul) + mul * (USIZE / mul);
      }
      if r < mul {
        ModUnique(a + USIZE, mul, q, r);
      } else {
        assert a + USIZE == mul * (q + 1) + (r - mul);
        ModUnique(a + USIZE, mul, q + 1, r - mul);
      }
    }
  }

  /** Alignment is judged rightly from `start` on. */
  ghost predicate WrapSafe(start: nat, mul: nat, offset: nat)
    requires mul > 0
  {
    start >= offset || USIZE % mul == 0
  }

  lemma {:induction false} PowerSum(j: nat, k: nat)
    ensures PowerOfTwo(j + k) == PowerOfTwo(j) * PowerOfTwo(k)
  {
    if j > 0 {
      PowerSum(j - 1, k);
      assert PowerOfTwo(j + k) == 2 * (PowerOfTwo(j - 1) * PowerOfTwo(k));
      assert 2 * (PowerOfTwo(j - 1) * PowerOfTwo(k)) == (2 * PowerOfTwo(j - 1)) * PowerOfTwo(k);
    }
  }

  lemma {:induction false} WordPowers()
    ensures PowerOfTwo(64) == USIZE
  {
    assert PowerOfTwo(8) == 0x100;
    PowerSum(8, 8);
    PowerSum(16, 16);
    PowerSum(32, 32);
  }

  /** Moduli that are powers of two are never misjudged. */
  lemma {:induction false} PowersOfTwoAreSafe(start: nat, k: nat, offset: nat)
    requires k <= 64
    ensures PowerOfTwo(k) > 0 && WrapSafe(start, PowerOfTwo(k), offset)
  {
    WordPowers();
    PowerSum(k, 64 - k);
    PowerPositive(k);
    ModUnique(USIZE, PowerOfTwo(k), PowerOfTwo(64 - k), 0);
  }

  lemma {:induction false} PowerPositive(k: nat)
    ensures PowerOfTwo(k) > 0
  {
    if k > 0 { PowerPositive(k - 1); }
  }

  /** Where the search goes from `pos`: up to a position whose wrapped distance from the offset is
      a multiple. */
  function Up(pos: nat, mul: nat, offset: nat): (r: nat)
    requires mul > 0 && offset < USIZE
    ensures r >= pos
  {
    var remainder := WrappingSub(pos, offset) % mul;
    if remainder != 0 then pos + (mul - remainder) else pos
  }

  /** It is the first aligned position at or after `pos` exactly when nothing wraps or the modulus
      divides the word; otherwise it is not aligned at all. */
  lemma {:induction false} UpAligns(pos: nat, mul: nat, offset: nat)
    requires mul > 0 && offset < USIZE
    ensures WrapSafe(pos, mul, offset) <==> Aligned(Up(pos, mul, offset), mul, offset)
    ensures WrapSafe(pos, mul, offset) ==> forall p :: pos <= p < Up(pos, mul, offset) ==> !Aligned(p, mul, offset)
  {
    var remainder := WrappingSub(pos, offset) % mul;
    var r := Up(pos, mul, offset);
    WrappedRemainder(pos, mul, offset);
    if WrapSafe(pos, mul, offset) {
      ModShift(pos - offset, r - pos, mul);
      forall p | pos <= p < r ensures !Aligned(p, mul, offset) {
        ModShift(pos - offset, p - pos, mul);
      }
    } else {
      UpMisaligned(pos, mul, offset);
    }
  }

  lemma {:induction false} UpMisaligned(pos: nat, mul: nat, offset: nat)
    requires mul > 0 && offset < USIZE && !WrapSafe(pos, mul, offset)
    ensures !Aligned(Up(pos, mul, offset), mul, offset)
  {
    var wrapped := pos + USIZE - offset;
    var r := Up(pos, mul, offset);
    ModShift(wrapped, r - pos, mul);
    var d := r - offset;
    assert (d + USIZE) % mul == 0;
    if d % mul == 0 {
      assert USIZE == mul * ((d + USIZE) / mul - d / mul) + 0 by {
        assert d + USIZE == mul * ((d + USIZE) / mul) && d == mul * (d / mul);
        assert mul * ((d + USIZE) / mul - d / mul) == mul * ((d + USIZE) / mul) - mul * (d / mul);
      }
      ModUnique(USIZE, mul, (d + USIZE) / mul - d / mul, 0);
    }
  }

  /** How many bits are unset from `pos` on, of the first `n`. */
  ghost function UnsetRun(s: BitSet, pos: nat, n: nat): (i: nat)
    ensures i <= n && (forall q: nat :: pos <= q < pos + i ==> !s.Contains(q)) && (i < n ==> s.Contains(pos + i))
    decreases n
  {
    if n == 0 || s.Contains(pos) then 0 else 1 + UnsetRun(s, pos + 1, n - 1)
  }

  /** The search: an empty run is found at `start` itself, aligned or not. */
  ghost function Search(s: BitSet, start: nat, n: nat, mul: nat, offset: nat): Option<nat>
    requires mul > 0 && offset < USIZE
    decreases s.capacity - start
  {
    if n == 0 then Some(start)
    else
      var pos := Up(start, mul, offset);
      if pos + n > s.capacity then None
      else
        var i := UnsetRun(s, pos, n);
        if i == n then Some(pos) else Search(s, pos + i + 1, n, mul, offset)
  }

  /** What the search promises: the least aligned run of unset bits at or after `start`, if any. */
  ghost predicate Right(s: BitSet, start: nat, n: nat, mul: nat, offset: nat, r: Option<nat>)
    requires mul > 0
  {
    match r
    case Some(p) => p >= start && Free(s, p, n, mul, offset) && forall q: nat :: start <= q < p ==>
      !Free(s, q, n, mul, offset)
    case None => forall q: nat :: start <= q ==> !Free(s, q, n, mul, offset)
  }

  lemma {:induction false} SearchIsRight(s: BitSet, start: nat, n: nat, mul: nat, offset: nat)
    requires mul > 0 && offset < USIZE && n > 0 && WrapSafe(start, mul, offset)
    ensures Right(s, start, n, mul, offset, Search(s, start, n, mul, offset))
    decreases s.capacity - start
  {
    UpAligns(start, mul, offset);
    var pos := Up(start, mul, offset);
    if pos + n <= s.capacity {
      var i := UnsetRun(s, pos, n);
      if i < n {
        forall q: nat | pos <= q < pos + i + 1 ensures !Free(s, q, n, mul, offset) {
          assert s.Contains(pos + i);
        }
        SearchIsRight(s, pos + i + 1, n, mul, offset);
      }
    }
  }

  /** Otherwise it returns a run that is not aligned as soon as the first one it looks at is unset. */
  lemma {:induction false} SearchIsWrong(s: BitSet, start: nat, n: nat, mul: nat, offset: nat)
    requires mul > 0 && offset < USIZE && n > 0 && !WrapSafe(start, mul, offset)
    requires AllUnset(s, Up(start, mul, offset), n)
    ensures var r := Search(s, start, n, mul, offset);
      r == Some(Up(start, mul, offset)) && !Aligned(r.value, mul, offset) && !Right(s, start, n, mul, offset, r)
  {
    UpMisaligned(start, mul, offset);
    var pos := Up(start, mul, offset);
    assert UnsetRun(s, pos, n) == n;
  }

  /** So the search is right for every set exactly when the positions it looks at cannot wrap below
      the offset, or the modulus divides the word. */
  lemma {:induction false} SearchRightExactly(start: nat, n: nat, mul: nat, offset: nat)
    requires mul > 0 && offset < USIZE && n > 0
    ensures WrapSafe(start, mul, offset) <==>
      forall s: BitSet :: Right(s, start, n, mul, offset, Search(s, start, n, mul, offset))
  {
    if WrapSafe(start, mul, offset) {
      forall s: BitSet ensures Right(s, start, n, mul, offset, Search(s, start, n, mul, offset)) {
        SearchIsRight(s, start, n, mul, offset);
      }
    } else {
      SearchIsWrong(BitSet([], Up(start, mul, offset) + n), start, n, mul, offset);
    }
  }

  /** With an empty set, a multiple of three and offset one, position zero is returned. */
  lemma {:induction false} SearchMisaligns(capacity: nat)
    requires capacity > 0
    ensures Search(BitSet([], capacity), 0, 1, 3, 1) == Some(0) && !Aligned(0, 3, 1)
  {
    assert Up(0, 3, 1) == 0;
    SearchIsWrong(BitSet([], capacity), 0, 1, 3, 1);
  }

  /** Scans `n` bits from `pos` for a set one. */
  method FirstSet(s: BitSet, pos: nat, n: nat) returns (i: nat)
    ensures i == UnsetRun(s, pos, n)
  {
    i := 0;
    while i < n && !s.Contains(pos + i)
      invariant i <= n && UnsetRun(s, pos, n) == i + UnsetRun(s, pos + i, n - i)
    {
      i := i + 1;
    }
  }

  lemma {:induction false} SearchStep(s: BitSet, start: nat, n: nat, mul: nat, offset: nat)
    requires mul > 0 && offset < USIZE && n > 0
    ensures var pos := Up(start, mul, offset);
      var i := UnsetRun(s, pos, n);
      Search(s, start, n, mul, offset) ==
        if pos + n > s.capacity then None else if i == n then Some(pos) else Search(s, pos + i + 1, n, mul, offset)
  {
  }

  /** What is found is unset, aligned or not. */
  lemma {:induction false} SearchFindsUnset(s: BitSet, start: nat, n: nat, mul: nat, offset: nat)
    requires mul > 0 && offset < USIZE && n > 0 && Search(s, start, n, mul, offset).Some?
    ensures var p := Search(s, start, n, mul, offset).value; p >= start && AllUnset(s, p, n)
    decreases s.capacity - start
  {
    var pos := Up(start, mul, offset);
    var i := UnsetRun(s, pos, n);
    if i < n { SearchFindsUnset(s, pos + i + 1, n, mul, offset); }
  }

  /** One turn of the search: where to go on, or else what was found. */
  method SearchTurn(s: BitSet, pos: nat, n: nat, mul: nat, offset: nat) returns (r: Option<nat>, next: Option<nat>)
    requires mul > 0 && offset < USIZE && n > 0
    ensures match next
      case Some(p) => pos < p <= s.capacity && Search(s, pos, n, mul, offset) == Search(s, p, n, mul, offset)
      case None => Search(s, pos, n, mul, offset) == r
  {
    SearchStep(s, pos, n, mul, offset);
    var at := Up(pos, mul, offset);
    if at + n > s.capacity {
      return None, None;
    }
    var i := FirstSet(s, at, n);
    if i == n {
      return Some(at), None;
    }
    return None, Some(at + i + 1);
  }

  /** The least aligned run of `n` unset bits at or after `start`, wherever alignment is judged
      rightly from `start` on; an empty run is found at `start` itself. */
  method FindAlignedUnsetRange(s: BitSet, start: nat, n: nat, mul: nat, offset: nat) returns (r: Option<nat>)
    requires mul > 0 && offset < USIZE
    ensures r == Search(s, start, n, mul, offset)
    ensures n == 0 ==> r == Some(start)
    ensures n > 0 && WrapSafe(start, mul, offset) ==> Right(s, start, n, mul, offset, r)
    ensures n > 0 && r.Some? ==> r.value >= start && AllUnset(s, r.value, n)
  {
    if n == 0 {
      return Some(start);
    }
    SearchPromises(s, start, n, mul, offset);
    var pos := start;
    while true
      invariant Search(s, pos, n, mul, offset) == Search(s, start, n, mul, offset)
      decreases s.capacity - pos
    {
      var next;
      r, next := SearchTurn(s, pos, n, mul, offset);
      if next.None? {
        return r;
      }
      pos := next.value;
    }
  }

  lemma {:induction false} SearchPromises(s: BitSet, start: nat, n: nat, mul: nat, offset: nat)
    requires mul > 0 && offset < USIZE && n > 0
    ensures var r := Search(s, start, n, mul, offset);
      && (WrapSafe(start, mul, offset) ==> Right(s, start, n, mul, offset, r))
      && (r.Some? ==> r.value >= start && AllUnset(s, r.value, n))
  {
    if WrapSafe(start, mul, offset) {
      SearchIsRight(s, start, n, mul, offset);
    }
    if Search(s, start, n, mul, offset).Some? {
      SearchFindsUnset(s, start, n, mul, offset);
    }
  }
}
