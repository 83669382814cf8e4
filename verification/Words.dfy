/**
 Machine words as the set of their one bits, and the eight-entry tables of the
 three-input logic operations. A table is itself an eight-bit word.
 */
module Words {

  type Bits = set<nat>

  const WORD: Bits := set b: nat | b < 32

  /** A 32-bit word. */
  type Word = b: Bits | b <= WORD

  /** The tables 0xf0, 0xcc and 0xaa: each passes one operand through. */
  const PASS_X: Bits := {4, 5, 6, 7}
  const PASS_Y: Bits := {2, 3, 6, 7}
  const PASS_Z: Bits := {1, 3, 5, 7}

  const TABLE: Bits := set b: nat | b < 8

  /** Bitwise exclusive or. */
  function Xor(a: Bits, b: Bits): Bits {
    (a - b) + (b - a)
  }

  /** The table entry for one lane: 4x + 2y + z. */
  function Entry(x: bool, y: bool, z: bool): nat {
    (if x then 4 else 0) + (if y then 2 else 0) + (if z then 1 else 0)
  }

  /** The table `lut` applied in every lane of the word whose lanes are `lanes`. */
  function Eval(lut: Bits, lanes: Bits, x: Bits, y: Bits, z: Bits): (r: Bits)
    ensures forall b :: b in r <==> b in lanes && Entry(b in x, b in y, b in z) in lut
  {
    set b | b in lanes && Entry(b in x, b in y, b in z) in lut
  }

  lemma {:induction false} XorTwice(a: Bits, b: Bits)
    ensures Xor(Xor(a, b), b) == a && Xor(Xor(a, b), a) == b
  {
  }
}
