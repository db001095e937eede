/** Bit-flag algebra on the 16-bit flag words the program keeps for entities,
    backgrounds and the camera lock (the FLAG_* macros of src/Macros.h). */
module Flags {

  /** A uint16_t flag word. */
  type Word = bv16

  /** A bit position inside a flag word: 0 to 15. */
  type Bit = bv4

  /** The word with only bit `b` set, `1 << bit` in the macros. */
  function Mask(b: Bit): Word
  {
    (1 as Word) << (b as Word)
  }

  /** FLAG_IS_SET: bit `b` of `n` is one. */
  predicate IsSet(n: Word, b: Bit)
    ensures IsSet(n, b) <==> n & Mask(b) != 0
  {
    ShiftTestIsMaskTest(n, b);
    (n >> (b as Word)) & 1 == 1
  }

  /** Shifting bit `b` down to position 0 tests the same bit as masking
      with `1 << b`, one bit position at a time. */
  lemma ShiftTestIsMaskTest(n: Word, b: Bit)
    ensures (n >> (b as Word)) & 1 == 1 <==> n & Mask(b) != 0
  {
    if b < 4 {
      if b == 0 {} else if b == 1 {} else if b == 2 {} else {}
    } else if b < 8 {
      if b == 4 {} else if b == 5 {} else if b == 6 {} else {}
    } else if b < 12 {
      if b == 8 {} else if b == 9 {} else if b == 10 {} else {}
    } else {
      if b == 12 {} else if b == 13 {} else if b == 14 {} else {}
    }
  }

  /** FLAG_IS_NOT_SET: bit `b` of `n` is zero. */
  predicate IsNotSet(n: Word, b: Bit)
    ensures IsNotSet(n, b) <==> n & Mask(b) == 0
  {
    ShiftTestIsMaskTest(n, b);
    0 == (n >> (b as Word)) & 1
  }

  /** Two words agree on every bit except possibly `b`. */
  ghost predicate SameExcept(n: Word, m: Word, b: Bit)
  {
    forall c: Bit {:trigger IsSet(n, c)} {:trigger IsSet(m, c)} :: c != b ==> (IsSet(n, c) <==> IsSet(m, c))
  }

  /** FLAG_SET: `n | (1 << b)`. */
  function SetBit(n: Word, b: Bit): (r: Word)
    ensures IsSet(r, b)
    ensures SameExcept(r, n, b)
  {
    var r := n | Mask(b);
    assert forall c: Bit :: c != b ==> (IsSet(r, c) <==> IsSet(n, c)) by {
      forall c: Bit | c != b
        ensures IsSet(r, c) <==> IsSet(n, c)
      {
      }
    }
    r
  }

  /** FLAG_CLEAR: `n & ~(1 << b)`. */
  function ClearBit(n: Word, b: Bit): (r: Word)
    ensures IsNotSet(r, b)
    ensures SameExcept(r, n, b)
  {
    n & !Mask(b)
  }

  /** FLAG_TOGGLE: `n ^ (1 << b)`. */
  function ToggleBit(n: Word, b: Bit): (r: Word)
    ensures IsSet(r, b) <==> !IsSet(n, b)
    ensures SameExcept(r, n, b)
  {
    var r := n ^ Mask(b);
    assert r & Mask(b) == (n & Mask(b)) ^ Mask(b);
    forall c: Bit | c != b
      ensures IsSet(r, c) <==> IsSet(n, c)
    {
      ToggleKeepsOtherBit(n, b, c);
    }
    r
  }

  /** Toggling bit `b` does not touch bit `c`. */
  lemma ToggleKeepsOtherBit(n: Word, b: Bit, c: Bit)
    requires c != b
    ensures IsSet(n ^ Mask(b), c) <==> IsSet(n, c)
  {
    assert (n ^ Mask(b)) & Mask(c) == n & Mask(c);
  }

  /** FLAG_IS_NOT_SET is exactly the negation of FLAG_IS_SET. */
  lemma NotSetIsNegation(n: Word, b: Bit)
    ensures IsNotSet(n, b) <==> !IsSet(n, b)
  {
  }

  lemma ToggleTwiceRestores(n: Word, b: Bit)
    ensures ToggleBit(ToggleBit(n, b), b) == n
  {
  }

  lemma SetIdempotent(n: Word, b: Bit)
    ensures SetBit(SetBit(n, b), b) == SetBit(n, b)
  {
  }

  lemma ClearIdempotent(n: Word, b: Bit)
    ensures ClearBit(ClearBit(n, b), b) == ClearBit(n, b)
  {
  }

  /** Setting a bit that is already set, or clearing one that is already
      clear, changes nothing. */
  lemma SetAndClearAreNoOpsWhenSettled(n: Word, b: Bit)
    ensures IsSet(n, b) ==> SetBit(n, b) == n
    ensures IsNotSet(n, b) ==> ClearBit(n, b) == n
  {
  }
}
