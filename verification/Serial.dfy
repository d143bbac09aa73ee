/** The 16-bit wrapping sequence numbers that order the writes to one entry. */
module Serial {
  const MODULUS := 0x1_0000
  const HALF := 0x8000

  type U16 = x: int | 0 <= x < 0x1_0000

  function Increment(s: U16): U16 {
    (s + 1) % MODULUS
  }

  /** `_Entry.isSeqNewerThan`: the branches of the source, in its order. */
  predicate Newer(a: U16, b: U16) {
    if a < b then b - a > 32768
    else if a > b then a - b < 32768
    else false
  }

  /** `_Entry.isSeqNewerOrEqual`. */
  predicate NewerOrEqual(a: U16, b: U16) {
    if a < b then b - a > 32768
    else if a > b then a - b < 32768
    else true
  }

  /** How many increments lead from a to b. */
  function Offset(a: U16, b: U16): nat {
    (b - a) % MODULUS
  }

  /** n increments in a row. */
  function Advance(s: U16, n: nat): U16 {
    if n == 0 then s else Increment(Advance(s, n - 1))
  }

  /** Section 3.2 of RFC 1982 with SERIAL_BITS = 16. */
  predicate RfcGreater(i1: U16, i2: U16) {
    (i1 < i2 && i2 - i1 > HALF) || (i1 > i2 && i1 - i2 < HALF)
  }

  lemma MatchesRfc1982(a: U16, b: U16)
    ensures Newer(a, b) <==> RfcGreater(a, b)
    ensures NewerOrEqual(a, b) <==> a == b || RfcGreater(a, b)
  {
  }

  /** Newer means between one and 32767 increments ahead, on every pair. */
  lemma NewerIsAhead(a: U16, b: U16)
    ensures Newer(a, b) <==> 1 <= Offset(b, a) < HALF
    ensures NewerOrEqual(a, b) <==> Offset(b, a) < HALF
    ensures Newer(a, b) ==> !Newer(b, a)
    ensures !NewerOrEqual(a, b) && !NewerOrEqual(b, a) <==> Offset(a, b) == HALF
  {
    if a < b {
      assert Offset(b, a) == a - b + MODULUS;
    }
  }

  lemma {:induction false} AdvanceIsSum(s: U16, n: nat)
    ensures Advance(s, n) == (s + n) % MODULUS
  {
    if n != 0 {
      AdvanceIsSum(s, n - 1);
    }
  }

  /** A number stays newer through 32767 increments, and not through 32768. */
  lemma {:induction false} IncrementsAreNewer(s: U16, n: nat)
    requires n < MODULUS
    ensures Offset(s, Advance(s, n)) == n
    ensures Newer(Advance(s, n), s) <==> 1 <= n < HALF
  {
    AdvanceIsSum(s, n);
    NewerIsAhead(Advance(s, n), s);
  }

  /** Offsets add up while they stay below one turn. */
  lemma OffsetsAdd(a: U16, b: U16, c: U16)
    requires Offset(a, b) + Offset(b, c) < MODULUS
    ensures Offset(a, c) == Offset(a, b) + Offset(b, c)
  {
    assert (b - a) + (c - b) == c - a;
  }

  /** The offset from a base tells the number. */
  lemma SameOffset(base: U16, a: U16, b: U16)
    ensures Offset(base, a) == Offset(base, b) <==> a == b
  {
  }

  /** Inside one half window of a base, "newer" is transitive: it is the order of the offsets. */
  lemma NewerInWindow(base: U16, a: U16, b: U16)
    requires Offset(base, a) < HALF && Offset(base, b) < HALF
    ensures Newer(a, b) <==> Offset(base, a) > Offset(base, b)
    ensures NewerOrEqual(a, b) <==> Offset(base, a) >= Offset(base, b)
  {
  }

  /** Outside a half window transitivity fails. */
  lemma NewerIsNotTransitive()
    ensures Newer(20000, 0) && Newer(40000, 20000) && !Newer(40000, 0)
  {
  }
}
