/** Decimal columns of type NUMERIC(38,18).

    A stored value is an integer number of units of 10^-18.  The product of two such values is an integer
    number of units of 10^-36 and is rounded, half away from zero, when it is written to a column. */
module Decimals {

  /** A column value (units of 10^-18) in units of 10^-36. */
  function Scale(r: int): int {
    r * 1_000_000_000_000_000_000
  }

  /** The column value, in units of 10^-18, that stores a non-negative value given in units of 10^-36. */
  function Store(v: nat): nat {
    (2 * v + 1_000_000_000_000_000_000) / 2_000_000_000_000_000_000
  }

  /** The value lies exactly half way between two column values. */
  predicate Tie(v: nat) {
    2 * (v % 1_000_000_000_000_000_000) == 1_000_000_000_000_000_000
  }

  /** Store picks the nearest column value, and the larger one on a tie; no other value does. */
  lemma StoreIsNearest(v: nat, r: nat)
    ensures r == Store(v) <==> -Scale(1) <= 2 * (v - Scale(r)) < Scale(1)
    ensures Tie(v) <==> 2 * (v - Scale(Store(v))) == -Scale(1)
  {
  }

  /** Adding a stored value before rounding or after rounding is the same. */
  lemma StoreAdds(stored: nat, v: nat)
    ensures Store(Scale(stored) + v) == stored + Store(v)
  {
  }

  /** Subtracting first and rounding afterwards leaves one unit more exactly on a tie. */
  lemma StoreSubtracts(stored: nat, v: nat)
    requires v <= Scale(stored)
    ensures Store(Scale(stored) - v) == stored - Store(v) + (if Tie(v) then 1 else 0)
  {
  }

  lemma StoreExact(q: nat)
    ensures Store(Scale(q)) == q
    ensures !Tie(Scale(q))
  {
  }
}
