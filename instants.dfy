/**
 * Operations on the instant a `Date` stands for, its `getTime()` value in
 * milliseconds since the epoch: whole days between two instants, comparison,
 * the ordering and range predicates, and adding a fixed number of time units.
 * A missing operand (`null` or `undefined`) is `None`.
 */
module Instants {
  import opened Wrappers
  import opened JsSemantics

  const MsPerDay := 86400000

  /** `Date.daysBetween(start, end)`: `Math.round(Math.abs(end - start) / 86400000)`,
      rounding half up, written exactly on integers. It is the whole number of
      days nearest to the distance between the two instants. */
  function DaysBetween(start: int, end: int): (r: nat)
    ensures r * MsPerDay - MsPerDay / 2 <= Abs(end - start) < r * MsPerDay + MsPerDay / 2
  {
    (Abs(end - start) + MsPerDay / 2) / MsPerDay
  }

  /** The distance in days does not depend on the order of the instants and is 0 from an instant to itself. */
  lemma DaysBetweenSymmetric(a: int, b: int)
    ensures DaysBetween(a, b) == DaysBetween(b, a)
    ensures DaysBetween(a, a) == 0
  {
  }

  /** Any instants whose distance is within half a day of `n` whole days are
      `n` days apart; in particular consecutive local midnights, which are 23,
      24 or 25 hours apart, are one day apart. */
  lemma DaysBetweenNearest(a: int, b: int, n: nat)
    requires n * MsPerDay - MsPerDay / 2 <= Abs(b - a) < n * MsPerDay + MsPerDay / 2
    ensures DaysBetween(a, b) == n
  {
  }

  /** Two local midnights on consecutive days, 23 to 25 hours apart across a
      daylight-saving change, are one day apart in either order. */
  lemma ConsecutiveMidnights(a: int, b: int)
    requires 23 * 3600000 <= b - a <= 25 * 3600000
    ensures DaysBetween(a, b) == 1 && DaysBetween(b, a) == 1
  {
    DaysBetweenNearest(a, b, 1);
    DaysBetweenSymmetric(a, b);
  }

  /** `a.compare(other)`: 1, -1 or 0 by the sign of `a - other`; 0 when `other` is missing. */
  function Compare(a: int, other: Option<int>): (r: int)
    ensures r in {-1, 0, 1}
    ensures other.None? ==> r == 0
    ensures other.Some? ==> (r == 1 <==> a > other.value) && (r == -1 <==> a < other.value)
  {
    if other.None? then 0
    else if a > other.value then 1
    else if a < other.value then -1
    else 0
  }

  /** `a.isEqualTo(other)`: what `compare` calls equal, but false for a missing operand. */
  function IsEqualTo(a: int, other: Option<int>): (r: bool)
    ensures other.Some? ==> (r <==> Compare(a, other) == 0)
    ensures other.None? ==> !r
  {
    other.Some? && a == other.value
  }

  /** `a.isAfter(other)`: exactly where `compare` gives 1. */
  function IsAfter(a: int, other: Option<int>): (r: bool)
    ensures r <==> Compare(a, other) == 1
  {
    other.Some? && a > other.value
  }

  /** `a.isBefore(other)`: exactly where `compare` gives -1. */
  function IsBefore(a: int, other: Option<int>): (r: bool)
    ensures r <==> Compare(a, other) == -1
  {
    other.Some? && a < other.value
  }

  /** The predicates agree with `compare` whenever the operand is present, and
      exactly one of them holds; with a missing operand `compare` says "equal"
      while all three predicates say false. */
  lemma ComparePredicates(a: int, other: Option<int>)
    ensures other.Some? ==> (Compare(a, other) == 1 <==> IsAfter(a, other))
    ensures other.Some? ==> (Compare(a, other) == -1 <==> IsBefore(a, other))
    ensures other.Some? ==> (Compare(a, other) == 0 <==> IsEqualTo(a, other))
    ensures other.Some? ==> (IsAfter(a, other) || IsBefore(a, other) || IsEqualTo(a, other))
    ensures !(IsAfter(a, other) && IsBefore(a, other))
    ensures other.None? ==> Compare(a, other) == 0 && !IsEqualTo(a, other) && !IsAfter(a, other) && !IsBefore(a, other)
  {
  }

  /** Comparison is antisymmetric: swapping the operands negates `compare` and swaps after and before. */
  lemma CompareAntisymmetric(a: int, b: int)
    ensures Compare(a, Some(b)) == -Compare(b, Some(a))
    ensures IsAfter(a, Some(b)) == IsBefore(b, Some(a))
  {
  }

  /** `a.isBetween(start, end)`: within the closed range spanned by the two
      bounds, in either order; false if a bound is missing. */
  function IsBetween(a: int, start: Option<int>, end: Option<int>): (r: bool)
    ensures r <==> start.Some? && end.Some? && Min(start.value, end.value) <= a <= Max(start.value, end.value)
  {
    if start.Some? && end.Some? then
      var s := start.value;
      var e := end.value;
      (a >= s && a <= e) || (a >= e && a <= s)
    else false
  }

  /** The bounds of `isBetween` may be given in either order, and both are included. */
  lemma IsBetweenSymmetric(a: int, start: Option<int>, end: Option<int>)
    ensures IsBetween(a, start, end) == IsBetween(a, end, start)
    ensures start.Some? && end.Some? ==> IsBetween(start.value, start, end) && IsBetween(end.value, start, end)
  {
  }

  /** `d.addMs(n)`: `n` milliseconds later. The new instant is after, equal to
      or before the old one as `n` is positive, zero or negative, and its
      distance in days from the old one depends on `n` alone. */
  function AddMs(t: int, n: int): (r: int)
    ensures Compare(r, Some(t)) == Compare(n, Some(0))
    ensures DaysBetween(t, r) == DaysBetween(0, n)
  {
    t + n
  }

  /** `d.addSeconds(n)`: the same instant as adding `n * 1000` milliseconds. */
  function AddSeconds(t: int, n: int): (r: int)
    ensures r == AddMs(t, n * 1000)
    ensures Compare(r, Some(t)) == Compare(n, Some(0))
  {
    t + n * 1000
  }

  /** `d.addMinutes(n)`: the same instant as adding `60 * n` seconds. */
  function AddMinutes(t: int, n: int): (r: int)
    ensures r == AddSeconds(t, 60 * n)
  {
    t + n * 60000
  }

  /** `d.addHours(n)`: the same instant as adding `60 * n` minutes. */
  function AddHours(t: int, n: int): (r: int)
    ensures r == AddMinutes(t, 60 * n)
  {
    t + n * 3600000
  }

  /** Adding zero of any unit gives back the instant; adding then subtracting
      the same amount restores it; additions compose. */
  lemma AddUnits(t: int, m: int, n: int)
    ensures AddMs(t, 0) == t && AddSeconds(t, 0) == t && AddMinutes(t, 0) == t && AddHours(t, 0) == t
    ensures AddHours(AddHours(t, n), -n) == t
    ensures AddMs(AddMs(t, m), n) == AddMs(t, m + n)
    ensures IsAfter(AddMs(t, n), Some(t)) <==> n > 0
  {
  }
}
