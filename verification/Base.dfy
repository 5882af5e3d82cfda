/** Values shared by every other module: optional values, tri-state evidence, 64-bit
    arithmetic and identifiers. */
module Base {

  datatype Option<+T> = None | Some(value: T)

  /** A fact is published, never published, or published twice with different values. */
  datatype Evidence<+T> = Known(value: T) | Unknown | Conflicting

  /** Identifiers are text; the different kinds of id are kept apart by the fields that hold them. */
  type Id = string

  const U64_SIZE: nat := 0x1_0000_0000_0000_0000

  /** The values of an unsigned 64-bit integer. */
  type u64 = x: int | 0 <= x < U64_SIZE

  /** Unchecked 64-bit addition: the sum wraps around. */
  function AddWrapping(lhs: u64, rhs: u64): (r: u64) {
    if lhs + rhs < U64_SIZE then lhs + rhs else lhs + rhs - U64_SIZE
  }

  /** Checked 64-bit addition, by comparing against what is left before the maximum. */
  function AddChecked(lhs: u64, rhs: u64): (r: Option<u64>)
    ensures r.Some? <==> lhs + rhs < U64_SIZE
    ensures r.Some? ==> r.value == lhs + rhs == AddWrapping(lhs, rhs)
  {
    if lhs > U64_SIZE - 1 - rhs then None else Some(lhs + rhs)
  }

  /** Opens the facts that are stated under a quantifier with this as its trigger. */
  predicate Unfold(go: bool) { go }

  predicate Distinct<T(==)>(s: seq<T>) {
    forall i, j :: 0 <= i < j < |s| ==> s[i] != s[j]
  }

  function Reverse<T>(s: seq<T>): seq<T> {
    if s == [] then [] else [s[|s| - 1]] + Reverse(s[..|s| - 1])
  }
}
