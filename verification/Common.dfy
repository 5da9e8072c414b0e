/** Shared vocabulary: optional values, results, and the identifiers of the system. */
module Common {

  datatype Option<+T> = None | Some(value: T)

  datatype Result<+T, +E> = Ok(value: T) | Err(error: E)

  // Identifiers are opaque strings in the system and are only compared, so naturals stand for them.
  type NodeId = nat
  type TaskId = nat
  type BidId = nat
  type MigrationId = nat

  function MinReal(a: real, b: real): real {
    if a <= b then a else b
  }

  function MaxReal(a: real, b: real): real {
    if a >= b then a else b
  }

  function Clamp(value: real, lower: real, upper: real): real {
    MaxReal(lower, MinReal(upper, value))
  }

  function Least(s: seq<real>): (x: real)
    requires s != []
    ensures x in s && forall i | 0 <= i < |s| :: x <= s[i]
  {
    if |s| == 1 then s[0]
    else
      var rest := Least(s[1..]);
      assert forall i | 1 <= i < |s| :: s[i] == s[1..][i - 1];
      MinReal(s[0], rest)
  }

  function Greatest(s: seq<real>): (x: real)
    requires s != []
    ensures x in s && forall i | 0 <= i < |s| :: s[i] <= x
  {
    if |s| == 1 then s[0]
    else
      var rest := Greatest(s[1..]);
      assert forall i | 1 <= i < |s| :: s[i] == s[1..][i - 1];
      MaxReal(s[0], rest)
  }

  // ---------- Signs ----------

  lemma ProductNonNegative(x: real, y: real)
    requires x >= 0.0 && y >= 0.0
    ensures x * y >= 0.0
  {
  }

  lemma ProductPositive(x: real, y: real)
    requires (x > 0.0 && y > 0.0) || (x < 0.0 && y < 0.0)
    ensures x * y > 0.0
  {
  }

  lemma QuotientNonNegative(x: real, y: real)
    requires x >= 0.0 && y > 0.0
    ensures x / y >= 0.0
  {
  }
}
