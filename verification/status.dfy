/** The numeric encoding of the `ups.status` field: a fixed, ordinal (not
    alphabetical) table of twelve status tokens. */
module Status {
  import opened Wrappers

  /** The status tokens, in the order of their codes. */
  const StatusTokens: seq<string> :=
    ["CAL", "TRIM", "BOOST", "OL", "OB", "OVER", "LB", "RB", "BYPASS", "OFF", "CHRG", "DISCHRG"]

  /** The gauge value a status token is encoded as, or None for a token
      outside the table (the `switch` has no default branch, so such a
      token sets nothing). */
  function StatusCode(token: string): (r: Option<nat>)
    ensures r.Some? <==> token in StatusTokens
    ensures r.Some? ==> r.value < |StatusTokens| && StatusTokens[r.value] == token
  {
    match token
    case "CAL" => Some(0)
    case "TRIM" => Some(1)
    case "BOOST" => Some(2)
    case "OL" => Some(3)
    case "OB" => Some(4)
    case "OVER" => Some(5)
    case "LB" => Some(6)
    case "RB" => Some(7)
    case "BYPASS" => Some(8)
    case "OFF" => Some(9)
    case "CHRG" => Some(10)
    case "DISCHRG" => Some(11)
    case _ => None
  }

  /** No token appears twice in the table. */
  lemma StatusTokensDistinct()
    ensures forall i, j :: 0 <= i < j < |StatusTokens| ==> StatusTokens[i] != StatusTokens[j]
  {
  }

  /** The i-th token of the table is encoded as i: the codes are exactly
      0..11, in table order, and distinct tokens get distinct codes. */
  lemma StatusCodeIsPosition(i: int)
    requires 0 <= i < |StatusTokens|
    ensures StatusCode(StatusTokens[i]) == Some(i)
  {
    StatusTokensDistinct();
  }

  /** The encoding is injective on the tokens it knows. */
  lemma StatusCodeInjective(a: string, b: string)
    requires StatusCode(a).Some? && StatusCode(a) == StatusCode(b)
    ensures a == b
  {
  }
}
