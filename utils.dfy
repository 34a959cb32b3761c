/** The address shortener of the frontend (utils.js): the first four characters, an
    ellipsis, the last four. */
module Utils {
  import opened Common
  import opened JsString

  const Ellipsis := "..."

  /** truncateAddress: a missing or empty address gives the empty string; otherwise
      `address.substring(0, 4)`, the ellipsis, and `address.substring(length - 4)`. */
  function TruncateAddress(address: Option<string>): (r: string)
    ensures address == None || address == Some("") <==> r == ""
  {
    match address
    case None => ""
    case Some(a) =>
      if a == "" then "" else Substring(a, 0, 4) + Ellipsis + Substring(a, |a| - 4, |a|)
  }

  function Min(x: int, y: int): int {
    if x <= y then x else y
  }

  function Max(x: int, y: int): int {
    if x >= y then x else y
  }

  /** The shortened form of a non-empty address `a` of length n is its first min(4, n)
      characters, then the ellipsis, then its last min(4, n) characters, so it has length
      2 * min(4, n) + 3. */
  lemma TruncateAddressShape(a: string)
    requires a != ""
    ensures TruncateAddress(Some(a)) == a[..Min(4, |a|)] + Ellipsis + a[Max(0, |a| - 4)..]
    ensures |TruncateAddress(Some(a))| == 2 * Min(4, |a|) + 3
  {
    assert Substring(a, 0, 4) == a[..Min(4, |a|)];
    assert Substring(a, |a| - 4, |a|) == a[Max(0, |a| - 4)..];
  }

  /** An address shorter than four characters appears whole on both sides of the ellipsis:
      the start `length - 4` is negative and `substring` clamps it to 0. */
  lemma {:induction false} ShortAddressRepeats(a: string)
    requires 0 < |a| < 4
    ensures TruncateAddress(Some(a)) == a + Ellipsis + a
  {
    TruncateAddressShape(a);
    assert a[..|a|] == a;
  }

  /** An address of at least eight characters keeps its first four and last four. */
  lemma {:induction false} LongAddressKeepsEnds(a: string)
    requires |a| >= 8
    ensures var r := TruncateAddress(Some(a));
            |r| == 11 && r[..4] == a[..4] && r[4..7] == Ellipsis && r[7..] == a[|a| - 4..]
  {
    TruncateAddressShape(a);
  }
}
