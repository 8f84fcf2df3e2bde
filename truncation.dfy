/** The label-shortening rule applied when a box's text is drawn. */
module Truncation {

  /** The suffix appended to a shortened label, held as one constant. */
  const Ellipsis: string := "\U{2026}"

  function Max(a: int, b: int): int {
    if a < b then b else a
  }

  /** Python's t[:k], where a negative k counts from the end of t. */
  function PrefixSlice(t: string, k: int): (p: string)
    ensures |p| <= |t| && p == t[..|p|]
    ensures 0 <= k <= |t| ==> |p| == k
    ensures k > |t| ==> p == t
    ensures k < 0 ==> |p| == Max(0, |t| + k)
  {
    if k >= 0 then (if k <= |t| then t[..k] else t)
    else t[..Max(0, |t| + k)]
  }

  /** A label longer than maxChars keeps its first maxChars - 1 characters (in
      Python's slice sense) and gets the ellipsis; a shorter one is kept. */
  function Truncate(t: string, maxChars: int): (d: string)
    ensures |t| <= maxChars ==> d == t
    ensures |t| > maxChars ==> |Ellipsis| <= |d| && d[|d| - |Ellipsis|..] == Ellipsis
  {
    if |t| > maxChars then PrefixSlice(t, maxChars - 1) + Ellipsis else t
  }

  /** A label that fits is drawn as it is; a longer one, for a positive limit,
      becomes its first maxChars - 1 characters and the ellipsis, so it takes
      maxChars - 1 + |Ellipsis| characters. */
  lemma TruncateSpec(t: string, maxChars: int)
    ensures |t| <= maxChars ==> Truncate(t, maxChars) == t
    ensures |t| > maxChars >= 1 ==>
      Truncate(t, maxChars) == t[..maxChars - 1] + Ellipsis
      && |Truncate(t, maxChars)| == maxChars - 1 + |Ellipsis|
  {
  }

  /** For a limit of zero or less the slice index is negative and counts from
      the end: t loses its last 1 - maxChars characters (all of them once
      that reaches |t|) before the ellipsis is appended. */
  lemma TruncateNonPositiveLimit(t: string, maxChars: int)
    requires maxChars <= 0 && |t| > maxChars
    ensures Truncate(t, maxChars) == t[..Max(0, |t| + maxChars - 1)] + Ellipsis
  {
  }

  /** Every drawn label is a prefix of the text, followed by the ellipsis
      exactly when the text was too long; with a one-character ellipsis a
      shortened label is never longer than the limit. */
  lemma TruncateIsPrefix(t: string, maxChars: int)
    ensures var d := Truncate(t, maxChars);
      (|t| <= maxChars ==> d == t)
      && (|t| > maxChars ==> |Ellipsis| <= |d| <= |t| + |Ellipsis|
                             && d == t[..|d| - |Ellipsis|] + Ellipsis)
    ensures maxChars >= 1 ==> |Truncate(t, maxChars)| <= maxChars - 1 + |Ellipsis|
    ensures maxChars >= 1 ==> |Truncate(t, maxChars)| <= maxChars
  {
    if |t| > maxChars {
      var p := PrefixSlice(t, maxChars - 1);
      assert Truncate(t, maxChars) == p + Ellipsis;
    }
  }

  /** Truncating twice with the same limit changes nothing more, as long as the
      limit is positive. */
  lemma TruncateIdempotent(t: string, maxChars: int)
    requires maxChars >= 1
    ensures Truncate(Truncate(t, maxChars), maxChars) == Truncate(t, maxChars)
  {
    TruncateIsPrefix(t, maxChars);
  }
}
