/** UTF-16 text as JavaScript counts it. */
module CodeUnits {

  newtype CodeUnit = x: int | 0 <= x < 0x1_0000

  type JsText = seq<CodeUnit>

  /** A string literal of the source as code units; every literal used here is in the basic plane. */
  function Units(s: string): JsText {
    seq(|s|, i requires 0 <= i < |s| => if s[i] as int < 0x1_0000 then s[i] as int as CodeUnit else 0xfffd)
  }

  /** The last `n` code units, or all of them. */
  function Last(t: JsText, n: nat): JsText {
    if |t| <= n then t else t[|t| - n..]
  }

  /** Trimming as text arrives keeps the same suffix as trimming at the end. */
  lemma LastOfAppended(t: JsText, u: JsText, n: nat)
    ensures Last(Last(t, n) + u, n) == Last(t + u, n)
  {
  }
}
