/** The string comparisons the handlers use: `StringComparison.OrdinalIgnoreCase`
    and `string.IsNullOrEmpty`. */
module Ordinal {
  import opened Wrappers

  /** Upper-case folding of one character, as OrdinalIgnoreCase does for the
      ASCII letters. */
  function FoldCase(c: char): (u: char)
    ensures !('a' <= u <= 'z')
    ensures u != c ==> 'a' <= c <= 'z' && u as int == c as int - 32
  {
    if 'a' <= c <= 'z' then (c as int - 32) as char else c
  }

  /** `a.Equals(b, StringComparison.OrdinalIgnoreCase)`. */
  predicate EqualsIgnoreCase(a: string, b: string) {
    |a| == |b| && forall i | 0 <= i < |a| :: FoldCase(a[i]) == FoldCase(b[i])
  }

  /** `string.IsNullOrEmpty`, with null as `None`. */
  predicate IsNullOrEmpty(s: Option<string>) {
    s.None? || s.value == ""
  }

  /** The comparison is an equivalence that contains ordinary equality and
      identifies the two cases of each ASCII letter. */
  lemma EqualsIgnoreCaseIsEquivalence(a: string, b: string, c: string)
    ensures EqualsIgnoreCase(a, a)
    ensures EqualsIgnoreCase(a, b) ==> EqualsIgnoreCase(b, a)
    ensures EqualsIgnoreCase(a, b) && EqualsIgnoreCase(b, c) ==> EqualsIgnoreCase(a, c)
  {
  }

  lemma EqualsIgnoreCaseExamples()
    ensures EqualsIgnoreCase("bcn", "BCN")
    ensures EqualsIgnoreCase("Par", "pAR")
    ensures !EqualsIgnoreCase("BCN", "BCNX")
    ensures !EqualsIgnoreCase("BCN", "MAD")
  {
    assert "BCN"[0] == 'B' && "MAD"[0] == 'M';
    assert FoldCase("BCN"[0]) != FoldCase("MAD"[0]);
  }
}
