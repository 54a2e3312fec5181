/** The part of Go's `strings` package the exporter uses on access-technology names. */
module Text {

  predicate IsUpper(c: char) {
    'A' <= c <= 'Z'
  }

  function LowerChar(c: char): char {
    if IsUpper(c) then (c as int - 'A' as int + 'a' as int) as char else c
  }

  /** `strings.ToLower` on ASCII text: upper-case letters become lower-case, everything else stays. */
  function LowerAscii(s: string): (r: string)
    ensures |r| == |s|
    ensures forall i :: 0 <= i < |s| ==> r[i] == LowerChar(s[i])
  {
    if s == [] then [] else LowerAscii(s[..|s| - 1]) + [LowerChar(s[|s| - 1])]
  }

  /** Lower-casing leaves no upper-case letter behind and changes nothing else. */
  lemma LowerAsciiIsLower(s: string)
    ensures forall i :: 0 <= i < |s| ==> !IsUpper(LowerAscii(s)[i])
    ensures forall i :: 0 <= i < |s| && !IsUpper(s[i]) ==> LowerAscii(s)[i] == s[i]
  {
  }

  /** Lower-casing twice is lower-casing once. */
  lemma LowerAsciiIdempotent(s: string)
    ensures LowerAscii(LowerAscii(s)) == LowerAscii(s)
  {
    LowerAsciiIsLower(s);
  }
}
