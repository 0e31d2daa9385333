/** White space in strings of code points. */
module WhiteSpace {
  /** What unicode.IsSpace says. */
  predicate Space(c: char) {
    '\t' <= c <= '\r' || c == ' ' || c == '\U{85}' || c == '\U{A0}' || c == '\U{1680}' || '\U{2000}' <= c <= '\U{200a}'
    || c == '\U{2028}' || c == '\U{2029}' || c == '\U{202f}' || c == '\U{205f}' || c == '\U{3000}'
  }

  /** strings.TrimSpace. */
  function Trimmed(s: string): (r: string)
    ensures r != "" ==> !Space(r[0]) && !Space(r[|r| - 1])
  {
    if s == "" then ""
    else if Space(s[0]) then Trimmed(s[1..])
    else if Space(s[|s| - 1]) then Trimmed(s[..|s| - 1])
    else s
  }

  predicate Blank(s: string) {
    forall i :: 0 <= i < |s| ==> Space(s[i])
  }

  /** What is trimmed is white space on either side. */
  lemma {:induction false} TrimmedIsMiddle(s: string) returns (left: string, right: string)
    ensures s == left + Trimmed(s) + right && Blank(left) && Blank(right)
  {
    hide Space;
    left, right := "", "";
    if s == "" {
    } else if Space(s[0]) {
      left, right := TrimmedIsMiddle(s[1..]);
      left := [s[0]] + left;
    } else if Space(s[|s| - 1]) {
      left, right := TrimmedIsMiddle(s[..|s| - 1]);
      right := right + [s[|s| - 1]];
    }
  }
}
