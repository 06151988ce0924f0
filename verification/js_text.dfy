/** `String.prototype.trim` as the board uses it on draft titles and descriptions. */
module JsText {

  /** The code points ECMAScript's `trim` removes: the WhiteSpace set (tab, vertical tab,
      form feed, space, no-break space, byte order mark and the Unicode `Zs` category)
      together with the LineTerminator set (line feed, carriage return, line and
      paragraph separators). */
  predicate IsWhiteSpace(c: char) {
    || c == '\t' || c == '\n' || c == '\U{000B}' || c == '\U{000C}' || c == '\r'
    || c == ' ' || c == '\U{00A0}' || c == '\U{1680}'
    || ('\U{2000}' <= c <= '\U{200A}')
    || c == '\U{2028}' || c == '\U{2029}' || c == '\U{202F}' || c == '\U{205F}'
    || c == '\U{3000}' || c == '\U{FEFF}'
  }

  /** Every character of `s` is white space (vacuously true of the empty string). */
  predicate AllWhiteSpace(s: string) {
    forall i :: 0 <= i < |s| ==> IsWhiteSpace(s[i])
  }

  /** The number of white-space characters `s` starts with. */
  function LeadingWhiteSpace(s: string): (n: nat)
    ensures n <= |s|
    ensures forall i :: 0 <= i < n ==> IsWhiteSpace(s[i])
    ensures n < |s| ==> !IsWhiteSpace(s[n])
  {
    if |s| > 0 && IsWhiteSpace(s[0]) then 1 + LeadingWhiteSpace(s[1..]) else 0
  }

  /** The number of white-space characters `s` ends with. */
  function TrailingWhiteSpace(s: string): (n: nat)
    ensures n <= |s|
    ensures forall i :: |s| - n <= i < |s| ==> IsWhiteSpace(s[i])
    ensures n < |s| ==> !IsWhiteSpace(s[|s| - n - 1])
  {
    if |s| > 0 && IsWhiteSpace(s[|s| - 1]) then 1 + TrailingWhiteSpace(s[..|s| - 1]) else 0
  }

  /** `s.trim()`: the infix of `s` left after removing white space at both ends.
      Only white space lies outside it; it is empty exactly when `s` is all
      white space, and otherwise it begins and ends with a character that is
      not white space. */
  function Trim(s: string): (r: string)
    ensures var a := LeadingWhiteSpace(s);
      && a + |r| <= |s|
      && r == s[a..a + |r|]
      && (forall i :: 0 <= i < a ==> IsWhiteSpace(s[i]))
      && (forall i :: a + |r| <= i < |s| ==> IsWhiteSpace(s[i]))
    ensures |r| > 0 ==> !IsWhiteSpace(r[0]) && !IsWhiteSpace(r[|r| - 1])
    ensures r == [] <==> AllWhiteSpace(s)
  {
    var a := LeadingWhiteSpace(s);
    var u := s[a..];
    var z := TrailingWhiteSpace(u);
    assert forall i :: a + |u| - z <= i < |s| ==> IsWhiteSpace(s[i]) by {
      forall i | a + |u| - z <= i < |s| ensures IsWhiteSpace(s[i]) {
        assert s[i] == u[i - a];
      }
    }
    assert |u| - z == 0 ==> AllWhiteSpace(s);
    assert AllWhiteSpace(s) ==> |u| == 0 by {
      if a < |s| {
        assert !IsWhiteSpace(s[a]);
      }
    }
    s[a..a + |u| - z]
  }

  /** Trimming a trimmed string changes nothing. */
  lemma TrimIdempotent(s: string)
    ensures Trim(Trim(s)) == Trim(s)
  {
  }
}
