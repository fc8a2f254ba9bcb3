/**
 * String helpers shared by the controllers and the authentication handler:
 * case folding, ordinal substring search and character classes.
 *
 * Case folding is the simple lower-casing of Latin-1 (ASCII `A`..`Z` and
 * U+00C0..U+00DE except U+00D7); characters outside that range are left as
 * they are. That covers every literal the source compares against
 * ("aceito", "recusado", "médico", "paciente").
 */
module Text {
  import opened Wrappers

  function LowerChar(c: char): (r: char)
    ensures 'A' <= c <= 'Z' ==> r == (c as int + 32) as char
    ensures !('A' <= c <= 'Z') && !('\U{00C0}' <= c <= '\U{00DE}') ==> r == c
  {
    if 'A' <= c <= 'Z' || ('\U{00C0}' <= c <= '\U{00DE}' && c != '\U{00D7}') then
      (c as int + 32) as char
    else
      c
  }

  /** `ToLower` restricted to Latin-1. */
  function Lower(s: string): (r: string)
    ensures |r| == |s|
    ensures forall i | 0 <= i < |s| :: r[i] == LowerChar(s[i])
  {
    seq(|s|, i requires 0 <= i < |s| => LowerChar(s[i]))
  }

  /** Lower-casing twice is lower-casing once. */
  lemma LowerIdempotent(s: string)
    ensures Lower(Lower(s)) == Lower(s)
  {
    assert forall i | 0 <= i < |s| :: LowerChar(LowerChar(s[i])) == LowerChar(s[i]);
  }

  /** `StringComparison.OrdinalIgnoreCase` equality. */
  predicate EqualsIgnoreCase(a: string, b: string) {
    Lower(a) == Lower(b)
  }

  /** `q` occurs in `s` starting at index `i`. */
  predicate OccursAt(s: string, q: string, i: int) {
    0 <= i && i + |q| <= |s| && s[i..i + |q|] == q
  }

  /** `s.Contains(q)`: a left-to-right scan for an occurrence of `q`. */
  function Contains(s: string, q: string): (r: bool)
    ensures r <==> exists i :: OccursAt(s, q, i)
    decreases |s|
  {
    if |q| > |s| then
      assert forall i :: !OccursAt(s, q, i);
      false
    else if s[..|q|] == q then
      assert OccursAt(s, q, 0);
      true
    else
      var r := Contains(s[1..], q);
      ShiftOccurrence(s, q);
      r
  }

  /** An occurrence in `s[1..]` is an occurrence in `s` one place later. */
  lemma ShiftOccurrence(s: string, q: string)
    requires |s| > 0
    requires |q| <= |s| && s[..|q|] != q
    ensures (exists i :: OccursAt(s[1..], q, i)) <==> (exists i :: OccursAt(s, q, i))
  {
    forall i | OccursAt(s[1..], q, i)
      ensures OccursAt(s, q, i + 1)
    {
      assert s[1..][i..i + |q|] == s[i + 1..i + 1 + |q|];
    }
    forall i | OccursAt(s, q, i)
      ensures i >= 1 && OccursAt(s[1..], q, i - 1)
    {
      if i == 0 {
        assert false;
      }
      assert s[1..][i - 1..i - 1 + |q|] == s[i..i + |q|];
    }
  }

  /** `s.Contains(q, StringComparison.OrdinalIgnoreCase)`. */
  predicate ContainsIgnoreCase(s: string, q: string) {
    Contains(Lower(s), Lower(q))
  }

  /** `string.IsNullOrEmpty`. */
  predicate IsNullOrEmpty(s: Option<string>) {
    s.None? || s.value == ""
  }

  /** `char.IsDigit`, restricted to the ASCII digits. */
  predicate IsDigit(c: char) {
    '0' <= c <= '9'
  }

  /** The characters .NET's `\s` matches: `char.IsWhiteSpace` for UTF-16 code units. */
  predicate IsWhiteSpace(c: char) {
    || c == ' ' || c == '\t' || c == '\n' || c == '\U{000B}' || c == '\U{000C}' || c == '\r'
    || c == '\U{0085}' || c == '\U{00A0}' || c == '\U{1680}'
    || ('\U{2000}' <= c <= '\U{200A}')
    || c == '\U{2028}' || c == '\U{2029}' || c == '\U{202F}' || c == '\U{205F}' || c == '\U{3000}'
  }
}
