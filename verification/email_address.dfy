/**
 * The e-mail validation attribute (`CustomEmailAddress.IsValid`): null is
 * valid, a value that is not a string is not, and a string is valid when
 * it matches `^[^@\s]+@[^@\s]+\.[^@\s]+$` (case-insensitively, which
 * changes nothing for this pattern).
 *
 * In .NET, `$` without the multi-line option matches at the very end or
 * just before a final '\n'. The pattern therefore also accepts a valid
 * address followed by one line feed; `AsWrittenShape` models that, and
 * `AddressShape` is the shape the validator means to accept (the pattern
 * with `\z`).
 */
module EmailAddress {
  import opened Text

  /** The validated value: null, a string, or some other object. */
  datatype Value = Null | Str(s: string) | NotAString

  /** A character the class `[^@\s]` accepts. */
  predicate Plain(c: char) {
    c != '@' && !IsWhiteSpace(c)
  }

  /**
   * `t` is local part, '@', domain, where the domain holds a '.' that is
   * neither its first nor its last character, and every character other
   * than that '@' is `Plain`.
   */
  predicate Splits(t: string, i: int, j: int) {
    && 1 <= i && i + 2 <= j && j + 2 <= |t|
    && t[i] == '@' && t[j] == '.'
    && forall k | 0 <= k < |t| && k != i :: Plain(t[k])
  }

  /** The intended shape: the pattern anchored at the very end. */
  ghost predicate AddressShape(t: string) {
    exists i, j :: Splits(t, i, j)
  }

  /** The pattern as .NET runs it: `$` also matches before a final line feed. */
  ghost predicate AsWrittenShape(s: string) {
    || AddressShape(s)
    || (|s| > 0 && s[|s| - 1] == '\n' && AddressShape(s[..|s| - 1]))
  }

  /** Decides `AddressShape` in three scans: find the '@', check the other characters, find the '.'. */
  method MatchesAddress(t: string) returns (b: bool)
    ensures b <==> AddressShape(t)
  {
    var i := 0;
    while i < |t| && t[i] != '@'
      invariant 0 <= i <= |t|
      invariant forall m | 0 <= m < i :: t[m] != '@'
    {
      i := i + 1;
    }
    if i == |t| || i == 0 {
      assert forall a, c | Splits(t, a, c) :: t[a] == '@' && Plain(t[0]) by {
        forall a, c | Splits(t, a, c) ensures t[a] == '@' && Plain(t[0]) {
          assert 0 != a;
        }
      }
      return false;
    }
    // From here on every witness of `AddressShape` puts its '@' at `i`.
    assert forall a, c | Splits(t, a, c) :: a == i;
    var k := 0;
    while k < |t|
      invariant 0 <= k <= |t|
      invariant forall m | 0 <= m < k && m != i :: Plain(t[m])
    {
      if k != i && !Plain(t[k]) {
        return false;
      }
      k := k + 1;
    }
    var j := i + 2;
    while j + 1 < |t|
      invariant i + 2 <= j
      invariant forall m | i + 2 <= m < j && m + 1 < |t| :: t[m] != '.'
    {
      if t[j] == '.' {
        assert Splits(t, i, j);
        return true;
      }
      j := j + 1;
    }
    return false;
  }

  /** `IsValid`, as written: null passes, a non-string fails, a string must match the pattern. */
  method IsValid(v: Value) returns (b: bool)
    ensures v == Null ==> b
    ensures v == NotAString ==> !b
    ensures v.Str? ==> (b <==> AsWrittenShape(v.s))
  {
    match v
    case Null => return true;
    case NotAString => return false;
    case Str(s) =>
      b := MatchesAddress(s);
      if !b && |s| > 0 && s[|s| - 1] == '\n' {
        b := MatchesAddress(s[..|s| - 1]);
      }
  }

  /** `IsValid` with the pattern anchored by `\z`: exactly the intended shape. */
  method IsValidAnchored(v: Value) returns (b: bool)
    ensures v == Null ==> b
    ensures v == NotAString ==> !b
    ensures v.Str? ==> (b <==> AddressShape(v.s))
  {
    match v
    case Null => return true;
    case NotAString => return false;
    case Str(s) => b := MatchesAddress(s);
  }

  /** An accepted address has exactly one '@' and no whitespace at all. */
  lemma OneAtNoWhitespace(t: string)
    requires AddressShape(t)
    ensures forall a, c | 0 <= a < |t| && 0 <= c < |t| && t[a] == '@' && t[c] == '@' :: a == c
    ensures forall k | 0 <= k < |t| :: !IsWhiteSpace(t[k])
  {
    var i, j :| Splits(t, i, j);
  }

  /** The empty string, and any string that starts or ends with '@', is rejected. */
  lemma AtAtEitherEndRejected(t: string)
    requires t == "" || t[0] == '@' || t[|t| - 1] == '@'
    ensures !AddressShape(t)
    ensures !AsWrittenShape(t)
  {
  }

  /** A domain without a '.' inside it is rejected: "a@b" and "a@.b" fail, "a@b.c" passes. */
  lemma DomainNeedsInnerDot()
    ensures !AddressShape("a@b") && !AddressShape("a@.b")
    ensures AddressShape("a@b.c")
  {
    assert Splits("a@b.c", 1, 3);
  }

  /**
   * The pattern as written accepts "a@b.c" followed by a line feed, a
   * string with whitespace in it; the anchored shape rejects it.
   */
  lemma TrailingLineFeedAccepted()
    ensures AsWrittenShape("a@b.c\n")
    ensures !AddressShape("a@b.c\n")
  {
    assert "a@b.c\n"[..5] == "a@b.c";
    assert Splits("a@b.c", 1, 3);
    if AddressShape("a@b.c\n") {
      OneAtNoWhitespace("a@b.c\n");
      assert IsWhiteSpace("a@b.c\n"[5]);
    }
  }

  /** The only strings the two anchorings disagree on end in a line feed. */
  lemma AnchoringsDifferOnlyAtFinalLineFeed(s: string)
    requires AsWrittenShape(s) != AddressShape(s)
    ensures |s| > 0 && s[|s| - 1] == '\n' && AsWrittenShape(s) && AddressShape(s[..|s| - 1])
  {
  }
}
