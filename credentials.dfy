/**
 * What the sign-in and sign-up screens share: JavaScript's whitespace and
 * `String.prototype.trim`, the e-mail shape check behind the green check
 * icon, and the alert texts both screens use.
 */
module Credentials {

  /** The alert for an empty e-mail or password field. */
  const EmptyFields := "Please enter both email and password."
  /** The alert for the provider's 'auth/invalid-email' code. */
  const InvalidEmailMessage := "That email address is invalid!"
  /** The alert for every failure without a dedicated message. */
  const GenericFailure := "Something went wrong. Please try again."

  /** ECMAScript's WhiteSpace and LineTerminator characters: what `trim`
      removes and what `\s` matches in a regular expression. */
  predicate IsWhitespace(c: char) {
    || c == '\t' || c == '\n' || c == '\U{B}' || c == '\U{C}' || c == '\r'
    || c == ' ' || c == '\U{A0}' || c == '\U{1680}'
    || ('\U{2000}' <= c <= '\U{200A}')
    || c == '\U{2028}' || c == '\U{2029}' || c == '\U{202F}' || c == '\U{205F}'
    || c == '\U{3000}' || c == '\U{FEFF}'
  }

  /** How many whitespace characters `s` starts with. */
  function Lead(s: string): (n: nat)
    ensures n <= |s|
    ensures forall k :: 0 <= k < n ==> IsWhitespace(s[k])
    ensures n < |s| ==> !IsWhitespace(s[n])
  {
    if |s| > 0 && IsWhitespace(s[0]) then
      var n := 1 + Lead(s[1..]);
      assert forall k :: 1 <= k < n ==> s[k] == s[1..][k - 1];
      n
    else 0
  }

  /** How many whitespace characters `s` ends with. */
  function Trail(s: string): (n: nat)
    ensures n <= |s|
    ensures forall k :: |s| - n <= k < |s| ==> IsWhitespace(s[k])
    ensures n < |s| ==> !IsWhitespace(s[|s| - 1 - n])
  {
    if |s| > 0 && IsWhitespace(s[|s| - 1]) then
      var n := 1 + Trail(s[..|s| - 1]);
      assert forall k :: |s| - n <= k < |s| - 1 ==> s[k] == s[..|s| - 1][k];
      n
    else 0
  }

  /** `s.trim()`: what lies between the leading and the trailing
      whitespace. Only whitespace is cut off, and the result neither starts
      nor ends with whitespace. */
  function Trim(s: string): (r: string)
    ensures Lead(s) + |r| <= |s| && r == s[Lead(s)..Lead(s) + |r|]
    ensures forall k :: 0 <= k < |s| && (k < Lead(s) || Lead(s) + |r| <= k) ==> IsWhitespace(s[k])
    ensures |r| > 0 ==> !IsWhitespace(r[0]) && !IsWhitespace(r[|r| - 1])
  {
    if Lead(s) == |s| then ""
    else
      assert Lead(s) < |s| - Trail(s);
      s[Lead(s)..|s| - Trail(s)]
  }

  /** The character class `[^\s@]`. */
  predicate Plain(c: char) {
    !IsWhitespace(c) && c != '@'
  }

  predicate AllPlain(s: string) {
    forall k :: 0 <= k < |s| ==> Plain(s[k])
  }

  /** The strings the regular expression `^[^\s@]+@[^\s@]+\.[^\s@]+$`
      accepts: three non-empty runs of plain characters, the first two
      separated by '@' and the last two by '.'. */
  predicate MatchesEmailPattern(t: string) {
    exists i, j :: 0 < i && i + 1 < j && j + 1 < |t| && t[i] == '@' && t[j] == '.'
      && AllPlain(t[..i]) && AllPlain(t[i + 1..j]) && AllPlain(t[j + 1..])
  }

  /** The index of the first `c` in `s`, or `|s|` when there is none. */
  function FirstIndex(s: string, c: char): (r: nat)
    ensures r <= |s|
    ensures r < |s| ==> s[r] == c
    ensures forall k :: 0 <= k < r ==> s[k] != c
  {
    if |s| == 0 then 0
    else if s[0] == c then 0
    else 1 + FirstIndex(s[1..], c)
  }

  /** `d` has a '.' that is neither its first nor its last character. */
  predicate HasInnerDot(d: string) {
    exists j :: 0 < j < |d| - 1 && d[j] == '.'
  }

  /** The shape check in plain terms: no whitespace, exactly one '@' and it
      is not the first character, and a '.' strictly inside what follows. */
  predicate EmailShape(t: string) {
    var i := FirstIndex(t, '@');
    && 0 < i < |t|
    && (forall k :: 0 <= k < |t| ==> !IsWhitespace(t[k]))
    && (forall k :: 0 <= k < |t| && t[k] == '@' ==> k == i)
    && HasInnerDot(t[i + 1..])
  }

  lemma PatternGivesShape(t: string)
    requires MatchesEmailPattern(t)
    ensures EmailShape(t)
  {
    var i, j :| 0 < i && i + 1 < j && j + 1 < |t| && t[i] == '@' && t[j] == '.'
      && AllPlain(t[..i]) && AllPlain(t[i + 1..j]) && AllPlain(t[j + 1..]);
    forall k | 0 <= k < |t| && k != i && k != j ensures Plain(t[k]) {
      if k < i {
        assert t[k] == t[..i][k];
      } else if k < j {
        assert t[k] == t[i + 1..j][k - i - 1];
      } else {
        assert t[k] == t[j + 1..][k - j - 1];
      }
    }
    assert FirstIndex(t, '@') == i;
    var d := t[i + 1..];
    assert d[j - i - 1] == '.';
  }

  lemma ShapeGivesPattern(t: string)
    requires EmailShape(t)
    ensures MatchesEmailPattern(t)
  {
    var i := FirstIndex(t, '@');
    var d := t[i + 1..];
    var j' :| 0 < j' < |d| - 1 && d[j'] == '.';
    var j := i + 1 + j';
    assert t[j] == '.';
    forall k | 0 <= k < |t| && k != i ensures Plain(t[k]) {
    }
    assert AllPlain(t[..i]);
    assert AllPlain(t[i + 1..j]);
    assert AllPlain(t[j + 1..]);
  }

  /** `isValidEmail`: the trimmed input matches the pattern, which holds
      exactly when the trimmed input has the plain shape above. */
  predicate IsValidEmail(email: string)
    ensures IsValidEmail(email) <==> EmailShape(Trim(email))
  {
    var t := Trim(email);
    if MatchesEmailPattern(t) then PatternGivesShape(t); true
    else if EmailShape(t) then ShapeGivesPattern(t); false
    else false
  }
}
