/** The validation constants of the application: the password rule and the
    bounds of the pagination query parameters. */
module AppUtil {
  import opened Common

  /** The line terminators of JavaScript regular expressions, which `.` does not match. */
  predicate IsLineTerminator(c: char) {
    c == '\n' || c == '\r' || c == '\U{2028}' || c == '\U{2029}'
  }

  predicate IsUpper(c: char) { 'A' <= c <= 'Z' }
  predicate IsLower(c: char) { 'a' <= c <= 'z' }
  predicate IsDigit(c: char) { '0' <= c <= '9' }

  /** The class `[#?!@$%^&*-]`; the trailing `-` is a literal hyphen. */
  predicate IsSpecial(c: char) {
    c == '#' || c == '?' || c == '!' || c == '@' || c == '$' || c == '%' ||
    c == '^' || c == '&' || c == '*' || c == '-'
  }

  /** The lookahead `(?=.*?[class])` from the start of the input: scan forward over
      characters `.` matches until one of the class appears. */
  function Lookahead(s: string, cls: char -> bool): bool
    requires forall c :: cls(c) ==> !IsLineTerminator(c)
  {
    if s == [] then false
    else if cls(s[0]) then true
    else if IsLineTerminator(s[0]) then false
    else Lookahead(s[1..], cls)
  }

  /** The length JavaScript gives `s`: its number of UTF-16 code units. A
      character outside the Basic Multilingual Plane is a surrogate pair and
      counts twice. */
  function CodeUnits(s: string): (n: nat)
    ensures |s| <= n <= 2 * |s|
  {
    if s == [] then 0 else (if s[0] as int >= 0x1_0000 then 2 else 1) + CodeUnits(s[1..])
  }

  /** `.{8,}$`: a regular expression without the `u` flag matches code units,
      so at least eight of them, none a line terminator. The halves of a
      surrogate pair are neither line terminators nor in any class of the rule,
      so scanning whole characters decides the lookaheads the same way. */
  predicate AtLeastEightOnOneLine(s: string) {
    CodeUnits(s) >= 8 && forall k :: 0 <= k < |s| ==> !IsLineTerminator(s[k])
  }

  /** `PASSWORD_RULE`: `^(?=.*?[A-Z])(?=.*?[a-z])(?=.*?[0-9])(?=.*?[#?!@$%^&*-]).{8,}$`,
      read piece by piece: four lookaheads from the start, then the body. */
  predicate PasswordRule(s: string) {
    Lookahead(s, IsUpper) && Lookahead(s, IsLower) && Lookahead(s, IsDigit) &&
    Lookahead(s, IsSpecial) && AtLeastEightOnOneLine(s)
  }

  /** On a single line, a lookahead finds a class character exactly when the
      string holds one. */
  lemma {:induction false} LookaheadOnOneLine(s: string, cls: char -> bool)
    requires forall c :: cls(c) ==> !IsLineTerminator(c)
    requires forall k :: 0 <= k < |s| ==> !IsLineTerminator(s[k])
    ensures Lookahead(s, cls) <==> exists k :: 0 <= k < |s| && cls(s[k])
  {
    if s != [] && !cls(s[0]) {
      LookaheadOnOneLine(s[1..], cls);
      if exists k :: 0 <= k < |s| && cls(s[k]) {
        var k :| 0 <= k < |s| && cls(s[k]);
        assert s[1..][k - 1] == s[k];
      }
    }
  }

  /** The password rule accepts exactly the strings of at least eight code units,
      free of line terminators, that hold an upper-case letter, a lower-case
      letter, a digit and one of `# ? ! @ $ % ^ & * -`. */
  lemma PasswordRuleMeaning(s: string)
    ensures PasswordRule(s) <==>
      AtLeastEightOnOneLine(s) &&
      (exists k :: 0 <= k < |s| && IsUpper(s[k])) &&
      (exists k :: 0 <= k < |s| && IsLower(s[k])) &&
      (exists k :: 0 <= k < |s| && IsDigit(s[k])) &&
      (exists k :: 0 <= k < |s| && IsSpecial(s[k]))
  {
    if AtLeastEightOnOneLine(s) {
      LookaheadOnOneLine(s, IsUpper);
      LookaheadOnOneLine(s, IsLower);
      LookaheadOnOneLine(s, IsDigit);
      LookaheadOnOneLine(s, IsSpecial);
    }
  }

  /** No string shorter than eight code units passes, whatever it contains;
      in particular none of fewer than four characters. */
  lemma ShortPasswordsRejected(s: string)
    ensures CodeUnits(s) < 8 ==> !PasswordRule(s)
    ensures |s| < 4 ==> !PasswordRule(s)
  {
  }

  /** Six characters can pass: two emoji are four code units, so "Aa1#" and two
      of them are eight. */
  lemma SixCharactersCanPass()
    ensures var s := "Aa1#\U{1F600}\U{1F600}"; |s| == 6 && PasswordRule(s)
  {
    var s := "Aa1#\U{1F600}\U{1F600}";
    assert CodeUnits(s[4..]) == 4;
    assert CodeUnits(s) == 8;
  }

  /** `PaginationParams`: `skip`, when given, is at least 0 and `limit`, when
      given, at least 1. */
  predicate PaginationParamsValid(skip: Option<int>, limit: Option<int>) {
    (skip.Some? ==> skip.value >= 0) && (limit.Some? ==> limit.value >= 1)
  }
}
