/**
 * `isValidEmail` of the create page: the unanchored test of `/\S+@\S+\.\S+/`. The regular expression's
 * meaning is stated as a predicate over spans of the string, and the function that decides it scans
 * for an '@' and then for a '.' in the same run of non-space characters.
 */
module Email {
  import opened JsString

  /** No white space among `s[lo..hi]`. */
  predicate NoSpace(s: string, lo: int, hi: int)
    requires 0 <= lo <= hi <= |s|
  {
    forall k :: lo <= k < hi ==> !IsSpace(s[k])
  }

  /** `s[a..b]` is a match of `\S+@\S+\.\S+` whose '@' stands at `p` and whose '.' at `q`. */
  ghost predicate MatchSpan(s: string, a: int, p: int, q: int, b: int) {
    0 <= a < p && p + 1 < q && q + 1 < b <= |s| && s[p] == '@' && s[q] == '.' && NoSpace(s, a, b)
  }

  /** `/\S+@\S+\.\S+/.test(s)`: some span of `s` matches. */
  ghost predicate RegexMatches(s: string) {
    exists a, p, q, b :: MatchSpan(s, a, p, q, b)
  }

  /** The shortest match around an '@' at `p` and a '.' at `q`: one character either side. */
  ghost predicate MinSpan(s: string, p: int, q: int) {
    1 <= p && p + 2 <= q && q + 2 <= |s| && s[p] == '@' && s[q] == '.' && NoSpace(s, p - 1, q + 2)
  }

  /** From `i` on, a '.' followed by a non-space character, reached without crossing white space. */
  function DotRunFrom(s: string, i: nat): bool
    decreases |s| - i
  {
    if i + 2 > |s| then false
    else if IsSpace(s[i]) then false
    else if s[i] == '.' && !IsSpace(s[i + 1]) then true
    else DotRunFrom(s, i + 1)
  }

  /** An '@' at `p` with a non-space character before it and a non-space run after it that holds a dot. */
  predicate AtSignAt(s: string, p: nat) {
    1 <= p && p + 1 < |s| && s[p] == '@' && !IsSpace(s[p - 1]) && !IsSpace(s[p + 1]) && DotRunFrom(s, p + 2)
  }

  /** Some '@' at or after `j` starts a match. */
  function AtSignFrom(s: string, j: nat): bool
    decreases |s| - j
  {
    if j >= |s| then false else AtSignAt(s, j) || AtSignFrom(s, j + 1)
  }

  /** `isValidEmail(email)`. */
  function IsValidEmail(email: string): bool {
    AtSignFrom(email, 1)
  }

  ghost predicate DotAt(s: string, i: int, q: int) {
    0 <= i <= q && q + 2 <= |s| && s[q] == '.' && NoSpace(s, i, q + 2)
  }

  lemma {:induction false} DotRunFromIff(s: string, i: nat)
    ensures DotRunFrom(s, i) <==> exists q :: DotAt(s, i, q)
    decreases |s| - i
  {
    if i + 2 <= |s| && !IsSpace(s[i]) {
      if s[i] == '.' && !IsSpace(s[i + 1]) {
        assert DotAt(s, i, i);
      } else {
        DotRunFromIff(s, i + 1);
        if exists q :: DotAt(s, i, q) {
          var q :| DotAt(s, i, q);
          assert q != i by { assert !IsSpace(s[i + 1]) || q != i; }
          assert DotAt(s, i + 1, q);
        }
        if DotRunFrom(s, i + 1) {
          var q :| DotAt(s, i + 1, q);
          assert DotAt(s, i, q);
        }
      }
    }
  }

  lemma AtSignAtIff(s: string, p: nat)
    ensures AtSignAt(s, p) <==> exists q :: MinSpan(s, p, q)
  {
    DotRunFromIff(s, p + 2);
    if AtSignAt(s, p) {
      var q :| DotAt(s, p + 2, q);
      assert MinSpan(s, p, q);
    }
    if exists q :: MinSpan(s, p, q) {
      var q :| MinSpan(s, p, q);
      assert DotAt(s, p + 2, q);
    }
  }

  lemma {:induction false} AtSignFromIff(s: string, j: nat)
    ensures AtSignFrom(s, j) <==> exists p, q :: j <= p && MinSpan(s, p, q)
    decreases |s| - j
  {
    if j < |s| {
      AtSignAtIff(s, j);
      AtSignFromIff(s, j + 1);
      if exists p, q :: j <= p && MinSpan(s, p, q) {
        var p, q :| j <= p && MinSpan(s, p, q);
        if p > j {
          assert exists p', q' :: j + 1 <= p' && MinSpan(s, p', q');
        }
      }
    }
  }

  lemma RegexMatchesIff(s: string)
    ensures RegexMatches(s) <==> exists p, q :: MinSpan(s, p, q)
  {
    if RegexMatches(s) {
      var a, p, q, b :| MatchSpan(s, a, p, q, b);
      assert MinSpan(s, p, q);
    }
    if exists p, q :: MinSpan(s, p, q) {
      var p, q :| MinSpan(s, p, q);
      assert MatchSpan(s, p - 1, p, q, q + 2);
    }
  }

  /** The scan accepts exactly the strings in which `/\S+@\S+\.\S+/` finds a match. */
  lemma IsValidEmailMatchesRegex(email: string)
    ensures IsValidEmail(email) <==> RegexMatches(email)
  {
    AtSignFromIff(email, 1);
    RegexMatchesIff(email);
  }

  /** A string without '@' is never a valid address; in particular "" is not. */
  lemma NoAtSignRejected(email: string)
    requires '@' !in email
    ensures !IsValidEmail(email)
  {
    IsValidEmailMatchesRegex(email);
  }

  /** An address is accepted however much text surrounds it: the test is not anchored. */
  lemma ValidInContext(before: string, email: string, after: string)
    requires IsValidEmail(email)
    ensures IsValidEmail(before + email + after)
  {
    IsValidEmailMatchesRegex(email);
    IsValidEmailMatchesRegex(before + email + after);
    var a, p, q, b :| MatchSpan(email, a, p, q, b);
    var s, d := before + email + after, |before|;
    assert forall k :: 0 <= k < |email| ==> s[d + k] == email[k];
    assert MatchSpan(s, a + d, p + d, q + d, b + d);
  }
}
