/**
 * The certificate token of the create page, `TX-<TIME36>-<RAND>`: the clock reading in base 36 and a
 * few base-36 digits of a random fraction, both upper-cased.
 */
module Token {
  import opened JsString
  import opened Optional

  const Prefix: string := "TX-"

  /** A base-36 digit as `Number.prototype.toString(36)` writes it (lower case). */
  predicate IsLower36(c: char) {
    '0' <= c <= '9' || 'a' <= c <= 'z'
  }

  /** A base-36 digit as the token shows it (upper case). */
  predicate IsUpper36(c: char) {
    '0' <= c <= '9' || 'A' <= c <= 'Z'
  }

  predicate AllUpper36(s: string) {
    forall i :: 0 <= i < |s| ==> IsUpper36(s[i])
  }

  /** The lower-case digit for the value `d`. */
  function Digit36(d: nat): (c: char)
    requires d < 36
    ensures IsLower36(c)
  {
    if d < 10 then ('0' as int + d) as char else ('a' as int + d - 10) as char
  }

  /** The value of a base-36 digit of either case. */
  function DigitValue(c: char): (v: nat)
    requires IsLower36(c) || IsUpper36(c)
    ensures v < 36
  {
    if '0' <= c <= '9' then c as int - '0' as int
    else if 'a' <= c <= 'z' then c as int - 'a' as int + 10
    else c as int - 'A' as int + 10
  }

  /** Upper-casing a digit keeps its value. */
  lemma UpperDigitValue(d: nat)
    requires d < 36
    ensures IsUpper36(UpperChar(Digit36(d))) && DigitValue(UpperChar(Digit36(d))) == d
  {
  }

  /** `n.toString(36)` for a non-negative integer: most significant digit first, no leading zero. */
  function Radix36(n: nat): (r: string)
    ensures r != []
    ensures r[0] == '0' ==> n == 0
    ensures forall i :: 0 <= i < |r| ==> IsLower36(r[i])
    decreases n
  {
    if n < 36 then [Digit36(n)] else Radix36(n / 36) + [Digit36(n % 36)]
  }

  /** Reading upper-case base-36 digits back into a number, most significant first. */
  function ParseRadix36(s: string): nat
    requires AllUpper36(s)
  {
    if s == [] then 0 else ParseRadix36(s[..|s| - 1]) * 36 + DigitValue(s[|s| - 1])
  }

  /** Appending a digit multiplies the value read so far by 36 and adds the digit's value. */
  lemma ParseAppendDigit(hs: string, d: char)
    requires AllUpper36(hs) && IsUpper36(d)
    ensures AllUpper36(hs + [d]) && ParseRadix36(hs + [d]) == ParseRadix36(hs) * 36 + DigitValue(d)
  {
    assert (hs + [d])[..|hs|] == hs;
  }

  /** The time segment reads back, in base 36, as the clock value it was written from. */
  lemma {:induction false} Radix36RoundTrip(n: nat)
    ensures AllUpper36(ToUpper(Radix36(n))) && ParseRadix36(ToUpper(Radix36(n))) == n
    decreases n
  {
    UpperDigitValue(n % 36);
    if n >= 36 {
      Radix36RoundTrip(n / 36);
      var hi, d := Radix36(n / 36), Digit36(n % 36);
      ToUpperAppend(hi, [d]);
      assert ToUpper(hi + [d]) == ToUpper(hi) + [UpperChar(d)];
      ParseAppendDigit(ToUpper(hi), UpperChar(d));
    }
  }

  /**
   * The text `Math.random().toString(36)` produces: "0" for a zero fraction, otherwise "0." and
   * one or more lower-case base-36 digits.
   */
  predicate IsRandomText(t: string) {
    t == "0" || (|t| >= 3 && t[..2] == "0." && forall i :: 2 <= i < |t| ==> IsLower36(t[i]))
  }

  /**
   * `generateUniqueHash()`, with `Date.now()` given as `now` and `Math.random().toString(36)` as
   * `randomText`: the random segment is that text's characters 2 to 8, upper-cased.
   */
  function GenerateUniqueHash(now: nat, randomText: string): string {
    Prefix + ToUpper(Radix36(now)) + "-" + ToUpper(Slice(randomText, 2, 8))
  }

  /** The two variable segments of a token: the clock value and the random digits. */
  datatype TokenParts = TokenParts(time: nat, rand: string)

  /** The token a clock value and a random segment make. */
  function Render(p: TokenParts): string {
    Prefix + ToUpper(Radix36(p.time)) + "-" + p.rand
  }

  /** The first index of `c` in `s`, or `|s|` when there is none. */
  function IndexOf(s: string, c: char): (k: nat)
    ensures k <= |s| && c !in s[..k]
    ensures k < |s| ==> s[k] == c
  {
    if s == [] then 0
    else if s[0] == c then 0
    else
      assert s[..1 + IndexOf(s[1..], c)] == [s[0]] + s[1..][..IndexOf(s[1..], c)];
      1 + IndexOf(s[1..], c)
  }

  /**
   * Reads a token of the form `TX-<TIME36>-<RAND>` (time segment non-empty and canonical, random
   * segment at most six digits, all digits upper case); anything else is `None`.
   */
  function ParseToken(t: string): (r: Option<TokenParts>)
    ensures r.Some? ==> Render(r.value) == t
    ensures r.Some? ==> |r.value.rand| <= 6 && AllUpper36(r.value.rand)
    ensures r.Some? ==> t[..3] == Prefix && Count(t, '-') == 2
  {
    if |t| < 3 || t[..3] != Prefix then None
    else
      var rest := t[3..];
      var k := IndexOf(rest, '-');
      if k == |rest| then None
      else
        var time, rand := rest[..k], rest[k + 1..];
        if time != [] && AllUpper36(time) && AllUpper36(rand) && |rand| <= 6
           && ToUpper(Radix36(ParseRadix36(time))) == time
        then
          assert t == Prefix + time + "-" + rand;
          CountHyphens(time, rand);
          Some(TokenParts(ParseRadix36(time), rand))
        else None
  }

  /** A token whose segments are base-36 digits has exactly the two hyphens around its time segment. */
  lemma CountHyphens(time: string, rand: string)
    requires AllUpper36(time) && AllUpper36(rand)
    ensures Count(Prefix + time + "-" + rand, '-') == 2
  {
    NoHyphen(time);
    NoHyphen(rand);
    CountAppend(Prefix + time + "-", rand, '-');
    CountAppend(Prefix + time, "-", '-');
    CountAppend(Prefix, time, '-');
    assert Prefix[1..] == "X-" && Prefix[1..][1..] == "-" && "-"[1..] == "";
  }

  /** The first `c` of `a + [c] + b` is the one after `a` when `a` has none. */
  lemma {:induction false} IndexOfAfter(a: string, c: char, b: string)
    requires c !in a
    ensures IndexOf(a + [c] + b, c) == |a|
  {
    if a != [] {
      assert (a + [c] + b)[1..] == a[1..] + [c] + b;
      IndexOfAfter(a[1..], c, b);
    }
  }

  lemma {:induction false} NoHyphen(s: string)
    requires AllUpper36(s)
    ensures Count(s, '-') == 0
  {
    if s != [] {
      NoHyphen(s[1..]);
    }
  }

  /** The time segment is non-empty base-36 digits without a hyphen, and it is canonical. */
  lemma TimeSegment(n: nat)
    ensures var time := ToUpper(Radix36(n));
      && time != [] && AllUpper36(time) && '-' !in time
      && ParseRadix36(time) == n && ToUpper(Radix36(ParseRadix36(time))) == time
  {
    Radix36RoundTrip(n);
    var time := ToUpper(Radix36(n));
    assert forall i :: 0 <= i < |time| ==> IsUpper36(time[i]);
  }

  /** Rendering and reading back: any parts with a short upper-case random segment survive the round trip. */
  lemma ParseRender(p: TokenParts)
    requires AllUpper36(p.rand) && |p.rand| <= 6
    ensures ParseToken(Render(p)) == Some(p)
  {
    var time, t := ToUpper(Radix36(p.time)), Render(p);
    TimeSegment(p.time);
    assert t[..3] == Prefix;
    var rest := t[3..];
    assert rest == time + "-" + p.rand;
    IndexOfAfter(time, '-', p.rand);
    assert rest[..|time|] == time && rest[|time| + 1..] == p.rand;
  }

  /** The random segment of a generated token: the first six digits after "0.", or all of them when fewer, upper-cased. */
  lemma RandSegment(randomText: string)
    requires IsRandomText(randomText)
    ensures var rand := ToUpper(Slice(randomText, 2, 8));
      AllUpper36(rand) && |rand| <= 6 &&
      |rand| == (if randomText == "0" then 0 else if |randomText| < 8 then |randomText| - 2 else 6)
  {
    var sl := Slice(randomText, 2, 8);
    var rand := ToUpper(sl);
    forall i | 0 <= i < |rand| ensures IsUpper36(rand[i]) {
      assert sl[i] == randomText[2 + i];
    }
  }

  /**
   * Every generated token reads back: its time segment gives the clock value it was made from, its
   * random segment is at most six upper-case digits, and it has exactly two hyphens.
   */
  lemma GeneratedTokenParses(now: nat, randomText: string)
    requires IsRandomText(randomText)
    ensures ParseToken(GenerateUniqueHash(now, randomText))
         == Some(TokenParts(now, ToUpper(Slice(randomText, 2, 8))))
    ensures var t := GenerateUniqueHash(now, randomText);
      t[..3] == Prefix && Count(t, '-') == 2
  {
    var p := TokenParts(now, ToUpper(Slice(randomText, 2, 8)));
    RandSegment(randomText);
    assert GenerateUniqueHash(now, randomText) == Render(p);
    ParseRender(p);
  }

  /** Tokens issued at different clock readings differ, whatever the random digits. */
  lemma DistinctTimesDistinctTokens(now1: nat, text1: string, now2: nat, text2: string)
    requires IsRandomText(text1) && IsRandomText(text2)
    requires now1 != now2
    ensures GenerateUniqueHash(now1, text1) != GenerateUniqueHash(now2, text2)
  {
    GeneratedTokenParses(now1, text1);
    GeneratedTokenParses(now2, text2);
  }
}
