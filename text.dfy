/**
 * String operations both halves of the program rely on: Python `str.strip()`,
 * JavaScript `String.prototype.trim()`, substring search, lower-casing and the
 * decimal rendering of a count.
 */
module Text {

  /** The characters Python's `str.isspace()` accepts: the ones `str.strip()` removes. */
  const PySpaces: set<char> := {
      '\U{9}', '\U{A}', '\U{B}', '\U{C}', '\U{D}', '\U{1C}', '\U{1D}', '\U{1E}',
      '\U{1F}', ' ', '\U{85}', '\U{A0}', '\U{1680}', '\U{2000}', '\U{2001}', '\U{2002}',
      '\U{2003}', '\U{2004}', '\U{2005}', '\U{2006}', '\U{2007}', '\U{2008}',
      '\U{2009}', '\U{200A}', '\U{2028}', '\U{2029}', '\U{202F}', '\U{205F}', '\U{3000}'
    }

  /** ECMAScript white space and line terminators: the characters `trim()` removes. */
  const JsSpaces: set<char> := {
      '\U{9}', '\U{A}', '\U{B}', '\U{C}', '\U{D}', ' ', '\U{A0}', '\U{1680}',
      '\U{2000}', '\U{2001}', '\U{2002}', '\U{2003}', '\U{2004}', '\U{2005}',
      '\U{2006}', '\U{2007}', '\U{2008}', '\U{2009}', '\U{200A}', '\U{2028}',
      '\U{2029}', '\U{202F}', '\U{205F}', '\U{3000}', '\U{FEFF}'
    }

  predicate PyIsSpace(c: char) {
    c in PySpaces
  }

  predicate JsIsSpace(c: char) {
    c in JsSpaces
  }

  /** Whose notion of white space a trim uses. */
  datatype Flavor = Python | JavaScript

  predicate IsSpace(flavor: Flavor, c: char) {
    match flavor
    case Python => PyIsSpace(c)
    case JavaScript => JsIsSpace(c)
  }

  /** The first position at or after `k` that does not hold white space (`|s|` if none). */
  function SkipSpaces(s: string, flavor: Flavor, k: nat): (n: nat)
    requires k <= |s|
    ensures k <= n <= |s|
    ensures forall i :: k <= i < n ==> IsSpace(flavor, s[i])
    ensures n < |s| ==> !IsSpace(flavor, s[n])
    decreases |s| - k
  {
    if k == |s| || !IsSpace(flavor, s[k]) then k else SkipSpaces(s, flavor, k + 1)
  }

  /** The end of the text before `k` once the white space just before `k` is dropped. */
  function SkipSpacesBack(s: string, flavor: Flavor, k: nat): (n: nat)
    requires k <= |s|
    ensures n <= k
    ensures forall i :: n <= i < k ==> IsSpace(flavor, s[i])
    ensures n > 0 ==> !IsSpace(flavor, s[n - 1])
  {
    if k == 0 || !IsSpace(flavor, s[k - 1]) then k else SkipSpacesBack(s, flavor, k - 1)
  }

  /**
   * `s` without the white space (in the given flavour) at either end: empty exactly when
   * `s` is all white space, and otherwise starting and ending with a character that is not.
   */
  function Trim(s: string, flavor: Flavor): (r: string)
    ensures |r| <= |s|
    ensures r == [] <==> forall i :: 0 <= i < |s| ==> IsSpace(flavor, s[i])
    ensures r != [] ==> !IsSpace(flavor, r[0]) && !IsSpace(flavor, r[|r| - 1])
  {
    var start := SkipSpaces(s, flavor, 0);
    if start == |s| then [] else s[start..SkipSpacesBack(s, flavor, |s|)]
  }

  /** Python `s.strip()`. */
  function PyStrip(s: string): string {
    Trim(s, Python)
  }

  /** JavaScript `s.trim()`. */
  function JsTrim(s: string): string {
    Trim(s, JavaScript)
  }

  /** The trimmed string is the block of `s` between a white-space prefix and a white-space suffix. */
  lemma TrimIsSlice(s: string, flavor: Flavor) returns (k: nat)
    ensures k + |Trim(s, flavor)| <= |s| && Trim(s, flavor) == s[k..k + |Trim(s, flavor)|]
    ensures forall i :: 0 <= i < k ==> IsSpace(flavor, s[i])
    ensures forall i :: k + |Trim(s, flavor)| <= i < |s| ==> IsSpace(flavor, s[i])
  {
    k := SkipSpaces(s, flavor, 0);
    if k < |s| {
      var end := SkipSpacesBack(s, flavor, |s|);
      assert k < end;
      assert |Trim(s, flavor)| == end - k;
    }
  }

  /** A string that neither starts nor ends with white space is its own trimmed form. */
  lemma TrimKeepsTrimmed(s: string, flavor: Flavor)
    requires s != [] ==> !IsSpace(flavor, s[0]) && !IsSpace(flavor, s[|s| - 1])
    ensures Trim(s, flavor) == s
  {
    if s != [] {
      assert SkipSpaces(s, flavor, 0) == 0;
      assert SkipSpacesBack(s, flavor, |s|) == |s|;
    }
  }

  /** `sub` occurs in `s` as a contiguous block: Python `sub in s`, JavaScript `s.includes(sub)`. */
  function Contains(s: string, sub: string): bool
    decreases |s|
  {
    if |s| < |sub| then false
    else s[..|sub|] == sub || Contains(s[1..], sub)
  }

  /** `sub` occurs in `s` starting at position `k`. */
  predicate OccursAt(s: string, sub: string, k: int) {
    0 <= k && k + |sub| <= |s| && s[k..k + |sub|] == sub
  }

  /** An occurrence at any position is found. */
  lemma {:induction false} ContainsAt(s: string, sub: string, k: nat)
    requires k + |sub| <= |s| && s[k..k + |sub|] == sub
    ensures Contains(s, sub)
  {
    if k > 0 {
      assert s[1..][k - 1..k - 1 + |sub|] == sub;
      ContainsAt(s[1..], sub, k - 1);
    } else {
      assert s[..|sub|] == sub;
    }
  }

  /** `Contains` finds only real occurrences. */
  lemma {:induction false} ContainsWitness(s: string, sub: string) returns (k: nat)
    requires Contains(s, sub)
    ensures k + |sub| <= |s| && s[k..k + |sub|] == sub
  {
    if s[..|sub|] == sub {
      k := 0;
    } else {
      var j := ContainsWitness(s[1..], sub);
      assert s[1..][j..j + |sub|] == s[j + 1..j + 1 + |sub|];
      k := j + 1;
    }
  }

  /** The character `toLowerCase()` gives for an ASCII letter; every other character is kept. */
  function LowerChar(c: char): char {
    if 'A' <= c <= 'Z' then (c as int + 32) as char else c
  }

  /** `s.toLowerCase()`, on ASCII letters. */
  function AsciiLower(s: string): string {
    seq(|s|, i requires 0 <= i < |s| => LowerChar(s[i]))
  }

  predicate IsDigits(s: string) {
    forall i :: 0 <= i < |s| ==> '0' <= s[i] <= '9'
  }

  function DigitChar(d: nat): char
    requires d < 10
  {
    (d + '0' as int) as char
  }

  /** The decimal numeral of `n`, as Python's `str(n)` and JavaScript's template literals write it. */
  function NatToDecimal(n: nat): (r: string)
    ensures r != [] && IsDigits(r)
    ensures r[0] == '0' ==> n == 0
  {
    if n < 10 then [DigitChar(n)] else NatToDecimal(n / 10) + [DigitChar(n % 10)]
  }

  /** The number a string of decimal digits denotes. */
  function DecimalValue(s: string): nat
    requires IsDigits(s)
  {
    if s == [] then 0 else DecimalValue(s[..|s| - 1]) * 10 + (s[|s| - 1] as int - '0' as int)
  }

  /** Reading the numeral back gives the number. */
  lemma {:induction false} DecimalRoundTrip(n: nat)
    ensures DecimalValue(NatToDecimal(n)) == n
  {
    var r := NatToDecimal(n);
    if n >= 10 {
      assert r[..|r| - 1] == NatToDecimal(n / 10);
      DecimalRoundTrip(n / 10);
    }
  }
}
