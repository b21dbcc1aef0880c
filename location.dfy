/**
 * The geocoding query sanitiser of src/data/location.rs: drop every character outside
 * `[a-zA-Z0-9 ,]`, trim spaces at both ends, then turn each remaining space into '+'.
 */
module Location {

  /** The characters the regular expression `[^a-zA-Z0-9 ,]` does not remove. */
  predicate Allowed(c: char)
  {
    ('a' <= c <= 'z') || ('A' <= c <= 'Z') || ('0' <= c <= '9') || c == ' ' || c == ','
  }

  /** The characters that may appear in a sanitised query. */
  predicate QueryChar(c: char)
  {
    ('a' <= c <= 'z') || ('A' <= c <= 'Z') || ('0' <= c <= '9') || c == ',' || c == '+'
  }

  /** `Regex::new(r"[^a-zA-Z0-9 ,]").replace_all(input, "")`. */
  function KeepAllowed(s: string): (r: string)
    ensures |r| <= |s|
    ensures forall i :: 0 <= i < |r| ==> Allowed(r[i])
  {
    if |s| == 0 then [] else (if Allowed(s[0]) then [s[0]] else []) + KeepAllowed(s[1..])
  }

  /** Each allowed character is kept as often as it occurs, and every other character is gone. */
  lemma {:induction false} KeepAllowedCounts(s: string)
    ensures forall c :: multiset(KeepAllowed(s))[c] == if Allowed(c) then multiset(s)[c] else 0
  {
    if |s| > 0 {
      KeepAllowedCounts(s[1..]);
      assert s == [s[0]] + s[1..];
    }
  }

  /** A single character outside the class is removed. */
  lemma KeepAllowedDrops(c: char)
    requires !Allowed(c)
    ensures KeepAllowed([c]) == []
  {
  }

  /** Removing commutes with concatenation: the filter looks at one character at a time. */
  lemma {:induction false} KeepAllowedAppend(a: string, b: string)
    ensures KeepAllowed(a + b) == KeepAllowed(a) + KeepAllowed(b)
  {
    if |a| == 0 {
      assert a + b == b;
    } else {
      assert (a + b)[1..] == a[1..] + b;
      KeepAllowedAppend(a[1..], b);
    }
  }

  /** A string of allowed characters passes the filter unchanged. */
  lemma {:induction false} KeepAllowedKeeps(s: string)
    requires forall i :: 0 <= i < |s| ==> Allowed(s[i])
    ensures KeepAllowed(s) == s
  {
    if |s| > 0 {
      KeepAllowedKeeps(s[1..]);
    }
  }

  /** The number of spaces `trim_start` removes. */
  function LeadingSpaces(s: string): (n: nat)
    ensures n <= |s|
    ensures forall i :: 0 <= i < n ==> s[i] == ' '
    ensures n == |s| || s[n] != ' '
  {
    if |s| > 0 && s[0] == ' ' then 1 + LeadingSpaces(s[1..]) else 0
  }

  /** The length left once `trim_end` has removed the trailing spaces. */
  function TextEnd(s: string): (n: nat)
    ensures n <= |s|
    ensures forall i :: n <= i < |s| ==> s[i] == ' '
    ensures n == 0 || s[n - 1] != ' '
  {
    if |s| > 0 && s[|s| - 1] == ' ' then TextEnd(s[..|s| - 1]) else |s|
  }

  /**
   * `str::trim` (`trim_start`, then `trim_end`), restricted to ' ': after the filter the
   * only whitespace left is ' ', so inside `SanitizeInput` this is exact. The result is the
   * slice between the leading and the trailing spaces, and it neither starts nor ends with
   * a space.
   */
  function TrimSpaces(s: string): (r: string)
    ensures var a := LeadingSpaces(s);
      && a + |r| <= |s| && r == s[a..a + |r|]
      && (forall i :: a + |r| <= i < |s| ==> s[i] == ' ')
      && (|r| == 0 || (r[0] != ' ' && r[|r| - 1] != ' '))
  {
    var a := LeadingSpaces(s);
    var t := s[a..];
    var b := TextEnd(t);
    assert forall i :: a + b <= i < |s| ==> s[i] == t[i - a];
    t[..b]
  }

  /** `str::replace(' ', "+")`. */
  function SpacesToPlus(s: string): (r: string)
    ensures |r| == |s|
    ensures forall i :: 0 <= i < |s| ==> r[i] == (if s[i] == ' ' then '+' else s[i])
  {
    if |s| == 0 then [] else [if s[0] == ' ' then '+' else s[0]] + SpacesToPlus(s[1..])
  }

  /** `sanitize_input`. */
  function SanitizeInput(input: string): (r: string)
    ensures |r| <= |input|
    ensures forall i :: 0 <= i < |r| ==> QueryChar(r[i])
    ensures |r| == 0 || (r[0] != '+' && r[|r| - 1] != '+')
  {
    SpacesToPlus(TrimSpaces(KeepAllowed(input)))
  }

  /** Each '+' of the result stands for exactly one space between the kept words. */
  lemma SanitizePlusIsSpace(input: string, i: nat)
    requires i < |SanitizeInput(input)|
    ensures SanitizeInput(input)[i] == '+' <==> TrimSpaces(KeepAllowed(input))[i] == ' '
  {
  }

  /** A string with `c` removed wherever it occurs. */
  function Without(s: string, c: char): (r: string)
    ensures |r| <= |s|
    ensures forall i :: 0 <= i < |r| ==> r[i] != c && r[i] in s
  {
    if |s| == 0 then [] else (if s[0] == c then [] else [s[0]]) + Without(s[1..], c)
  }

  /**
   * Sanitising is not idempotent: the second pass removes every '+' the first one wrote,
   * because '+' is outside the allowed class.
   */
  lemma {:induction false} SanitizeTwice(input: string)
    ensures SanitizeInput(SanitizeInput(input)) == Without(SanitizeInput(input), '+')
  {
    var once := SanitizeInput(input);
    FilterOfQuery(once);
    var w := Without(once, '+');
    assert KeepAllowed(once) == w;
    NoSpaceTrim(w);
    NoSpaceReplace(w);
  }

  /** On a sanitised query the filter removes exactly the '+' characters. */
  lemma {:induction false} FilterOfQuery(s: string)
    requires forall i :: 0 <= i < |s| ==> QueryChar(s[i])
    ensures KeepAllowed(s) == Without(s, '+')
  {
    if |s| > 0 {
      FilterOfQuery(s[1..]);
    }
  }

  /** Trimming leaves a string without spaces alone. */
  lemma NoSpaceTrim(s: string)
    requires forall i :: 0 <= i < |s| ==> s[i] != ' '
    ensures TrimSpaces(s) == s
  {
  }

  /** Replacing spaces leaves a string without spaces alone. */
  lemma NoSpaceReplace(s: string)
    requires forall i :: 0 <= i < |s| ==> s[i] != ' '
    ensures SpacesToPlus(s) == s
  {
  }

  /** The query "a b" becomes "a+b", and sanitising that again gives "ab". */
  lemma SanitizeExample()
    ensures SanitizeInput("a b") == "a+b"
    ensures SanitizeInput("a+b") == "ab"
  {
    var q := "a b";
    KeepAllowedKeeps(q);
    assert LeadingSpaces(q) == 0;
    assert TextEnd(q[0..]) == 3;
    assert TrimSpaces(q) == q;
    var r := SpacesToPlus(q);
    assert r[0] == 'a' && r[1] == '+' && r[2] == 'b';
    assert r == "a+b";
    var once := "a+b";
    assert once[1..] == "+b" && once[1..][1..] == "b";
    assert KeepAllowed("b") == "b";
    assert KeepAllowed("+b") == "b";
    assert KeepAllowed(once) == "ab";
    NoSpaceTrim("ab");
    NoSpaceReplace("ab");
  }
}
