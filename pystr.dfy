/**
 The two Python string operations the pipe relies on: `str(n)` of an integer
 (used to print the turn limit), proved against an independent decimal
 reading `ParseInt`, and `s.replace(pat, "")` (used to strip the end-of-turn
 marker), pinned down by `RemoveFromAbsent` and `RemoveFromLeftmost`: a stretch
 with no occurrence is kept, and the leftmost occurrence is dropped whole.
 */
module PyStr {

  predicate IsDigit(c: char) {
    '0' <= c <= '9'
  }

  function DigitChar(d: nat): (c: char)
    requires d < 10
    ensures IsDigit(c) && DigitValue(c) == d
  {
    "0123456789"[d]
  }

  /** The value of one decimal digit character. */
  function DigitValue(c: char): (d: nat)
    requires IsDigit(c)
    ensures d < 10
  {
    (c as int) - ('0' as int)
  }

  /** The decimal digits of `n`, most significant first, with no leading zero. */
  function Digits(n: nat): (s: string)
    ensures |s| > 0
    ensures forall i :: 0 <= i < |s| ==> IsDigit(s[i])
    ensures s[0] == '0' <==> n == 0
    decreases n
  {
    if n < 10 then [DigitChar(n)] else Digits(n / 10) + [DigitChar(n % 10)]
  }

  /** Python's `str(n)` for an integer: a minus sign, then the digits of `|n|`. */
  function IntStr(n: int): string {
    if n < 0 then "-" + Digits(-n) else Digits(n)
  }

  /** The value of a string of decimal digits (reference reading, least significant last). */
  function DigitsValue(s: string): nat
    requires forall i :: 0 <= i < |s| ==> IsDigit(s[i])
    decreases |s|
  {
    if s == [] then 0
    else DigitsValue(s[..|s| - 1]) * 10 + DigitValue(s[|s| - 1])
  }

  /** Python's `int(s)` restricted to what `IntStr` produces. */
  function ParseInt(s: string): int
    requires s != []
    requires forall i :: (if s[0] == '-' then 1 else 0) <= i < |s| ==> IsDigit(s[i])
  {
    if s[0] == '-' then -(DigitsValue(s[1..]) as int) else DigitsValue(s)
  }

  /** Reading the digits back gives the number they were printed from. */
  lemma {:induction false} DigitsRoundTrip(n: nat)
    ensures DigitsValue(Digits(n)) == n
    decreases n
  {
    if n >= 10 {
      var s := Digits(n);
      DigitsRoundTrip(n / 10);
      assert s[..|s| - 1] == Digits(n / 10);
    }
  }

  /** `str(n)` is decimal: `int(str(n)) == n` for every integer, negative ones included. */
  lemma IntStrRoundTrip(n: int)
    ensures IntStr(n) != []
    ensures forall i :: (if IntStr(n)[0] == '-' then 1 else 0) <= i < |IntStr(n)| ==> IsDigit(IntStr(n)[i])
    ensures ParseInt(IntStr(n)) == n
  {
    if n < 0 {
      DigitsRoundTrip(-n);
      assert IntStr(n)[1..] == Digits(-n);
    } else {
      DigitsRoundTrip(n);
    }
  }

  /** `pat` occurs in `s` starting at index `i`. */
  predicate OccursAt(s: string, pat: string, i: int) {
    0 <= i && i + |pat| <= |s| && s[i..i + |pat|] == pat
  }

  /** An occurrence fixes every character it covers. */
  lemma OccursAtChar(s: string, pat: string, i: int, k: int)
    requires OccursAt(s, pat, i) && 0 <= k < |pat|
    ensures s[i + k] == pat[k]
  {
    assert s[i..i + |pat|][k] == s[i + k];
  }

  /** One mismatching character rules an occurrence out. */
  lemma MismatchAt(s: string, pat: string, i: int, k: int)
    requires 0 <= i && 0 <= k < |pat| && i + k < |s| && s[i + k] != pat[k]
    ensures !OccursAt(s, pat, i)
  {
    if OccursAt(s, pat, i) {
      OccursAtChar(s, pat, i, k);
    }
  }

  /**
   Python's `s.replace(pat, "")` for a non-empty `pat`, from index `k` on:
   scanning left to right, an occurrence of `pat` at the scan position is
   dropped and the scan resumes right after it; any other character is kept.
   */
  function RemoveFrom(s: string, pat: string, k: nat): string
    requires pat != [] && k <= |s|
    decreases |s| - k
  {
    if |s| - k < |pat| then s[k..]
    else if OccursAt(s, pat, k) then RemoveFrom(s, pat, k + |pat|)
    else [s[k]] + RemoveFrom(s, pat, k + 1)
  }

  /** Python's `s.replace(pat, "")`: the scan from the start of `s`. */
  function RemoveAll(s: string, pat: string): string
    requires pat != []
  {
    RemoveFrom(s, pat, 0)
  }

  /** A suffix with no occurrence of `pat` is kept unchanged. */
  lemma {:induction false} RemoveFromAbsent(s: string, pat: string, k: nat)
    requires pat != [] && k <= |s|
    requires forall i :: k <= i ==> !OccursAt(s, pat, i)
    ensures RemoveFrom(s, pat, k) == s[k..]
    decreases |s| - k
  {
    if |s| - k >= |pat| {
      RemoveFromAbsent(s, pat, k + 1);
      assert [s[k]] + s[k + 1..] == s[k..];
    }
  }

  /** A string with no occurrence of `pat` is returned unchanged. */
  lemma RemoveAllAbsent(s: string, pat: string)
    requires pat != []
    requires forall i :: !OccursAt(s, pat, i)
    ensures RemoveAll(s, pat) == s
  {
    RemoveFromAbsent(s, pat, 0);
  }

  /** Prepending `s[k]` to a slice starting at `k + 1` extends the slice. */
  lemma ConsSlice(s: string, k: int, i: int, rest: string)
    requires 0 <= k < i <= |s|
    ensures [s[k]] + (s[k + 1..i] + rest) == s[k..i] + rest
  {
    assert [s[k]] + s[k + 1..i] == s[k..i];
  }

  /** Up to the next occurrence at `i`, the scan keeps every character, then skips the occurrence. */
  lemma {:induction false} RemoveFromLeftmost(s: string, pat: string, k: nat, i: nat)
    requires pat != [] && k <= i
    requires OccursAt(s, pat, i)
    requires forall j :: k <= j < i ==> !OccursAt(s, pat, j)
    ensures RemoveFrom(s, pat, k) == s[k..i] + RemoveFrom(s, pat, i + |pat|)
    decreases i - k
  {
    var rest := RemoveFrom(s, pat, i + |pat|);
    if k < i {
      RemoveFromLeftmost(s, pat, k + 1, i);
      ConsSlice(s, k, i, rest);
    } else {
      assert s[k..i] + rest == rest;
    }
  }

  /**
   The leftmost occurrence is the first one removed: everything before it is
   kept verbatim, and the scan continues right after it.
   */
  lemma RemoveAllLeftmost(s: string, pat: string, i: nat)
    requires pat != []
    requires OccursAt(s, pat, i)
    requires forall j :: 0 <= j < i ==> !OccursAt(s, pat, j)
    ensures RemoveAll(s, pat) == s[..i] + RemoveFrom(s, pat, i + |pat|)
  {
    RemoveFromLeftmost(s, pat, 0, i);
  }

  /** The scan never lengthens what it reads. */
  lemma {:induction false} RemoveFromShorter(s: string, pat: string, k: nat)
    requires pat != [] && k <= |s|
    ensures |RemoveFrom(s, pat, k)| <= |s| - k
    decreases |s| - k
  {
    if |s| - k >= |pat| {
      if OccursAt(s, pat, k) {
        RemoveFromShorter(s, pat, k + |pat|);
      } else {
        RemoveFromShorter(s, pat, k + 1);
      }
    }
  }

  /** Removing occurrences never lengthens the string. */
  lemma RemoveAllShorter(s: string, pat: string)
    requires pat != []
    ensures |RemoveAll(s, pat)| <= |s|
  {
    RemoveFromShorter(s, pat, 0);
  }

  /** A scan that meets an occurrence at or after its start drops at least one whole copy. */
  lemma {:induction false} RemoveFromPresent(s: string, pat: string, k: nat, i: nat)
    requires pat != [] && k <= i
    requires OccursAt(s, pat, i)
    ensures |RemoveFrom(s, pat, k)| <= |s| - k - |pat|
    decreases i - k
  {
    if OccursAt(s, pat, k) {
      RemoveFromShorter(s, pat, k + |pat|);
    } else {
      RemoveFromPresent(s, pat, k + 1, i);
    }
  }

  /**
   A string in which `pat` occurs loses at least one whole copy of it, so
   together with `RemoveAllAbsent`: the string is returned unchanged exactly
   when `pat` does not occur in it.
   */
  lemma RemoveAllPresent(s: string, pat: string, i: nat)
    requires pat != []
    requires OccursAt(s, pat, i)
    ensures |RemoveAll(s, pat)| <= |s| - |pat|
  {
    RemoveFromPresent(s, pat, 0, i);
  }
}
