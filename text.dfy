/**
 * The handful of Python `str` operations the core relies on: `isspace`,
 * `strip()`, `strip('\n')`, `startswith`, `endswith` and `replace`.
 */
module Text {

  /** Python's `str.isspace` for one character; `re`'s `\s` on a `str` pattern is the same set. */
  predicate IsSpace(c: char) {
    var x := c as int;
    (9 <= x <= 13) || (28 <= x <= 32) || x == 0x85 || x == 0xA0 || x == 0x1680
    || (0x2000 <= x <= 0x200A) || x == 0x2028 || x == 0x2029 || x == 0x202F
    || x == 0x205F || x == 0x3000
  }

  function TrimStart(s: string): (r: string)
    ensures |r| <= |s|
  {
    if s != [] && IsSpace(s[0]) then TrimStart(s[1..]) else s
  }

  function TrimEnd(s: string): (r: string)
    ensures |r| <= |s|
  {
    if s != [] && IsSpace(s[|s| - 1]) then TrimEnd(s[..|s| - 1]) else s
  }

  /** `s.strip()`: white space removed from both ends. */
  function Trim(s: string): (r: string)
    ensures |r| <= |s|
  {
    TrimEnd(TrimStart(s))
  }

  /** `s.strip(c)`: every leading and trailing occurrence of `c` removed. */
  function StripChar(s: string, c: char): (r: string)
    ensures |r| <= |s|
    decreases |s|
  {
    if s != [] && s[0] == c then StripChar(s[1..], c)
    else if s != [] && s[|s| - 1] == c then StripChar(s[..|s| - 1], c)
    else s
  }

  /** `TrimStart` drops exactly the longest all-space prefix. */
  lemma {:induction false} TrimStartDropsLeadingSpace(s: string)
    ensures var r := TrimStart(s);
            && s[|s| - |r|..] == r
            && (forall i :: 0 <= i < |s| - |r| ==> IsSpace(s[i]))
            && (r != [] ==> !IsSpace(r[0]))
  {
    if s != [] && IsSpace(s[0]) {
      TrimStartDropsLeadingSpace(s[1..]);
      var r := TrimStart(s);
      assert s[1..][|s| - 1 - |r|..] == s[|s| - |r|..];
      forall i | 0 <= i < |s| - |r| ensures IsSpace(s[i]) {
        if i > 0 {
          assert s[i] == s[1..][i - 1];
        }
      }
    }
  }

  /** `TrimEnd` drops exactly the longest all-space suffix. */
  lemma {:induction false} TrimEndDropsTrailingSpace(s: string)
    ensures var r := TrimEnd(s);
            && s[..|r|] == r
            && (forall i :: |r| <= i < |s| ==> IsSpace(s[i]))
            && (r != [] ==> !IsSpace(r[|r| - 1]))
  {
    if s != [] && IsSpace(s[|s| - 1]) {
      var t := s[..|s| - 1];
      TrimEndDropsTrailingSpace(t);
      var r := TrimEnd(s);
      assert t[..|r|] == s[..|r|];
      forall i | |r| <= i < |s| ensures IsSpace(s[i]) {
        if i < |s| - 1 {
          assert s[i] == t[i];
        }
      }
    }
  }

  /** `Trim` keeps a contiguous part of the text that neither starts nor ends with white space. */
  lemma TrimKeepsInnerText(s: string)
    ensures OccursAt(s, Trim(s), |s| - |TrimStart(s)|)
    ensures Trim(s) != [] ==> !IsSpace(Trim(s)[0]) && !IsSpace(Trim(s)[|Trim(s)| - 1])
  {
    var a := TrimStart(s);
    TrimStartDropsLeadingSpace(s);
    TrimEndDropsTrailingSpace(a);
    var r := TrimEnd(a);
    var k := |s| - |a|;
    assert a == s[k..];
    assert s[k..k + |r|] == a[..|r|];
  }

  /**
   * `r` occurs in `s` at `k`, and every character of `s` before and after
   * that occurrence is `c`.
   */
  predicate StrippedAt(s: string, r: string, c: char, k: int) {
    && OccursAt(s, r, k)
    && (forall i :: 0 <= i < k ==> s[i] == c)
    && (forall i :: k + |r| <= i < |s| ==> s[i] == c)
  }

  /** Putting a `c` back in front moves the occurrence one place on. */
  lemma StrippedAtAfterFirst(s: string, r: string, c: char, k: int)
    requires s != [] && s[0] == c && StrippedAt(s[1..], r, c, k)
    ensures StrippedAt(s, r, c, k + 1)
  {
    assert s[1..][k..k + |r|] == s[k + 1..k + 1 + |r|];
    forall i | 0 < i < k + 1 ensures s[i] == c {
      assert s[i] == s[1..][i - 1];
    }
    forall i | k + 1 + |r| <= i < |s| ensures s[i] == c {
      assert s[i] == s[1..][i - 1];
    }
  }

  /** Putting a `c` back at the end keeps the occurrence where it was. */
  lemma StrippedAtBeforeLast(s: string, r: string, c: char, k: int)
    requires s != [] && s[|s| - 1] == c && StrippedAt(s[..|s| - 1], r, c, k)
    ensures StrippedAt(s, r, c, k)
  {
    var t := s[..|s| - 1];
    assert t[k..k + |r|] == s[k..k + |r|];
    forall i | 0 <= i < k ensures s[i] == c {
      assert s[i] == t[i];
    }
    forall i | k + |r| <= i < |s| - 1 ensures s[i] == c {
      assert s[i] == t[i];
    }
  }

  /**
   * `StripChar` keeps a contiguous part of the text that neither starts nor
   * ends with `c`; everything it removes before and after that part is `c`,
   * so both removed runs are the longest ones.
   */
  lemma {:induction false} StripCharDropsEnds(s: string, c: char)
    ensures exists k :: StrippedAt(s, StripChar(s, c), c, k)
    ensures StripChar(s, c) != [] ==> StripChar(s, c)[0] != c && StripChar(s, c)[|StripChar(s, c)| - 1] != c
    decreases |s|
  {
    var r := StripChar(s, c);
    if s != [] && s[0] == c {
      StripCharDropsEnds(s[1..], c);
      var k :| StrippedAt(s[1..], r, c, k);
      StrippedAtAfterFirst(s, r, c, k);
    } else if s != [] && s[|s| - 1] == c {
      StripCharDropsEnds(s[..|s| - 1], c);
      var k :| StrippedAt(s[..|s| - 1], r, c, k);
      StrippedAtBeforeLast(s, r, c, k);
    } else {
      assert r == s;
      assert s[0..|s|] == s;
      assert StrippedAt(s, r, c, 0);
    }
  }

  predicate StartsWith(s: string, prefix: string) {
    |prefix| <= |s| && s[..|prefix|] == prefix
  }

  predicate EndsWith(s: string, suffix: string) {
    |suffix| <= |s| && s[|s| - |suffix|..] == suffix
  }

  /** `pat` occurs in `s` starting at position `k`. */
  predicate OccursAt(s: string, pat: string, k: int) {
    0 <= k && k + |pat| <= |s| && s[k..k + |pat|] == pat
  }

  /** `s.replace(pat, rep)`: non-overlapping occurrences, scanned left to right. */
  function ReplaceAll(s: string, pat: string, rep: string): string
    requires pat != []
    decreases |s|
  {
    if |s| < |pat| then s
    else if s[..|pat|] == pat then rep + ReplaceAll(s[|pat|..], pat, rep)
    else [s[0]] + ReplaceAll(s[1..], pat, rep)
  }

  /** A string without an occurrence of the pattern is left as it is. */
  lemma {:induction false} ReplaceAllAbsent(s: string, pat: string, rep: string)
    requires pat != []
    requires forall k :: !OccursAt(s, pat, k)
    ensures ReplaceAll(s, pat, rep) == s
    decreases |s|
  {
    if |s| >= |pat| {
      assert !OccursAt(s, pat, 0);
      forall k ensures !OccursAt(s[1..], pat, k) {
        if OccursAt(s[1..], pat, k) {
          assert s[1..][k..k + |pat|] == s[k + 1..k + 1 + |pat|];
          assert OccursAt(s, pat, k + 1);
        }
      }
      ReplaceAllAbsent(s[1..], pat, rep);
    }
  }

  /** The pattern itself is replaced wholesale. */
  lemma ReplaceAllWhole(pat: string, rep: string)
    requires pat != []
    ensures ReplaceAll(pat, pat, rep) == rep
  {
    assert pat[..|pat|] == pat;
    assert pat[|pat|..] == [];
  }
}
