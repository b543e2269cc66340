/**
 * Wide C strings and the case-insensitive bounded comparison _wcsnicmp, as
 * far as the command-line parser of DynamicResources.cpp uses them. A string
 * is the sequence of its characters before the terminating NUL; reading at
 * or past its end yields the terminator.
 */
module WideString {

  const NUL: char := '\0'

  /** A C string holds no NUL before its terminator. */
  predicate IsCString(s: seq<char>)
  {
    forall i :: 0 <= i < |s| ==> s[i] != NUL
  }

  /** The character at position i, the terminator once past the end. */
  function CharAt(s: seq<char>, i: nat): char
  {
    if i < |s| then s[i] else NUL
  }

  /** None of the first k characters of s is the terminator. */
  ghost predicate NoTerminatorBefore(s: seq<char>, k: nat)
  {
    forall j :: 0 <= j < k ==> CharAt(s, j) != NUL
  }

  /** Case folding of the "C" locale: only 'A'..'Z' change. */
  function ToLower(c: char): char
  {
    if 'A' <= c <= 'Z' then (c as int - 'A' as int + 'a' as int) as char else c
  }

  /**
   * _wcsnicmp(s1, s2, count): compares at most count characters after
   * folding, stopping after a terminator both strings share; the result is
   * the difference of the first two folded characters that differ, else 0.
   */
  function NICompare(s1: seq<char>, s2: seq<char>, count: nat): (r: int)
    ensures r != 0 ==> exists k :: 0 <= k < count && ToLower(CharAt(s1, k)) != ToLower(CharAt(s2, k))
    ensures r == 0 ==> forall k :: 0 <= k < count && NoTerminatorBefore(s1, k) ==> ToLower(CharAt(s1, k)) == ToLower(CharAt(s2, k))
    decreases count
  {
    if count == 0 then 0
    else
      var c1 := ToLower(CharAt(s1, 0));
      var c2 := ToLower(CharAt(s2, 0));
      if c1 != c2 then c1 as int - c2 as int
      else if c1 == NUL then 0
      else
        var rest := NICompare(s1[1..], s2[1..], count - 1);
        NICompareStep(s1, s2, count);
        rest
  }

  /** Carries the two postconditions of NICompare from the tails to the whole strings. */
  lemma NICompareStep(s1: seq<char>, s2: seq<char>, count: nat)
    requires count > 0 && |s1| > 0 && |s2| > 0 && ToLower(s1[0]) == ToLower(s2[0])
    ensures (exists k :: 0 <= k < count - 1 && ToLower(CharAt(s1[1..], k)) != ToLower(CharAt(s2[1..], k))) ==>
      exists k :: 0 <= k < count && ToLower(CharAt(s1, k)) != ToLower(CharAt(s2, k))
    ensures (forall k :: 0 <= k < count - 1 && NoTerminatorBefore(s1[1..], k) ==> ToLower(CharAt(s1[1..], k)) == ToLower(CharAt(s2[1..], k))) ==>
      forall k :: 0 <= k < count && NoTerminatorBefore(s1, k) ==> ToLower(CharAt(s1, k)) == ToLower(CharAt(s2, k))
  {
    if k :| 0 <= k < count - 1 && ToLower(CharAt(s1[1..], k)) != ToLower(CharAt(s2[1..], k)) {
      assert ToLower(CharAt(s1, k + 1)) != ToLower(CharAt(s2, k + 1));
    }
    if forall k :: 0 <= k < count - 1 && NoTerminatorBefore(s1[1..], k) ==> ToLower(CharAt(s1[1..], k)) == ToLower(CharAt(s2[1..], k)) {
      forall k | 0 <= k < count && NoTerminatorBefore(s1, k)
        ensures ToLower(CharAt(s1, k)) == ToLower(CharAt(s2, k))
      {
        if k > 0 {
          assert NoTerminatorBefore(s1[1..], k - 1) by {
            forall j | 0 <= j < k - 1 ensures CharAt(s1[1..], j) != NUL {
              assert CharAt(s1, j + 1) != NUL;
            }
          }
          assert ToLower(CharAt(s1[1..], k - 1)) == ToLower(CharAt(s2[1..], k - 1));
        }
      }
    }
  }

  /** a is, ignoring case, a prefix of p. */
  ghost predicate CaseInsensitivePrefix(a: seq<char>, p: seq<char>)
  {
    |a| <= |p| && forall k :: 0 <= k < |a| ==> ToLower(a[k]) == ToLower(p[k])
  }

  /**
   * Comparing the first n characters of a C string a (n at most its length)
   * with a C string p succeeds exactly when those n characters are, ignoring
   * case, the first n characters of p.
   */
  lemma {:induction false} NICompareZeroIff(a: seq<char>, p: seq<char>, n: nat)
    requires IsCString(a) && IsCString(p) && n <= |a|
    ensures NICompare(a, p, n) == 0 <==> CaseInsensitivePrefix(a[..n], p)
    decreases n
  {
    if n > 0 {
      if |p| == 0 {
        assert ToLower(a[0]) != NUL;
      } else if ToLower(a[0]) == ToLower(p[0]) {
        assert ToLower(a[0]) != NUL;
        NICompareZeroIff(a[1..], p[1..], n - 1);
        assert a[1..][..n - 1] == a[..n][1..];
        if CaseInsensitivePrefix(a[1..][..n - 1], p[1..]) {
          forall k | 0 <= k < n ensures ToLower(a[..n][k]) == ToLower(p[k]) {
            if k > 0 {
              assert ToLower(a[1..][..n - 1][k - 1]) == ToLower(p[1..][k - 1]);
            }
          }
        }
        if CaseInsensitivePrefix(a[..n], p) {
          forall k | 0 <= k < n - 1 ensures ToLower(a[1..][..n - 1][k]) == ToLower(p[1..][k]) {
            assert ToLower(a[..n][k + 1]) == ToLower(p[k + 1]);
          }
        }
      } else {
        assert !CaseInsensitivePrefix(a[..n], p) by {
          assert ToLower(a[..n][0]) != ToLower(p[0]);
        }
      }
    }
  }

  /** The two spellings of the image flag. */
  const DASH_IMAGE: seq<char> := "-image"
  const SLASH_IMAGE: seq<char> := "/image"

  /**
   * The test of DynamicResources::ParseCommandLineArgs: _wcsnicmp of the
   * argument against each spelling, with the argument's own length (wcslen)
   * as the count. An argument passes exactly when it is, ignoring case, a
   * prefix of "-image" or of "/image".
   */
  function IsImageFlag(arg: seq<char>): (r: bool)
    ensures IsCString(arg) ==> (r <==> CaseInsensitivePrefix(arg, DASH_IMAGE) || CaseInsensitivePrefix(arg, SLASH_IMAGE))
  {
    var r := NICompare(arg, DASH_IMAGE, |arg|) == 0 || NICompare(arg, SLASH_IMAGE, |arg|) == 0;
    if IsCString(arg) then
      assert arg[..|arg|] == arg;
      NICompareZeroIff(arg, DASH_IMAGE, |arg|);
      NICompareZeroIff(arg, SLASH_IMAGE, |arg|);
      r
    else r
  }

  /** Arguments that are the flag: the empty string, a shortened spelling, either prefix character, any case. */
  lemma ImageFlagMatches()
    ensures IsImageFlag("") && IsImageFlag("-im") && IsImageFlag("-IMAGE") && IsImageFlag("/Image")
  {
    assert IsCString("") && IsCString("-im") && IsCString("-IMAGE") && IsCString("/Image");
  }

  /** Arguments that are not: one character too many, no prefix character, a wrong letter. */
  lemma ImageFlagMismatches()
    ensures !IsImageFlag("-images") && !IsImageFlag("image") && !IsImageFlag("-imx")
  {
    assert IsCString("-images") && IsCString("image") && IsCString("-imx");
    assert ToLower("-imx"[3]) != ToLower(DASH_IMAGE[3]);
    assert ToLower("-imx"[0]) != ToLower(SLASH_IMAGE[0]);
    assert ToLower("image"[0]) != ToLower(DASH_IMAGE[0]);
    assert ToLower("image"[0]) != ToLower(SLASH_IMAGE[0]);
  }
}
