/** The Python string built-ins the core relies on: `sub in s`,
    `s.split(sep)[-1]`, `s.replace(old, new)` and `s.lower()`. */
module PyStr {

  /** `w` occurs in `s` starting at index `p`. */
  predicate OccursAt(s: string, p: int, w: string) {
    0 <= p && p + |w| <= |s| && s[p..p + |w|] == w
  }

  /** Python's `w in s` for strings. */
  predicate Contains(s: string, w: string) {
    exists p | 0 <= p <= |s| :: OccursAt(s, p, w)
  }

  /** Where the last piece of `s.split(sep)` begins, scanning as `split` does:
      left to right from `i`, the current piece having begun at `start`, and
      a match resuming the scan right after the separator. */
  function LastPieceStart(s: string, sep: string, i: nat, start: nat): (r: nat)
    requires |sep| > 0 && start <= i <= |s|
    requires forall p :: start <= p < i ==> !OccursAt(s, p, sep)
    requires start == 0 || OccursAt(s, start - |sep|, sep)
    decreases |s| - i
    ensures start <= r <= |s|
    ensures forall p :: r <= p ==> !OccursAt(s, p, sep)
    ensures r == 0 || OccursAt(s, r - |sep|, sep)
  {
    if i + |sep| > |s| then
      assert forall p :: i <= p ==> !OccursAt(s, p, sep);
      start
    else if s[i..i + |sep|] == sep then
      assert OccursAt(s, (i + |sep|) - |sep|, sep);
      LastPieceStart(s, sep, i + |sep|, i + |sep|)
    else
      assert !OccursAt(s, i, sep);
      LastPieceStart(s, sep, i + 1, start)
  }

  /** Python's `s.split(sep)[-1]`: the text after the last separator, or all
      of `s` when the separator does not occur. */
  function AfterLast(s: string, sep: string): (r: string)
    requires |sep| > 0
    ensures !Contains(r, sep)
    ensures !Contains(s, sep) ==> r == s
    ensures Contains(s, sep) ==> exists k :: OccursAt(s, k, sep) && r == s[k + |sep|..]
  {
    var k := LastPieceStart(s, sep, 0, 0);
    OccursInSuffix(s, k, sep);
    assert k != 0 ==> OccursAt(s, k - |sep|, sep) && s[k..] == s[(k - |sep|) + |sep|..];
    s[k..]
  }

  /** Two occurrences of a separator whose first character does not recur
      in it cannot overlap. */
  lemma OccurrencesApart(s: string, sep: string)
    requires |sep| > 0 && sep[0] !in sep[1..]
    ensures forall k, k' :: OccursAt(s, k, sep) && OccursAt(s, k', sep) && k < k' ==> k + |sep| <= k'
  {
    forall k, k' | OccursAt(s, k, sep) && OccursAt(s, k', sep) && k < k'
      ensures k + |sep| <= k'
    {
      assert s[k'] == s[k'..k' + |sep|][0] == sep[0];
      forall j | 1 <= j < |sep| ensures sep[j] != sep[0] {
        assert sep[1..][j - 1] == sep[j];
      }
      forall j | 0 <= j < |sep| ensures s[k + j] == sep[j] {
        assert s[k..k + |sep|][j] == s[k + j];
      }
    }
  }

  /** Occurrences in a suffix are occurrences in the whole string. */
  lemma OccursInSuffix(s: string, d: nat, w: string)
    requires d <= |s|
    ensures forall k :: 0 <= k ==> OccursAt(s[d..], k, w) == OccursAt(s, d + k, w)
  {
    forall k | 0 <= k ensures OccursAt(s[d..], k, w) == OccursAt(s, d + k, w) {
      if d + k + |w| <= |s| {
        assert s[d..][k..k + |w|] == s[d + k..d + k + |w|];
      }
    }
  }

  /** When a separator whose first character does not recur in it occurs at
      `n` and never after that occurrence, the last piece begins right after it. */
  lemma AfterLastOccurrence(s: string, sep: string, n: nat)
    requires |sep| > 0 && sep[0] !in sep[1..]
    requires OccursAt(s, n, sep) && !Contains(s[n + |sep|..], sep)
    ensures AfterLast(s, sep) == s[n + |sep|..]
  {
    var m := |sep|;
    var k := LastPieceStart(s, sep, 0, 0);
    assert AfterLast(s, sep) == s[k..];
    assert n < k && OccursAt(s, k - m, sep);
    NoLaterOccurrence(s, sep, n);
    OccurrencesApart(s, sep);
  }

  /** Past an occurrence at `n` after which the separator does not occur,
      no occurrence starts. */
  lemma NoLaterOccurrence(s: string, sep: string, n: nat)
    requires |sep| > 0 && n + |sep| <= |s| && !Contains(s[n + |sep|..], sep)
    ensures forall p :: n + |sep| <= p ==> !OccursAt(s, p, sep)
  {
    OccursInSuffix(s, n + |sep|, sep);
    forall p | n + |sep| <= p ensures !OccursAt(s, p, sep) {
      var d := p - (n + |sep|);
      if d <= |s[n + |sep|..]| {
        assert !OccursAt(s[n + |sep|..], d, sep);
      }
    }
  }

  /** The last piece of `before + sep + after` is `after` when `after` holds
      no separator of its own. */
  lemma AfterLastJoin(before: string, sep: string, after: string)
    requires |sep| > 0 && sep[0] !in sep[1..]
    requires !Contains(after, sep)
    ensures AfterLast(before + sep + after, sep) == after
  {
    var s := before + sep + after;
    var n := |before|;
    assert s[n..n + |sep|] == sep && s[n + |sep|..] == after;
    AfterLastOccurrence(s, sep, n);
  }

  /** Python's `s.replace(pat, rep)`: every match found by a left-to-right
      scan is replaced, and the scan resumes after the match. */
  function ReplaceAll(s: string, pat: string, rep: string): (r: string)
    requires |pat| > 0
    decreases |s|
  {
    if |s| < |pat| then s
    else if s[..|pat|] == pat then rep + ReplaceAll(s[|pat|..], pat, rep)
    else [s[0]] + ReplaceAll(s[1..], pat, rep)
  }

  /** Replacing a pattern that does not occur leaves the string unchanged. */
  lemma {:induction false} ReplaceAbsent(s: string, pat: string, rep: string)
    requires |pat| > 0 && !Contains(s, pat)
    ensures ReplaceAll(s, pat, rep) == s
    decreases |s|
  {
    if |s| >= |pat| {
      assert !OccursAt(s, 0, pat);
      assert s[..|pat|] != pat;
      forall p | 0 <= p <= |s[1..]| ensures !OccursAt(s[1..], p, pat) {
        OccursInSuffix(s, 1, pat);
      }
      ReplaceAbsent(s[1..], pat, rep);
    }
  }

  /** A word whose first letter appears nowhere else in it, and a replacement
      that differs from it only in that first letter (as "false" and "False"). */
  predicate RecapitalisesFirst(pat: string, rep: string) {
    && |pat| > 0 && |rep| == |pat|
    && rep[1..] == pat[1..]
    && pat[0] !in pat[1..]
    && rep[0] !in pat
  }

  /** Replacing such a word changes exactly the first letter of each of its
      occurrences in the input, and nothing else. */
  lemma {:induction false} RecapitaliseAt(s: string, pat: string, rep: string)
    requires RecapitalisesFirst(pat, rep)
    ensures |ReplaceAll(s, pat, rep)| == |s|
    ensures forall k :: 0 <= k < |s| ==>
      ReplaceAll(s, pat, rep)[k] == if OccursAt(s, k, pat) then rep[0] else s[k]
    decreases |s|
  {
    var r := ReplaceAll(s, pat, rep);
    if |s| < |pat| {
    } else if s[..|pat|] == pat {
      var t := s[|pat|..];
      RecapitaliseAt(t, pat, rep);
      forall k | 0 <= k < |s|
        ensures r[k] == if OccursAt(s, k, pat) then rep[0] else s[k]
      {
        if k == 0 {
          assert OccursAt(s, 0, pat);
        } else if k < |pat| {
          assert r[k] == rep[k] == pat[k] == s[k];
          assert pat[k] in pat[1..] by { assert pat[1..][k - 1] == pat[k]; }
          assert !OccursAt(s, k, pat) by {
            if k + |pat| <= |s| { assert s[k..k + |pat|][0] == s[k] != pat[0]; }
          }
        } else {
          assert r[k] == ReplaceAll(t, pat, rep)[k - |pat|];
          OccursInSuffix(s, |pat|, pat);
        }
      }
    } else {
      var t := s[1..];
      RecapitaliseAt(t, pat, rep);
      forall k | 0 <= k < |s|
        ensures r[k] == if OccursAt(s, k, pat) then rep[0] else s[k]
      {
        if k == 0 {
          assert !OccursAt(s, 0, pat);
        } else {
          assert r[k] == ReplaceAll(t, pat, rep)[k - 1];
          OccursInSuffix(s, 1, pat);
        }
      }
    }
  }

  /** After such a replacement no occurrence of the word is left. */
  lemma RecapitalisedHasNone(s: string, pat: string, rep: string)
    requires RecapitalisesFirst(pat, rep)
    ensures !Contains(ReplaceAll(s, pat, rep), pat)
  {
    var r := ReplaceAll(s, pat, rep);
    RecapitaliseAt(s, pat, rep);
    forall p | 0 <= p <= |r| ensures !OccursAt(r, p, pat) {
      if p + |pat| <= |r| {
        if OccursAt(s, p, pat) {
          assert r[p..p + |pat|][0] == rep[0] != pat[0];
        } else {
          var j :| 0 <= j < |pat| && s[p + j] != pat[j];
          assert pat[j] in pat;
          assert r[p..p + |pat|][j] != pat[j];
        }
      }
    }
  }

  /** A replacement of this kind cannot create an occurrence of a word that
      contains neither the old nor the new first letter. */
  lemma RecapitalisingKeepsAbsence(s: string, pat: string, rep: string, w: string)
    requires RecapitalisesFirst(pat, rep)
    requires rep[0] !in w
    requires !Contains(s, w)
    ensures !Contains(ReplaceAll(s, pat, rep), w)
  {
    var r := ReplaceAll(s, pat, rep);
    RecapitaliseAt(s, pat, rep);
    forall p | 0 <= p <= |r| ensures !OccursAt(r, p, w) {
      if p + |w| <= |r| {
        assert !OccursAt(s, p, w);
        var j :| 0 <= j < |w| && s[p + j] != w[j];
        assert w[j] in w;
        assert r[p..p + |w|][j] != w[j];
      }
    }
  }

  /** Deleting a character (`s.replace(c, "")`) removes every copy of it and
      keeps every other character, in order. */
  lemma {:induction false} DeleteChar(s: string, c: char)
    ensures c !in ReplaceAll(s, [c], "")
    ensures forall x :: x != c ==> multiset(ReplaceAll(s, [c], ""))[x] == multiset(s)[x]
    decreases |s|
  {
    if |s| >= 1 {
      DeleteChar(s[1..], c);
      assert s == [s[0]] + s[1..];
    }
  }

  /** Python's `c.lower()` on one character, for the ASCII letters. */
  function LowerChar(c: char): (r: char)
    ensures 'A' <= c <= 'Z' ==> 'a' <= r <= 'z'
    ensures !('A' <= c <= 'Z') ==> r == c
  {
    if 'A' <= c <= 'Z' then (c as int + 32) as char else c
  }

  /** Python's `s.lower()`, for the ASCII letters. */
  function Lower(s: string): (r: string)
    ensures |r| == |s|
    ensures forall k :: 0 <= k < |s| ==> r[k] == LowerChar(s[k])
  {
    if s == [] then [] else [LowerChar(s[0])] + Lower(s[1..])
  }

  /** Text without capital letters is its own lower case. */
  lemma {:induction false} LowerOfLowercase(s: string)
    requires forall k :: 0 <= k < |s| ==> !('A' <= s[k] <= 'Z')
    ensures Lower(s) == s
  {
    if s != [] {
      LowerOfLowercase(s[1..]);
    }
  }

  /** Lower-casing works piece by piece. */
  lemma {:induction false} LowerAppend(a: string, b: string)
    ensures Lower(a + b) == Lower(a) + Lower(b)
  {
    if a != [] {
      assert (a + b)[1..] == a[1..] + b;
      LowerAppend(a[1..], b);
    }
  }
}
