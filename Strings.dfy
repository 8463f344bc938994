/**
 * The few JavaScript string operations the login helper and the search
 * facade rely on, each with the meaning they depend on stated and proved: `includes`, `replace` with a
 * string pattern (first occurrence only), the global single-character
 * `replace` of a regular expression such as `/\+/g`, `Array.prototype.join`
 * and the decimal rendering of a number in a template literal.
 */
module Strings {

  /** `pat` occurs in `s` starting at index `i`. */
  predicate OccursAt(s: string, pat: string, i: nat) {
    i + |pat| <= |s| && s[i..i + |pat|] == pat
  }

  /** `s.includes(pat)`: only a pattern no longer than `s` can occur, and the empty pattern occurs in every string. */
  predicate Includes(s: string, pat: string): (b: bool)
    ensures b ==> |pat| <= |s|
    ensures |pat| == 0 ==> b
  {
    assert |pat| == 0 ==> OccursAt(s, pat, 0);
    exists i :: 0 <= i <= |s| && OccursAt(s, pat, i)
  }

  /** Every string includes itself. */
  lemma IncludesSelf(s: string)
    ensures Includes(s, s)
  {
    assert OccursAt(s, s, 0);
  }

  /** A string is included in any string that starts with it. */
  lemma IncludesPrefix(a: string, b: string)
    ensures Includes(a + b, a)
  {
    assert (a + b)[0..|a|] == a;
    assert OccursAt(a + b, a, 0);
  }

  /** Whatever a string includes, any string ending with it includes too. */
  lemma IncludesSuffix(a: string, b: string)
    ensures forall pat :: Includes(b, pat) ==> Includes(a + b, pat)
  {
    forall pat | Includes(b, pat) ensures Includes(a + b, pat) {
      IncludesConcat(a, b, pat);
    }
  }

  /** A later occurrence in `s[1..]` is an occurrence in `s`. */
  lemma IncludesTail(s: string, pat: string)
    requires |s| > 0
    ensures Includes(s[1..], pat) ==> Includes(s, pat)
  {
    if Includes(s[1..], pat) {
      var j :| 0 <= j <= |s[1..]| && OccursAt(s[1..], pat, j);
      OccursShift(s, pat, j);
    }
  }

  /** A string that lacks the first character of a non-empty pattern cannot include the pattern. */
  lemma MissingCharExcludes(s: string, pat: string)
    requires |pat| > 0 && pat[0] !in s
    ensures !Includes(s, pat)
  {
    forall i | 0 <= i <= |s| ensures !OccursAt(s, pat, i) {
      if i + |pat| <= |s| {
        assert s[i..i + |pat|][0] == s[i];
      }
    }
  }

  /** An occurrence inside either half is an occurrence inside the concatenation. */
  lemma IncludesConcat(a: string, b: string, pat: string)
    ensures Includes(a, pat) || Includes(b, pat) ==> Includes(a + b, pat)
  {
    if Includes(a, pat) {
      var i :| 0 <= i <= |a| && OccursAt(a, pat, i);
      assert (a + b)[i..i + |pat|] == a[i..i + |pat|];
      assert OccursAt(a + b, pat, i);
    } else if Includes(b, pat) {
      var i :| 0 <= i <= |b| && OccursAt(b, pat, i);
      assert (a + b)[|a| + i..|a| + i + |pat|] == b[i..i + |pat|];
      assert OccursAt(a + b, pat, |a| + i);
    }
  }

  /**
   * A non-empty pattern none of whose characters appears in a non-empty
   * separator cannot straddle the separator: it occurs in `a + sep + b` only
   * if it occurs in `a` or in `b`.
   */
  lemma IncludesAcrossSeparator(a: string, sep: string, b: string, pat: string)
    requires |pat| > 0 && |sep| > 0
    requires forall k :: 0 <= k < |pat| ==> pat[k] !in sep
    ensures Includes(a + sep + b, pat) <==> Includes(a, pat) || Includes(b, pat)
  {
    var s := a + sep + b;
    IncludesConcat(a, sep + b, pat);
    IncludesConcat(sep, b, pat);
    assert s == a + (sep + b);
    if Includes(s, pat) {
      var i :| 0 <= i <= |s| && OccursAt(s, pat, i);
      if i + |pat| <= |a| {
        assert a[i..i + |pat|] == s[i..i + |pat|];
        assert OccursAt(a, pat, i);
      } else if i >= |a| + |sep| {
        var j := i - |a| - |sep|;
        assert b[j..j + |pat|] == s[i..i + |pat|];
        assert OccursAt(b, pat, j);
      } else {
        WindowMeetsSeparator(a, sep, b, pat, i);
        assert false;
      }
    }
  }

  /** A window of `a + sep + b` that fits in neither `a` nor `b` covers a character of `sep`. */
  lemma WindowMeetsSeparator(a: string, sep: string, b: string, pat: string, i: nat)
    requires |pat| > 0 && |sep| > 0
    requires OccursAt(a + sep + b, pat, i)
    requires i + |pat| > |a| && i < |a| + |sep|
    ensures exists k :: 0 <= k < |pat| && pat[k] in sep
  {
    var s := a + sep + b;
    var p := if i < |a| then |a| else i;
    assert s[p] == sep[p - |a|];
    assert s[i..i + |pat|][p - i] == s[p];
    assert pat[p - i] in sep;
  }

  /** Dropping the first character shifts every occurrence one place to the left. */
  lemma OccursShift(s: string, pat: string, j: nat)
    requires |s| > 0
    ensures OccursAt(s[1..], pat, j) <==> OccursAt(s, pat, j + 1)
  {
    if j + 1 + |pat| <= |s| {
      assert s[1..][j..j + |pat|] == s[j + 1..j + 1 + |pat|];
    }
  }

  /**
   * `s.replace(pat, rep)` with a string pattern: only the first occurrence is
   * replaced (see `ReplaceFirstSplices`), and without one the string is returned as it is.
   */
  function ReplaceFirst(s: string, pat: string, rep: string): (r: string)
    ensures !Includes(s, pat) ==> r == s
    decreases |s|
  {
    if OccursAt(s, pat, 0) then rep + s[|pat|..]
    else if |s| == 0 then s
    else
      IncludesTail(s, pat);
      [s[0]] + ReplaceFirst(s[1..], pat, rep)
  }

  /** When the first occurrence of `pat` is at `i`, `ReplaceFirst` splices `rep` in there. */
  lemma {:induction false} ReplaceFirstSplices(s: string, pat: string, rep: string, i: nat)
    requires OccursAt(s, pat, i)
    requires forall j :: 0 <= j < i ==> !OccursAt(s, pat, j)
    ensures ReplaceFirst(s, pat, rep) == s[..i] + rep + s[i + |pat|..]
    decreases i
  {
    if i == 0 {
      assert s[..0] + rep + s[|pat|..] == rep + s[|pat|..];
    } else {
      var t := s[1..];
      ReplaceFirstStep(s, pat, rep);
      NoEarlierInTail(s, pat, i);
      ReplaceFirstSplices(t, pat, rep, i - 1);
      SpliceAfterHead(s, rep, i, |pat|);
    }
  }

  /** An occurrence at `i` with none before it is, in the tail, an occurrence at `i - 1` with none before it. */
  lemma NoEarlierInTail(s: string, pat: string, i: nat)
    requires 0 < i && OccursAt(s, pat, i)
    requires forall j :: 0 <= j < i ==> !OccursAt(s, pat, j)
    ensures OccursAt(s[1..], pat, i - 1)
    ensures forall j :: 0 <= j < i - 1 ==> !OccursAt(s[1..], pat, j)
  {
    OccursShift(s, pat, i - 1);
    forall j | 0 <= j < i - 1 ensures !OccursAt(s[1..], pat, j) {
      OccursShift(s, pat, j);
    }
  }

  /** Before the first occurrence, `ReplaceFirst` keeps the head and replaces in the tail. */
  lemma ReplaceFirstStep(s: string, pat: string, rep: string)
    requires |s| > 0 && !OccursAt(s, pat, 0)
    ensures ReplaceFirst(s, pat, rep) == [s[0]] + ReplaceFirst(s[1..], pat, rep)
  {
  }

  /** Putting the head back in front of a splice into the tail is the same splice, one place later. */
  lemma SpliceAfterHead(s: string, rep: string, i: nat, n: nat)
    requires 0 < i && i + n <= |s|
    ensures [s[0]] + (s[1..][..i - 1] + rep + s[1..][i - 1 + n..]) == s[..i] + rep + s[i + n..]
  {
    assert [s[0]] + s[1..][..i - 1] == s[..i];
    assert s[1..][i - 1 + n..] == s[i + n..];
  }

  /** The global replacement of one character by another (`s.replace(/x/g, y)`). */
  function ReplaceChar(s: string, from: char, to: char): (r: string)
    ensures |r| == |s|
    ensures forall i :: 0 <= i < |s| ==> r[i] == (if s[i] == from then to else s[i])
  {
    if |s| == 0 then [] else [if s[0] == from then to else s[0]] + ReplaceChar(s[1..], from, to)
  }

  /** The number of occurrences of `c` in `s`. */
  function Count(s: string, c: char): nat {
    if |s| == 0 then 0 else (if s[0] == c then 1 else 0) + Count(s[1..], c)
  }

  /** Every character other than `c` keeps its count when `c` is replaced by a different character. */
  lemma {:induction false} ReplaceCharKeepsCount(s: string, from: char, to: char, c: char)
    requires c != from && c != to
    ensures Count(ReplaceChar(s, from, to), c) == Count(s, c)
  {
    if |s| > 0 {
      var r := ReplaceChar(s, from, to);
      assert r[1..] == ReplaceChar(s[1..], from, to);
      ReplaceCharKeepsCount(s[1..], from, to, c);
    }
  }

  /** The global deletion of one character (`s.replace(/x/g, '')`). */
  function RemoveChar(s: string, c: char): (r: string)
    ensures c !in r
    ensures forall d :: d in r ==> d in s
    ensures |r| == |s| - Count(s, c)
    ensures forall d :: d != c ==> Count(r, d) == Count(s, d)
  {
    if |s| == 0 then []
    else if s[0] == c then RemoveChar(s[1..], c)
    else
      var rest := RemoveChar(s[1..], c);
      assert ([s[0]] + rest)[1..] == rest;
      [s[0]] + rest
  }

  /** Deleting a character commutes with replacing two others. */
  lemma {:induction false} RemoveCommutesWithReplace(s: string, c: char, from: char, to: char)
    requires c != from && c != to
    ensures RemoveChar(ReplaceChar(s, from, to), c) == ReplaceChar(RemoveChar(s, c), from, to)
  {
    if |s| > 0 {
      var r := ReplaceChar(s, from, to);
      assert r[1..] == ReplaceChar(s[1..], from, to);
      RemoveCommutesWithReplace(s[1..], c, from, to);
      if s[0] != c {
        var tail := RemoveChar(s[1..], c);
        var rt := ReplaceChar([s[0]] + tail, from, to);
        assert rt == [rt[0]] + rt[1..];
        assert rt[1..] == ReplaceChar(tail, from, to);
      }
    }
  }

  /** Deleting a character that does not occur changes nothing. */
  lemma {:induction false} RemoveAbsentChar(s: string, c: char)
    requires c !in s
    ensures RemoveChar(s, c) == s
  {
    if |s| > 0 {
      assert c !in s[1..];
      RemoveAbsentChar(s[1..], c);
      assert s == [s[0]] + s[1..];
    }
  }

  /** `parts.join(sep)`: the empty list joins to "", a single part to itself; every part occurs in the result. */
  function Join(parts: seq<string>, sep: string): (r: string)
    ensures forall i :: 0 <= i < |parts| ==> Includes(r, parts[i])
  {
    if |parts| == 0 then ""
    else if |parts| == 1 then
      IncludesSelf(parts[0]);
      parts[0]
    else
      var rest := Join(parts[1..], sep);
      IncludesPrefix(parts[0], sep + rest);
      IncludesSuffix(parts[0] + sep, rest);
      assert parts[0] + sep + rest == parts[0] + (sep + rest);
      assert forall i :: 1 <= i < |parts| ==> parts[i] == parts[1..][i - 1];
      parts[0] + sep + rest
  }

  /**
   * With a separator that shares no character with the pattern, the joined
   * string includes the pattern exactly when one of the parts does.
   */
  lemma {:induction false} JoinIncludes(parts: seq<string>, sep: string, pat: string)
    requires |pat| > 0 && |sep| > 0
    requires forall k :: 0 <= k < |pat| ==> pat[k] !in sep
    ensures Includes(Join(parts, sep), pat) <==> exists i :: 0 <= i < |parts| && Includes(parts[i], pat)
  {
    if |parts| == 0 {
      assert !OccursAt("", pat, 0);
    } else if |parts| > 1 {
      var rest := parts[1..];
      JoinIncludes(rest, sep, pat);
      IncludesAcrossSeparator(parts[0], sep, Join(rest, sep), pat);
      if exists i :: 0 <= i < |parts| && Includes(parts[i], pat) {
        var i :| 0 <= i < |parts| && Includes(parts[i], pat);
        if i > 0 { assert rest[i - 1] == parts[i]; }
      }
      if exists i :: 0 <= i < |rest| && Includes(rest[i], pat) {
        var i :| 0 <= i < |rest| && Includes(rest[i], pat);
        assert parts[i + 1] == rest[i];
      }
    }
  }

  predicate IsDigit(c: char) {
    '0' <= c <= '9'
  }

  predicate AllDigits(s: string) {
    forall i :: 0 <= i < |s| ==> IsDigit(s[i])
  }

  function DigitChar(d: nat): (c: char)
    requires d < 10
    ensures IsDigit(c)
  {
    ('0' as int + d) as char
  }

  /** The decimal rendering of a natural number, as a template literal `${n}` produces it. */
  function NatToString(n: nat): (r: string)
    ensures |r| > 0 && AllDigits(r)
    decreases n
  {
    if n < 10 then [DigitChar(n)] else NatToString(n / 10) + [DigitChar(n % 10)]
  }

  /** Reads a string of decimal digits back as a number. */
  function ParseDecimal(s: string): nat
    requires AllDigits(s)
    decreases |s|
  {
    if |s| == 0 then 0 else 10 * ParseDecimal(s[..|s| - 1]) + (s[|s| - 1] as int - '0' as int)
  }

  /** Rendering a number in decimal loses nothing: parsing it back gives the number. */
  lemma {:induction false} DecimalRoundTrip(n: nat)
    ensures ParseDecimal(NatToString(n)) == n
    decreases n
  {
    var r := NatToString(n);
    if n >= 10 {
      DecimalRoundTrip(n / 10);
      assert r[..|r| - 1] == NatToString(n / 10);
    }
  }

  /** Distinct numbers render to distinct strings. */
  lemma NatToStringInjective(a: nat, b: nat)
    requires a != b
    ensures NatToString(a) != NatToString(b)
  {
    DecimalRoundTrip(a);
    DecimalRoundTrip(b);
  }
}
