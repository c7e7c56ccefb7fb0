/**
 * The Python `str` operations the dispatcher relies on, over `seq<char>`:
 * `strip()`, `split(sep)`, `lower()` and `replace(old, new)`, plus the
 * decimal rendering of a count that f-strings perform.
 */
module Text {

  /** Python's `str.isspace` for a single character. */
  predicate IsSpace(c: char) {
    ('\t' <= c <= '\r') || ('\U{1C}' <= c <= '\U{1F}') || c == ' ' ||
    c == '\U{85}' || c == '\U{A0}' || c == '\U{1680}' ||
    ('\U{2000}' <= c <= '\U{200A}') || c == '\U{2028}' || c == '\U{2029}' ||
    c == '\U{202F}' || c == '\U{205F}' || c == '\U{3000}'
  }

  predicate AllSpace(s: string) {
    forall i :: 0 <= i < |s| ==> IsSpace(s[i])
  }

  /** Drops the leading white space. */
  function TrimStart(s: string): (r: string)
    ensures |r| <= |s|
    ensures r == [] || !IsSpace(r[0])
    decreases |s|
  {
    if |s| > 0 && IsSpace(s[0]) then TrimStart(s[1..]) else s
  }

  /** Drops the trailing white space. */
  function TrimEnd(s: string): (r: string)
    ensures |r| <= |s|
    ensures r == [] || !IsSpace(r[|r| - 1])
    decreases |s|
  {
    if |s| > 0 && IsSpace(s[|s| - 1]) then TrimEnd(s[..|s| - 1]) else s
  }

  /** `TrimStart` keeps a suffix and removes only white space. */
  lemma {:induction false} TrimStartSuffix(s: string)
    ensures TrimStart(s) == s[|s| - |TrimStart(s)|..]
    ensures AllSpace(s[..|s| - |TrimStart(s)|])
    decreases |s|
  {
    if |s| > 0 && IsSpace(s[0]) {
      TrimStartSuffix(s[1..]);
      var d := |s| - |TrimStart(s)|;
      assert s[1..][d - 1..] == s[d..];
      forall k | 0 <= k < d ensures IsSpace(s[k]) {
        if k > 0 { assert s[k] == s[1..][..d - 1][k - 1]; }
      }
    }
  }

  /** `TrimEnd` keeps a prefix and removes only white space. */
  lemma {:induction false} TrimEndPrefix(s: string)
    ensures TrimEnd(s) == s[..|TrimEnd(s)|]
    ensures AllSpace(s[|TrimEnd(s)|..])
    decreases |s|
  {
    if |s| > 0 && IsSpace(s[|s| - 1]) {
      var t := s[..|s| - 1];
      TrimEndPrefix(t);
      var n := |TrimEnd(s)|;
      assert t[..n] == s[..n];
      forall k | n <= k < |s| ensures IsSpace(s[k]) {
        if k < |s| - 1 { assert s[k] == t[n..][k - n]; }
      }
    }
  }

  /** Python's `str.strip()` without arguments. */
  function Strip(s: string): (r: string)
    ensures |r| <= |s|
    ensures r == [] || (!IsSpace(r[0]) && !IsSpace(r[|r| - 1]))
  {
    TrimEndPrefix(TrimStart(s));
    TrimEnd(TrimStart(s))
  }

  /** `strip()` removes white space from the two ends and nothing else. */
  lemma StripSlice(s: string)
    ensures exists i :: 0 <= i <= |s| - |Strip(s)| && Strip(s) == s[i..i + |Strip(s)|]
                        && AllSpace(s[..i]) && AllSpace(s[i + |Strip(s)|..])
  {
    var t := TrimStart(s);
    var r := TrimEnd(t);
    TrimStartSuffix(s);
    TrimEndPrefix(t);
    var i := |s| - |t|;
    assert r == s[i..i + |r|];
    assert s[i + |r|..] == t[|r|..];
  }

  lemma AllSpaceSlices(s: string, i: nat)
    requires i <= |s| && AllSpace(s[..i]) && AllSpace(s[i..])
    ensures AllSpace(s)
  {
    forall k | 0 <= k < |s| ensures IsSpace(s[k]) {
      if k < i { assert s[k] == s[..i][k]; } else { assert s[k] == s[i..][k - i]; }
    }
  }

  /** `strip()` yields the empty string exactly for all-white-space input. */
  lemma StripEmptyIff(s: string)
    ensures Strip(s) == [] <==> AllSpace(s)
  {
    var t := TrimStart(s);
    var r := TrimEnd(t);
    TrimStartSuffix(s);
    TrimEndPrefix(t);
    if r == [] {
      assert AllSpace(t) by {
        assert t[0..] == t;
      }
      assert t == s[|s| - |t|..];
      AllSpaceSlices(s, |s| - |t|);
    } else {
      assert r[0] == t[0] == s[|s| - |t|];
    }
  }

  /** Stripping only removes characters: one absent from `s` is absent from `strip(s)`. */
  lemma StripKeepsOut(s: string, c: char)
    requires c !in s
    ensures c !in Strip(s)
  {
    var t := TrimStart(s);
    var r := TrimEnd(t);
    TrimStartSuffix(s);
    TrimEndPrefix(t);
    forall j | 0 <= j < |r| ensures r[j] != c {
      assert r[j] == t[j] == s[|s| - |t| + j];
    }
  }

  /** Stripping twice is stripping once. */
  lemma StripIdempotent(s: string)
    ensures Strip(Strip(s)) == Strip(s)
  {
    var r := Strip(s);
    assert TrimStart(r) == r;
    assert TrimEnd(r) == r;
  }

  /** Python's `str.split(sep)` for a one-character separator. */
  function Split(s: string, sep: char): (parts: seq<string>)
    ensures |parts| >= 1
    ensures forall k :: 0 <= k < |parts| ==> sep !in parts[k]
    decreases |s|
  {
    if s == [] then [[]]
    else
      var rest := Split(s[1..], sep);
      if s[0] == sep then
        assert ([[]] + rest)[1..] == rest;
        [[]] + rest
      else
        var parts := [[s[0]] + rest[0]] + rest[1..];
        assert parts[1..] == rest[1..];
        parts
  }

  /** Python's `sep.join(parts)`, the inverse of `Split`. */
  function Join(parts: seq<string>, sep: char): (s: string)
    decreases |parts|
  {
    if |parts| == 0 then []
    else if |parts| == 1 then parts[0]
    else parts[0] + [sep] + Join(parts[1..], sep)
  }

  /** Joining the pieces with the separator gives back the split string. */
  lemma {:induction false} JoinSplit(s: string, sep: char)
    ensures Join(Split(s, sep), sep) == s
    decreases |s|
  {
    if s != [] {
      var rest := Split(s[1..], sep);
      JoinSplit(s[1..], sep);
      if s[0] == sep {
        assert ([[]] + rest)[1..] == rest;
      } else {
        var parts := [[s[0]] + rest[0]] + rest[1..];
        assert parts[1..] == rest[1..];
        if |rest| > 1 {
          assert Join(rest, sep) == rest[0] + [sep] + Join(rest[1..], sep);
        }
        assert [s[0]] + s[1..] == s;
      }
    }
  }

  /** A piece free of the separator comes back out of `Split` whole. */
  lemma {:induction false} SplitPiece(a: string, sep: char, t: string)
    requires sep !in a
    ensures Split(a, sep) == [a]
    ensures Split(a + [sep] + t, sep) == [a] + Split(t, sep)
    decreases |a|
  {
    if a == [] {
      assert ([] + [sep] + t)[1..] == t;
    } else {
      SplitPiece(a[1..], sep, t);
      assert (a + [sep] + t)[1..] == a[1..] + [sep] + t;
      assert [a[0]] + a[1..] == a;
    }
  }

  /** `Split` undoes `Join` when no piece holds a separator. */
  lemma {:induction false} SplitJoin(parts: seq<string>, sep: char)
    requires |parts| >= 1
    requires forall k :: 0 <= k < |parts| ==> sep !in parts[k]
    ensures Split(Join(parts, sep), sep) == parts
    decreases |parts|
  {
    if |parts| == 1 {
      SplitPiece(parts[0], sep, []);
    } else {
      SplitJoin(parts[1..], sep);
      SplitPiece(parts[0], sep, Join(parts[1..], sep));
      assert [parts[0]] + parts[1..] == parts;
    }
  }

  /** Python's `str.lower()` restricted to ASCII letters. */
  function LowerChar(c: char): (d: char)
    ensures ('A' <= c <= 'Z') ==> 'a' <= d <= 'z' && d as int - c as int == 32
    ensures !('A' <= c <= 'Z') ==> d == c
  {
    if 'A' <= c <= 'Z' then (c as int + 32) as char else c
  }

  function Lower(s: string): (r: string)
    ensures |r| == |s|
    ensures forall i :: 0 <= i < |s| ==> r[i] == LowerChar(s[i])
    decreases |s|
  {
    if s == [] then [] else [LowerChar(s[0])] + Lower(s[1..])
  }

  /** Lowering two strings that agree up to letter case gives the same string. */
  lemma LowerIgnoresCase(a: string, b: string)
    requires |a| == |b|
    requires forall i :: 0 <= i < |a| ==> LowerChar(a[i]) == LowerChar(b[i])
    ensures Lower(a) == Lower(b)
  {
  }

  predicate StartsWith(s: string, p: string) {
    |p| <= |s| && s[..|p|] == p
  }

  ghost predicate Contains(s: string, p: string) {
    exists i :: 0 <= i <= |s| && StartsWith(s[i..], p)
  }

  /**
   * Python's `s.replace(pat, rep)` for a non-empty `pat`: every occurrence,
   * scanned left to right and not overlapping, is replaced.
   */
  function Replace(s: string, pat: string, rep: string): (r: string)
    requires |pat| > 0
    decreases |s|
  {
    if s == [] then []
    else if StartsWith(s, pat) then rep + Replace(s[|pat|..], pat, rep)
    else [s[0]] + Replace(s[1..], pat, rep)
  }

  /** A string without the pattern is left unchanged. */
  lemma {:induction false} ReplaceAbsent(s: string, pat: string, rep: string)
    requires |pat| > 0
    requires !Contains(s, pat)
    ensures Replace(s, pat, rep) == s
    decreases |s|
  {
    if s != [] {
      assert s[0..] == s;
      assert !Contains(s[1..], pat) by {
        forall i | 0 <= i <= |s[1..]| ensures !StartsWith(s[1..][i..], pat) {
          assert s[1..][i..] == s[i + 1..];
        }
      }
      ReplaceAbsent(s[1..], pat, rep);
      assert [s[0]] + s[1..] == s;
    }
  }

  /**
   * When replacing `pat` by `rep` cannot create a new `pat`: both start with
   * the same character, that character occurs nowhere else in either, and
   * neither is a prefix of the other.
   */
  predicate Clears(pat: string, rep: string) {
    |pat| > 0 && |rep| > 0 && rep[0] == pat[0] &&
    (forall j :: 1 <= j < |pat| ==> pat[j] != pat[0]) &&
    (forall j :: 1 <= j < |rep| ==> rep[j] != pat[0]) &&
    !StartsWith(rep, pat) && !StartsWith(pat, rep)
  }

  /** The index of the first `c` in `t`, or `|t|` when there is none. */
  function FirstIndex(t: string, c: char): (k: nat)
    ensures k <= |t|
    ensures forall j :: 0 <= j < k ==> t[j] != c
    ensures k < |t| ==> t[k] == c
    decreases |t|
  {
    if t == [] || t[0] == c then 0 else 1 + FirstIndex(t[1..], c)
  }

  lemma ReplaceHead(x: string, pat: string, rep: string)
    requires Clears(pat, rep)
    requires |x| > 0 && x[0] == pat[0]
    ensures |Replace(x, pat, rep)| > 0 && Replace(x, pat, rep)[0] == pat[0]
  {
  }

  /** Text before the first possible match start is copied as it is. */
  lemma {:induction false} ReplaceKeepsPrefix(t: string, k: nat, pat: string, rep: string)
    requires Clears(pat, rep)
    requires k <= |t|
    requires forall j :: 0 <= j < k ==> t[j] != pat[0]
    ensures Replace(t, pat, rep) == t[..k] + Replace(t[k..], pat, rep)
    decreases k
  {
    if k > 0 {
      assert !StartsWith(t, pat);
      ReplaceKeepsPrefix(t[1..], k - 1, pat, rep);
      assert t[1..][k - 1..] == t[k..];
      assert [t[0]] + t[1..][..k - 1] == t[..k];
    }
  }

  /** A replacement followed by pattern-free text holds no pattern. */
  lemma ClearsAfterRep(rep: string, r': string, pat: string)
    requires Clears(pat, rep)
    requires !Contains(r', pat)
    ensures !Contains(rep + r', pat)
  {
    var r := rep + r';
    forall i | 0 <= i <= |r| ensures !StartsWith(r[i..], pat) {
      if i >= |rep| {
        assert r[i..] == r'[i - |rep|..];
      } else if i > 0 {
        assert r[i..][0] == rep[i];
      } else if |rep| >= |pat| {
        assert r[..|pat|] == rep[..|pat|];
      } else if |pat| <= |r| {
        assert r[..|pat|][..|rep|] == rep;
      }
    }
  }

  /**
   * A character copied because no match starts there keeps the result
   * pattern-free, given that the rest `r'` begins with the `k` characters after
   * it, where `k` is the position of the next possible match start.
   */
  lemma ClearsAfterChar(s: string, k: nat, r': string, pat: string, rep: string)
    requires Clears(pat, rep)
    requires |s| > 0 && !StartsWith(s, pat) && !Contains(r', pat)
    requires k < |s| && k <= |r'| && r'[..k] == s[1..][..k]
    requires k < |r'| ==> r'[k] == pat[0]
    ensures !Contains([s[0]] + r', pat)
  {
    var r := [s[0]] + r';
    forall i | 0 <= i <= |r| ensures !StartsWith(r[i..], pat) {
      if i > 0 {
        assert r[i..] == r'[i - 1..];
      } else if |pat| <= |r| {
        assert r[..|pat|] == [s[0]] + r'[..|pat| - 1];
        if k >= |pat| - 1 {
          assert r'[..|pat| - 1] == s[1..][..|pat| - 1];
          assert s[..|pat|] == [s[0]] + s[1..][..|pat| - 1];
        } else {
          assert r[..|pat|][k + 1] == pat[0];
        }
      }
    }
  }

  /** After `replace`, no occurrence of the pattern remains. */
  lemma {:induction false} ReplaceClears(s: string, pat: string, rep: string)
    requires Clears(pat, rep)
    ensures !Contains(Replace(s, pat, rep), pat)
    decreases |s|
  {
    if s == [] {
      assert !StartsWith(Replace(s, pat, rep)[0..], pat);
    } else if StartsWith(s, pat) {
      ReplaceClears(s[|pat|..], pat, rep);
      ClearsAfterRep(rep, Replace(s[|pat|..], pat, rep), pat);
    } else {
      var t := s[1..];
      var k := FirstIndex(t, pat[0]);
      var r' := Replace(t, pat, rep);
      ReplaceClears(t, pat, rep);
      ReplaceKeepsPrefix(t, k, pat, rep);
      assert r'[..k] == t[..k];
      if k < |t| {
        ReplaceHead(t[k..], pat, rep);
        assert r'[k] == pat[0];
      } else {
        assert t[k..] == [];
      }
      ClearsAfterChar(s, k, r', pat, rep);
    }
  }

  /** `replace` applied to a body holding the pattern yields a body holding the replacement. */
  lemma {:induction false} ReplaceProduces(s: string, pat: string, rep: string)
    requires |pat| > 0
    requires Contains(s, pat)
    ensures Contains(Replace(s, pat, rep), rep)
    decreases |s|
  {
    var r := Replace(s, pat, rep);
    if StartsWith(s, pat) {
      assert r[0..] == r && r[..|rep|] == rep;
    } else {
      var i :| 0 <= i <= |s| && StartsWith(s[i..], pat);
      assert i > 0 by {
        assert s[0..] == s;
      }
      assert s[1..][i - 1..] == s[i..];
      ReplaceProduces(s[1..], pat, rep);
      var r' := Replace(s[1..], pat, rep);
      var j :| 0 <= j <= |r'| && StartsWith(r'[j..], rep);
      assert r[j + 1..] == r'[j..];
    }
  }

  /** The decimal digit for `k < 10`. */
  function DigitChar(k: nat): (c: char)
    requires k < 10
    ensures '0' <= c <= '9'
  {
    ('0' as int + k) as char
  }

  /** Decimal digits of `n`, as an f-string renders an integer. */
  function NatToString(n: nat): (s: string)
    ensures |s| > 0
    ensures forall i :: 0 <= i < |s| ==> '0' <= s[i] <= '9'
  {
    if n < 10 then [DigitChar(n)] else NatToString(n / 10) + [DigitChar(n % 10)]
  }

  /** The number a string of decimal digits spells, read most significant digit first. */
  function DigitsValue(s: string): nat
    requires forall i :: 0 <= i < |s| ==> '0' <= s[i] <= '9'
    decreases |s|
  {
    if s == [] then 0
    else 10 * DigitsValue(s[..|s| - 1]) + (s[|s| - 1] as int - '0' as int)
  }

  /** The rendering spells `n` back, with no leading zero. */
  lemma {:induction false} NatToStringValue(n: nat)
    ensures DigitsValue(NatToString(n)) == n
    ensures n > 0 ==> NatToString(n)[0] != '0'
    decreases n
  {
    var s := NatToString(n);
    if n < 10 {
      assert s[..0] == [];
    } else {
      NatToStringValue(n / 10);
      assert s[..|s| - 1] == NatToString(n / 10);
    }
  }
}
