/** The Python `str` operations the application relies on: `endswith`,
    `find`, `split`, `join`, `replace`, ASCII `lower` and `str(int)`. */
module Strings {
  import opened Results

  /** `s` holds `pat` starting at index `i`. */
  predicate MatchAt(s: string, pat: string, i: nat)
  {
    i + |pat| <= |s| && s[i..i + |pat|] == pat
  }

  /** Python's `pat in s`. */
  ghost predicate Contains(s: string, pat: string)
  {
    exists i: nat :: MatchAt(s, pat, i)
  }

  /** No character after the first one of `pat` equals its first character,
      so no occurrence of `pat` can start inside another one. `", "`,
      `"forged"` and `"_forged"` have this shape. */
  predicate HeadUnique(pat: string)
  {
    |pat| > 0 && forall k :: 0 < k < |pat| ==> pat[k] != pat[0]
  }

  /** `s.endswith(suffix)`. */
  predicate EndsWith(s: string, suffix: string)
  {
    |suffix| <= |s| && s[|s| - |suffix|..] == suffix
  }

  /** `s.find(pat, i)`: the first index at or after `i` where `pat` occurs. */
  function FindFrom(s: string, pat: string, i: nat): (r: Option<nat>)
    decreases |s| - i
    ensures r.Some? ==> i <= r.value && MatchAt(s, pat, r.value)
    ensures r.Some? ==> forall j :: i <= j < r.value ==> !MatchAt(s, pat, j)
    ensures r.None? ==> forall j :: i <= j ==> !MatchAt(s, pat, j)
  {
    if i + |pat| > |s| then None
    else if s[i..i + |pat|] == pat then Some(i)
    else FindFrom(s, pat, i + 1)
  }

  /** `s.split(sep)` for a non-empty separator (Python raises on an empty one). */
  function Split(s: string, sep: string): (parts: seq<string>)
    requires |sep| > 0
    decreases |s|
    ensures |parts| > 0
  {
    match FindFrom(s, sep, 0)
    case None => [s]
    case Some(k) => [s[..k]] + Split(s[k + |sep|..], sep)
  }

  /** `sep.join(parts)`. */
  function Join(parts: seq<string>, sep: string): string
  {
    if |parts| == 0 then ""
    else if |parts| == 1 then parts[0]
    else parts[0] + sep + Join(parts[1..], sep)
  }

  /** `s.replace(pat, rep)` for a non-empty pattern: occurrences are replaced
      left to right and never overlap. */
  function ReplaceAll(s: string, pat: string, rep: string): string
    requires |pat| > 0
    decreases |s|
  {
    if |s| < |pat| then s
    else if s[..|pat|] == pat then rep + ReplaceAll(s[|pat|..], pat, rep)
    else [s[0]] + ReplaceAll(s[1..], pat, rep)
  }

  /** ASCII `str.lower` of one character. */
  function LowerChar(c: char): char
  {
    if 'A' <= c <= 'Z' then (c as int + 32) as char else c
  }

  /** ASCII `str.lower`. */
  function Lower(s: string): (r: string)
    ensures |r| == |s|
    ensures forall i :: 0 <= i < |s| ==> r[i] == LowerChar(s[i])
  {
    if s == [] then [] else [LowerChar(s[0])] + Lower(s[1..])
  }

  function DigitChar(d: nat): char
    requires d < 10
  {
    "0123456789"[d]
  }

  predicate IsDigit(c: char)
  {
    '0' <= c <= '9'
  }

  /** `str(n)` for a non-negative integer: its decimal digits. */
  function NatToString(n: nat): (s: string)
    ensures |s| > 0
    ensures forall i :: 0 <= i < |s| ==> IsDigit(s[i])
  {
    if n < 10 then [DigitChar(n)] else NatToString(n / 10) + [DigitChar(n % 10)]
  }

  /** The value of a string of decimal digits; inverse of NatToString. */
  function DecimalValue(s: string): nat
  {
    if s == [] then 0
    else 10 * DecimalValue(s[..|s| - 1]) + (if IsDigit(s[|s| - 1]) then s[|s| - 1] as int - '0' as int else 0)
  }

  lemma {:induction false} DecimalOfNatToString(n: nat)
    ensures DecimalValue(NatToString(n)) == n
  {
    if n >= 10 {
      var s := NatToString(n / 10) + [DigitChar(n % 10)];
      assert s[..|s| - 1] == NatToString(n / 10);
      DecimalOfNatToString(n / 10);
    }
  }

  /** Different ids give different decimal texts. */
  lemma NatToStringInjective(m: nat, n: nat)
    requires NatToString(m) == NatToString(n)
    ensures m == n
  {
    DecimalOfNatToString(m);
    DecimalOfNatToString(n);
  }

  /** When `u` holds no `pat` and `pat` is head-unique, the first occurrence of
      `pat` in `u + pat + t` cannot start inside `u`. */
  lemma NoMatchBefore(u: string, pat: string, t: string)
    requires HeadUnique(pat) && !Contains(u, pat)
    ensures forall j :: 0 <= j < |u| ==> !MatchAt(u + pat + t, pat, j)
  {
    var s := u + pat + t;
    forall j | 0 <= j < |u|
      ensures !MatchAt(s, pat, j)
    {
      if j + |pat| <= |u| {
        assert s[j..j + |pat|] == u[j..j + |pat|];
        assert !MatchAt(u, pat, j);
      } else if j + |pat| <= |s| {
        var k := |u| - j;
        assert s[j..j + |pat|][k] == s[|u|] == pat[0];
        assert pat[k] != pat[0];
      }
    }
  }

  /** In `u + pat + t` the first occurrence of `pat` is the one right after `u`. */
  lemma FindAfter(u: string, pat: string, t: string)
    requires HeadUnique(pat) && !Contains(u, pat)
    ensures FindFrom(u + pat + t, pat, 0) == Some(|u|)
  {
    var s := u + pat + t;
    NoMatchBefore(u, pat, t);
    assert s[|u|..|u| + |pat|] == pat;
    assert MatchAt(s, pat, |u|);
  }

  /** Joining with a head-unique separator and splitting again gives back the
      parts, provided no part holds the separator. */
  lemma {:induction false} SplitJoin(parts: seq<string>, sep: string)
    requires HeadUnique(sep) && |parts| > 0
    requires forall k :: 0 <= k < |parts| ==> !Contains(parts[k], sep)
    ensures Split(Join(parts, sep), sep) == parts
  {
    if |parts| == 1 {
      assert forall j: nat :: !MatchAt(parts[0], sep, j);
    } else {
      SplitCons(parts[0], sep, Join(parts[1..], sep));
      SplitJoin(parts[1..], sep);
      assert parts == [parts[0]] + parts[1..];
    }
  }

  /** Splitting `head + sep + rest` yields `head`, then the fields of `rest`. */
  lemma SplitCons(head: string, sep: string, rest: string)
    requires HeadUnique(sep) && !Contains(head, sep)
    ensures Split(head + sep + rest, sep) == [head] + Split(rest, sep)
  {
    var s := head + sep + rest;
    FindAfter(head, sep, rest);
    assert s[..|head|] == head;
    assert s[|head| + |sep|..] == rest;
  }

  /** Splitting and joining again always gives back the string. */
  lemma {:induction false} JoinSplit(s: string, sep: string)
    requires |sep| > 0
    ensures Join(Split(s, sep), sep) == s
    decreases |s|
  {
    match FindFrom(s, sep, 0)
    case None =>
    case Some(k) =>
      var tail := s[k + |sep|..];
      JoinSplit(tail, sep);
      assert s[k..k + |sep|] == sep;
      assert s == s[..k] + sep + tail;
  }

  /** The first field of `head + sep + tail` split on `sep` is `head`, when no
      character of `head` equals the first character of `sep`. */
  lemma FirstFieldOf(head: string, sep: string, tail: string)
    requires |sep| > 0
    requires forall i :: 0 <= i < |head| ==> head[i] != sep[0]
    ensures Split(head + sep + tail, sep)[0] == head
  {
    var s := head + sep + tail;
    forall j | 0 <= j < |head|
      ensures !MatchAt(s, sep, j)
    {
      assert s[j] == head[j];
      if j + |sep| <= |s| {
        assert s[j..j + |sep|][0] == s[j];
      }
    }
    assert s[|head|..|head| + |sep|] == sep;
    assert MatchAt(s, sep, |head|);
    assert s[..|head|] == head;
  }

  /** `replace` leaves a prefix with no occurrence untouched. */
  lemma {:induction false} ReplaceSkipsPrefix(u: string, t: string, pat: string, rep: string)
    requires |pat| > 0
    requires forall j :: 0 <= j < |u| ==> !MatchAt(u + t, pat, j)
    ensures ReplaceAll(u + t, pat, rep) == u + ReplaceAll(t, pat, rep)
    decreases |u|
  {
    if u != [] {
      var s := u + t;
      assert !MatchAt(s, pat, 0);
      if |s| >= |pat| {
        assert s[..|pat|] != pat;
        assert s[1..] == u[1..] + t;
        forall j | 0 <= j < |u| - 1
          ensures !MatchAt(u[1..] + t, pat, j)
        {
          assert !MatchAt(s, pat, j + 1);
          if j + |pat| <= |s| - 1 {
            assert s[1..][j..j + |pat|] == s[j + 1..j + 1 + |pat|];
          }
        }
        ReplaceSkipsPrefix(u[1..], t, pat, rep);
        assert ReplaceAll(s, pat, rep) == [s[0]] + ReplaceAll(s[1..], pat, rep);
        assert s[0] == u[0];
        assert [u[0]] + u[1..] == u;
      } else {
        assert |t| < |pat|;
        assert ReplaceAll(t, pat, rep) == t;
      }
    } else {
      assert u + t == t;
    }
  }

  /** `replace` is the identity on a string that holds no occurrence. */
  lemma ReplaceAbsent(s: string, pat: string, rep: string)
    requires |pat| > 0 && !Contains(s, pat)
    ensures ReplaceAll(s, pat, rep) == s
  {
    assert s + [] == s;
    forall j | 0 <= j < |s|
      ensures !MatchAt(s + [], pat, j)
    {
      assert !MatchAt(s, pat, j);
    }
    ReplaceSkipsPrefix(s, [], pat, rep);
  }

  /** Replacing a trailing head-unique pattern `pat` in `u + pat`, where `u`
      holds none, turns the string into `u + rep`. */
  lemma ReplaceSuffix(u: string, pat: string, rep: string)
    requires HeadUnique(pat) && !Contains(u, pat)
    ensures ReplaceAll(u + pat, pat, rep) == u + rep
  {
    NoMatchBefore(u, pat, []);
    assert u + pat + [] == u + pat;
    ReplaceSkipsPrefix(u, pat, pat, rep);
    assert pat[..|pat|] == pat;
    assert pat[|pat|..] == [];
  }
}
