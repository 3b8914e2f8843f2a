/** The e-mail rule `is_valid_email`, shared verbatim by `main.py`,
    `add_user.py` and `version_2/main.py`: `re.match` of the pattern
    `^[a-zA-Z0-9_.+-]+@[a-zA-Z0-9-]+\.[a-zA-Z0-9-.]+$`. In Python's regex
    syntax the last class is letters, digits, `-` and `.`, and `$` also
    matches just before one trailing newline. */
module EmailRule {
  import opened Results

  predicate AlphaNum(c: char)
  {
    'a' <= c <= 'z' || 'A' <= c <= 'Z' || '0' <= c <= '9'
  }

  /** `[a-zA-Z0-9_.+-]`, the local part. */
  predicate LocalChar(c: char)
  {
    AlphaNum(c) || c == '_' || c == '.' || c == '+' || c == '-'
  }

  /** `[a-zA-Z0-9-]`, the first domain label. */
  predicate LabelChar(c: char)
  {
    AlphaNum(c) || c == '-'
  }

  /** `[a-zA-Z0-9-.]`, the rest of the domain. */
  predicate TailChar(c: char)
  {
    AlphaNum(c) || c == '-' || c == '.'
  }

  /** Every character of `s[lo..hi]` is in the local-part class. */
  predicate LocalRun(s: string, lo: nat, hi: nat)
    requires lo <= hi <= |s|
  {
    forall i :: lo <= i < hi ==> LocalChar(s[i])
  }

  predicate LabelRun(s: string, lo: nat, hi: nat)
    requires lo <= hi <= |s|
  {
    forall i :: lo <= i < hi ==> LabelChar(s[i])
  }

  predicate TailRun(s: string, lo: nat, hi: nat)
    requires lo <= hi <= |s|
  {
    forall i :: lo <= i < hi ==> TailChar(s[i])
  }

  /** `s.find(c, i)`: the first index at or after `i` holding `c`. */
  function IndexFrom(s: string, c: char, i: nat): (r: Option<nat>)
    decreases |s| - i
    ensures r.Some? ==> i <= r.value < |s| && s[r.value] == c
    ensures r.Some? ==> forall j :: i <= j < r.value ==> s[j] != c
    ensures r.None? ==> forall j :: i <= j < |s| ==> s[j] != c
  {
    if i >= |s| then None
    else if s[i] == c then Some(i)
    else IndexFrom(s, c, i + 1)
  }

  /** The pattern apart from the newline allowance of `$`, decided the way
      the classes force any match: the only `@` splits the local part from the
      domain, and the first `.` after it ends the first domain label. */
  function MatchesCore(s: string): bool
  {
    match IndexFrom(s, '@', 0)
    case None => false
    case Some(a) =>
      match IndexFrom(s, '.', a + 1)
      case None => false
      case Some(b) =>
        0 < a && a + 1 < b && b + 1 < |s|
        && LocalRun(s, 0, a) && LabelRun(s, a + 1, b) && TailRun(s, b + 1, |s|)
  }

  /** `is_valid_email(email)`. */
  function IsValidEmail(s: string): bool
  {
    MatchesCore(s) || (|s| > 0 && s[|s| - 1] == '\n' && MatchesCore(s[..|s| - 1]))
  }

  /** The language of the pattern, stated by positions: an `@` at `a` and a
      `.` at `b` cut `s` into a non-empty local part, a non-empty first
      domain label and a non-empty tail over their classes. */
  ghost predicate CoreShape(s: string)
  {
    exists a: nat, b: nat :: 0 < a && a + 1 < b && b + 1 < |s| && s[a] == '@' && s[b] == '.'
      && LocalRun(s, 0, a) && LabelRun(s, a + 1, b) && TailRun(s, b + 1, |s|)
  }

  lemma MatchesCoreIff(s: string)
    ensures MatchesCore(s) <==> CoreShape(s)
  {
    if CoreShape(s) {
      var a: nat, b: nat :| 0 < a && a + 1 < b && b + 1 < |s| && s[a] == '@' && s[b] == '.'
        && LocalRun(s, 0, a) && LabelRun(s, a + 1, b) && TailRun(s, b + 1, |s|);
      forall j | 0 <= j < a
        ensures s[j] != '@'
      {
        LocalCharIsNotAt(s[j]);
      }
      FirstAt(s, '@', 0, a);
      forall j | a + 1 <= j < b
        ensures s[j] != '.'
      {
        LabelCharIsNotDot(s[j]);
      }
      FirstAt(s, '.', a + 1, b);
    }
  }

  lemma LocalCharIsNotAt(c: char)
    requires LocalChar(c)
    ensures c != '@'
  {
  }

  lemma LabelCharIsNotDot(c: char)
    requires LabelChar(c)
    ensures c != '.'
  {
  }

  lemma TailCharIsNotAt(c: char)
    requires TailChar(c)
    ensures c != '@'
  {
  }

  lemma FirstAt(s: string, c: char, i: nat, a: nat)
    requires i <= a < |s| && s[a] == c
    requires forall j :: i <= j < a ==> s[j] != c
    ensures IndexFrom(s, c, i) == Some(a)
  {
  }

  /** `is_valid_email` accepts exactly the strings of the pattern's shape,
      optionally followed by one newline. */
  lemma IsValidEmailIff(s: string)
    ensures IsValidEmail(s) <==> CoreShape(s) || (|s| > 0 && s[|s| - 1] == '\n' && CoreShape(s[..|s| - 1]))
  {
    MatchesCoreIff(s);
    if |s| > 0 {
      MatchesCoreIff(s[..|s| - 1]);
    }
  }

  /** A valid address holds exactly one `@`: no class of the pattern admits it. */
  lemma ValidEmailHasOneAt(s: string)
    requires IsValidEmail(s)
    ensures exists a :: 0 <= a < |s| && s[a] == '@' && forall i :: 0 <= i < |s| && i != a ==> s[i] != '@'
  {
    var c := if MatchesCore(s) then s else s[..|s| - 1];
    assert MatchesCore(c);
    var a := IndexFrom(c, '@', 0).value;
    var b := IndexFrom(c, '.', a + 1).value;
    forall i | 0 <= i < |s| && i != a
      ensures s[i] != '@'
    {
      if i < a {
      } else if i == b {
      } else if i < b {
        assert LabelChar(c[i]);
        assert c[i] == s[i];
      } else if i < |c| {
        assert TailChar(c[i]);
        TailCharIsNotAt(c[i]);
        assert c[i] == s[i];
      } else {
        assert s[i] == '\n';
      }
    }
    assert s[a] == c[a];
  }
}
