/**
 * String helpers with the meaning of the Python and JavaScript built-ins the
 * sites use: `in` / `includes`, `find`, `split(sep)[0]` and `split(sep)[1]`,
 * `startswith`, `endswith`, `replace(old, new, 1)`, `lower()` and
 * `toUpperCase()` (the last two on ASCII letters only).
 */
module Text {
  import opened Wrappers

  /** `pat` occurs in `s` starting at index `i`. */
  predicate Occurs(s: string, pat: string, i: int)
  {
    0 <= i && i + |pat| <= |s| && s[i..i + |pat|] == pat
  }

  /** Python's `s.find(pat)`: the first index at which `pat` occurs, or None for -1. */
  function IndexOf(s: string, pat: string): (r: Option<nat>)
    ensures r.Some? ==> Occurs(s, pat, r.value)
    ensures r.Some? ==> forall j :: 0 <= j < r.value ==> !Occurs(s, pat, j)
    ensures r.None? ==> forall j :: !Occurs(s, pat, j)
    decreases |s|
  {
    if |s| < |pat| then None
    else if s[..|pat|] == pat then Some(0)
    else
      var rest := IndexOf(s[1..], pat);
      ShiftOccurs(s, pat);
      assert !Occurs(s, pat, 0);
      match rest
      case None => None
      case Some(i) => Some(i + 1)
  }

  /** Occurrences in `s[1..]` are the occurrences in `s` moved one to the left. */
  lemma ShiftOccurs(s: string, pat: string)
    requires |s| > 0
    ensures forall j :: 1 <= j ==> (Occurs(s, pat, j) <==> Occurs(s[1..], pat, j - 1))
  {
    forall j | 1 <= j
      ensures Occurs(s, pat, j) <==> Occurs(s[1..], pat, j - 1)
    {
      if j + |pat| <= |s| {
        var t := s[1..];
        var a, b := s[j..j + |pat|], t[j - 1..j - 1 + |pat|];
        assert forall k :: 0 <= k < |pat| ==> a[k] == b[k];
        assert a == b;
      }
    }
  }

  /** Python's `pat in s` and JavaScript's `s.includes(pat)`. */
  predicate Contains(s: string, pat: string)
  {
    IndexOf(s, pat).Some?
  }

  /** An occurrence inside a prefix is an occurrence in the whole string. */
  lemma OccursInPrefix(p: string, s: string, pat: string, i: int)
    requires p <= s && Occurs(p, pat, i)
    ensures Occurs(s, pat, i)
  {
    assert s[i..i + |pat|] == p[i..i + |pat|];
  }

  /**
   * `s.split(sep)[0]`: everything before the first `sep`, or all of `s` when
   * `sep` does not occur.
   */
  function Before(s: string, sep: string): (r: string)
    ensures r <= s
    ensures !Contains(r, sep) || |sep| == 0
    ensures !Contains(s, sep) ==> r == s
    ensures Contains(s, sep) ==> Occurs(s, sep, |r|) && forall j :: 0 <= j < |r| ==> !Occurs(s, sep, j)
  {
    match IndexOf(s, sep)
    case None => s
    case Some(i) =>
      var r := s[..i];
      forall j | Occurs(r, sep, j)
        ensures Occurs(s, sep, j)
      {
        OccursInPrefix(r, s, sep, j);
      }
      r
  }

  /** `s.split(sep)[1]` before the second cut: everything after the first `sep`. */
  function After(s: string, sep: string): (r: string)
    requires Contains(s, sep)
    ensures |r| + |sep| <= |s| && r == s[|s| - |r|..]
    ensures Occurs(s, sep, |s| - |r| - |sep|)
    ensures forall j :: 0 <= j < |s| - |r| - |sep| ==> !Occurs(s, sep, j)
  {
    s[IndexOf(s, sep).value + |sep|..]
  }

  /**
   * `s.split(sep)[1]`: the piece after the first `sep`, up to the next `sep`
   * or the end.
   */
  function SecondField(s: string, sep: string): (r: string)
    requires Contains(s, sep)
    ensures r <= After(s, sep)
    ensures |r| == |After(s, sep)| || Occurs(After(s, sep), sep, |r|)
    ensures forall j :: 0 <= j < |r| ==> !Occurs(After(s, sep), sep, j)
    ensures !Contains(r, sep) || |sep| == 0
  {
    Before(After(s, sep), sep)
  }

  predicate StartsWith(s: string, prefix: string)
  {
    prefix <= s
  }

  predicate EndsWith(s: string, suffix: string)
  {
    |suffix| <= |s| && s[|s| - |suffix|..] == suffix
  }

  /** Python's `s.replace(pat, repl, 1)`: replaces the first occurrence only. */
  function ReplaceFirst(s: string, pat: string, repl: string): (r: string)
    ensures !Contains(s, pat) ==> r == s
    ensures Contains(s, pat) ==> r == Before(s, pat) + repl + After(s, pat)
  {
    match IndexOf(s, pat)
    case None => s
    case Some(i) => s[..i] + repl + s[i + |pat|..]
  }

  function LowerChar(c: char): char
  {
    if 'A' <= c <= 'Z' then (c as int - 'A' as int + 'a' as int) as char else c
  }

  function UpperChar(c: char): char
  {
    if 'a' <= c <= 'z' then (c as int - 'a' as int + 'A' as int) as char else c
  }

  /** `s.lower()` on ASCII letters. */
  function Lower(s: string): (r: string)
    ensures |r| == |s| && forall i :: 0 <= i < |s| ==> r[i] == LowerChar(s[i])
  {
    seq(|s|, i requires 0 <= i < |s| => LowerChar(s[i]))
  }

  /** `s.toUpperCase()` on ASCII letters. */
  function Upper(s: string): (r: string)
    ensures |r| == |s| && forall i :: 0 <= i < |s| ==> r[i] == UpperChar(s[i])
  {
    seq(|s|, i requires 0 <= i < |s| => UpperChar(s[i]))
  }
}
