/**
 * The C library string routines that platform/config.cpp relies on, stated on
 * `string` (a sequence of characters; the terminating NUL is not modelled).
 */
module CString {
  import opened Wrappers

  /** `PATH_MAX` from `<limits.h>` on Linux. */
  const PATH_MAX: nat := 4096

  /** `tolower` in the C locale: only the ASCII capitals change. */
  function ToLower(c: char): char
  {
    if 'A' <= c <= 'Z' then (c as int + 32) as char else c
  }

  /** Every character of `s` through `tolower`. */
  function Lower(s: string): (r: string)
  {
    seq(|s|, i requires 0 <= i < |s| => ToLower(s[i]))
  }

  /**
   * `strcasecmp(a, b) == 0`: the two strings are equal once both are folded
   * to lower case. Against a literal, `strcasecmp(s, "UP") == 0` is written
   * `Lower(s) == "up"`.
   */
  predicate CaseEq(a: string, b: string)
    ensures CaseEq(a, b) <==>
      |a| == |b| && forall i | 0 <= i < |a| :: ToLower(a[i]) == ToLower(b[i])
  {
    assert |Lower(a)| == |a| && forall i | 0 <= i < |a| :: Lower(a)[i] == ToLower(a[i]);
    assert |Lower(b)| == |b| && forall i | 0 <= i < |b| :: Lower(b)[i] == ToLower(b[i]);
    Lower(a) == Lower(b)
  }

  /** `strrchr(s, c)`: the position of the last occurrence of `c`, if any. */
  function LastIndexOf(s: string, c: char): (r: Option<nat>)
    ensures r.None? <==> c !in s
    ensures r.Some? ==> r.value < |s| && s[r.value] == c && c !in s[r.value + 1..]
  {
    if |s| == 0 then None
    else if s[|s| - 1] == c then Some(|s| - 1)
    else
      var r := LastIndexOf(s[..|s| - 1], c);
      assert s == s[..|s| - 1] + [s[|s| - 1]];
      r
  }

  /** `strndup(s, n)`: a copy of at most `n` characters of `s`. */
  function TruncateTo(s: string, n: nat): (r: string)
    ensures |r| == if |s| <= n then |s| else n
    ensures r == s[..|r|]
  {
    if |s| <= n then s else s[..n]
  }

  /** The last `c` in `prefix + [c] + suffix` is the one at `|prefix|` when `suffix` has none. */
  lemma {:induction false} LastIndexOfAppend(prefix: string, c: char, suffix: string)
    requires c !in suffix
    ensures LastIndexOf(prefix + [c] + suffix, c) == Some(|prefix|)
  {
    var s := prefix + [c] + suffix;
    assert s[|prefix|] == c;
  }
}
