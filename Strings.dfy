/** String and POSIX path helpers with the meaning Python gives them:
    `str.startswith`, `str.endswith`, `in` on strings, `str.lower` (ASCII),
    `str.split(c)[0]` and `[-1]`, `os.path.basename`, `os.path.join`,
    `os.path.splitext` and `str(n)` for a natural number. */
module Strings {

  predicate StartsWith(s: string, prefix: string) {
    |prefix| <= |s| && s[..|prefix|] == prefix
  }

  predicate EndsWith(s: string, suffix: string) {
    |suffix| <= |s| && s[|s| - |suffix|..] == suffix
  }

  /** Python's `k in s` for two strings: `k` occurs in `s` as a substring. */
  predicate Contains(s: string, k: string) {
    exists i :: 0 <= i <= |s| - |k| && OccursAt(s, k, i)
  }

  predicate OccursAt(s: string, k: string, i: nat)
    requires i + |k| <= |s|
  {
    s[i..i + |k|] == k
  }

  function LowerChar(c: char): char {
    if 'A' <= c <= 'Z' then (c as int + 32) as char else c
  }

  /** `str.lower()` on the ASCII letters. */
  function Lower(s: string): (r: string)
    ensures |r| == |s|
    ensures forall i :: 0 <= i < |s| ==> r[i] == LowerChar(s[i])
  {
    seq(|s|, i requires 0 <= i < |s| => LowerChar(s[i]))
  }

  lemma LowerIdempotent(s: string)
    ensures Lower(Lower(s)) == Lower(s)
  {
  }

  /** `s.rfind(c)`: the last index holding `c`, or -1. */
  function LastIndex(s: string, c: char): (r: int)
    ensures -1 <= r < |s|
  {
    if s == [] then -1
    else if s[|s| - 1] == c then |s| - 1
    else LastIndex(s[..|s| - 1], c)
  }

  lemma {:induction false} LastIndexSpec(s: string, c: char)
    ensures LastIndex(s, c) >= 0 ==> s[LastIndex(s, c)] == c
    ensures forall k :: LastIndex(s, c) < k < |s| ==> s[k] != c
  {
    if s != [] && s[|s| - 1] != c {
      LastIndexSpec(s[..|s| - 1], c);
    }
  }

  /** `s.find(c)`: the first index holding `c`, or |s| when there is none. */
  function FirstIndex(s: string, c: char): (r: nat)
    ensures r <= |s|
  {
    if s == [] || s[0] == c then 0 else 1 + FirstIndex(s[1..], c)
  }

  lemma {:induction false} FirstIndexSpec(s: string, c: char)
    ensures FirstIndex(s, c) < |s| ==> s[FirstIndex(s, c)] == c
    ensures forall k :: 0 <= k < FirstIndex(s, c) ==> s[k] != c
  {
    if s != [] && s[0] != c {
      FirstIndexSpec(s[1..], c);
    }
  }

  /** `s.split(c)[0]`: the text before the first `c`. */
  function BeforeFirst(s: string, c: char): string {
    s[..FirstIndex(s, c)]
  }

  /** `s.split(c)[-1]`: the text after the last `c`. */
  function AfterLast(s: string, c: char): string {
    s[LastIndex(s, c) + 1..]
  }

  lemma AfterLastSpec(s: string, c: char)
    ensures c !in AfterLast(s, c)
    ensures EndsWith(s, AfterLast(s, c))
    ensures |AfterLast(s, c)| < |s| ==> s[|s| - |AfterLast(s, c)| - 1] == c
  {
    LastIndexSpec(s, c);
  }

  /** `os.path.basename(p)`: the text after the last '/'. */
  function Basename(p: string): string {
    AfterLast(p, '/')
  }

  /** A base name never starts with a separator. */
  lemma BasenameRelative(p: string)
    ensures !StartsWith(Basename(p), "/")
  {
    AfterLastSpec(p, '/');
    var b := Basename(p);
    if b != [] { assert b[0] in b; }
  }

  /** `os.path.join(a, b)` for two POSIX path pieces. */
  function Join(a: string, b: string): string {
    if StartsWith(b, "/") then b
    else if a == [] || EndsWith(a, "/") then a + b
    else a + "/" + b
  }

  /** Joining a relative piece onto an absolute path gives an absolute path. */
  lemma JoinAbsolute(a: string, b: string)
    requires StartsWith(a, "/") && !StartsWith(b, "/")
    ensures StartsWith(Join(a, b), "/")
  {
    var p := if EndsWith(a, "/") then a else a + "/";
    assert Join(a, b) == p + b;
    assert (p + b)[0] == a[0];
  }

  lemma JoinInjective(a: string, x: string, y: string)
    requires !StartsWith(x, "/") && !StartsWith(y, "/")
    requires Join(a, x) == Join(a, y)
    ensures x == y
  {
    var p := if a == [] || EndsWith(a, "/") then a else a + "/";
    assert Join(a, x) == p + x && Join(a, y) == p + y;
    assert x == (p + x)[|p|..];
    assert y == (p + y)[|p|..];
  }

  /** The extension `os.path.splitext(p)` returns: from the last '.' of the
      final path component, provided that component has a character other than
      '.' before it (so ".bashrc" has none); "" otherwise. */
  function SplitExt(p: string): string {
    var sep := LastIndex(p, '/');
    var dot := LastIndex(p, '.');
    if dot > sep && exists k :: sep < k < dot && p[k] != '.' then p[dot..] else []
  }

  function DigitChar(d: nat): char
    requires d < 10
  {
    ('0' as int + d) as char
  }

  /** `str(n)` for a natural number: its decimal digits. */
  function NatToString(n: nat): (r: string)
    ensures |r| >= 1
    ensures n >= 10 ==> |r| >= 2
    ensures forall i :: 0 <= i < |r| ==> '0' <= r[i] <= '9'
  {
    if n < 10 then [DigitChar(n)]
    else NatToString(n / 10) + [DigitChar(n % 10)]
  }

  lemma {:induction false} NatToStringInjective(m: nat, n: nat)
    requires NatToString(m) == NatToString(n)
    ensures m == n
  {
    var s, t := NatToString(m), NatToString(n);
    if m < 10 && n < 10 {
      assert DigitChar(m) == s[0] == t[0] == DigitChar(n);
    } else if m >= 10 && n >= 10 {
      var q, r := m / 10, m % 10;
      var q', r' := n / 10, n % 10;
      assert s == NatToString(q) + [DigitChar(r)];
      assert t == NatToString(q') + [DigitChar(r')];
      assert s[..|s| - 1] == NatToString(q);
      assert t[..|t| - 1] == NatToString(q');
      NatToStringInjective(q, q');
      assert DigitChar(r) == s[|s| - 1] == t[|t| - 1] == DigitChar(r');
      assert m == 10 * q + r && n == 10 * q' + r';
    }
  }
}
