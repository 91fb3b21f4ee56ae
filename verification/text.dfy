/** String helpers with the meaning the application's JavaScript gives them:
    the `\s` class and `String.prototype.trim`, `includes`, the upper-cased
    first character used as an avatar, `split('@')[0]`, and the default order
    of `Array.prototype.sort` on strings. */
module Text {

  /** JavaScript's whitespace set (WhiteSpace and LineTerminator), which both
      `\s` in a regular expression and `trim` use. */
  predicate IsSpace(c: char) {
    var n := c as int;
    n == 0x09 || n == 0x0A || n == 0x0B || n == 0x0C || n == 0x0D || n == 0x20
    || n == 0xA0 || n == 0x1680 || (0x2000 <= n <= 0x200A)
    || n == 0x2028 || n == 0x2029 || n == 0x202F || n == 0x205F
    || n == 0x3000 || n == 0xFEFF
  }

  predicate AllSpace(s: string) {
    forall i | 0 <= i < |s| :: IsSpace(s[i])
  }

  /** Number of whitespace characters at the front of `s`. */
  function LeadingSpaces(s: string): (n: nat)
    ensures n <= |s|
    ensures forall i | 0 <= i < n :: IsSpace(s[i])
    ensures n < |s| ==> !IsSpace(s[n])
  {
    if |s| == 0 || !IsSpace(s[0]) then 0 else 1 + LeadingSpaces(s[1..])
  }

  /** Number of whitespace characters at the back of `s`. */
  function TrailingSpaces(s: string): (n: nat)
    ensures n <= |s|
    ensures forall i | |s| - n <= i < |s| :: IsSpace(s[i])
    ensures n < |s| ==> !IsSpace(s[|s| - n - 1])
  {
    if |s| == 0 || !IsSpace(s[|s| - 1]) then 0 else 1 + TrailingSpaces(s[..|s| - 1])
  }

  /** `s.trim()`: `s` with its leading and trailing whitespace cut off. The
      result is empty exactly when `s` is all whitespace, and otherwise starts
      and ends with a non-space character. */
  function Trim(s: string): (r: string)
    ensures |r| <= |s|
    ensures var a := LeadingSpaces(s);
      && a + |r| <= |s| && r == s[a..a + |r|]
      && AllSpace(s[..a]) && AllSpace(s[a + |r|..])
    ensures |r| == 0 <==> AllSpace(s)
    ensures |r| > 0 ==> !IsSpace(r[0]) && !IsSpace(r[|r| - 1])
    ensures !AllSpace(s) && !IsSpace(s[0]) && !IsSpace(s[|s| - 1]) ==> r == s
  {
    var a := LeadingSpaces(s);
    var rest := s[a..];
    var b := |rest| - TrailingSpaces(rest);
    rest[..b]
  }

  /** `s.startsWith(p)`. */
  predicate StartsWith(s: string, p: string) {
    |p| <= |s| && s[..|p|] == p
  }

  /** `s.includes(p)`: `p` occurs somewhere in `s`. */
  predicate Includes(s: string, p: string)
    decreases |s|
  {
    StartsWith(s, p) || (|s| > 0 && Includes(s[1..], p))
  }

  /** A pattern whose first character does not occur in `s` is not included
      in it. */
  lemma {:induction false} IncludesNeedsHead(s: string, p: string)
    requires |p| > 0 && p[0] !in s
    ensures !Includes(s, p)
    decreases |s|
  {
    if |p| <= |s| {
      assert s[..|p|][0] == s[0];
    }
    if |s| > 0 {
      assert forall c | c in s[1..] :: c in s;
      IncludesNeedsHead(s[1..], p);
    }
  }

  /** ASCII upper-casing of one character; other characters are kept. */
  function Upper(c: char): (u: char)
    ensures 'a' <= c <= 'z' ==> 'A' <= u <= 'Z' && u as int == c as int - 32
    ensures !('a' <= c <= 'z') ==> u == c
  {
    if 'a' <= c <= 'z' then (c as int - 32) as char else c
  }

  /** `s.charAt(0).toUpperCase()`: empty for the empty string. */
  function Initial(s: string): (r: string)
    ensures |r| == (if |s| == 0 then 0 else 1)
    ensures |s| > 0 ==> r[0] == Upper(s[0])
  {
    if |s| == 0 then "" else [Upper(s[0])]
  }

  /** `s.split(c)[0]`: the longest prefix of `s` free of `c`. */
  function Before(s: string, c: char): (r: string)
    ensures r <= s
    ensures c !in r
    ensures |r| < |s| ==> s[|r|] == c
  {
    if |s| == 0 || s[0] == c then "" else [s[0]] + Before(s[1..], c)
  }

  /** The default ordering of `Array.prototype.sort` on strings: `a` sorts no
      later than `b` when it is a prefix of `b` or is smaller at the first
      character where they differ. */
  predicate OrderedBefore(a: string, b: string)
    decreases |a|
  {
    |a| == 0 || (|b| > 0 && (a[0] < b[0] || (a[0] == b[0] && OrderedBefore(a[1..], b[1..]))))
  }

  lemma {:induction false} OrderedTotal(a: string, b: string)
    ensures OrderedBefore(a, b) || OrderedBefore(b, a)
    decreases |a|
  {
    if |a| > 0 && |b| > 0 && a[0] == b[0] {
      OrderedTotal(a[1..], b[1..]);
    }
  }

  lemma {:induction false} OrderedAntisymmetric(a: string, b: string)
    requires OrderedBefore(a, b) && OrderedBefore(b, a)
    ensures a == b
    decreases |a|
  {
    if |a| > 0 {
      OrderedAntisymmetric(a[1..], b[1..]);
      assert a == [a[0]] + a[1..];
      assert b == [b[0]] + b[1..];
    }
  }
}
