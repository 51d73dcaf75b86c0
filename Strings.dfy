/** The few string operations of the base library that the client core relies on. */
module Strings {

  /** `Char.ToLowerInvariant` restricted to ASCII: 'A'..'Z' become 'a'..'z', every other character is kept. */
  function LowerChar(c: char): char
  {
    if 'A' <= c <= 'Z' then (c as int + 32) as char else c
  }

  /** `String.ToLower`, replacing every character by its lower-case form. */
  function ToLower(s: string): string
  {
    seq(|s|, i requires 0 <= i < |s| => LowerChar(s[i]))
  }

  /** No character of `s` is an upper-case ASCII letter. */
  predicate IsLower(s: string)
  {
    forall i :: 0 <= i < |s| ==> !('A' <= s[i] <= 'Z')
  }

  /** Lower-casing yields a lower-case string, and lower-casing it again changes nothing. */
  lemma ToLowerIsLower(s: string)
    ensures IsLower(ToLower(s))
    ensures ToLower(ToLower(s)) == ToLower(s)
  {
  }

  /** `s.StartsWith(prefix)` with ordinal comparison. */
  predicate StartsWith(s: string, prefix: string)
  {
    |prefix| <= |s| && s[..|prefix|] == prefix
  }

  /** `sub` occurs somewhere in `s`: what a regular expression without metacharacters finds. */
  predicate Contains(s: string, sub: string)
  {
    exists i :: 0 <= i <= |s| && StartsWith(s[i..], sub)
  }

  /** `String.Join(sep, xs)`: the elements in order, with `sep` between neighbours. */
  function Join(sep: string, xs: seq<string>): string
  {
    if |xs| == 0 then ""
    else if |xs| == 1 then xs[0]
    else xs[0] + sep + Join(sep, xs[1..])
  }

  /** Joining four elements: each separator stands between two neighbours. */
  lemma JoinFour(sep: string, a: string, b: string, c: string, d: string)
    ensures Join(sep, [a, b, c, d]) == a + sep + b + sep + c + sep + d
  {
    assert [a, b, c, d][1..] == [b, c, d];
    assert [b, c, d][1..] == [c, d];
    assert [c, d][1..] == [d];
    assert Join(sep, [c, d]) == c + sep + d;
    assert Join(sep, [b, c, d]) == b + sep + (c + sep + d);
    assert a + sep + (b + sep + (c + sep + d)) == a + sep + b + sep + c + sep + d;
  }

  lemma ContainsInPrefix(a: string, b: string, sub: string)
    requires Contains(a, sub)
    ensures Contains(a + b, sub)
  {
    var i :| 0 <= i <= |a| && StartsWith(a[i..], sub);
    assert (a + b)[i..][..|sub|] == a[i..][..|sub|];
  }

  lemma ContainsInSuffix(a: string, b: string, sub: string)
    requires Contains(b, sub)
    ensures Contains(a + b, sub)
  {
    var i :| 0 <= i <= |b| && StartsWith(b[i..], sub);
    assert (a + b)[|a| + i..] == b[i..];
  }

  /** Every element of a joined list can be found in the joined string. */
  lemma {:induction false} JoinContainsEach(sep: string, xs: seq<string>, k: string)
    requires k in xs
    ensures Contains(Join(sep, xs), k)
  {
    if |xs| == 1 {
      assert StartsWith(xs[0][0..], xs[0]);
    } else {
      if k == xs[0] {
        assert StartsWith((xs[0] + sep)[0..], xs[0]);
        ContainsInPrefix(xs[0] + sep, Join(sep, xs[1..]), k);
      } else {
        JoinContainsEach(sep, xs[1..], k);
        ContainsInSuffix(xs[0] + sep, Join(sep, xs[1..]), k);
      }
    }
  }
}
