/** Searching in strings, as the standard library functions the program calls do it. */
module Strings {

  predicate HasAt(s: string, pattern: string, i: int) {
    0 <= i && i + |pattern| <= |s| && s[i..i + |pattern|] == pattern
  }

  /** The first occurrence at or after a position, or -1. */
  function FindFrom(s: string, pattern: string, from: nat): (r: int)
    ensures r == -1 || (from <= r && HasAt(s, pattern, r))
    ensures forall j :: from <= j && HasAt(s, pattern, j) ==> 0 <= r <= j
    decreases |s| - from
  {
    if from + |pattern| > |s| then -1
    else if HasAt(s, pattern, from) then from
    else FindFrom(s, pattern, from + 1)
  }

  /** The first occurrence of a pattern, or -1. */
  function Find(s: string, pattern: string): (r: int)
    ensures r == -1 || HasAt(s, pattern, r)
    ensures forall j :: HasAt(s, pattern, j) ==> 0 <= r <= j
  {
    FindFrom(s, pattern, 0)
  }

  /** The first occurrence of a character, or -1. */
  function FindChar(s: string, c: char): (r: int)
    ensures r == -1 <==> c !in s
    ensures r == -1 || (0 <= r < |s| && s[r] == c && c !in s[..r])
  {
    if s == "" then -1
    else if s[0] == c then 0
    else
      var r := FindChar(s[1..], c);
      assert s == [s[0]] + s[1..];
      if r == -1 then -1 else
        assert s[..r + 1] == [s[0]] + s[1..][..r];
        r + 1
  }

  /** The last occurrence of a character, or -1. */
  function FindLastChar(s: string, c: char): (r: int)
    ensures r == -1 <==> c !in s
    ensures r == -1 || (0 <= r < |s| && s[r] == c && c !in s[r + 1..])
  {
    if s == "" then -1
    else if s[|s| - 1] == c then |s| - 1
    else
      var r := FindLastChar(s[..|s| - 1], c);
      assert s == s[..|s| - 1] + [s[|s| - 1]];
      if r == -1 then -1 else
        assert s[r + 1..] == s[..|s| - 1][r + 1..] + [s[|s| - 1]];
        r
  }

  /** An occurrence with none before it is the first. */
  lemma FindIs(s: string, pattern: string, k: nat)
    requires HasAt(s, pattern, k)
    requires forall j :: 0 <= j < k ==> !HasAt(s, pattern, j)
    ensures Find(s, pattern) == k
  {
  }

  /** A first occurrence inside a prefix is the first occurrence in the whole. */
  lemma FindInPrefix(a: string, b: string, pattern: string)
    requires Find(a, pattern) >= 0
    ensures Find(a + b, pattern) == Find(a, pattern)
  {
    var k := Find(a, pattern);
    assert (a + b)[k..k + |pattern|] == a[k..k + |pattern|];
    forall j | 0 <= j < k ensures !HasAt(a + b, pattern, j) {
      assert (a + b)[j..j + |pattern|] == a[j..j + |pattern|];
      assert !HasAt(a, pattern, j);
    }
    FindIs(a + b, pattern, k);
  }

  lemma FindCharIs(s: string, c: char, k: nat)
    requires k < |s| && s[k] == c && c !in s[..k]
    ensures FindChar(s, c) == k
  {
  }

  lemma FindLastCharIs(s: string, c: char, k: nat)
    requires k < |s| && s[k] == c && c !in s[k + 1..]
    ensures FindLastChar(s, c) == k
  {
  }

  /** A first occurrence that ends inside a prefix is the first occurrence in that prefix. */
  lemma FindInOwnPrefix(s: string, pattern: string, n: nat)
    requires 0 <= Find(s, pattern) && Find(s, pattern) + |pattern| <= n <= |s|
    ensures Find(s[..n], pattern) == Find(s, pattern)
  {
    var k := Find(s, pattern);
    assert s[..n][k..k + |pattern|] == s[k..k + |pattern|];
    forall j | 0 <= j < k ensures !HasAt(s[..n], pattern, j) {
      assert !HasAt(s, pattern, j);
      if j + |pattern| <= n {
        assert s[..n][j..j + |pattern|] == s[j..j + |pattern|];
      }
    }
    FindIs(s[..n], pattern, k);
  }

  // ---------------------------------------------------------------- pieces

  /** The pieces between slashes; always at least one. */
  function Split(s: string): (r: seq<string>)
    ensures r != []
  {
    if s == "" then [""]
    else
      var rest := Split(s[1..]);
      if s[0] == '/' then [""] + rest else [[s[0]] + rest[0]] + rest[1..]
  }

  lemma {:induction false} SplitPlain(s: string)
    requires '/' !in s
    ensures Split(s) == [s]
  {
    if s != "" {
      SplitPlain(s[1..]);
      assert [s[0]] + s[1..] == s;
    }
  }

  lemma {:induction false} SplitFirst(s: string, rest: string)
    requires '/' !in s
    ensures Split(s + ("/" + rest)) == [s] + Split(rest)
  {
    var all := s + ("/" + rest);
    if s == "" {
      assert all == "/" + rest && all[1..] == rest;
    } else {
      SplitFirst(s[1..], rest);
      assert all[1..] == s[1..] + ("/" + rest) && all[0] == s[0];
      assert [s[0]] + s[1..] == s;
    }
  }
}
