/** The string operations of the source's library that several modules rely on. Case is ASCII case. */
module Strings {

  function LowerChar(c: char): char {
    if 'A' <= c <= 'Z' then c - 'A' + 'a' else c
  }

  function UpperChar(c: char): char {
    if 'a' <= c <= 'z' then c - 'a' + 'A' else c
  }

  function ToLower(s: string): (r: string)
    ensures |r| == |s|
  {
    seq(|s|, i requires 0 <= i < |s| => LowerChar(s[i]))
  }

  function ToUpper(s: string): (r: string)
    ensures |r| == |s|
  {
    seq(|s|, i requires 0 <= i < |s| => UpperChar(s[i]))
  }

  predicate EqualFold(a: string, b: string) {
    ToLower(a) == ToLower(b)
  }

  predicate OccursAt(text: string, sep: string, i: int) {
    0 <= i <= i + |sep| <= |text| && text[i..i + |sep|] == sep
  }

  /** The first place where `sep` occurs, or -1. */
  function Index(text: string, sep: string): (i: int)
    ensures i == -1 || OccursAt(text, sep, i)
  {
    if |text| < |sep| then -1
    else if text[..|sep|] == sep then 0
    else if text == [] then -1
    else
      var j := Index(text[1..], sep);
      if j < 0 then -1 else j + 1
  }

  /** Nothing earlier matches, and nothing at all when there is no index. */
  lemma {:induction false} IndexIsFirst(text: string, sep: string, j: int)
    requires OccursAt(text, sep, j)
    ensures 0 <= Index(text, sep) <= j
  {
    if text[..|sep|] != sep {
      assert j > 0 && text[1..][j - 1..j - 1 + |sep|] == text[j..j + |sep|];
      IndexIsFirst(text[1..], sep, j - 1);
    }
  }

  predicate IsSpace(c: char) {
    c in " \t\n\r" || c as int == 11 || c as int == 12
  }

  function TrimLeft(s: string): string {
    if s != [] && IsSpace(s[0]) then TrimLeft(s[1..]) else s
  }

  function TrimRight(s: string): string {
    if s != [] && IsSpace(s[|s| - 1]) then TrimRight(s[..|s| - 1]) else s
  }

  function TrimSpace(s: string): string { TrimRight(TrimLeft(s)) }

  predicate IsTrimmed(s: string) {
    s == [] || (!IsSpace(s[0]) && !IsSpace(s[|s| - 1]))
  }

  /** Trimming takes the longest stretch without space at either end. */
  lemma {:induction false} TrimLeftIsSuffix(s: string) returns (k: nat)
    ensures k <= |s| && TrimLeft(s) == s[k..]
    ensures TrimLeft(s) != [] ==> !IsSpace(TrimLeft(s)[0])
    ensures forall i :: 0 <= i < k ==> IsSpace(s[i])
  {
    if s != [] && IsSpace(s[0]) {
      var j := TrimLeftIsSuffix(s[1..]);
      k := j + 1;
    } else {
      k := 0;
    }
  }

  lemma {:induction false} TrimRightIsPrefix(s: string) returns (k: nat)
    ensures k <= |s| && TrimRight(s) == s[..k]
    ensures TrimRight(s) != [] ==> !IsSpace(TrimRight(s)[|TrimRight(s)| - 1])
    ensures forall i :: k <= i < |s| ==> IsSpace(s[i])
    decreases |s|
  {
    if s != [] && IsSpace(s[|s| - 1]) {
      k := TrimRightIsPrefix(s[..|s| - 1]);
      assert s[..|s| - 1][..k] == s[..k];
    } else {
      k := |s|;
    }
  }

  lemma TrimSpaceIsInfix(s: string) returns (k: nat, m: nat)
    ensures k <= m <= |s| && TrimSpace(s) == s[k..m] && IsTrimmed(TrimSpace(s))
    ensures forall i :: 0 <= i < |s| && !IsSpace(s[i]) ==> k <= i < m
  {
    k := TrimLeftIsSuffix(s);
    var n := TrimRightIsPrefix(s[k..]);
    m := k + n;
    assert s[k..][..n] == s[k..m];
    assert forall i :: m <= i < |s| ==> s[i] == s[k..][i - k];
  }
}
