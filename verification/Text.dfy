/** The string operations the components share, over ASCII whitespace and case. */
module Text {

  predicate IsSpace(c: char) {
    c == ' ' || c == '\t' || c == '\n' || c == '\r' || c == '\U{0B}' || c == '\U{0C}'
  }

  function TrimLeft(s: string): string {
    if s != "" && IsSpace(s[0]) then TrimLeft(s[1..]) else s
  }

  function TrimRight(s: string): string {
    if s != "" && IsSpace(s[|s| - 1]) then TrimRight(s[..|s| - 1]) else s
  }

  function Strip(s: string): string {
    TrimRight(TrimLeft(s))
  }

  function LowerChar(c: char): char {
    if 'A' <= c <= 'Z' then (c as int + 32) as char else c
  }

  function Lower(s: string): string {
    seq(|s|, i requires 0 <= i < |s| => LowerChar(s[i]))
  }

  function Truncate(s: string, n: nat): string {
    if |s| <= n then s else s[..n]
  }

  predicate IsTrimmed(s: string) {
    s == "" || (!IsSpace(s[0]) && !IsSpace(s[|s| - 1]))
  }

  lemma {:induction false} TrimLeftResult(s: string)
    ensures TrimLeft(s) == "" || !IsSpace(TrimLeft(s)[0])
    ensures |TrimLeft(s)| <= |s| && TrimLeft(s) == s[|s| - |TrimLeft(s)|..]
  {
    if s != "" && IsSpace(s[0]) {
      TrimLeftResult(s[1..]);
    }
  }

  lemma {:induction false} TrimRightResult(s: string)
    ensures TrimRight(s) == "" || !IsSpace(TrimRight(s)[|TrimRight(s)| - 1])
    ensures |TrimRight(s)| <= |s| && TrimRight(s) == s[..|TrimRight(s)|]
  {
    if s != "" && IsSpace(s[|s| - 1]) {
      TrimRightResult(s[..|s| - 1]);
    }
  }

  lemma PieceOfPiece(s: string, t: string, u: string)
    requires |u| <= |t| <= |s| && t == s[|s| - |t|..] && u == t[..|u|]
    ensures |u| == |s| ==> u == s
    ensures forall c :: c in u ==> c in s
  {
  }

  lemma {:induction false} TrimmedIsKept(s: string)
    requires IsTrimmed(s)
    ensures TrimLeft(s) == s && TrimRight(s) == s
  {
  }

  /** Stripping leaves a trimmed piece of the string, and leaves trimmed strings alone. */
  lemma {:induction false} StripResult(s: string)
    ensures IsTrimmed(Strip(s)) && |Strip(s)| <= |s|
    ensures |Strip(s)| == |s| ==> Strip(s) == s
    ensures forall c :: c in Strip(s) ==> c in s
    ensures IsTrimmed(s) ==> Strip(s) == s
  {
    TrimLeftResult(s);
    TrimRightResult(TrimLeft(s));
    PieceOfPiece(s, TrimLeft(s), Strip(s));
    if IsTrimmed(s) {
      TrimmedIsKept(s);
    }
  }

  ghost predicate AllSpaces(s: string) {
    forall c :: c in s ==> IsSpace(c)
  }

  lemma {:induction false} TrimLeftDropsSpaces(s: string)
    ensures |TrimLeft(s)| <= |s| && AllSpaces(s[..|s| - |TrimLeft(s)|])
  {
    if s != "" && IsSpace(s[0]) {
      var k := |s| - |TrimLeft(s)|;
      TrimLeftResult(s[1..]);
      TrimLeftDropsSpaces(s[1..]);
      assert s[..k] == [s[0]] + s[1..][..k - 1];
    }
  }

  lemma {:induction false} TrimRightDropsSpaces(s: string)
    ensures |TrimRight(s)| <= |s| && AllSpaces(s[|TrimRight(s)|..])
  {
    if s != "" && IsSpace(s[|s| - 1]) {
      var front, k := s[..|s| - 1], |TrimRight(s)|;
      TrimRightResult(front);
      TrimRightDropsSpaces(front);
      assert s[k..] == front[k..] + [s[|s| - 1]];
    }
  }

  /** Stripping takes spaces off the two ends and nothing else. */
  lemma {:induction false} StripDropsOnlySpaces(s: string) returns (i: nat, j: nat)
    ensures i <= j <= |s| && Strip(s) == s[i..j] && AllSpaces(s[..i]) && AllSpaces(s[j..])
  {
    var t := TrimLeft(s);
    TrimLeftResult(s);
    TrimLeftDropsSpaces(s);
    TrimRightResult(t);
    TrimRightDropsSpaces(t);
    i := |s| - |t|;
    j := i + |Strip(s)|;
    assert s[j..] == t[|Strip(s)|..];
  }
}
