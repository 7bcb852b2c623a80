/** White space as JavaScript's trim and its pattern \s see it, by character code. */
module Whitespace {
  predicate IsSpace(code: int) {
    || 9 <= code <= 13
    || code == 32
    || code == 0xA0
    || code == 0x1680
    || 0x2000 <= code <= 0x200A
    || code == 0x2028 || code == 0x2029
    || code == 0x202F || code == 0x205F
    || code == 0x3000
    || code == 0xFEFF
  }

  function TrimStart(s: string): string {
    if s != "" && IsSpace(s[0] as int) then TrimStart(s[1..]) else s
  }

  function TrimEnd(s: string): string {
    if s != "" && IsSpace(s[|s| - 1] as int) then TrimEnd(s[..|s| - 1]) else s
  }

  function Trim(s: string): string {
    TrimEnd(TrimStart(s))
  }

  /** `t` is `s` without the white space at its ends: nothing but white space is left out, and no white
      space is left at either end. */
  predicate TrimmedTo(s: string, t: string) {
    exists i, j :: 0 <= i <= j <= |s| && KeepsMiddle(s, i, j) && t == s[i..j]
  }

  predicate KeepsMiddle(s: string, i: nat, j: nat)
    requires i <= j <= |s|
  {
    && (forall k :: 0 <= k < i ==> IsSpace(s[k] as int))
    && (forall k :: j <= k < |s| ==> IsSpace(s[k] as int))
    && (i < j ==> !IsSpace(s[i] as int) && !IsSpace(s[j - 1] as int))
  }

  lemma {:induction false} TrimStartCuts(s: string) returns (i: nat)
    ensures i <= |s| && TrimStart(s) == s[i..] && (forall k :: 0 <= k < i ==> IsSpace(s[k] as int))
    ensures i < |s| ==> !IsSpace(s[i] as int)
  {
    if s != "" && IsSpace(s[0] as int) {
      i := TrimStartCuts(s[1..]);
      i := i + 1;
    } else {
      i := 0;
    }
  }

  lemma {:induction false} TrimEndCuts(s: string) returns (j: nat)
    ensures j <= |s| && TrimEnd(s) == s[..j] && (forall k :: j <= k < |s| ==> IsSpace(s[k] as int))
    ensures j > 0 ==> !IsSpace(s[j - 1] as int)
  {
    if s != "" && IsSpace(s[|s| - 1] as int) {
      j := TrimEndCuts(s[..|s| - 1]);
    } else {
      j := |s|;
    }
  }

  /** Trimming gives that text and no other. */
  lemma TrimIff(s: string, t: string)
    ensures TrimmedTo(s, t) <==> Trim(s) == t
  {
    var i := TrimStartCuts(s);
    var j := TrimEndCuts(s[i..]);
    assert Trim(s) == s[i..i + j];
    assert KeepsMiddle(s, i, i + j) by {
      assert forall k :: i + j <= k < |s| ==> s[k] == s[i..][k - i];
      if j > 0 { assert s[i..][0] == s[i] && s[i..][j - 1] == s[i + j - 1]; }
    }
    if TrimmedTo(s, t) {
      var i', j' :| 0 <= i' <= j' <= |s| && KeepsMiddle(s, i', j') && t == s[i'..j'];
      OneMiddle(s, i, i + j, i', j');
    }
  }

  lemma OneMiddle(s: string, i: nat, j: nat, i': nat, j': nat)
    requires i <= j <= |s| && i' <= j' <= |s| && KeepsMiddle(s, i, j) && KeepsMiddle(s, i', j')
    ensures s[i..j] == s[i'..j']
  {
    if i < j && i' < j' {
      assert i == i' && j == j';
    }
  }
}
