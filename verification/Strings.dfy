/** The few functions of Go's `strings` package that the models share. */
module Strings {

  /** unicode.IsSpace */
  predicate IsSpace(c: char) {
    c == ' ' || '\t' <= c <= '\r' || c == '\U{0085}' || c == '\U{00A0}' || c == '\U{1680}' ||
    '\U{2000}' <= c <= '\U{200A}' || c == '\U{2028}' || c == '\U{2029}' || c == '\U{202F}' ||
    c == '\U{205F}' || c == '\U{3000}'
  }

  function TrimLeft(s: string): string {
    if s != "" && IsSpace(s[0]) then TrimLeft(s[1..]) else s
  }

  function TrimRight(s: string): string {
    if s != "" && IsSpace(s[|s| - 1]) then TrimRight(s[..|s| - 1]) else s
  }

  function TrimSpace(s: string): string {
    TrimRight(TrimLeft(s))
  }

  /** Text that neither starts nor ends with space is its own trimming. */
  lemma TrimSpaceKeeps(s: string)
    requires s == "" || (!IsSpace(s[0]) && !IsSpace(s[|s| - 1]))
    ensures TrimSpace(s) == s
  {
  }

  lemma {:induction false} TrimLeftStarts(s: string)
    ensures TrimLeft(s) != "" ==> !IsSpace(TrimLeft(s)[0])
    decreases |s|
  {
    if s != "" && IsSpace(s[0]) {
      TrimLeftStarts(s[1..]);
    }
  }

  lemma {:induction false} TrimRightEnds(s: string)
    ensures TrimRight(s) <= s
    ensures TrimRight(s) != "" ==> !IsSpace(TrimRight(s)[|TrimRight(s)| - 1])
    decreases |s|
  {
    if s != "" && IsSpace(s[|s| - 1]) {
      TrimRightEnds(s[..|s| - 1]);
    }
  }

  predicate AllSpace(s: string) {
    forall k :: 0 <= k < |s| ==> IsSpace(s[k])
  }

  lemma {:induction false} TrimLeftDrops(s: string, i: nat)
    requires i <= |s| && AllSpace(s[..i]) && (i < |s| ==> !IsSpace(s[i]))
    ensures TrimLeft(s) == s[i..]
    decreases i
  {
    if i > 0 {
      var spaces := s[..i];
      assert spaces[0] == s[0] && s[1..][..i - 1] == spaces[1..];
      TrimLeftDrops(s[1..], i - 1);
      assert s[1..][i - 1..] == s[i..];
    }
  }

  lemma {:induction false} TrimRightDrops(s: string, k: nat)
    requires k <= |s| && AllSpace(s[k..]) && (k > 0 ==> !IsSpace(s[k - 1]))
    ensures TrimRight(s) == s[..k]
    decreases |s|
  {
    if k < |s| {
      var front := s[..|s| - 1];
      assert s[k..][|s| - 1 - k] == s[|s| - 1];
      assert forall j :: 0 <= j < |front| - k ==> front[k..][j] == s[k..][j];
      TrimRightDrops(front, k);
      assert front[..k] == s[..k];
    } else {
      assert s[..k] == s;
    }
  }

  /** What lies between the spaces at both ends is what trimming leaves. */
  lemma TrimSpaceIs(s: string, i: nat, k: nat)
    requires i < k <= |s| && AllSpace(s[..i]) && AllSpace(s[k..]) && !IsSpace(s[i]) && !IsSpace(s[k - 1])
    ensures TrimSpace(s) == s[i..k]
  {
    TrimLeftDrops(s, i);
    var rest := s[i..];
    assert rest[k - i..] == s[k..] && rest[k - i - 1] == s[k - 1];
    TrimRightDrops(rest, k - i);
    assert rest[..k - i] == s[i..k];
  }

  lemma TrimSpaceOfSpaces(s: string)
    requires AllSpace(s)
    ensures TrimSpace(s) == ""
  {
    assert s[..|s|] == s;
    TrimLeftDrops(s, |s|);
  }

  /** `t` is what lies between the spaces at both ends of `s`. */
  ghost predicate Trims(s: string, t: string) {
    if AllSpace(s) then t == "" else exists i: nat, k: nat | i < k <= |s| :: TrimsAt(s, t, i, k)
  }

  ghost predicate TrimsAt(s: string, t: string, i: nat, k: nat)
    requires i < k <= |s|
  {
    t == s[i..k] && !IsSpace(t[0]) && !IsSpace(t[|t| - 1]) && AllSpace(s[..i]) && AllSpace(s[k..])
  }

  lemma {:induction false} FirstOther(s: string) returns (i: nat)
    requires !AllSpace(s)
    ensures i < |s| && AllSpace(s[..i]) && !IsSpace(s[i])
  {
    i := 0;
    while IsSpace(s[i])
      invariant i < |s| && AllSpace(s[..i]) && exists j :: i <= j < |s| && !IsSpace(s[j])
      decreases |s| - i
    {
      i := i + 1;
    }
  }

  lemma {:induction false} LastOther(s: string, i: nat) returns (k: nat)
    requires i < |s| && !IsSpace(s[i])
    ensures i < k <= |s| && AllSpace(s[k..]) && !IsSpace(s[k - 1])
  {
    k := |s|;
    while IsSpace(s[k - 1])
      invariant i < k <= |s| && AllSpace(s[k..])
      decreases k
    {
      k := k - 1;
    }
  }

  lemma TrimSpaceTrims(s: string)
    ensures Trims(s, TrimSpace(s))
  {
    if AllSpace(s) {
      TrimSpaceOfSpaces(s);
    } else {
      var i := FirstOther(s);
      var k := LastOther(s, i);
      TrimSpaceIs(s, i, k);
      assert TrimsAt(s, TrimSpace(s), i, k);
    }
  }

  lemma TrimsOnce(s: string, t: string)
    requires Trims(s, t)
    ensures t == TrimSpace(s)
  {
    if AllSpace(s) {
      TrimSpaceOfSpaces(s);
    } else {
      var i: nat, k: nat :| i < k <= |s| && TrimsAt(s, t, i, k);
      TrimSpaceIs(s, i, k);
    }
  }

  lemma TrimmingTwice(s: string)
    ensures TrimSpace(TrimSpace(s)) == TrimSpace(s)
  {
    TrimLeftStarts(s);
    TrimRightEnds(TrimLeft(s));
    TrimSpaceKeeps(TrimSpace(s));
  }

  /** firstNonEmpty: the first value with something left after trimming, trimmed. */
  function FirstNonEmpty(values: seq<string>): string {
    if values == [] then ""
    else if TrimSpace(values[0]) != "" then TrimSpace(values[0])
    else FirstNonEmpty(values[1..])
  }

  /** strings.Join */
  function Join(parts: seq<string>, separator: string): string {
    if parts == [] then ""
    else if |parts| == 1 then parts[0]
    else parts[0] + separator + Join(parts[1..], separator)
  }
}
