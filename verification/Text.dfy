/** The string operations the modelled code uses. */
module Text {
  // Index of the last `c` in `s`, or -1.
  function LastIndex(s: string, c: char): (i: int)
    ensures -1 <= i < |s|
    ensures i >= 0 ==> s[i] == c && c !in s[i + 1..]
    ensures i < 0 ==> c !in s
  {
    if s == [] then -1
    else if s[|s| - 1] == c then |s| - 1
    else
      var i := LastIndex(s[..|s| - 1], c);
      assert s == s[..|s| - 1] + [s[|s| - 1]];
      assert i >= 0 ==> s[i + 1..] == s[..|s| - 1][i + 1..] + [s[|s| - 1]];
      i
  }

  // Index of the first `c` in `s`, or -1.
  function FirstIndex(s: string, c: char): (i: int)
    ensures -1 <= i < |s|
    ensures i >= 0 ==> s[i] == c && c !in s[..i]
    ensures i < 0 ==> c !in s
  {
    if s == [] then -1
    else if s[0] == c then 0
    else
      var i := FirstIndex(s[1..], c);
      assert s == [s[0]] + s[1..];
      if i < 0 then -1 else assert s[..i + 1] == [s[0]] + s[1..][..i]; i + 1
  }

  // `s.rpartition(c)[0]` and `s.rpartition(c)[2]`.
  function BeforeLast(s: string, c: char): string {
    var i := LastIndex(s, c);
    if i < 0 then "" else s[..i]
  }

  function AfterLast(s: string, c: char): string {
    var i := LastIndex(s, c);
    if i < 0 then s else s[i + 1..]
  }

  // `s.split(c, 1)[0]`.
  function BeforeFirst(s: string, c: char): string {
    var i := FirstIndex(s, c);
    if i < 0 then s else s[..i]
  }

  predicate EndsWith(s: string, suffix: string) {
    |suffix| <= |s| && s[|s| - |suffix|..] == suffix
  }

  /** A separator followed by text without one is found where it stands. */
  lemma {:induction false} LastIndexOfJoin(head: string, c: char, tail: string)
    requires c !in tail
    ensures LastIndex(head + [c] + tail, c) == |head|
    ensures BeforeLast(head + [c] + tail, c) == head && AfterLast(head + [c] + tail, c) == tail
  {
    var s := head + [c] + tail;
    if tail != [] {
      var shorter := tail[..|tail| - 1];
      assert s[..|s| - 1] == head + [c] + shorter;
      assert s[|s| - 1] == tail[|tail| - 1];
      LastIndexOfJoin(head, c, shorter);
    }
    assert LastIndex(s, c) == |head|;
    assert s[..|head|] == head && s[|head| + 1..] == tail;
  }

  lemma {:induction false} FirstIndexOfJoin(head: string, c: char, tail: string)
    requires c !in head
    ensures FirstIndex(head + [c] + tail, c) == |head|
  {
    var s := head + [c] + tail;
    if head != "" {
      assert s[1..] == head[1..] + [c] + tail;
      assert s[0] == head[0];
      FirstIndexOfJoin(head[1..], c, tail);
    }
  }

  // What `str.strip()` takes off an end.
  predicate IsSpace(c: char) {
    || '\t' <= c <= '\r' || '\U{1C}' <= c <= ' ' || c == '\U{85}' || c == '\U{A0}' || c == '\U{1680}'
    || '\U{2000}' <= c <= '\U{200A}' || c == '\U{2028}' || c == '\U{2029}' || c == '\U{202F}'
    || c == '\U{205F}' || c == '\U{3000}'
  }

  function StripLeft(s: string): (r: string)
    ensures r != "" ==> !IsSpace(r[0])
    ensures |r| <= |s| && r == s[|s| - |r|..]
    ensures forall i | 0 <= i < |s| - |r| :: IsSpace(s[i])
  {
    if s == "" || !IsSpace(s[0]) then s else StripLeft(s[1..])
  }

  function StripRight(s: string): (r: string)
    ensures r != "" ==> !IsSpace(r[|r| - 1])
    ensures r <= s
    ensures forall i | |r| <= i < |s| :: IsSpace(s[i])
  {
    if s == "" || !IsSpace(s[|s| - 1]) then s else StripRight(s[..|s| - 1])
  }

  function Strip(s: string): string {
    StripRight(StripLeft(s))
  }

  predicate IsStripped(s: string) {
    s != "" ==> !IsSpace(s[0]) && !IsSpace(s[|s| - 1])
  }

  lemma StripIsStripped(s: string)
    ensures IsStripped(Strip(s))
    ensures IsStripped(s) ==> Strip(s) == s
  {
    var l := StripLeft(s);
    var r := StripRight(l);
    if r != "" { assert r[0] == l[0]; }
  }

  // Case, as far as ASCII goes.
  function LowerChar(c: char): char {
    if 'A' <= c <= 'Z' then (c as int + 32) as char else c
  }

  function UpperChar(c: char): char {
    if 'a' <= c <= 'z' then (c as int - 32) as char else c
  }

  const SMALL := "abcdefghijklmnopqrstuvwxyz"
  const LARGE := "ABCDEFGHIJKLMNOPQRSTUVWXYZ"

  /** Each letter goes to its other case and back, and every other character stays. */
  lemma CaseOfLetters(i: nat)
    requires i < 26
    ensures |SMALL| == |LARGE| == 26
    ensures LowerChar(LARGE[i]) == LowerChar(SMALL[i]) == SMALL[i]
    ensures UpperChar(SMALL[i]) == UpperChar(LARGE[i]) == LARGE[i]
  {
  }

  lemma CaseOfOthers(c: char)
    ensures c !in LARGE ==> LowerChar(c) == c
    ensures c !in SMALL ==> UpperChar(c) == c
  {
    if 'A' <= c <= 'Z' { assert LARGE[c as int - 'A' as int] == c; }
    if 'a' <= c <= 'z' { assert SMALL[c as int - 'a' as int] == c; }
  }

  function Lower(s: string): (r: string)
    ensures |r| == |s| && forall i | 0 <= i < |s| :: r[i] == LowerChar(s[i])
  {
    seq(|s|, i requires 0 <= i < |s| => LowerChar(s[i]))
  }

  function Upper(s: string): (r: string)
    ensures |r| == |s| && forall i | 0 <= i < |s| :: r[i] == UpperChar(s[i])
  {
    seq(|s|, i requires 0 <= i < |s| => UpperChar(s[i]))
  }
}
