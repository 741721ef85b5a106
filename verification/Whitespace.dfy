/** The white space that Python's str.strip and str.split know, and what is left without it. */
module Whitespace {

  predicate IsSpace(c: char) {
    || '\t' <= c <= '\r' || '\U{1c}' <= c <= ' ' || c == '\U{85}' || c == '\U{a0}' || c == '\U{1680}'
    || '\U{2000}' <= c <= '\U{200a}' || c == '\U{2028}' || c == '\U{2029}' || c == '\U{202f}' || c == '\U{205f}'
    || c == '\U{3000}'
  }

  predicate Blank(s: string) {
    forall i :: 0 <= i < |s| ==> IsSpace(s[i])
  }

  /** Nothing is left to strip. */
  predicate IsStripped(s: string) {
    s == "" || (!IsSpace(s[0]) && !IsSpace(s[|s| - 1]))
  }

  function Strip(s: string): (r: string)
    ensures |r| <= |s|
    ensures r == "" <==> Blank(s)
    ensures IsStripped(r)
    decreases |s|
  {
    if s == "" then s
    else if IsSpace(s[0]) then
      var r := Strip(s[1..]);
      assert Blank(s) <==> Blank(s[1..]) by {
        assert forall i :: 0 < i < |s| ==> s[i] == s[1..][i - 1];
      }
      r
    else if IsSpace(s[|s| - 1]) then
      var r := Strip(s[..|s| - 1]);
      assert !Blank(s[..|s| - 1]) by { assert s[..|s| - 1][0] == s[0]; }
      r
    else s
  }

  /** `r` is `s` without some white space at its start and at its end. */
  ghost predicate IsMiddle(s: string, r: string) {
    exists a, b :: s == a + r + b && Blank(a) && Blank(b)
  }

  lemma MoreInFront(c: char, s: string, r: string)
    requires IsSpace(c) && IsMiddle(s, r)
    ensures IsMiddle([c] + s, r)
  {
    var a, b :| s == a + r + b && Blank(a) && Blank(b);
    assert [c] + s == ([c] + a) + r + b && Blank([c] + a);
  }

  lemma MoreBehind(s: string, c: char, r: string)
    requires IsSpace(c) && IsMiddle(s, r)
    ensures IsMiddle(s + [c], r)
  {
    var a, b :| s == a + r + b && Blank(a) && Blank(b);
    assert s + [c] == a + r + (b + [c]) && Blank(b + [c]);
  }

  /** Only white space is taken away, and only at the two ends. */
  lemma {:induction false} StripTakesEnds(s: string)
    ensures IsMiddle(s, Strip(s))
    decreases |s|
  {
    if s != "" && IsSpace(s[0]) {
      StripTakesEnds(s[1..]);
      MoreInFront(s[0], s[1..], Strip(s));
      assert [s[0]] + s[1..] == s;
    } else if s != "" && IsSpace(s[|s| - 1]) {
      StripTakesEnds(s[..|s| - 1]);
      MoreBehind(s[..|s| - 1], s[|s| - 1], Strip(s));
      assert s[..|s| - 1] + [s[|s| - 1]] == s;
    } else {
      assert s == "" + Strip(s) + "" && Blank("");
    }
  }
}
