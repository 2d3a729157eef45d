/** The little string handling the modelled code relies on. */
module Text {

  /** White space as the program's library defines it. */
  predicate IsSpace(c: char) {
    || c == ' ' || c == '\t' || c == '\n' || c == '\U{000B}' || c == '\U{000C}' || c == '\r'
    || c == '\U{0085}' || c == '\U{00A0}' || c == '\U{1680}' || '\U{2000}' <= c <= '\U{200A}'
    || c == '\U{2028}' || c == '\U{2029}' || c == '\U{202F}' || c == '\U{205F}' || c == '\U{3000}'
  }

  function TrimLeft(s: string): string {
    if s != "" && IsSpace(s[0]) then TrimLeft(s[1..]) else s
  }

  function TrimRight(s: string): string {
    if s != "" && IsSpace(s[|s| - 1]) then TrimRight(s[..|s| - 1]) else s
  }

  function TrimSpace(s: string): string {
    TrimRight(TrimLeft(s))
  }

  /* ------------------------- what trimming removes ------------------------- */

  ghost predicate Blank(s: string) {
    forall i :: 0 <= i < |s| ==> IsSpace(s[i])
  }

  /** `s` is `t` with white space around it, and `t` neither begins nor ends in any. */
  ghost predicate TrimsTo(s: string, t: string) {
    && (t != "" ==> !IsSpace(t[0]) && !IsSpace(t[|t| - 1]))
    && exists a, b :: Blank(a) && Blank(b) && s == a + t + b
  }

  lemma {:induction false} TrimLeftOver(a: string, t: string)
    requires Blank(a)
    ensures TrimLeft(a + t) == TrimLeft(t)
  {
    if a == "" {
      assert a + t == t;
    } else {
      TrimLeftOver(a[1..], t);
      assert (a + t)[1..] == a[1..] + t;
    }
  }

  lemma {:induction false} TrimRightOver(t: string, b: string)
    requires Blank(b)
    ensures TrimRight(t + b) == TrimRight(t)
  {
    if b == "" {
      assert t + b == t;
    } else {
      var n := |b| - 1;
      TrimRightOver(t, b[..n]);
      assert (t + b)[..|t + b| - 1] == t + b[..n];
    }
  }

  lemma {:induction false} TrimLeftSplits(s: string) returns (a: string)
    ensures Blank(a) && s == a + TrimLeft(s)
    ensures TrimLeft(s) != "" ==> !IsSpace(TrimLeft(s)[0])
  {
    a := "";
    if s != "" && IsSpace(s[0]) {
      var rest := TrimLeftSplits(s[1..]);
      a := [s[0]] + rest;
      assert s == [s[0]] + s[1..];
    }
  }

  lemma {:induction false} TrimRightSplits(s: string) returns (b: string)
    ensures Blank(b) && s == TrimRight(s) + b
    ensures TrimRight(s) != "" ==> !IsSpace(TrimRight(s)[|TrimRight(s)| - 1]) && TrimRight(s)[0] == s[0]
  {
    b := "";
    if s != "" && IsSpace(s[|s| - 1]) {
      var n := |s| - 1;
      var rest := TrimRightSplits(s[..n]);
      b := rest + [s[n]];
      assert s == s[..n] + [s[n]];
    }
  }

  /** Trimming removes the white space at both ends and nothing else. */
  lemma TrimSpaceIff(s: string, t: string)
    ensures TrimSpace(s) == t <==> TrimsTo(s, t)
  {
    hide IsSpace, TrimLeft, TrimRight;
    TrimSpaceTrims(s);
    if TrimsTo(s, t) { TrimmedIsUnique(s, t); }
  }

  lemma TrimSpaceTrims(s: string)
    ensures TrimsTo(s, TrimSpace(s))
  {
    hide IsSpace, TrimLeft, TrimRight, Blank;
    var a := TrimLeftSplits(s);
    var b := TrimRightSplits(TrimLeft(s));
    assert s == a + TrimSpace(s) + b;
  }

  lemma TrimmedIsUnique(s: string, t: string)
    requires TrimsTo(s, t)
    ensures TrimSpace(s) == t
  {
    hide IsSpace;
    var a, b :| Blank(a) && Blank(b) && s == a + t + b;
    assert s == a + (t + b);
    TrimLeftOver(a, t + b);
    if t == "" {
      assert t + b == b == b + "";
      TrimLeftOver(b, "");
    } else {
      assert (t + b)[0] == t[0];
      TrimRightOver(t, b);
    }
  }

  /** At least these count as white space, and no visible ASCII character does. */
  lemma AsciiSpaces(c: char)
    requires c < '\U{0080}'
    ensures IsSpace(c) <==> c == ' ' || '\U{0009}' <= c <= '\U{000D}'
  {
  }
}
