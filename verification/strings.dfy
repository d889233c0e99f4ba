/** The JavaScript string primitives the core relies on, over `seq<char>`. */
module Strings {

  /** `String.prototype.toLowerCase`, restricted to the ASCII letters. */
  function LowerChar(c: char): (d: char)
    ensures 'A' <= c <= 'Z' ==> d as int == c as int + 32
    ensures !('A' <= c <= 'Z') ==> d == c
  {
    if 'A' <= c <= 'Z' then (c as int + 32) as char else c
  }

  function Lower(s: string): (r: string)
    ensures |r| == |s|
    ensures forall i | 0 <= i < |s| :: r[i] == LowerChar(s[i])
  {
    seq(|s|, i requires 0 <= i < |s| => LowerChar(s[i]))
  }

  /** `s.startsWith(p)`. */
  predicate StartsWith(s: string, p: string) {
    |p| <= |s| && s[..|p|] == p
  }

  /** A text whose `k`-th character differs from `p`'s does not start with `p`. */
  lemma DiffersAt(s: string, p: string, k: nat)
    requires k < |s| && k < |p| && s[k] != p[k]
    ensures !StartsWith(s, p)
  {
  }

  /** Concatenation regroups freely. */
  lemma AppendAssociates(a: string, b: string, c: string)
    ensures a + (b + c) == (a + b) + c
  {
  }

  lemma StartsWithAppend(a: string, b: string)
    ensures StartsWith(a + b, a)
  {
    assert (a + b)[..|a|] == a;
  }

  lemma StartsWithExtend(a: string, b: string, p: string)
    requires StartsWith(a, p)
    ensures StartsWith(a + b, p)
  {
    assert (a + b)[..|p|] == a[..|p|];
  }

  /** `s.endsWith(p)`. */
  predicate EndsWith(s: string, p: string) {
    |p| <= |s| && s[|s| - |p|..] == p
  }

  /** `t` occurs in `s` starting at index `i`. */
  predicate OccursAt(s: string, t: string, i: int) {
    0 <= i <= |s| - |t| && s[i..i + |t|] == t
  }

  /** `s.includes(t)`: `t` occurs in `s` at some position (the empty string occurs everywhere). */
  predicate Contains(s: string, t: string) {
    exists i | 0 <= i <= |s| - |t| :: OccursAt(s, t, i)
  }

  /** A pattern holding a character the text lacks cannot occur in it. */
  lemma AbsentCharBlocksContains(s: string, t: string, k: nat)
    requires k < |t| && t[k] !in s
    ensures !Contains(s, t)
  {
    forall i | 0 <= i <= |s| - |t| ensures !OccursAt(s, t, i) {
      assert s[i..i + |t|][k] == s[i + k];
    }
  }

  /** Lower-casing never introduces a character that is not a letter. */
  lemma LowerKeepsAbsent(s: string, c: char)
    requires !('a' <= c <= 'z') && c !in s
    ensures c !in Lower(s)
  {
  }

  /** `StartsWith(s, p)`, checked character by character. */
  predicate PrefixOf(p: string, s: string)
    decreases |p|
  {
    |p| == 0 || (|s| > 0 && p[0] == s[0] && PrefixOf(p[1..], s[1..]))
  }

  lemma {:induction false} PrefixOfIsStartsWith(p: string, s: string)
    ensures PrefixOf(p, s) <==> StartsWith(s, p)
    decreases |p|
  {
    if |p| > 0 && |s| > 0 {
      PrefixOfIsStartsWith(p[1..], s[1..]);
      if StartsWith(s, p) {
        assert s[1..][..|p| - 1] == s[..|p|][1..];
      }
      if PrefixOf(p, s) {
        assert s[..|p|] == [s[0]] + s[1..][..|p| - 1];
      }
    }
  }

  /** The number of positions at which `p` occurs in `s` (overlaps included). */
  function Count(s: string, p: string): nat
    requires |p| > 0
    decreases |s|
  {
    if |s| < |p| then 0
    else (if PrefixOf(p, s) then 1 else 0) + Count(s[1..], p)
  }

  /** One step of the count: the occurrence at the start, then the rest. */
  lemma CountStep(s: string, p: string)
    requires |p| > 0 && |s| > 0
    ensures Count(s, p) == (if StartsWith(s, p) then 1 else 0) + Count(s[1..], p)
  {
    PrefixOfIsStartsWith(p, s);
  }

  /** No occurrence of `p` can begin inside `a` and end inside whatever follows it. */
  predicate NoStraddle(a: string, p: string) {
    forall k | 1 <= k < |p| && k <= |a| :: a[|a| - k..] != p[..k]
  }

  /** Counting splits at a boundary no occurrence straddles. */
  lemma {:induction false} CountConcat(a: string, b: string, p: string)
    requires |p| > 0 && NoStraddle(a, p)
    ensures Count(a + b, p) == Count(a, p) + Count(b, p)
    decreases |a|
  {
    if |a| > 0 {
      assert (a + b)[1..] == a[1..] + b;
      assert NoStraddle(a[1..], p) by {
        forall k | 1 <= k < |p| && k <= |a| - 1 ensures a[1..][|a| - 1 - k..] != p[..k] {
          assert a[1..][|a| - 1 - k..] == a[|a| - k..];
        }
      }
      CountConcat(a[1..], b, p);
      PrefixOfIsStartsWith(p, a + b);
      PrefixOfIsStartsWith(p, a);
      if |a| >= |p| {
        assert (a + b)[..|p|] == a[..|p|];
      } else {
        assert a[|a| - |a|..] == a;
        assert |a + b| >= |p| ==> (a + b)[..|p|][..|a|] == a;
      }
    } else {
      assert a + b == b;
    }
  }

  /** A boundary ending in a character that cannot sit inside an occurrence is never straddled. */
  lemma NoStraddleByLastChar(a: string, p: string)
    requires |a| > 0 && |p| > 0 && a[|a| - 1] !in p[..|p| - 1]
    ensures NoStraddle(a, p)
  {
  }

  /** Text without the first character of `p` holds no occurrence and straddles none. */
  lemma NoLeadChar(a: string, p: string)
    requires |p| > 0 && p[0] !in a
    ensures Count(a, p) == 0
    ensures NoStraddle(a, p)
    decreases |a|
  {
    if |a| >= |p| {
      PrefixOfIsStartsWith(p, a);
      assert a[..|p|][0] == a[0];
      NoLeadChar(a[1..], p);
    }
    forall k | 1 <= k < |p| && k <= |a| ensures a[|a| - k..] != p[..k] {
      assert a[|a| - k..][0] == a[|a| - k];
    }
  }

  /** Counting splits after a text whose last character cannot sit inside an occurrence. */
  lemma CountSplitAfter(a: string, b: string, p: string)
    requires |a| > 0 && |p| > 0 && a[|a| - 1] !in p[..|p| - 1]
    ensures Count(a + b, p) == Count(a, p) + Count(b, p)
  {
    NoStraddleByLastChar(a, p);
    CountConcat(a, b, p);
  }

  /** Counting splits after a text lacking the first character of `p`, which holds none. */
  lemma CountSplitLeadFree(a: string, b: string, p: string)
    requires |p| > 0 && p[0] !in a
    ensures Count(a + b, p) == Count(b, p)
  {
    NoLeadChar(a, p);
    CountConcat(a, b, p);
  }

  lemma EndsWithAppend(a: string, b: string)
    ensures EndsWith(a + b, b)
  {
    assert (a + b)[|a + b| - |b|..] == b;
  }

  /** The characters `String.prototype.trim` removes: ECMAScript WhiteSpace and LineTerminator. */
  predicate IsJsWhitespace(c: char) {
    c == '\t' || c == '\n' || c == '\U{000B}' || c == '\U{000C}' || c == '\r' || c == ' '
    || c == '\U{00A0}' || c == '\U{1680}' || ('\U{2000}' <= c <= '\U{200A}')
    || c == '\U{2028}' || c == '\U{2029}' || c == '\U{202F}' || c == '\U{205F}'
    || c == '\U{3000}' || c == '\U{FEFF}'
  }

  /** `!s || s.trim() === ''`: empty, or whitespace only. */
  predicate IsBlank(s: string) {
    forall i | 0 <= i < |s| :: IsJsWhitespace(s[i])
  }

  /** `parts.join(sep)`. */
  function Join(parts: seq<string>, sep: string): (r: string)
    ensures |parts| == 1 ==> r == parts[0]
    ensures |parts| == 0 ==> r == ""
  {
    if |parts| == 0 then ""
    else if |parts| == 1 then parts[0]
    else parts[0] + sep + Join(parts[1..], sep)
  }
}
