/** The pieces of Rust's string library that the workers rely on, on `seq<char>`. */
module Strings {

  /** `str::replace` with a single-character pattern: every occurrence of `c`
      becomes `rep`, left to right, and the replacement text is never rescanned. */
  function ReplaceChar(s: string, c: char, rep: string): (r: string)
    ensures c !in s ==> r == s
    ensures c !in rep ==> c !in r
  {
    if s == [] then []
    else (if s[0] == c then rep else [s[0]]) + ReplaceChar(s[1..], c, rep)
  }

  /** Every character of the result comes from `s` or from `rep`. */
  lemma {:induction false} ReplaceCharFrom(s: string, c: char, rep: string)
    ensures forall d :: d in ReplaceChar(s, c, rep) ==> d in s || d in rep
    decreases |s|
  {
    if s != [] {
      ReplaceCharFrom(s[1..], c, rep);
      assert forall d :: d in s[1..] ==> d in s;
    }
  }

  /** Replacing a character distributes over concatenation. */
  lemma {:induction false} ReplaceCharAppend(a: string, b: string, c: char, rep: string)
    ensures ReplaceChar(a + b, c, rep) == ReplaceChar(a, c, rep) + ReplaceChar(b, c, rep)
  {
    if a == [] {
      assert a + b == b;
    } else {
      assert (a + b)[0] == a[0];
      assert (a + b)[1..] == a[1..] + b;
      ReplaceCharAppend(a[1..], b, c, rep);
    }
  }

  /** Every character other than `c` is kept, in order: replacing `c` by itself
      is the identity. */
  lemma {:induction false} ReplaceCharBySelf(s: string, c: char)
    ensures ReplaceChar(s, c, [c]) == s
  {
    if s != [] {
      ReplaceCharBySelf(s[1..], c);
    }
  }

  /** A chain of single-character `replace` calls, applied in order. */
  function ReplaceInOrder(s: string, steps: seq<(char, string)>): (r: string)
    ensures (forall j :: 0 <= j < |steps| ==> steps[j].0 !in s) ==> r == s
    decreases |steps|
  {
    if steps == [] then s
    else ReplaceInOrder(ReplaceChar(s, steps[0].0, steps[0].1), steps[1..])
  }

  /** The chain distributes over concatenation. */
  lemma {:induction false} ReplaceInOrderAppend(a: string, b: string, steps: seq<(char, string)>)
    ensures ReplaceInOrder(a + b, steps) == ReplaceInOrder(a, steps) + ReplaceInOrder(b, steps)
    decreases |steps|
  {
    if steps != [] {
      var (c, rep) := steps[0];
      ReplaceCharAppend(a, b, c, rep);
      ReplaceInOrderAppend(ReplaceChar(a, c, rep), ReplaceChar(b, c, rep), steps[1..]);
    }
  }

  /** No replacement text holds a character that a later step replaces. */
  predicate NoLaterTarget(steps: seq<(char, string)>) {
    forall i, j :: 0 <= i < j < |steps| ==> steps[j].0 !in steps[i].1
  }

  /** What the first step targeting `c` replaces it with, or `c` itself. */
  function FirstReplacement(c: char, steps: seq<(char, string)>): string {
    if steps == [] then [c]
    else if steps[0].0 == c then steps[0].1
    else FirstReplacement(c, steps[1..])
  }

  /** On a single character, a chain whose replacement texts hold no later
      target acts as one lookup: the character is replaced at most once. */
  lemma {:induction false} ReplaceInOrderChar(c: char, steps: seq<(char, string)>)
    requires NoLaterTarget(steps)
    ensures ReplaceInOrder([c], steps) == FirstReplacement(c, steps)
  {
    if steps != [] {
      assert [c][1..] == [];
      var (d, rep) := steps[0];
      if d == c {
        assert ReplaceChar([c], d, rep) == rep;
        assert forall j :: 0 <= j < |steps[1..]| ==> steps[1..][j].0 !in rep by {
          forall j | 0 <= j < |steps[1..]| ensures steps[1..][j].0 !in rep {
            assert steps[1..][j] == steps[j + 1];
          }
        }
      } else {
        assert ReplaceChar([c], d, rep) == [c];
        assert NoLaterTarget(steps[1..]) by {
          forall i, j | 0 <= i < j < |steps[1..]| ensures steps[1..][j].0 !in steps[1..][i].1 {
            assert steps[1..][j] == steps[j + 1] && steps[1..][i] == steps[i + 1];
          }
        }
        ReplaceInOrderChar(c, steps[1..]);
      }
    }
  }

  /** Reference definition: each character looked up on its own. */
  function LookupEach(s: string, steps: seq<(char, string)>): string {
    if s == [] then [] else FirstReplacement(s[0], steps) + LookupEach(s[1..], steps)
  }

  /** A chain whose replacement texts hold no later target replaces each
      character at most once. */
  lemma {:induction false} ReplaceInOrderIsLookup(s: string, steps: seq<(char, string)>)
    requires NoLaterTarget(steps)
    ensures ReplaceInOrder(s, steps) == LookupEach(s, steps)
  {
    if s != [] {
      var head, tail := [s[0]], s[1..];
      assert s == head + tail;
      ReplaceInOrderAppend(head, tail, steps);
      ReplaceInOrderChar(s[0], steps);
      ReplaceInOrderIsLookup(tail, steps);
    }
  }

  /** `pat` occurs in `s` at index `i`. */
  predicate OccursAt(s: string, pat: string, i: int) {
    0 <= i && i + |pat| <= |s| && s[i..i + |pat|] == pat
  }

  /** `pat` occurs somewhere in `s`. */
  predicate Contains(s: string, pat: string) {
    exists i :: 0 <= i <= |s| && OccursAt(s, pat, i)
  }

  /** `str::replace` with an empty pattern: `rep` before every character and at the end. */
  function ReplaceEmpty(s: string, rep: string): (r: string)
    ensures |r| == |s| + (|s| + 1) * |rep|
  {
    if s == [] then rep else rep + [s[0]] + ReplaceEmpty(s[1..], rep)
  }

  /** `str::replace` with a string pattern: the leftmost occurrence of `pat` is
      replaced by `rep` and the search resumes after it, so occurrences never
      overlap and the replacement text is never rescanned. */
  function ReplaceAll(s: string, pat: string, rep: string): (r: string)
    ensures !Contains(s, pat) ==> r == s
    decreases |s|
  {
    if |pat| == 0 then
      assert OccursAt(s, pat, 0);
      ReplaceEmpty(s, rep)
    else if |s| < |pat| then s
    else if s[..|pat|] == pat then
      assert OccursAt(s, pat, 0);
      rep + ReplaceAll(s[|pat|..], pat, rep)
    else
      var r := [s[0]] + ReplaceAll(s[1..], pat, rep);
      assert !Contains(s, pat) ==> !Contains(s[1..], pat) by {
        if Contains(s[1..], pat) {
          var i :| 0 <= i <= |s[1..]| && OccursAt(s[1..], pat, i);
          assert s[i + 1..i + 1 + |pat|] == s[1..][i..i + |pat|];
          assert OccursAt(s, pat, i + 1);
        }
      }
      r
  }

  /** A pattern whose first character is absent from `s` leaves `s` alone. */
  lemma ReplaceAllAbsent(s: string, pat: string, rep: string)
    requires |pat| > 0 && pat[0] !in s
    ensures ReplaceAll(s, pat, rep) == s
  {
  }

  /** A first character that does not start the pattern is copied. */
  lemma ReplaceAllCons(c: char, t: string, pat: string, rep: string)
    requires |pat| > 0 && c != pat[0]
    ensures ReplaceAll([c] + t, pat, rep) == [c] + ReplaceAll(t, pat, rep)
  {
    var s := [c] + t;
    assert s[1..] == t;
    if |s| < |pat| {
      assert ReplaceAll(t, pat, rep) == t;
    } else {
      assert s[..|pat|][0] == c;
    }
  }

  /** A mismatch at offset `k` rules out an occurrence at `i`. */
  lemma NotAt(s: string, pat: string, i: int, k: int)
    requires 0 <= i && 0 <= k < |pat| && i + k < |s| && s[i + k] != pat[k]
    ensures !OccursAt(s, pat, i)
  {
    if i + |pat| <= |s| {
      assert s[i..i + |pat|][k] == s[i + k];
    }
  }

  /** No occurrence of `pat` in `x + y` starts inside `x`. */
  predicate NoMatchStartsIn(x: string, y: string, pat: string) {
    forall i :: 0 <= i < |x| ==> !OccursAt(x + y, pat, i)
  }

  /** A first character where the pattern does not occur is copied. */
  lemma ReplaceAllNoMatch(s: string, pat: string, rep: string)
    requires s != [] && |pat| > 0 && !OccursAt(s, pat, 0)
    ensures ReplaceAll(s, pat, rep) == [s[0]] + ReplaceAll(s[1..], pat, rep)
  {
    if |s| < |pat| {
      assert ReplaceAll(s[1..], pat, rep) == s[1..];
    }
  }

  /** Dropping the first character of such a prefix keeps it one. */
  lemma NoMatchTail(x: string, y: string, pat: string)
    requires x != [] && NoMatchStartsIn(x, y, pat)
    ensures NoMatchStartsIn(x[1..], y, pat)
  {
    var s, t := x + y, x[1..] + y;
    forall i | 0 <= i < |x| - 1
      ensures !OccursAt(t, pat, i)
    {
      assert !OccursAt(s, pat, i + 1);
      if i + |pat| <= |t| {
        assert s[i + 1..i + 1 + |pat|] == t[i..i + |pat|];
      }
    }
  }

  /** A prefix in which no occurrence of the pattern starts is copied
      unchanged, and the replacement goes on after it. */
  lemma {:induction false} ReplaceAllPass(x: string, y: string, pat: string, rep: string)
    requires |pat| > 0 && NoMatchStartsIn(x, y, pat)
    ensures ReplaceAll(x + y, pat, rep) == x + ReplaceAll(y, pat, rep)
    decreases |x|
  {
    if x == [] {
      assert x + y == y;
    } else {
      var s := x + y;
      assert s[0] == x[0] && s[1..] == x[1..] + y;
      assert !OccursAt(s, pat, 0);
      ReplaceAllNoMatch(s, pat, rep);
      NoMatchTail(x, y, pat);
      ReplaceAllPass(x[1..], y, pat, rep);
      HeadTail(x, ReplaceAll(y, pat, rep));
    }
  }

  /** A prefix without the pattern's first character is copied unchanged,
      and the replacement goes on after it. */
  lemma {:induction false} ReplaceAllSkip(x: string, y: string, pat: string, rep: string)
    requires |pat| > 0 && pat[0] !in x
    ensures ReplaceAll(x + y, pat, rep) == x + ReplaceAll(y, pat, rep)
    decreases |x|
  {
    if x == [] {
      assert x + y == y;
    } else {
      var t := x[1..] + y;
      assert x + y == [x[0]] + t;
      ReplaceAllCons(x[0], t, pat, rep);
      ReplaceAllSkip(x[1..], y, pat, rep);
      HeadTail(x, ReplaceAll(y, pat, rep));
    }
  }

  /** A text shorter than the pattern is left alone. */
  lemma ReplaceAllShort(s: string, pat: string, rep: string)
    requires |s| < |pat|
    ensures ReplaceAll(s, pat, rep) == s
  {
  }

  /** The pattern alone becomes the replacement. */
  lemma ReplaceAllWhole(pat: string, rep: string)
    requires |pat| > 0
    ensures ReplaceAll(pat, pat, rep) == rep
  {
    assert pat + [] == pat;
    ReplaceAllFront(pat, [], rep);
    assert rep + [] == rep;
  }

  /** Splitting off the first character and putting it back. */
  lemma HeadTail(x: string, r: string)
    requires x != []
    ensures [x[0]] + (x[1..] + r) == x + r
  {
    assert [x[0]] + x[1..] == x;
  }

  /** A pattern at the front is replaced, and the replacement goes on after it. */
  lemma ReplaceAllFront(pat: string, y: string, rep: string)
    requires |pat| > 0
    ensures ReplaceAll(pat + y, pat, rep) == rep + ReplaceAll(y, pat, rep)
  {
    var s := pat + y;
    assert s[..|pat|] == pat;
    assert s[|pat|..] == y;
  }

  /** With a one-character pattern, the string `replace` is the character one. */
  lemma {:induction false} ReplaceAllOneChar(s: string, c: char, rep: string)
    ensures ReplaceAll(s, [c], rep) == ReplaceChar(s, c, rep)
    decreases |s|
  {
    if s != [] {
      assert s[..1] == [s[0]];
      assert s[1..] == s[|[c]|..];
      ReplaceAllOneChar(s[1..], c, rep);
    }
  }

  predicate IsAsciiLower(c: char) { 'a' <= c <= 'z' }

  predicate IsAsciiUpper(c: char) { 'A' <= c <= 'Z' }

  /** `char::to_uppercase` restricted to ASCII: lower-case letters move to
      upper case, every other character is kept. */
  function AsciiUpper(c: char): (u: char)
    ensures IsAsciiLower(c) ==> IsAsciiUpper(u) && u as int == c as int - 32
    ensures !IsAsciiLower(c) ==> u == c
    ensures !IsAsciiLower(u)
  {
    if IsAsciiLower(c) then (c as int - 32) as char else c
  }
}
