/** The Python string operations the core calls, `str.strip()`, `str.lower()`,
    the substring test `sub in s` and `"\n".join(...)`, together with
    `StartsWith` and `Split`, which the core does not call but which state
    properties of its texts. `strip()` is pinned down by `TrimPadded`, and
    `join` by the round trip `SplitJoin`. */
module Strings {

  /** Python's `str.isspace()` for one character: the characters that
      `str.strip()` with no argument removes. */
  predicate IsSpace(c: char) {
    || c == ' ' || c == '\t' || c == '\n' || c == '\r' || c == '\U{000B}' || c == '\U{000C}'
    || ('\U{001C}' <= c <= '\U{001F}')
    || c == '\U{0085}' || c == '\U{00A0}' || c == '\U{1680}'
    || ('\U{2000}' <= c <= '\U{200A}')
    || c == '\U{2028}' || c == '\U{2029}' || c == '\U{202F}' || c == '\U{205F}' || c == '\U{3000}'
  }

  /** `r` is what remains of `s` once every leading whitespace character is dropped. */
  function TrimStart(s: string): (r: string)
    ensures |r| <= |s| && r == s[|s| - |r|..]
    ensures forall i :: 0 <= i < |s| - |r| ==> IsSpace(s[i])
    ensures r == [] || !IsSpace(r[0])
  {
    if |s| > 0 && IsSpace(s[0]) then TrimStart(s[1..]) else s
  }

  /** `r` is what remains of `s` once every trailing whitespace character is dropped. */
  function TrimEnd(s: string): (r: string)
    ensures |r| <= |s| && r == s[..|r|]
    ensures forall i :: |r| <= i < |s| ==> IsSpace(s[i])
    ensures r == [] || !IsSpace(r[|r| - 1])
  {
    if |s| > 0 && IsSpace(s[|s| - 1]) then TrimEnd(s[..|s| - 1]) else s
  }

  /** Python's `s.strip()`: leading and then trailing whitespace removed, so
      that the result neither starts nor ends with whitespace. `TrimPadded`
      below states exactly what is removed. */
  function Trim(s: string): (r: string)
    ensures |r| <= |s|
    ensures r == [] || (!IsSpace(r[0]) && !IsSpace(r[|r| - 1]))
  {
    var t := TrimStart(s);
    var r := TrimEnd(t);
    assert r == [] || r[0] == t[0];
    r
  }

  /** Leading whitespace in front of a text that does not start with
      whitespace is exactly what `TrimStart` removes. */
  lemma {:induction false} TrimStartPadded(pre: string, x: string)
    requires forall k :: 0 <= k < |pre| ==> IsSpace(pre[k])
    requires x == [] || !IsSpace(x[0])
    ensures TrimStart(pre + x) == x
    decreases |pre|
  {
    if pre == [] {
      assert pre + x == x;
    } else {
      assert (pre + x)[0] == pre[0];
      assert (pre + x)[1..] == pre[1..] + x;
      TrimStartPadded(pre[1..], x);
    }
  }

  /** Trailing whitespace after a text that does not end with whitespace is
      exactly what `TrimEnd` removes. */
  lemma {:induction false} TrimEndPadded(x: string, post: string)
    requires forall k :: 0 <= k < |post| ==> IsSpace(post[k])
    requires x == [] || !IsSpace(x[|x| - 1])
    ensures TrimEnd(x + post) == x
    decreases |post|
  {
    if post == [] {
      assert x + post == x;
    } else {
      var s := x + post;
      assert s[|s| - 1] == post[|post| - 1];
      assert s[..|s| - 1] == x + post[..|post| - 1];
      TrimEndPadded(x, post[..|post| - 1]);
    }
  }

  /** Whitespace around a text without outer whitespace is exactly what
      `strip()` removes. */
  lemma TrimPadded(pre: string, core: string, post: string)
    requires forall k :: 0 <= k < |pre| ==> IsSpace(pre[k])
    requires forall k :: 0 <= k < |post| ==> IsSpace(post[k])
    requires core == [] || (!IsSpace(core[0]) && !IsSpace(core[|core| - 1]))
    ensures Trim(pre + core + post) == core
  {
    var s := pre + core + post;
    if core == [] {
      assert s == (pre + post) + [];
      forall k | 0 <= k < |pre + post| ensures IsSpace((pre + post)[k]) {
        if k >= |pre| { assert (pre + post)[k] == post[k - |pre|]; }
      }
      TrimStartPadded(pre + post, []);
    } else {
      assert s == pre + (core + post);
      TrimStartPadded(pre, core + post);
      TrimEndPadded(core, post);
    }
  }

  /** Python's `str.lower()` on one character, for the ASCII letters. */
  function LowerChar(c: char): char {
    if 'A' <= c <= 'Z' then (c as int + 32) as char else c
  }

  /** Python's `s.lower()`, character by character. */
  function Lower(s: string): (r: string)
    ensures |r| == |s|
    ensures forall i :: 0 <= i < |s| ==> r[i] == LowerChar(s[i])
    ensures forall i :: 0 <= i < |r| ==> !('A' <= r[i] <= 'Z')
    ensures forall i :: 0 <= i < |s| && !('A' <= s[i] <= 'Z') ==> r[i] == s[i]
  {
    seq(|s|, i requires 0 <= i < |s| => LowerChar(s[i]))
  }

  /** Lowering never turns a character into whitespace or back. */
  lemma LowerCharKeepsSpace(c: char)
    ensures IsSpace(LowerChar(c)) <==> IsSpace(c)
  {
  }

  /** `sub` occurs in `s` starting at index `i`. */
  predicate OccursAt(s: string, sub: string, i: nat) {
    i + |sub| <= |s| && s[i..i + |sub|] == sub
  }

  /** Python's `sub in s` for strings. */
  predicate Contains(s: string, sub: string)
    ensures Contains(s, sub) ==> |sub| <= |s|
    ensures sub == [] ==> Contains(s, sub)
    ensures s == sub ==> Contains(s, sub)
  {
    assert OccursAt(s, sub, 0) <== sub == [] || s == sub;
    exists i: nat | i <= |s| :: OccursAt(s, sub, i)
  }

  /** Python's `s.startswith(prefix)`. */
  predicate StartsWith(s: string, prefix: string) {
    |prefix| <= |s| && s[..|prefix|] == prefix
  }

  /** A prefix is in particular a substring. */
  lemma StartsWithContains(s: string, prefix: string)
    requires StartsWith(s, prefix)
    ensures Contains(s, prefix)
  {
    assert OccursAt(s, prefix, 0);
  }

  /** A string lacking the first character of a non-empty pattern cannot contain it. */
  lemma MissingFirstCharNotContains(s: string, sub: string)
    requires |sub| > 0 && sub[0] !in s
    ensures !Contains(s, sub)
  {
  }

  /** Python's `sep.join(xs)` for a one-character separator. */
  function Join(xs: seq<string>, sep: char): (r: string)
    ensures |xs| == 0 ==> r == ""
    ensures |xs| == 1 ==> r == xs[0]
    ensures |xs| > 1 ==> StartsWith(r, xs[0] + [sep])
    decreases |xs|
  {
    if |xs| == 0 then ""
    else if |xs| == 1 then xs[0]
    else
      var rest := Join(xs[1..], sep);
      assert (xs[0] + [sep] + rest)[..|xs[0]| + 1] == xs[0] + [sep];
      xs[0] + [sep] + rest
  }

  /** The index of the first occurrence of `c` in `s`, or `|s|` when there is none. */
  function IndexOf(s: string, c: char): (k: nat)
    ensures k <= |s|
    ensures k < |s| ==> s[k] == c
    ensures forall i :: 0 <= i < k ==> s[i] != c
    ensures k == |s| <==> c !in s
  {
    if |s| == 0 then 0
    else if s[0] == c then 0
    else 1 + IndexOf(s[1..], c)
  }

  /** Python's `s.split(sep)` for a one-character separator. */
  function Split(s: string, sep: char): (parts: seq<string>)
    ensures |parts| > 0
    decreases |s|
  {
    var k := IndexOf(s, sep);
    if k == |s| then [s] else [s[..k]] + Split(s[k + 1..], sep)
  }

  /** The first separator after a piece free of separators is the one
      right after it. */
  lemma {:induction false} IndexOfAfterPiece(x: string, sep: char, rest: string)
    requires sep !in x
    ensures IndexOf(x + [sep] + rest, sep) == |x|
    decreases |x|
  {
    var s := x + [sep] + rest;
    if x == [] {
      assert s[0] == sep;
    } else {
      assert s[0] == x[0];
      assert s[1..] == x[1..] + [sep] + rest;
      IndexOfAfterPiece(x[1..], sep, rest);
    }
  }

  /** Splitting a separator-free piece followed by a separator yields that
      piece, then the split of what follows. */
  lemma SplitAfterPiece(x: string, sep: char, rest: string)
    requires sep !in x
    ensures Split(x + [sep] + rest, sep) == [x] + Split(rest, sep)
  {
    var s := x + [sep] + rest;
    IndexOfAfterPiece(x, sep, rest);
    assert s[..|x|] == x;
    assert s[|x| + 1..] == rest;
  }

  /** Joining pieces that do not contain the separator can be undone by splitting. */
  lemma {:induction false} SplitJoin(xs: seq<string>, sep: char)
    requires |xs| > 0
    requires forall i :: 0 <= i < |xs| ==> sep !in xs[i]
    ensures Split(Join(xs, sep), sep) == xs
    decreases |xs|
  {
    if |xs| > 1 {
      var tail := xs[1..];
      var rest := Join(tail, sep);
      assert Join(xs, sep) == xs[0] + [sep] + rest;
      SplitAfterPiece(xs[0], sep, rest);
      forall i | 0 <= i < |tail| ensures sep !in tail[i] {
        assert tail[i] == xs[i + 1];
      }
      SplitJoin(tail, sep);
      assert xs == [xs[0]] + tail;
    }
  }
}
