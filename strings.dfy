/** The string and collection built-ins the terminal controller relies on:
    String.prototype.trim, ASCII case mapping, Array.prototype.join with "\n",
    and the iteration order of a Set built from a list. */
module Strings {

  /** The code points ECMAScript calls WhiteSpace or LineTerminator: exactly what
      String.prototype.trim strips from both ends. No ASCII letter or digit is one,
      so trimming never eats into a command name made of them. */
  predicate IsSpace(c: char)
    ensures IsSpace(c) ==> !('a' <= c <= 'z' || 'A' <= c <= 'Z' || '0' <= c <= '9')
  {
    c == '\t' || c == '\n' || c == '\U{000B}' || c == '\U{000C}' || c == '\r' || c == ' ' ||
    c == '\U{00A0}' || c == '\U{1680}' || ('\U{2000}' <= c <= '\U{200A}') ||
    c == '\U{2028}' || c == '\U{2029}' || c == '\U{202F}' || c == '\U{205F}' ||
    c == '\U{3000}' || c == '\U{FEFF}'
  }

  /** `s` without its leading whitespace: a suffix of `s` that does not start with
      whitespace, and everything dropped is whitespace. */
  function TrimStart(s: string): (r: string)
    ensures |r| <= |s| && r == s[|s| - |r|..]
    ensures r == [] || !IsSpace(r[0])
    ensures forall k :: 0 <= k < |s| - |r| ==> IsSpace(s[k])
  {
    if s != [] && IsSpace(s[0]) then TrimStart(s[1..]) else s
  }

  /** `s` without its trailing whitespace: a prefix of `s` that does not end with
      whitespace, and everything dropped is whitespace. */
  function TrimEnd(s: string): (r: string)
    ensures |r| <= |s| && r == s[..|r|]
    ensures r == [] || !IsSpace(r[|r| - 1])
    ensures forall k :: |r| <= k < |s| ==> IsSpace(s[k])
  {
    if s != [] && IsSpace(s[|s| - 1]) then TrimEnd(s[..|s| - 1]) else s
  }

  /** String.prototype.trim: a result with no whitespace at either end, empty
      exactly when the input is all whitespace. */
  function Trim(s: string): (r: string)
    ensures |r| <= |s|
    ensures r == [] || (!IsSpace(r[0]) && !IsSpace(r[|r| - 1]))
    ensures r == [] <==> forall k :: 0 <= k < |s| ==> IsSpace(s[k])
  {
    var t := TrimStart(s);
    var r := TrimEnd(t);
    assert r != [] ==> r[0] == t[0] && t[0] == s[|s| - |t|];
    r
  }

  /** Whitespace typed around a word is ignored: trimming `pre + t + post`, where the
      padding is whitespace and `t` is already trimmed, gives back `t`. */
  lemma TrimPadded(pre: string, t: string, post: string)
    requires forall k :: 0 <= k < |pre| ==> IsSpace(pre[k])
    requires forall k :: 0 <= k < |post| ==> IsSpace(post[k])
    requires t == [] || (!IsSpace(t[0]) && !IsSpace(t[|t| - 1]))
    ensures Trim(pre + t + post) == t
  {
    if t == [] {
      assert pre + t + post == pre + post;
      TrimStartSkips(pre, post);
      assert TrimStart(pre + post) == [];
    } else {
      assert pre + t + post == pre + (t + post);
      TrimStartSkips(pre, t + post);
      TrimEndSkips(t, post);
    }
  }

  /** Leading whitespace is dropped up to the first non-space character. */
  lemma {:induction false} TrimStartSkips(pre: string, rest: string)
    requires forall k :: 0 <= k < |pre| ==> IsSpace(pre[k])
    requires rest == [] || !IsSpace(rest[0]) || forall k :: 0 <= k < |rest| ==> IsSpace(rest[k])
    ensures TrimStart(pre + rest) == if rest != [] && !IsSpace(rest[0]) then rest else TrimStart(rest)
  {
    if pre != [] {
      assert (pre + rest)[1..] == pre[1..] + rest;
      TrimStartSkips(pre[1..], rest);
    } else {
      assert pre + rest == rest;
    }
  }

  /** Trailing whitespace is dropped back to the last non-space character. */
  lemma {:induction false} TrimEndSkips(t: string, post: string)
    requires t != [] && !IsSpace(t[|t| - 1])
    requires forall k :: 0 <= k < |post| ==> IsSpace(post[k])
    ensures TrimEnd(t + post) == t
    decreases |post|
  {
    if post == [] {
      assert t + post == t;
    } else {
      assert (t + post)[..|t + post| - 1] == t + post[..|post| - 1];
      TrimEndSkips(t, post[..|post| - 1]);
    }
  }

  /** ASCII toUpperCase of one character. */
  function UpperChar(c: char): char {
    if 'a' <= c <= 'z' then (c as int - 'a' as int + 'A' as int) as char else c
  }

  /** ASCII toLowerCase of one character. */
  function LowerChar(c: char): char {
    if 'A' <= c <= 'Z' then (c as int - 'A' as int + 'a' as int) as char else c
  }

  /** String.prototype.toUpperCase, restricted to ASCII letters. */
  function ToUpper(s: string): (r: string)
    ensures |r| == |s|
  {
    seq(|s|, i requires 0 <= i < |s| => UpperChar(s[i]))
  }

  /** String.prototype.toLowerCase, restricted to ASCII letters. */
  function ToLower(s: string): (r: string)
    ensures |r| == |s|
  {
    seq(|s|, i requires 0 <= i < |s| => LowerChar(s[i]))
  }

  /** Upper-casing leaves no lower-case letter, changes only lower-case letters, and
      each changed letter lower-cases back to the original: it becomes its capital. */
  lemma UpperCased(s: string)
    ensures forall i :: 0 <= i < |s| ==>
      !('a' <= ToUpper(s)[i] <= 'z') && (ToUpper(s)[i] == s[i] || 'a' <= s[i] <= 'z')
    ensures ToLower(ToUpper(s)) == ToLower(s)
  {
  }

  /** Lower-casing leaves no upper-case letter, changes only upper-case letters, and
      each changed letter upper-cases back to the original: it becomes its small letter. */
  lemma LowerCased(s: string)
    ensures forall i :: 0 <= i < |s| ==>
      !('A' <= ToLower(s)[i] <= 'Z') && (ToLower(s)[i] == s[i] || 'A' <= s[i] <= 'Z')
    ensures ToUpper(ToLower(s)) == ToUpper(s)
  {
  }

  /** The key names `toLowerCase` maps to "c" are exactly "c" and "C". */
  lemma LowerIsC(n: string)
    ensures ToLower(n) == "c" <==> n == "c" || n == "C"
  {
    if ToLower(n) == "c" {
      assert |n| == 1 && ToLower(n)[0] == LowerChar(n[0]) == 'c';
      assert n == [n[0]];
    }
    if n == "C" {
      assert ToLower(n)[0] == 'c';
    }
    if n == "c" {
      assert ToLower(n)[0] == 'c';
    }
  }

  /** Array.prototype.join("\n"): no lines join to "", one line joins to itself, and
      the result starts with the first line and ends with the last;
      `JoinLinesAppend` states the "\n" between neighbouring lines. */
  function JoinLines(lines: seq<string>): (r: string)
    ensures lines == [] ==> r == ""
    ensures |lines| == 1 ==> r == lines[0]
    ensures |lines| > 0 ==> |lines[0]| <= |r| && r[..|lines[0]|] == lines[0]
    ensures |lines| > 0 ==> |lines[|lines| - 1]| <= |r| && r[|r| - |lines[|lines| - 1]|..] == lines[|lines| - 1]
    ensures |r| + 1 >= |lines|
  {
    if |lines| == 0 then ""
    else if |lines| == 1 then lines[0]
    else lines[0] + "\n" + JoinLines(lines[1..])
  }

  /** Joining two non-empty lists is joining each and putting one "\n" between:
      every pair of neighbouring lines is separated by exactly one "\n". */
  lemma {:induction false} JoinLinesAppend(a: seq<string>, b: seq<string>)
    requires a != [] && b != []
    ensures JoinLines(a + b) == JoinLines(a) + "\n" + JoinLines(b)
    decreases |a|
  {
    assert (a + b)[0] == a[0] && (a + b)[1..] == a[1..] + b;
    if |a| > 1 {
      JoinLinesAppend(a[1..], b);
      assert JoinLines(a + b) == a[0] + "\n" + (JoinLines(a[1..]) + "\n" + JoinLines(b));
      JoinRegroup(a[0], JoinLines(a[1..]), JoinLines(b));
    }
  }

  /** Solver aid: a string concatenation regrouped. */
  lemma JoinRegroup(x: string, y: string, z: string)
    ensures x + "\n" + (y + "\n" + z) == x + "\n" + y + "\n" + z
  {
  }

  predicate NoDuplicates(xs: seq<string>) {
    forall i, j :: 0 <= i < j < |xs| ==> xs[i] != xs[j]
  }

  /** The elements of `new Set(xs)` in iteration order: every element of `xs` once,
      each at its first occurrence. */
  function Distinct(xs: seq<string>): (r: seq<string>)
    ensures NoDuplicates(r)
    ensures forall x :: x in r <==> x in xs
    decreases |xs|
  {
    if xs == [] then []
    else
      var rest := Distinct(xs[..|xs| - 1]);
      if xs[|xs| - 1] in rest then rest else rest + [xs[|xs| - 1]]
  }

  /** Position of the first occurrence of `x` in `xs`. */
  function FirstIndex(xs: seq<string>, x: string): (i: nat)
    requires x in xs
    ensures i < |xs| && xs[i] == x && x !in xs[..i]
  {
    if xs[0] == x then 0
    else
      assert x in xs[1..];
      var j := FirstIndex(xs[1..], x);
      assert xs[..j + 1] == [xs[0]] + xs[1..][..j];
      j + 1
  }

  /** Solver aid: an index with the defining properties is the first index. */
  lemma FirstIndexIs(xs: seq<string>, x: string, i: nat)
    requires i < |xs| && xs[i] == x && x !in xs[..i]
    ensures FirstIndex(xs, x) == i
  {
  }

  /** A list's first occurrences do not move when something is appended to it. */
  lemma FirstIndexPrefix(xs: seq<string>, y: string, z: string)
    requires y in xs
    ensures y in xs + [z] && FirstIndex(xs + [z], y) == FirstIndex(xs, y)
  {
    var k := FirstIndex(xs, y);
    assert (xs + [z])[..k] == xs[..k];
    FirstIndexIs(xs + [z], y, k);
  }

  /** `new Set(xs)` iterates in first-occurrence order. */
  lemma {:induction false} DistinctKeepsFirstOrder(xs: seq<string>)
    ensures forall i, j :: 0 <= i < j < |Distinct(xs)| ==>
      FirstIndex(xs, Distinct(xs)[i]) < FirstIndex(xs, Distinct(xs)[j])
    decreases |xs|
  {
    if xs != [] {
      var init, last := xs[..|xs| - 1], xs[|xs| - 1];
      assert xs == init + [last];
      var rest := Distinct(init);
      DistinctKeepsFirstOrder(init);
      var r := Distinct(xs);
      assert r == if last in rest then rest else rest + [last];
      forall i, j | 0 <= i < j < |r|
        ensures FirstIndex(xs, r[i]) < FirstIndex(xs, r[j])
      {
        assert r[i] == rest[i] && rest[i] in init;
        FirstIndexPrefix(init, rest[i], last);
        assert FirstIndex(xs, r[i]) == FirstIndex(init, rest[i]);
        if j < |rest| {
          assert r[j] == rest[j] && rest[j] in init;
          FirstIndexPrefix(init, rest[j], last);
          assert FirstIndex(xs, r[j]) == FirstIndex(init, rest[j]);
          assert FirstIndex(init, rest[i]) < FirstIndex(init, rest[j]);
        } else {
          assert r[j] == last && last !in init;
          assert xs[..|init|] == init;
          FirstIndexIs(xs, last, |init|);
        }
      }
    }
  }

  /** A list without repeats gives a Set that iterates in the list's own order. */
  lemma {:induction false} DistinctOfDistinct(xs: seq<string>)
    requires NoDuplicates(xs)
    ensures Distinct(xs) == xs
    decreases |xs|
  {
    if xs != [] {
      var init := xs[..|xs| - 1];
      DistinctOfDistinct(init);
      assert xs[|xs| - 1] !in init;
      assert init + [xs[|xs| - 1]] == xs;
    }
  }
}
