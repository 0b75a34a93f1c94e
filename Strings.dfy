/** The parts of Python's `str` API that the core relies on: `strip`, `lower`,
    `split`, `join`, `replace`, `in`, `startswith` and integer formatting.
    Case conversion and the character classes are ASCII-only. */
module Strings {

  /** Python's `str.isspace()` for one character: what `strip()` removes and what `\s` matches. */
  predicate IsSpace(c: char) {
    c == ' ' || '\t' <= c <= '\r' || '\U{1c}' <= c <= '\U{1f}' || c == '\U{85}' || c == '\U{a0}'
    || c == '\U{1680}' || '\U{2000}' <= c <= '\U{200a}' || c == '\U{2028}' || c == '\U{2029}'
    || c == '\U{202f}' || c == '\U{205f}' || c == '\U{3000}'
  }

  predicate IsUpper(c: char) { 'A' <= c <= 'Z' }
  predicate IsLower(c: char) { 'a' <= c <= 'z' }
  predicate IsDigit(c: char) { '0' <= c <= '9' }
  predicate IsAlnum(c: char) { IsUpper(c) || IsLower(c) || IsDigit(c) }

  function LowerChar(c: char): (d: char)
    ensures !IsUpper(d)
    ensures IsUpper(c) ==> IsLower(d)
    ensures !IsUpper(c) ==> d == c
  {
    if IsUpper(c) then (c as int - 'A' as int + 'a' as int) as char else c
  }

  /** `s.lower()` */
  function Lower(s: string): (r: string)
    ensures |r| == |s|
    ensures forall i :: 0 <= i < |s| ==> r[i] == LowerChar(s[i])
  {
    seq(|s|, i requires 0 <= i < |s| => LowerChar(s[i]))
  }

  predicate StartsWith(s: string, prefix: string) {
    |prefix| <= |s| && s[..|prefix|] == prefix
  }

  /** Python's `sub in s`: `sub` occurs at the front of `s` or further on. */
  predicate Contains(s: string, sub: string)
    decreases |s|
  {
    StartsWith(s, sub) || (|s| > 0 && Contains(s[1..], sub))
  }

  lemma {:induction false} ContainsLength(s: string, sub: string)
    requires Contains(s, sub)
    ensures |sub| <= |s|
    decreases |s|
  {
    if !StartsWith(s, sub) {
      ContainsLength(s[1..], sub);
    }
  }

  /** An occurrence at position `i` makes `sub in s` true. */
  lemma {:induction false} ContainsAt(s: string, sub: string, i: nat)
    requires i + |sub| <= |s| && s[i..i + |sub|] == sub
    ensures Contains(s, sub)
    decreases i
  {
    if i > 0 {
      assert s[1..][i - 1..i - 1 + |sub|] == sub;
      ContainsAt(s[1..], sub, i - 1);
    }
  }

  /** `sub in s` names a position where `sub` occurs. */
  lemma {:induction false} ContainsWitness(s: string, sub: string) returns (i: nat)
    requires Contains(s, sub)
    ensures i + |sub| <= |s| && s[i..i + |sub|] == sub
    decreases |s|
  {
    if StartsWith(s, sub) {
      i := 0;
    } else {
      var j := ContainsWitness(s[1..], sub);
      assert s[j + 1..j + 1 + |sub|] == s[1..][j..j + |sub|];
      i := j + 1;
    }
  }

  /** The middle of a concatenation occurs in it. */
  lemma ContainsInfix(a: string, b: string, c: string)
    ensures StartsWith(a + b + c, a + b)
    ensures Contains(a + b + c, b)
  {
    assert (a + b + c)[|a|..|a| + |b|] == b;
    ContainsAt(a + b + c, b, |a|);
  }

  /** What occurs in the second half of a concatenation occurs in the whole. */
  lemma ContainsSuffix(a: string, b: string, sub: string)
    ensures Contains(b, sub) ==> Contains(a + b, sub)
  {
    assert (a + b)[|a|..|a + b|] == b;
    ContainsSlice(a + b, |a|, |a + b|, sub);
  }

  /** `sub` occurs in `[c] + x` at the front or within `x`. */
  lemma ContainsCons(c: char, x: string, sub: string)
    ensures Contains([c] + x, sub) <==> StartsWith([c] + x, sub) || Contains(x, sub)
  {
    assert ([c] + x)[1..] == x;
  }

  /** A string shorter than `sub` does not contain it. */
  lemma NotContainsShort(s: string, sub: string)
    requires |s| < |sub|
    ensures !Contains(s, sub)
  {
    if Contains(s, sub) {
      ContainsLength(s, sub);
    }
  }

  /** What occurs inside a slice occurs in the whole string. */
  lemma ContainsSlice(s: string, lo: nat, hi: nat, sub: string)
    requires lo <= hi <= |s|
    ensures Contains(s[lo..hi], sub) ==> Contains(s, sub)
  {
    if Contains(s[lo..hi], sub) {
      var i := ContainsWitness(s[lo..hi], sub);
      var whole, part := s[lo + i..lo + i + |sub|], s[lo..hi][i..i + |sub|];
      forall k | 0 <= k < |sub| ensures whole[k] == part[k] { }
      assert whole == part;
      ContainsAt(s, sub, lo + i);
    }
  }

  /** `xs` is `ys` with some elements left out, the rest in their order. */
  predicate IsSubsequence<T(==)>(xs: seq<T>, ys: seq<T>)
    decreases |ys|
  {
    xs == [] || (ys != [] && if xs[0] == ys[0] then IsSubsequence(xs[1..], ys[1..]) else IsSubsequence(xs, ys[1..]))
  }

  /** The characters of `s` that satisfy `p`, in order. */
  function Filter(s: string, p: char -> bool): string
    decreases |s|
  {
    if s == [] then [] else (if p(s[0]) then [s[0]] else []) + Filter(s[1..], p)
  }

  /** What `Filter` keeps is a subsequence of `s` made of characters satisfying `p`, each
      as often as `s` holds it. */
  lemma {:induction false} FilterKeeps(s: string, p: char -> bool)
    ensures forall i :: 0 <= i < |Filter(s, p)| ==> p(Filter(s, p)[i])
    ensures IsSubsequence(Filter(s, p), s)
    ensures forall c :: p(c) ==> multiset(Filter(s, p))[c] == multiset(s)[c]
    decreases |s|
  {
    if s != [] {
      var rest := Filter(s[1..], p);
      FilterKeeps(s[1..], p);
      assert s == [s[0]] + s[1..];
      if p(s[0]) {
        assert Filter(s, p) == [s[0]] + rest;
        assert ([s[0]] + rest)[1..] == rest;
      } else {
        assert Filter(s, p) == rest;
        assert rest != [] ==> rest[0] != s[0];
      }
    }
  }

  lemma {:induction false} FilterConcat(a: string, b: string, p: char -> bool)
    ensures Filter(a + b, p) == Filter(a, p) + Filter(b, p)
    decreases |a|
  {
    if a == [] {
      assert a + b == b;
    } else {
      var head := if p(a[0]) then [a[0]] else [];
      FilterConcat(a[1..], b, p);
      assert (a + b)[0] == a[0];
      assert (a + b)[1..] == a[1..] + b;
      assert Filter(a + b, p) == head + (Filter(a[1..], p) + Filter(b, p));
      assert head + (Filter(a[1..], p) + Filter(b, p)) == (head + Filter(a[1..], p)) + Filter(b, p);
    }
  }

  lemma {:induction false} FilterNone(s: string, p: char -> bool)
    requires forall i :: 0 <= i < |s| ==> !p(s[i])
    ensures Filter(s, p) == []
    decreases |s|
  {
    if s != [] {
      FilterNone(s[1..], p);
    }
  }

  /** Cutting off ends that hold no character satisfying `p` keeps the filtered characters. */
  lemma {:induction false} FilterSlice(s: string, lo: nat, hi: nat, p: char -> bool)
    requires lo <= hi <= |s|
    requires forall i :: 0 <= i < lo || hi <= i < |s| ==> !p(s[i])
    ensures Filter(s[lo..hi], p) == Filter(s, p)
  {
    var front, mid, back := s[..lo], s[lo..hi], s[hi..];
    assert Filter(front, p) == [] by {
      assert forall i :: 0 <= i < |front| ==> front[i] == s[i];
      FilterNone(front, p);
    }
    assert Filter(s[lo..], p) == Filter(mid, p) by {
      assert forall i :: 0 <= i < |back| ==> back[i] == s[hi + i];
      FilterNone(back, p);
      assert s[lo..] == mid + back;
      FilterConcat(mid, back, p);
    }
    assert s == front + s[lo..];
    FilterConcat(front, s[lo..], p);
  }

  /** Filtering with a weaker test first changes nothing. */
  lemma {:induction false} FilterFilter(s: string, p: char -> bool, q: char -> bool)
    requires forall c :: p(c) ==> q(c)
    ensures Filter(Filter(s, q), p) == Filter(s, p)
    decreases |s|
  {
    if s != [] {
      var rest := Filter(s[1..], q);
      FilterFilter(s[1..], p, q);
      if q(s[0]) {
        assert Filter(s, q) == [s[0]] + rest;
        assert ([s[0]] + rest)[1..] == rest;
      } else {
        assert Filter(s, q) == rest;
      }
    }
  }

  /** How many leading characters satisfy `drop`. */
  function Leading(s: string, drop: char -> bool): (n: nat)
    ensures n <= |s|
    ensures forall i :: 0 <= i < n ==> drop(s[i])
    ensures n < |s| ==> !drop(s[n])
    decreases |s|
  {
    if s != [] && drop(s[0]) then 1 + Leading(s[1..], drop) else 0
  }

  /** How many trailing characters satisfy `drop`. */
  function Trailing(s: string, drop: char -> bool): (n: nat)
    ensures n <= |s|
    ensures forall i :: |s| - n <= i < |s| ==> drop(s[i])
    ensures n < |s| ==> !drop(s[|s| - n - 1])
    decreases |s|
  {
    if s != [] && drop(s[|s| - 1]) then 1 + Trailing(s[..|s| - 1], drop) else 0
  }

  /** Drops the leading characters that satisfy `drop`. */
  function TrimStart(s: string, drop: char -> bool): (r: string)
    ensures |r| <= |s| && r == s[|s| - |r|..]
    ensures r == [] || !drop(r[0])
    ensures forall i :: 0 <= i < |s| - |r| ==> drop(s[i])
  {
    s[Leading(s, drop)..]
  }

  /** Where the slice that `Strip` keeps begins. */
  function StripFrom(s: string): (lo: nat)
    ensures lo <= |s|
  {
    Leading(s, IsSpace)
  }

  /** Where the slice that `Strip` keeps ends. */
  function StripTo(s: string): (hi: nat)
    ensures StripFrom(s) <= hi <= |s|
  {
    |s| - Trailing(s[StripFrom(s)..], IsSpace)
  }

  /** `s.strip()`: the slice of `s` between `StripFrom(s)` and `StripTo(s)`, with no whitespace at
      either end, and only whitespace cut off. */
  function Strip(s: string): (r: string)
    ensures forall i :: 0 <= i < StripFrom(s) ==> IsSpace(s[i])
    ensures forall i :: StripTo(s) <= i < |s| ==> IsSpace(s[i])
    ensures r == [] || (!IsSpace(r[0]) && !IsSpace(r[|r| - 1]))
  {
    var lo, hi := StripFrom(s), StripTo(s);
    var t := s[lo..];
    forall i | hi <= i < |s| ensures IsSpace(s[i]) {
      assert s[i] == t[i - lo];
    }
    s[lo..hi]
  }

  /** The bounds of the slice that `Strip` keeps. */
  lemma StripSlice(s: string) returns (lo: nat, hi: nat)
    ensures lo == StripFrom(s) && hi == StripTo(s) && hi == lo + |Strip(s)|
    ensures lo <= hi <= |s| && Strip(s) == s[lo..hi]
  {
    lo, hi := StripFrom(s), StripTo(s);
  }

  /** The test `d == c`, as a function value. */
  function IsChar(c: char): char -> bool {
    d => d == c
  }

  /** Where `s.strip(c)` starts: after the copies of `c` at the front. */
  function StripCharFrom(s: string, c: char): (lo: nat)
    ensures lo <= |s|
  {
    Leading(s, IsChar(c))
  }

  /** Where `s.strip(c)` ends: before the copies of `c` at the back. */
  function StripCharTo(s: string, c: char): (hi: nat)
    ensures StripCharFrom(s, c) <= hi <= |s|
  {
    |s| - Trailing(s[StripCharFrom(s, c)..], IsChar(c))
  }

  /** `s.strip(c)` for a single character `c`: what is cut from either end is only `c`,
      and what is kept neither starts nor ends with `c`. */
  function StripChar(s: string, c: char): (r: string)
    ensures forall i :: 0 <= i < StripCharFrom(s, c) ==> s[i] == c
    ensures forall i :: StripCharTo(s, c) <= i < |s| ==> s[i] == c
    ensures r == [] || (r[0] != c && r[|r| - 1] != c)
  {
    var lo, hi := StripCharFrom(s, c), StripCharTo(s, c);
    var t := s[lo..];
    assert hi < |s| ==> s[hi] == t[hi - lo];
    forall i | hi <= i < |s| ensures s[i] == c {
      assert s[i] == t[i - lo];
    }
    s[lo..hi]
  }

  /** The bounds of the slice that `StripChar` keeps. */
  lemma StripCharSlice(s: string, c: char) returns (lo: nat, hi: nat)
    ensures lo == StripCharFrom(s, c) && hi == StripCharTo(s, c)
    ensures lo <= hi <= |s| && StripChar(s, c) == s[lo..hi]
  {
    lo, hi := StripCharFrom(s, c), StripCharTo(s, c);
  }

  /** Each string stripped, in order. */
  function StripEach(xs: seq<string>): (r: seq<string>)
    ensures |r| == |xs| && forall i :: 0 <= i < |xs| ==> r[i] == Strip(xs[i])
  {
    seq(|xs|, i requires 0 <= i < |xs| => Strip(xs[i]))
  }

  /** Stripping twice strips nothing more. */
  lemma StripIdempotent(s: string)
    ensures Strip(Strip(s)) == Strip(s)
  {
    var r := Strip(s);
    if r != [] {
      assert StripFrom(r) == 0;
      assert r[0..] == r;
    }
  }

  /** A string that is all whitespace strips to nothing. */
  lemma StripAllSpace(s: string)
    requires forall i :: 0 <= i < |s| ==> IsSpace(s[i])
    ensures Strip(s) == []
  {
  }

  /** `s.replace(pat, rep)`: non-overlapping occurrences, scanned from the left. */
  function Replace(s: string, pat: string, rep: string): (r: string)
    requires |pat| > 0
    decreases |s|
  {
    if |s| < |pat| then s
    else if s[..|pat|] == pat then rep + Replace(s[|pat|..], pat, rep)
    else [s[0]] + Replace(s[1..], pat, rep)
  }

  /** The first character after a replacement: the first character of `rep`
      when `s` starts with `pat`, otherwise the first character of `s`. */
  lemma ReplaceHead(s: string, pat: string, rep: string)
    requires |pat| > 0 && |s| > 0
    requires StartsWith(s, pat) ==> |rep| > 0
    ensures |Replace(s, pat, rep)| > 0
    ensures Replace(s, pat, rep)[0] == if StartsWith(s, pat) then rep[0] else s[0]
  {
  }

  /** A character that neither `s` nor `rep` holds is absent after replacing. */
  lemma {:induction false} ReplaceKeepsOut(s: string, pat: string, rep: string, c: char)
    requires |pat| > 0 && c !in s && c !in rep
    ensures c !in Replace(s, pat, rep)
    decreases |s|
  {
    if |s| < |pat| {
    } else if s[..|pat|] == pat {
      ReplaceKeepsOut(s[|pat|..], pat, rep, c);
    } else {
      ReplaceKeepsOut(s[1..], pat, rep, c);
    }
  }

  /** Every character of a replacement's result comes from `s` or from `rep`. */
  lemma {:induction false} ReplaceChars(s: string, pat: string, rep: string)
    requires |pat| > 0
    ensures forall c :: c in Replace(s, pat, rep) ==> c in s || c in rep
    decreases |s|
  {
    if |s| < |pat| {
    } else if s[..|pat|] == pat {
      ReplaceChars(s[|pat|..], pat, rep);
      assert forall c :: c in s[|pat|..] ==> c in s;
    } else {
      ReplaceChars(s[1..], pat, rep);
      assert forall c :: c in s[1..] ==> c in s;
    }
  }

  /** Replacing a present pattern by a shorter one shortens the string. */
  lemma {:induction false} ReplaceShrinks(s: string, pat: string, rep: string)
    requires |pat| > 0 && |rep| < |pat|
    ensures |Replace(s, pat, rep)| <= |s|
    ensures Contains(s, pat) ==> |Replace(s, pat, rep)| < |s|
    decreases |s|
  {
    if |s| < |pat| {
      if Contains(s, pat) {
        ContainsLength(s, pat);
      }
    } else if s[..|pat|] == pat {
      ReplaceShrinks(s[|pat|..], pat, rep);
    } else {
      ReplaceShrinks(s[1..], pat, rep);
    }
  }

  /** Replacing a pattern by a text when neither holds a character satisfying `p`
      keeps the filtered characters. */
  lemma {:induction false} FilterReplace(s: string, pat: string, rep: string, p: char -> bool)
    requires |pat| > 0 && Filter(pat, p) == [] && Filter(rep, p) == []
    ensures Filter(Replace(s, pat, rep), p) == Filter(s, p)
    decreases |s|
  {
    if |s| < |pat| {
    } else if s[..|pat|] == pat {
      var rest := Replace(s[|pat|..], pat, rep);
      FilterReplace(s[|pat|..], pat, rep, p);
      FilterConcat(rep, rest, p);
      assert s == pat + s[|pat|..];
      FilterConcat(pat, s[|pat|..], p);
    } else {
      var rest := Replace(s[1..], pat, rep);
      FilterReplace(s[1..], pat, rep, p);
      FilterConcat([s[0]], rest, p);
      assert s == [s[0]] + s[1..];
      FilterConcat([s[0]], s[1..], p);
    }
  }

  /** Index of the first `c` in `s`. */
  function IndexOf(s: string, c: char): (i: nat)
    requires c in s
    ensures i < |s| && s[i] == c && c !in s[..i]
  {
    if s[0] == c then 0 else 1 + IndexOf(s[1..], c)
  }

  /** The first separator after a separator-free prefix is the one that ends it. */
  lemma {:induction false} IndexOfAfter(p: string, sep: char, rest: string)
    requires sep !in p
    ensures IndexOf(p + [sep] + rest, sep) == |p|
    decreases |p|
  {
    if p != [] {
      assert (p + [sep] + rest)[1..] == p[1..] + [sep] + rest;
      IndexOfAfter(p[1..], sep, rest);
    }
  }

  /** `s.split(sep)` for a one-character separator: at least one piece, none holding `sep`. */
  function Split(s: string, sep: char): (parts: seq<string>)
    ensures |parts| >= 1
    ensures forall k :: 0 <= k < |parts| ==> sep !in parts[k]
    decreases |s|
  {
    if sep !in s then [s]
    else
      var i := IndexOf(s, sep);
      [s[..i]] + Split(s[i + 1..], sep)
  }

  /** `sep.join(parts)` */
  function Join(parts: seq<string>, sep: string): string {
    if |parts| == 0 then ""
    else if |parts| == 1 then parts[0]
    else parts[0] + sep + Join(parts[1..], sep)
  }

  /** `sep.join` of two pieces. */
  lemma JoinTwo(a: string, b: string, sep: string)
    ensures Join([a, b], sep) == a + sep + b
  {
    assert [a, b][1..] == [b];
  }

  /** `sep.join` of three pieces. */
  lemma JoinThree(a: string, b: string, c: string, sep: string)
    ensures Join([a, b, c], sep) == a + sep + b + sep + c
  {
    assert [a, b, c][1..] == [b, c];
    JoinTwo(b, c, sep);
  }

  /** A join opens with its first piece. */
  lemma JoinStartsWith(parts: seq<string>, sep: string, prefix: string)
    requires |parts| >= 1 && StartsWith(parts[0], prefix)
    ensures StartsWith(Join(parts, sep), prefix)
  {
    if |parts| > 1 {
      var rest := sep + Join(parts[1..], sep);
      assert Join(parts, sep) == parts[0] + rest;
      assert (parts[0] + rest)[..|prefix|] == parts[0][..|prefix|];
    }
  }

  /** Every piece of a join occurs in it. */
  lemma {:induction false} JoinContains(parts: seq<string>, sep: string, j: nat)
    requires j < |parts|
    ensures Contains(Join(parts, sep), parts[j])
    decreases j
  {
    if j == 0 {
      JoinStartsWith(parts, sep, parts[0]);
    } else {
      JoinContains(parts[1..], sep, j - 1);
      ContainsSuffix(parts[0] + sep, Join(parts[1..], sep), parts[j]);
      assert Join(parts, sep) == parts[0] + sep + Join(parts[1..], sep);
    }
  }

  /** Both halves of a concatenation, read back by slicing. */
  lemma Ends(a: string, b: string)
    ensures StartsWith(a + b, a)
    ensures (a + b)[..|a|] == a && (a + b)[|a|..] == b
  {
  }

  /** Joining the pieces of a split with the separator gives the string back. */
  lemma {:induction false} JoinSplit(s: string, sep: char)
    ensures Join(Split(s, sep), [sep]) == s
    decreases |s|
  {
    if sep in s {
      var i := IndexOf(s, sep);
      var head, tail := s[..i], s[i + 1..];
      var rest := Split(tail, sep);
      JoinSplit(tail, sep);
      var parts := [head] + rest;
      assert Split(s, sep) == parts;
      assert parts[1..] == rest;
      assert Join(parts, [sep]) == head + [sep] + Join(rest, [sep]);
      assert s == head + [sep] + tail;
    }
  }

  /** Splitting a join of separator-free pieces gives the pieces back. */
  lemma {:induction false} SplitJoin(parts: seq<string>, sep: char)
    requires |parts| >= 1
    requires forall k :: 0 <= k < |parts| ==> sep !in parts[k]
    ensures Split(Join(parts, [sep]), sep) == parts
    decreases |parts|
  {
    if |parts| > 1 {
      var head, tail := parts[0], Join(parts[1..], [sep]);
      var s := head + [sep] + tail;
      assert Join(parts, [sep]) == s;
      assert s[|head|] == sep;
      IndexOfAfter(head, sep, tail);
      assert s[..|head|] == head;
      assert s[|head| + 1..] == tail;
      assert Split(s, sep) == [head] + Split(tail, sep);
      SplitJoin(parts[1..], sep);
      assert parts == [head] + parts[1..];
    }
  }

  /** Number of pieces in a join of separator-free pieces, read back by splitting. */
  lemma JoinLineCount(parts: seq<string>, sep: char)
    requires |parts| >= 1
    requires forall k :: 0 <= k < |parts| ==> sep !in parts[k]
    ensures |Split(Join(parts, [sep]), sep)| == |parts|
  {
    SplitJoin(parts, sep);
  }

  function DigitChar(d: nat): (c: char)
    requires d < 10
    ensures IsDigit(c)
  {
    ('0' as int + d) as char
  }

  /** The number that a string of decimal digits spells. */
  function DecimalValue(s: string): nat
    requires forall i :: 0 <= i < |s| ==> IsDigit(s[i])
  {
    if s == [] then 0
    else
      var d := s[|s| - 1];
      assert IsDigit(d);
      DecimalValue(s[..|s| - 1]) * 10 + (d as int - '0' as int)
  }

  /** Python's `str(n)` for a natural number: decimal digits, no leading zero, spelling `n`. */
  function NatToString(n: nat): (r: string)
    ensures |r| >= 1
    ensures forall i :: 0 <= i < |r| ==> IsDigit(r[i])
    ensures |r| > 1 ==> r[0] != '0'
    ensures DecimalValue(r) == n
  {
    if n < 10 then [DigitChar(n)]
    else
      var head := NatToString(n / 10);
      var r := head + [DigitChar(n % 10)];
      assert r[..|r| - 1] == head;
      r
  }

  /** Different numbers are spelled differently. */
  lemma NatToStringInjective(m: nat, n: nat)
    ensures NatToString(m) == NatToString(n) ==> m == n
  {
  }

  /** Python's `str(i)` for an integer. */
  function IntToString(i: int): (r: string)
    ensures |r| >= 1
    ensures i < 0 <==> r[0] == '-'
  {
    if i < 0 then "-" + NatToString(-i) else NatToString(i)
  }

  /** Right-aligns `s` in a field of `width` characters, as `format(x, "3d")` does; longer strings are kept whole. */
  function PadLeft(s: string, width: nat): (r: string)
    ensures |r| == if |s| < width then width else |s|
    ensures r[|r| - |s|..] == s
    ensures forall i :: 0 <= i < |r| - |s| ==> r[i] == ' '
    ensures forall c :: c in r ==> c in s || c == ' '
  {
    if |s| < width then seq(width - |s|, _ => ' ') + s else s
  }
}
