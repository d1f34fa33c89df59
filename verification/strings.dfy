/**
 * Text helpers with the meaning of Python's `str` methods on ASCII text:
 * `isspace`, `lower`, `title`, `find`, `rfind`, `replace`, `split`, `strip`
 * and the `in` test for substrings.
 */
module Strings {
  import opened Wrappers

  /** Python's `str.isspace` restricted to ASCII (also the class `\s` of `re`). */
  predicate IsSpace(c: char) {
    c == ' ' || c == '\t' || c == '\n' || c == '\r' || c == '\U{000B}' || c == '\U{000C}'
    || ('\U{001C}' <= c <= '\U{001F}')
  }

  predicate IsUpper(c: char) { 'A' <= c <= 'Z' }
  predicate IsLower(c: char) { 'a' <= c <= 'z' }
  predicate IsLetter(c: char) { IsUpper(c) || IsLower(c) }
  predicate IsDigit(c: char) { '0' <= c <= '9' }

  function ToLower(c: char): (r: char)
    ensures IsLetter(r) <==> IsLetter(c)
    ensures !IsUpper(r)
  {
    if IsUpper(c) then (c as int + 32) as char else c
  }

  function ToUpper(c: char): (r: char)
    ensures IsLetter(r) <==> IsLetter(c)
    ensures !IsLower(r)
    ensures ToLower(r) == ToLower(c)
  {
    if IsLower(c) then (c as int - 32) as char else c
  }

  /** `s.lower()` */
  function Lower(s: string): (r: string)
    ensures |r| == |s|
    ensures forall i :: 0 <= i < |r| ==> r[i] == ToLower(s[i])
  {
    seq(|s|, i requires 0 <= i < |s| => ToLower(s[i]))
  }

  /** `sub` occurs in `s` starting at index `i`. */
  predicate OccursAt(s: string, sub: string, i: int) {
    0 <= i && i + |sub| <= |s| && s[i..i + |sub|] == sub
  }

  /** Python's `sub in s`. */
  predicate Contains(s: string, sub: string) {
    exists i | 0 <= i <= |s| :: OccursAt(s, sub, i)
  }

  /** `s.title()`: a letter is upper-cased when it does not follow a letter, lower-cased otherwise. */
  function Title(s: string): (r: string)
    ensures |r| == |s|
    ensures forall i :: 0 <= i < |s| ==> ToLower(r[i]) == ToLower(s[i])
    ensures forall i :: 0 <= i < |s| ==> (IsLetter(r[i]) <==> IsLetter(s[i]))
    ensures forall i :: 0 <= i < |s| && !IsLetter(s[i]) ==> r[i] == s[i]
    ensures |s| > 0 && IsLetter(s[0]) ==> IsUpper(r[0])
    ensures forall i :: 0 < i < |s| && IsLetter(s[i]) ==> (IsUpper(r[i]) <==> !IsLetter(s[i - 1]))
  {
    seq(|s|, i requires 0 <= i < |s| =>
      if !IsLetter(s[i]) then s[i]
      else if i == 0 || !IsLetter(s[i - 1]) then ToUpper(s[i])
      else ToLower(s[i]))
  }

  /** Title-casing a title-cased text changes nothing. */
  lemma TitleIdempotent(s: string)
    ensures Title(Title(s)) == Title(s)
  {
    var t := Title(s);
    forall i | 0 <= i < |s| ensures Title(t)[i] == t[i] {
      if IsLetter(s[i]) {
        if i == 0 || !IsLetter(s[i - 1]) {
          assert IsUpper(t[i]);
        } else {
          assert IsLetter(t[i - 1]);
          assert !IsUpper(t[i]) && IsLetter(t[i]);
        }
      }
    }
  }

  /** The first occurrence is the one `Find` reports. */
  lemma {:induction false} FindAt(s: string, c: char, k: nat)
    requires k < |s| && s[k] == c && c !in s[..k]
    ensures Find(s, c) == Some(k)
  {
    if k > 0 {
      assert s[0] == s[..k][0];
      assert s[1..][..k - 1] == s[..k][1..];
      FindAt(s[1..], c, k - 1);
    }
  }

  /** `s.find(c)`, with `None` for Python's -1. */
  function Find(s: string, c: char): (r: Option<nat>)
    ensures r.None? <==> c !in s
    ensures r.Some? ==> r.value < |s| && s[r.value] == c && c !in s[..r.value]
  {
    if s == [] then None
    else if s[0] == c then Some(0)
    else match Find(s[1..], c)
      case None => None
      case Some(k) =>
        assert s[..k + 1] == [s[0]] + s[1..][..k];
        Some(k + 1)
  }

  /** `s.rfind(c)`, with `None` for Python's -1. */
  function RFind(s: string, c: char): (r: Option<nat>)
    ensures r.None? <==> c !in s
    ensures r.Some? ==> r.value < |s| && s[r.value] == c && c !in s[r.value + 1..]
  {
    if s == [] then None
    else if s[|s| - 1] == c then Some(|s| - 1)
    else
      assert s == s[..|s| - 1] + [s[|s| - 1]];
      match RFind(s[..|s| - 1], c)
      case None => None
      case Some(k) =>
        assert s[k + 1..] == s[..|s| - 1][k + 1..] + [s[|s| - 1]];
        Some(k)
  }

  /** `s.split(c)[0]`: the text before the first `c`, or all of `s`. */
  function Before(s: string, c: char): (r: string)
    ensures r <= s
    ensures c !in r
    ensures |r| < |s| ==> s[|r|] == c
  {
    match Find(s, c)
    case None => s
    case Some(k) => s[..k]
  }

  /** `s.replace(pat, rep)`: occurrences are replaced left to right, without overlap. */
  function Replace(s: string, pat: string, rep: string): (r: string)
    requires pat != []
    ensures rep == pat ==> r == s
    ensures |rep| <= |pat| ==> |r| <= |s|
    ensures |rep| >= |pat| ==> |r| >= |s|
    decreases |s|
  {
    if |s| < |pat| then s
    else if s[..|pat|] == pat then rep + Replace(s[|pat|..], pat, rep)
    else [s[0]] + Replace(s[1..], pat, rep)
  }

  /**
   * Replacing the character `d` leaves no `c` behind when the replacement holds none and
   * `c` is either `d` itself or absent from the text.
   */
  lemma {:induction false} ReplaceCharFree(s: string, d: char, rep: string, c: char)
    requires (c !in s || c == d) && c !in rep
    ensures c !in Replace(s, [d], rep)
    decreases |s|
  {
    if |s| >= 1 {
      ReplaceCharFree(s[1..], d, rep, c);
      if s[..1] != [d] {
        assert s[0] != d;
      }
    }
  }

  /** Replacing a text that does not occur changes nothing. */
  lemma {:induction false} ReplaceAbsent(s: string, pat: string, rep: string)
    requires pat != [] && !Contains(s, pat)
    ensures Replace(s, pat, rep) == s
    decreases |s|
  {
    if |s| >= |pat| {
      assert s[0..0 + |pat|] == s[..|pat|];
      assert !OccursAt(s, pat, 0);
      forall i | 0 <= i <= |s[1..]| ensures !OccursAt(s[1..], pat, i) {
        assert !OccursAt(s, pat, i + 1);
        if i + |pat| <= |s[1..]| {
          SliceOfSuffix(s, 1, i, i + |pat|);
        }
      }
      ReplaceAbsent(s[1..], pat, rep);
      assert s == [s[0]] + s[1..];
    }
  }

  /** Replacing one character works piece by piece across a concatenation. */
  lemma {:induction false} ReplaceCharAppend(a: string, b: string, c: char, rep: string)
    ensures Replace(a + b, [c], rep) == Replace(a, [c], rep) + Replace(b, [c], rep)
    decreases |a|
  {
    if a != [] {
      assert (a + b)[1..] == a[1..] + b;
      assert (a + b)[..1] == a[..1];
      ReplaceCharAppend(a[1..], b, c, rep);
    } else {
      assert a + b == b;
    }
  }

  /** After replacing a character by a text without it, the character is gone. */
  lemma {:induction false} ReplaceCharRemoves(s: string, c: char, rep: string)
    requires c !in rep
    ensures c !in Replace(s, [c], rep)
    decreases |s|
  {
    if s != [] {
      ReplaceCharRemoves(s[1..], c, rep);
    }
  }

  predicate AllSpace(s: string) {
    forall i :: 0 <= i < |s| ==> IsSpace(s[i])
  }

  predicate NoSpace(s: string) {
    forall i :: 0 <= i < |s| ==> !IsSpace(s[i])
  }

  /** The longest prefix of `s` without whitespace. */
  function Word(s: string): (w: string)
    ensures w <= s && NoSpace(w)
    ensures |w| < |s| ==> IsSpace(s[|w|])
    ensures s != [] && !IsSpace(s[0]) ==> |w| >= 1
  {
    if s == [] || IsSpace(s[0]) then [] else [s[0]] + Word(s[1..])
  }

  /** `s.split()`: the maximal runs of non-whitespace characters, in order. */
  function Split(s: string): (words: seq<string>)
    ensures forall k :: 0 <= k < |words| ==> words[k] != [] && NoSpace(words[k])
    decreases |s|
  {
    if s == [] then []
    else if IsSpace(s[0]) then Split(s[1..])
    else
      var w := Word(s);
      [w] + Split(s[|w|..])
  }

  /** `sep.join(words)` */
  function Join(words: seq<string>, sep: string): string {
    if words == [] then []
    else if |words| == 1 then words[0]
    else words[0] + sep + Join(words[1..], sep)
  }

  lemma {:induction false} WordStopsAtSpace(a: string, t: string)
    requires t != [] && IsSpace(t[0])
    ensures Word(a + t) == Word(a)
    decreases |a|
  {
    if a == [] {
      assert a + t == t;
    } else if !IsSpace(a[0]) {
      assert (a + t)[1..] == a[1..] + t;
      WordStopsAtSpace(a[1..], t);
    }
  }

  lemma {:induction false} SplitSkipsSpace(sp: string, b: string)
    requires AllSpace(sp)
    ensures Split(sp + b) == Split(b)
    decreases |sp|
  {
    if sp == [] {
      assert sp + b == b;
    } else {
      assert (sp + b)[1..] == sp[1..] + b;
      SplitSkipsSpace(sp[1..], b);
    }
  }

  /** Whitespace separates: splitting `a + sep + b` splits `a` and `b` apart. */
  lemma {:induction false} SplitAround(a: string, sep: string, b: string)
    requires sep != [] && AllSpace(sep)
    ensures Split(a + sep + b) == Split(a) + Split(b)
    decreases |a|
  {
    var s := a + sep + b;
    if a == [] {
      assert s == sep + b;
      SplitSkipsSpace(sep, b);
    } else if IsSpace(a[0]) {
      assert s[1..] == a[1..] + sep + b;
      SplitAround(a[1..], sep, b);
    } else {
      assert s == a + (sep + b);
      WordStopsAtSpace(a, sep + b);
      var w := Word(a);
      assert s[|w|..] == a[|w|..] + sep + b;
      SplitAround(a[|w|..], sep, b);
    }
  }

  /** A word without whitespace splits into itself. */
  lemma {:induction false} SplitWord(w: string)
    requires w != [] && NoSpace(w)
    ensures Split(w) == [w]
  {
    WordWhole(w);
  }

  lemma {:induction false} WordWhole(w: string)
    requires NoSpace(w)
    ensures Word(w) == w
    decreases |w|
  {
    if w != [] {
      WordWhole(w[1..]);
    }
  }

  /** Round trip: splitting words joined by single spaces gives the words back. */
  lemma {:induction false} SplitJoin(words: seq<string>)
    requires forall k :: 0 <= k < |words| ==> words[k] != [] && NoSpace(words[k])
    ensures Split(Join(words, " ")) == words
    decreases |words|
  {
    if |words| == 1 {
      SplitWord(words[0]);
    } else if |words| > 1 {
      SplitWord(words[0]);
      SplitJoin(words[1..]);
      SplitAround(words[0], " ", Join(words[1..], " "));
      assert words == [words[0]] + words[1..];
    }
  }

  /** The number of whitespace characters at the start of `s`. */
  function LeadingSpaces(s: string): (n: nat)
    ensures n <= |s| && AllSpace(s[..n]) && (n < |s| ==> !IsSpace(s[n]))
  {
    if s != [] && IsSpace(s[0]) then
      var n := 1 + LeadingSpaces(s[1..]);
      assert forall i :: 0 < i < n ==> s[..n][i] == s[1..][..n - 1][i - 1];
      n
    else 0
  }

  /** The number of whitespace characters at the end of `s`. */
  function TrailingSpaces(s: string): (n: nat)
    ensures n <= |s| && AllSpace(s[|s| - n..]) && (n < |s| ==> !IsSpace(s[|s| - n - 1]))
  {
    if s != [] && IsSpace(s[|s| - 1]) then
      var n := 1 + TrailingSpaces(s[..|s| - 1]);
      assert s[|s| - n..] == s[..|s| - 1][|s| - n..] + [s[|s| - 1]];
      n
    else 0
  }

  /** `s.lstrip()` */
  function TrimStart(s: string): (r: string)
    ensures |r| <= |s| && r == s[|s| - |r|..]
    ensures AllSpace(s[..|s| - |r|])
    ensures r != [] ==> !IsSpace(r[0])
  {
    s[LeadingSpaces(s)..]
  }

  /** `s.rstrip()` */
  function TrimEnd(s: string): (r: string)
    ensures r <= s
    ensures AllSpace(s[|r|..])
    ensures r != [] ==> !IsSpace(r[|r| - 1])
  {
    s[..|s| - TrailingSpaces(s)]
  }

  /** Text that neither starts nor ends with whitespace is its own strip. */
  lemma StripPlain(t: string)
    requires t != [] && !IsSpace(t[0]) && !IsSpace(t[|t| - 1])
    ensures TrimStart(t) == t && Strip(t) == t
  {
    assert TrimStart(t) == t;
    assert TrimEnd(t) == t;
  }

  /** `s.strip()` */
  function Strip(s: string): (r: string)
    ensures r != [] ==> !IsSpace(r[0]) && !IsSpace(r[|r| - 1])
    ensures |r| <= |s|
    ensures var a := |s| - |TrimStart(s)|;
      a + |r| <= |s| && r == s[a..a + |r|] && AllSpace(s[..a]) && AllSpace(s[a + |r|..])
  {
    var t := TrimStart(s);
    var r := TrimEnd(t);
    assert r[..] == t[..|r|];
    r
  }

  /** A slice of the suffix `s[k..]` is a slice of `s`, shifted by `k`. */
  lemma SliceOfSuffix<T>(s: seq<T>, k: nat, i: nat, j: nat)
    requires i <= j && k + j <= |s|
    ensures s[k..][i..j] == s[k + i..k + j]
  {
  }

  /** A pattern found at the start of the text is replaced there. */
  lemma ReplaceLeading(pat: string, rest: string, rep: string)
    requires pat != []
    ensures Replace(pat + rest, pat, rep) == rep + Replace(rest, pat, rep)
  {
    assert (pat + rest)[..|pat|] == pat;
    assert (pat + rest)[|pat|..] == rest;
  }

  /** Characters other than the pattern's first are copied over. */
  lemma {:induction false} ReplaceSkips(pre: string, rest: string, pat: string, rep: string)
    requires pat != [] && pat[0] !in pre
    ensures Replace(pre + rest, pat, rep) == pre + Replace(rest, pat, rep)
    decreases |pre|
  {
    if pre != [] {
      var s := pre + rest;
      assert s[0] != pat[0];
      if |s| >= |pat| {
        assert s[..|pat|] != pat;
        assert s[1..] == pre[1..] + rest;
        ReplaceSkips(pre[1..], rest, pat, rep);
        assert Replace(s, pat, rep) == [s[0]] + Replace(s[1..], pat, rep);
        assert pre == [pre[0]] + pre[1..];
      } else {
        ReplaceShort(rest, pat, rep);
        ReplaceShort(s, pat, rep);
      }
    } else {
      assert pre + rest == rest;
    }
  }

  /** A text that does not start with the pattern keeps its first character. */
  lemma ReplaceFirstKept(s: string, pat: string, rep: string)
    requires pat != [] && s != [] && !OccursAt(s, pat, 0)
    ensures Replace(s, pat, rep) == [s[0]] + Replace(s[1..], pat, rep)
  {
    if |s| < |pat| {
      ReplaceShort(s, pat, rep);
      ReplaceShort(s[1..], pat, rep);
      assert s == [s[0]] + s[1..];
    } else {
      assert s[0..|pat|] == s[..|pat|];
    }
  }

  /** A text shorter than the pattern is left alone. */
  lemma ReplaceShort(s: string, pat: string, rep: string)
    requires pat != [] && |s| < |pat|
    ensures Replace(s, pat, rep) == s
  {
  }

  /** A pattern that occurs nowhere in `pre + rest` before `rest` leaves `pre` unchanged. */
  lemma {:induction false} ReplaceNoEarly(pre: string, rest: string, pat: string, rep: string)
    requires pat != []
    requires forall i :: 0 <= i < |pre| ==> !OccursAt(pre + rest, pat, i)
    ensures Replace(pre + rest, pat, rep) == pre + Replace(rest, pat, rep)
    decreases |pre|
  {
    if pre != [] {
      var s := pre + rest;
      assert s[1..] == pre[1..] + rest;
      forall i | 0 <= i < |pre[1..]| ensures !OccursAt(s[1..], pat, i) {
        assert !OccursAt(s, pat, i + 1);
        if i + |pat| <= |s[1..]| {
          SliceOfSuffix(s, 1, i, i + |pat|);
        }
      }
      ReplaceNoEarly(pre[1..], rest, pat, rep);
      assert !OccursAt(s, pat, 0);
      ReplaceFirstKept(s, pat, rep);
      assert pre == [pre[0]] + pre[1..];
    } else {
      assert pre + rest == rest;
    }
  }

  /** Splitting at a character that the front part lacks splits the back part. */
  lemma BeforeFree(a: string, b: string, c: char)
    requires c !in a
    ensures Before(a + b, c) == a + Before(b, c)
  {
    var s := a + b;
    if c in b {
      var w := Find(b, c).value;
      assert s[|a| + w] == c;
      var v := Find(s, c).value;
      assert forall i :: 0 <= i < |a| ==> s[i] == a[i];
      assert v >= |a|;
      assert s[..v] == a + b[..v - |a|];
      assert b[v - |a|] == c;
      assert forall i :: 0 <= i < v - |a| ==> b[..v - |a|][i] == b[i];
      assert forall i :: 0 <= i < w ==> b[..w][i] == b[i];
      assert v - |a| == w;
    } else {
      assert c !in s;
    }
  }

  /** The text before the first `c` of `a + [c] + b`, when `a` lacks `c`, is `a`. */
  lemma BeforeSeparator(a: string, b: string, c: char)
    requires c !in a
    ensures Before(a + [c] + b, c) == a
  {
    assert a + [c] + b == a + ([c] + b);
    BeforeFree(a, [c] + b, c);
    assert Find([c] + b, c).value == 0;
  }

  /** A character that does not occur is not a pattern that occurs. */
  lemma CharAbsent(s: string, c: char)
    requires c !in s
    ensures !Contains(s, [c])
  {
    forall i | 0 <= i <= |s| ensures !OccursAt(s, [c], i) {
      if i + 1 <= |s| {
        assert s[i..i + 1][0] == s[i];
      }
    }
  }

  /** Replacing a character that does not occur changes nothing. */
  lemma ReplaceCharAbsent(s: string, c: char, rep: string)
    requires c !in s
    ensures Replace(s, [c], rep) == s
  {
    CharAbsent(s, c);
    ReplaceAbsent(s, [c], rep);
  }
}
