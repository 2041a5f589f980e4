/**
 * The parts of Rust's `str` API that the orchestrator relies on, written
 * over `seq<char>` (a `char` is a Unicode scalar value, as in Rust).
 */
module Strings {
  import opened Common

  /** Index of the first occurrence of `c` in `s`. */
  function IndexOf(s: string, c: char): (i: nat)
    requires c in s
    ensures i < |s| && s[i] == c && c !in s[..i]
  {
    if s[0] == c then 0
    else
      var j := IndexOf(s[1..], c);
      assert s[..j + 1] == [s[0]] + s[1..][..j];
      j + 1
  }

  // ---------------------------------------------------------------------
  // split / join

  /** `s.split(c)`: the pieces between the occurrences of `c`, of which there is always at least one. */
  function Split(s: string, c: char): (parts: seq<string>)
    ensures |parts| >= 1
    ensures forall i :: 0 <= i < |parts| ==> c !in parts[i]
    ensures |parts| == 1 <==> c !in s
    decreases |s|
  {
    if c !in s then [s]
    else
      var i := IndexOf(s, c);
      [s[..i]] + Split(s[i + 1..], c)
  }

  /** `parts.join(sep)`. */
  function Join(parts: seq<string>, sep: string): string
  {
    if |parts| == 0 then ""
    else if |parts| == 1 then parts[0]
    else parts[0] + sep + Join(parts[1..], sep)
  }

  /** Joining the pieces of a split with the separator gives back the text. */
  lemma {:induction false} JoinSplit(s: string, c: char)
    ensures Join(Split(s, c), [c]) == s
    decreases |s|
  {
    if c in s {
      var i := IndexOf(s, c);
      SplitAtFirst(s, c);
      AroundFirst(s, c);
      JoinSplit(s[i + 1..], c);
      JoinCons(s[..i], Split(s[i + 1..], c), [c]);
    }
  }

  /** One step of `Split`: the piece before the first `c`, then the pieces after it. */
  lemma SplitAtFirst(s: string, c: char)
    requires c in s
    ensures Split(s, c) == [s[..IndexOf(s, c)]] + Split(s[IndexOf(s, c) + 1..], c)
  {
  }

  /** The text is the part before its first `c`, the `c`, and the part after it. */
  lemma AroundFirst(s: string, c: char)
    requires c in s
    ensures s == s[..IndexOf(s, c)] + ([c] + s[IndexOf(s, c) + 1..])
  {
    var i := IndexOf(s, c);
    var t := s[..i] + ([c] + s[i + 1..]);
    forall k | 0 <= k < |s| ensures t[k] == s[k] {
      if k > i {
        assert t[k] == s[i + 1..][k - i - 1];
      }
    }
    assert t == s;
  }

  /** Splitting a join of separator-free pieces gives back the pieces. */
  lemma {:induction false} SplitJoin(parts: seq<string>, c: char)
    requires |parts| >= 1
    requires forall i :: 0 <= i < |parts| ==> c !in parts[i]
    ensures Split(Join(parts, [c]), c) == parts
  {
    if |parts| > 1 {
      var s := Join(parts, [c]);
      var tail := Join(parts[1..], [c]);
      assert s == parts[0] + [c] + tail;
      FirstOccurrence(parts[0], c, tail);
      assert s[..|parts[0]|] == parts[0];
      assert s[|parts[0]| + 1..] == tail;
      SplitJoin(parts[1..], c);
      assert Split(s, c) == [parts[0]] + Split(tail, c);
    }
  }

  lemma FirstOccurrence(a: string, c: char, b: string)
    requires c !in a
    ensures c in a + [c] + b && IndexOf(a + [c] + b, c) == |a|
  {
    var s := a + [c] + b;
    assert s[|a|] == c;
    assert s[..|a|] == a;
  }

  /** `s.splitn(2, c)` taken as a (key, value) pair: `None` when `c` does not occur. */
  function SplitOnce(s: string, c: char): (r: Option<(string, string)>)
    ensures r.None? <==> c !in s
    ensures r.Some? ==> c !in r.value.0 && s == r.value.0 + [c] + r.value.1
  {
    if c !in s then None
    else
      var i := IndexOf(s, c);
      assert s == s[..i] + [c] + s[i + 1..];
      Some((s[..i], s[i + 1..]))
  }

  /** `s.split(c).next_back()`: the text after the last `c`, or all of `s` when there is none. */
  function AfterLast(s: string, c: char): (r: string)
    ensures c !in r
    ensures c !in s ==> r == s
    decreases |s|
  {
    if s == [] || s[|s| - 1] == c then []
    else
      var init := s[..|s| - 1];
      assert s == init + [s[|s| - 1]];
      AfterLast(init, c) + [s[|s| - 1]]
  }

  /** The text after the last `c` is all of `s`, or what follows a `c` at the end of `s`. */
  lemma {:induction false} AfterLastSuffix(s: string, c: char)
    ensures var r := AfterLast(s, c);
            |r| <= |s| && (|r| == |s| ==> r == s) && (|r| < |s| ==> s == s[..|s| - |r| - 1] + [c] + r)
    decreases |s|
  {
    if s != [] && s[|s| - 1] != c {
      var init := s[..|s| - 1];
      var x := s[|s| - 1];
      assert s == init + [x];
      AfterLastSuffix(init, c);
      var r' := AfterLast(init, c);
      assert AfterLast(s, c) == r' + [x];
      if |r'| < |init| {
        var p := init[..|init| - |r'| - 1];
        assert init == p + [c] + r';
        assert s[..|s| - |r'| - 2] == p;
        ConcatAssoc(p + [c], r', [x]);
      }
    } else if s != [] {
      assert s == s[..|s| - 1] + [c] + [];
    }
  }

  /** The text after the last `c` of `a + [c] + b` is `b` when `b` has no `c`. */
  lemma {:induction false} AfterLastSeparated(a: string, c: char, b: string)
    requires c !in b
    ensures AfterLast(a + [c] + b, c) == b
    decreases |b|
  {
    var s := a + [c] + b;
    if b != [] {
      var init := b[..|b| - 1];
      assert s[..|s| - 1] == a + [c] + init;
      assert s[|s| - 1] == b[|b| - 1];
      AfterLastSeparated(a, c, init);
      assert init + [b[|b| - 1]] == b;
    }
  }

  // ---------------------------------------------------------------------
  // whitespace

  /** Rust's `char::is_whitespace`: the Unicode White_Space property. */
  predicate IsWhitespace(c: char)
  {
    ('\t' <= c <= '\r') || c == ' ' || c == '\U{0085}' || c == '\U{00A0}' || c == '\U{1680}'
    || ('\U{2000}' <= c <= '\U{200A}') || c == '\U{2028}' || c == '\U{2029}'
    || c == '\U{202F}' || c == '\U{205F}' || c == '\U{3000}'
  }

  predicate NoWhitespace(s: string)
  {
    forall k :: 0 <= k < |s| ==> !IsWhitespace(s[k])
  }

  predicate AllWhitespace(s: string)
  {
    forall k :: 0 <= k < |s| ==> IsWhitespace(s[k])
  }

  /** Number of whitespace characters at the start of `s`. */
  function LeadingSpace(s: string): (n: nat)
    ensures n <= |s| && AllWhitespace(s[..n])
    ensures n < |s| ==> !IsWhitespace(s[n])
  {
    if |s| > 0 && IsWhitespace(s[0]) then
      var n := LeadingSpace(s[1..]);
      assert s[..n + 1] == [s[0]] + s[1..][..n];
      n + 1
    else 0
  }

  /** Index where the whitespace at the end of `s` begins. */
  function TrailingSpace(s: string): (n: nat)
    ensures n <= |s| && AllWhitespace(s[n..])
    ensures n > 0 ==> !IsWhitespace(s[n - 1])
  {
    if |s| > 0 && IsWhitespace(s[|s| - 1]) then
      var n := TrailingSpace(s[..|s| - 1]);
      assert s[n..] == s[..|s| - 1][n..] + [s[|s| - 1]];
      n
    else |s|
  }

  /** `s.trim_start()`. */
  function TrimStart(s: string): (r: string)
    ensures r == [] || !IsWhitespace(r[0])
  {
    s[LeadingSpace(s)..]
  }

  /** `s.trim_end()`. */
  function TrimEnd(s: string): (r: string)
    ensures r == [] || !IsWhitespace(r[|r| - 1])
  {
    s[..TrailingSpace(s)]
  }

  /** `s.trim()`: neither end of the result is whitespace. */
  function Trim(s: string): (r: string)
    ensures |r| <= |s|
    ensures r == [] || (!IsWhitespace(r[0]) && !IsWhitespace(r[|r| - 1]))
  {
    var t := TrimStart(s);
    var r := TrimEnd(t);
    assert r != [] ==> r[0] == t[0];
    r
  }

  /** Trimming removes exactly the whitespace padding around a text whose ends are not whitespace. */
  lemma TrimPadded(pre: string, x: string, post: string)
    requires AllWhitespace(pre) && AllWhitespace(post)
    requires x == [] || (!IsWhitespace(x[0]) && !IsWhitespace(x[|x| - 1]))
    ensures Trim(pre + x + post) == x
  {
    var s := pre + x + post;
    if x == [] {
      assert s == pre + post;
      assert AllWhitespace(s) by {
        forall k | 0 <= k < |s| ensures IsWhitespace(s[k]) {
          if k < |pre| { assert s[k] == pre[k]; } else { assert s[k] == post[k - |pre|]; }
        }
      }
      LeadingSpaceAll(s);
    } else {
      LeadingSpacePadded(pre, x + post);
      assert s == pre + (x + post);
      assert TrimStart(s) == x + post;
      TrailingSpacePadded(x, post);
    }
  }

  lemma LeadingSpaceAll(s: string)
    requires AllWhitespace(s)
    ensures LeadingSpace(s) == |s|
  {
  }

  lemma LeadingSpacePadded(pre: string, y: string)
    requires AllWhitespace(pre) && (y == [] || !IsWhitespace(y[0]))
    ensures LeadingSpace(pre + y) == |pre|
  {
    var s := pre + y;
    var n := LeadingSpace(s);
    assert s[..|pre|] == pre;
  }

  lemma TrailingSpacePadded(x: string, post: string)
    requires AllWhitespace(post) && |x| > 0 && !IsWhitespace(x[|x| - 1])
    ensures TrailingSpace(x + post) == |x|
  {
    var s := x + post;
    var n := TrailingSpace(s);
    assert s[|x|..] == post;
    assert s[|x| - 1] == x[|x| - 1];
  }

  /** Length of the longest prefix of `s` free of whitespace. */
  function WordLength(s: string): (n: nat)
    ensures n <= |s| && NoWhitespace(s[..n])
    ensures n < |s| ==> IsWhitespace(s[n])
  {
    if |s| == 0 || IsWhitespace(s[0]) then 0
    else
      var n := WordLength(s[1..]);
      assert s[..n + 1] == [s[0]] + s[1..][..n];
      n + 1
  }

  /** A word of `split_whitespace`: non-empty and free of whitespace. */
  predicate IsWord(w: string)
  {
    |w| > 0 && NoWhitespace(w)
  }

  /** `s.split_whitespace()`: the words of `s`, in order. */
  function SplitWhitespace(s: string): seq<string>
    decreases |s|
  {
    var i := LeadingSpace(s);
    if i == |s| then []
    else
      var n := WordLength(s[i..]);
      assert n > 0;
      [s[i..][..n]] + SplitWhitespace(s[i..][n..])
  }

  /** Every piece `split_whitespace` yields is a word. */
  lemma {:induction false} SplitWhitespaceWords(s: string)
    ensures forall i :: 0 <= i < |SplitWhitespace(s)| ==> IsWord(SplitWhitespace(s)[i])
    decreases |s|
  {
    var i := LeadingSpace(s);
    if i < |s| {
      var n := WordLength(s[i..]);
      assert IsWord(s[i..][..n]);
      SplitWhitespaceWords(s[i..][n..]);
    }
  }

  /** Splitting a space-separated list of words gives back the words. */
  lemma {:induction false} SplitWhitespaceJoin(words: seq<string>)
    requires forall i :: 0 <= i < |words| ==> IsWord(words[i])
    ensures SplitWhitespace(Join(words, " ")) == words
  {
    if |words| == 1 {
      SingleWord(words[0]);
    } else if |words| > 1 {
      var rest := words[1..];
      WordsTail(words);
      SplitWhitespaceJoin(rest);
      SplitWhitespaceJoinCons(words[0], rest);
      assert words == [words[0]] + rest;
    }
  }

  lemma WordsTail(words: seq<string>)
    requires |words| > 0 && forall i :: 0 <= i < |words| ==> IsWord(words[i])
    ensures forall i :: 0 <= i < |words| - 1 ==> IsWord(words[1..][i])
  {
    forall i | 0 <= i < |words| - 1 ensures IsWord(words[1..][i]) {
      assert words[1..][i] == words[i + 1];
    }
  }

  lemma SingleWord(w: string)
    requires IsWord(w)
    ensures SplitWhitespace(Join([w], " ")) == [w]
  {
    SplitWhitespaceStep([], w, []);
    assert [] + w + [] == w;
  }

  lemma SplitWhitespaceJoinCons(w: string, rest: seq<string>)
    requires IsWord(w) && |rest| > 0 && IsWord(rest[0])
    requires SplitWhitespace(Join(rest, " ")) == rest
    ensures SplitWhitespace(Join([w] + rest, " ")) == [w] + rest
  {
    var tail := Join(rest, " ");
    JoinCons(w, rest, " ");
    SpaceFirst(tail);
    SplitWhitespaceStep([], w, " " + tail);
    assert [] + w + (" " + tail) == w + (" " + tail);
    SplitWhitespaceSkip(" ", tail);
  }

  lemma JoinCons(w: string, rest: seq<string>, sep: string)
    requires |rest| > 0
    ensures Join([w] + rest, sep) == w + (sep + Join(rest, sep))
  {
    var parts := [w] + rest;
    assert parts[0] == w && parts[1..] == rest;
    ConcatAssoc(w, sep, Join(rest, sep));
  }

  lemma ConcatAssoc(a: string, b: string, c: string)
    ensures a + b + c == a + (b + c)
  {
  }


  lemma SpaceFirst(tail: string)
    ensures AllWhitespace(" ") && IsWhitespace((" " + tail)[0])
  {
  }

  /** Leading whitespace does not change the words. */
  lemma SplitWhitespaceSkip(pre: string, y: string)
    requires AllWhitespace(pre)
    ensures SplitWhitespace(pre + y) == SplitWhitespace(y)
  {
    var s := pre + y;
    LeadingSpaceConcat(pre, y);
    var m := LeadingSpace(y);
    var i := |pre| + m;
    assert LeadingSpace(s) == i;
    assert s[i..] == y[m..];
    if m < |y| {
      var t := y[m..];
      SplitWhitespaceAt(y, m);
      SplitWhitespaceAt(s, i);
    }
  }

  /** `split_whitespace` once the padding of length `i` is skipped. */
  lemma SplitWhitespaceAt(s: string, i: nat)
    requires i == LeadingSpace(s) && i < |s|
    ensures SplitWhitespace(s) == [s[i..][..WordLength(s[i..])]] + SplitWhitespace(s[i..][WordLength(s[i..])..])
  {
  }

  lemma LeadingSpaceConcat(pre: string, y: string)
    requires AllWhitespace(pre)
    ensures LeadingSpace(pre + y) == |pre| + LeadingSpace(y)
  {
    var s := pre + y;
    var m := LeadingSpace(y);
    var n := |pre| + m;
    forall k | 0 <= k < n ensures IsWhitespace(s[..n][k]) {
      if k < |pre| {
        assert s[..n][k] == pre[k];
      } else {
        assert s[..n][k] == y[..m][k - |pre|];
      }
    }
    if n < |s| {
      assert s[n] == y[m];
    }
    LeadingSpaceUnique(s, n);
  }

  /** The length of the leading whitespace is the only `n` whose prefix is all whitespace and not followed by any. */
  lemma LeadingSpaceUnique(s: string, n: nat)
    requires n <= |s| && AllWhitespace(s[..n])
    requires n < |s| ==> !IsWhitespace(s[n])
    ensures LeadingSpace(s) == n
  {
    var k := LeadingSpace(s);
    WhitespacePrefix(s, n);
    WhitespacePrefix(s, k);
  }

  lemma WhitespacePrefix(s: string, n: nat)
    requires n <= |s| && AllWhitespace(s[..n])
    ensures forall j :: 0 <= j < n ==> IsWhitespace(s[j])
  {
    forall j | 0 <= j < n ensures IsWhitespace(s[j]) {
      assert s[..n][j] == s[j];
    }
  }

  /** One step of `split_whitespace`: skip the padding, take the word. */
  lemma SplitWhitespaceStep(pre: string, w: string, rest: string)
    requires AllWhitespace(pre) && IsWord(w) && (rest == [] || IsWhitespace(rest[0]))
    ensures SplitWhitespace(pre + w + rest) == [w] + SplitWhitespace(rest)
  {
    var s := pre + w + rest;
    LeadingSpacePadded(pre, w + rest);
    assert s == pre + (w + rest);
    assert s[|pre|..] == w + rest;
    WordLengthOfWord(w, rest);
    assert (w + rest)[..|w|] == w && (w + rest)[|w|..] == rest;
  }

  lemma WordLengthOfWord(w: string, rest: string)
    requires NoWhitespace(w) && (rest == [] || IsWhitespace(rest[0]))
    ensures WordLength(w + rest) == |w|
  {
    var s := w + rest;
    assert s[..|w|] == w;
    assert rest != [] ==> s[|w|] == rest[0];
  }

  // ---------------------------------------------------------------------
  // lines

  /**
   * `s.lines()` (and `BufRead::lines`): split at `\n`, drop a `\r` that
   * directly precedes the `\n`, and yield no empty last line for a final `\n`.
   */
  function Lines(s: string): (ls: seq<string>)
    ensures forall i :: 0 <= i < |ls| ==> '\n' !in ls[i]
    decreases |s|
  {
    if s == [] then []
    else if '\n' !in s then [s]
    else
      var i := IndexOf(s, '\n');
      var line := if i > 0 && s[i - 1] == '\r' then s[..i - 1] else s[..i];
      assert forall k :: 0 <= k < |line| ==> line[k] == s[..i][k];
      [line] + Lines(s[i + 1..])
  }

  /** Each line followed by `\n`: the text that `Lines` reads back. */
  function Unlines(ls: seq<string>): string
  {
    if ls == [] then "" else ls[0] + "\n" + Unlines(ls[1..])
  }

  /** A line that a write–read round trip keeps intact: no `\n`, and no final `\r`. */
  predicate IsLine(line: string)
  {
    '\n' !in line && (line == [] || line[|line| - 1] != '\r')
  }

  /** Lines free of `\n` that do not end in `\r` survive a write–read round trip. */
  lemma {:induction false} LinesUnlines(ls: seq<string>)
    requires forall i :: 0 <= i < |ls| ==> IsLine(ls[i])
    ensures Lines(Unlines(ls)) == ls
  {
    if ls != [] {
      var rest := ls[1..];
      assert forall i :: 0 <= i < |rest| ==> IsLine(rest[i]) by {
        forall i | 0 <= i < |rest| ensures IsLine(rest[i]) { assert rest[i] == ls[i + 1]; }
      }
      LinesUnlines(rest);
      LinesCons(ls[0], Unlines(rest));
    }
  }

  /** A line and its `\n` in front of more text are read back as that line, then the lines of the text. */
  lemma LinesCons(line: string, more: string)
    requires IsLine(line)
    ensures Lines(line + "\n" + more) == [line] + Lines(more)
  {
    var s := line + "\n" + more;
    FirstOccurrence(line, '\n', more);
    assert s[..|line|] == line;
    assert |line| > 0 ==> s[|line| - 1] == line[|line| - 1];
    assert s[|line| + 1..] == more;
  }

  // ---------------------------------------------------------------------
  // substrings

  predicate StartsWith(s: string, prefix: string)
  {
    |prefix| <= |s| && s[..|prefix|] == prefix
  }

  /** `s.ends_with(suffix)`. */
  predicate EndsWith(s: string, suffix: string)
  {
    |suffix| <= |s| && s[|s| - |suffix|..] == suffix
  }

  /** A concatenation starts with its first part and ends with its last. */
  lemma ConcatEnds(a: string, b: string, c: string)
    ensures StartsWith(a + b + c, a) && EndsWith(a + b + c, c)
  {
    assert (a + b + c)[..|a|] == a;
    assert (a + b + c)[|a + b + c| - |c|..] == c;
  }

  /** `s.contains(sub)`. */
  predicate Contains(s: string, sub: string)
    decreases |s|
  {
    StartsWith(s, sub) || (|s| > 0 && Contains(s[1..], sub))
  }

  /** `s.replace(pat, rep)`: every non-overlapping occurrence, scanning left to right. */
  function ReplaceAll(s: string, pat: string, rep: string): (r: string)
    requires |pat| > 0
    ensures !Contains(s, pat) ==> r == s
    decreases |s|
  {
    if |s| < |pat| then s
    else if s[..|pat|] == pat then rep + ReplaceAll(s[|pat|..], pat, rep)
    else
      var r := [s[0]] + ReplaceAll(s[1..], pat, rep);
      assert !Contains(s, pat) ==> r == [s[0]] + s[1..];
      r
  }

  /**
   * Up to the first occurrence of the pattern the text is copied, the
   * occurrence becomes the replacement, and the scan goes on after it.
   */
  lemma {:induction false} ReplaceAllFirst(a: string, pat: string, b: string, rep: string)
    requires |pat| > 0
    requires forall i :: 0 <= i < |a| ==> !StartsWith((a + pat + b)[i..], pat)
    ensures ReplaceAll(a + pat + b, pat, rep) == a + rep + ReplaceAll(b, pat, rep)
    decreases |a|
  {
    if a == [] {
      assert a + pat + b == pat + b;
      ReplaceAllAt(pat, b, rep);
    } else {
      ReplaceAllStep(a, pat, b, rep);
      ReplaceAllFirst(a[1..], pat, b, rep);
      ConsConcat(a, rep, ReplaceAll(b, pat, rep));
    }
  }

  /** With no occurrence in the first part, the text does not start with one, and neither does its tail's first part. */
  lemma NoEarlierMatchShift(a: string, pat: string, b: string)
    requires a != []
    requires forall i :: 0 <= i < |a| ==> !StartsWith((a + pat + b)[i..], pat)
    ensures !StartsWith(a + pat + b, pat)
    ensures (a + pat + b)[0] == a[0] && (a + pat + b)[1..] == a[1..] + pat + b
    ensures forall i :: 0 <= i < |a| - 1 ==> !StartsWith((a[1..] + pat + b)[i..], pat)
  {
    var t := a + pat + b;
    assert t[0..] == t;
    assert t[1..] == a[1..] + pat + b;
    forall i | 0 <= i < |a| - 1
      ensures !StartsWith((a[1..] + pat + b)[i..], pat)
    {
      assert (a[1..] + pat + b)[i..] == t[i + 1..];
    }
  }

  /** One character before the first occurrence is copied; the rest of the first part has no occurrence either. */
  lemma ReplaceAllStep(a: string, pat: string, b: string, rep: string)
    requires |pat| > 0 && a != []
    requires forall i :: 0 <= i < |a| ==> !StartsWith((a + pat + b)[i..], pat)
    ensures ReplaceAll(a + pat + b, pat, rep) == [a[0]] + ReplaceAll(a[1..] + pat + b, pat, rep)
    ensures forall i :: 0 <= i < |a| - 1 ==> !StartsWith((a[1..] + pat + b)[i..], pat)
  {
    NoEarlierMatchShift(a, pat, b);
    ReplaceAllSkip(a + pat + b, pat, rep);
  }

  lemma ConsConcat(a: string, x: string, y: string)
    requires a != []
    ensures [a[0]] + (a[1..] + x + y) == a + x + y
  {
    assert [a[0]] + a[1..] == a;
  }

  /** An occurrence at the front is replaced. */
  lemma ReplaceAllAt(pat: string, b: string, rep: string)
    requires |pat| > 0
    ensures ReplaceAll(pat + b, pat, rep) == rep + ReplaceAll(b, pat, rep)
  {
    var t := pat + b;
    assert t[..|pat|] == pat && t[|pat|..] == b;
  }

  /** A text that does not start with the pattern keeps its first character. */
  lemma ReplaceAllSkip(t: string, pat: string, rep: string)
    requires |pat| > 0 && |t| > 0 && !StartsWith(t, pat)
    ensures ReplaceAll(t, pat, rep) == [t[0]] + ReplaceAll(t[1..], pat, rep)
  {
  }

  /** A replacement as long as the pattern keeps the length of the text. */
  lemma {:induction false} ReplaceAllLength(s: string, pat: string, rep: string)
    requires |pat| > 0 && |rep| == |pat|
    ensures |ReplaceAll(s, pat, rep)| == |s|
    decreases |s|
  {
    if |s| >= |pat| {
      if s[..|pat|] == pat {
        ReplaceAllLength(s[|pat|..], pat, rep);
      } else {
        ReplaceAllLength(s[1..], pat, rep);
      }
    }
  }

  /**
   * No occurrence of the pattern is left when the pattern's last character
   * does not occur in the replacement, the replacement's last character does
   * not occur in the rest of the pattern, and both have the same length.
   */
  lemma {:induction false} ReplaceAllRemoves(s: string, pat: string, rep: string)
    requires |pat| > 0 && |rep| == |pat|
    requires pat[|pat| - 1] !in rep
    requires rep[|rep| - 1] !in pat[..|pat| - 1]
    ensures !Contains(ReplaceAll(s, pat, rep), pat)
    decreases |s|
  {
    var t := ReplaceAll(s, pat, rep);
    if |s| < |pat| {
      ShortNotContained(s, pat);
    } else if s[..|pat|] == pat {
      var t' := ReplaceAll(s[|pat|..], pat, rep);
      ReplaceAllRemoves(s[|pat|..], pat, rep);
      assert t == rep + t';
      ReplacementWindows(rep, t', pat);
      ContainsAfter(rep, t', pat);
    } else {
      var t' := ReplaceAll(s[1..], pat, rep);
      ReplaceAllRemoves(s[1..], pat, rep);
      CopiedPrefix(s[1..], pat, rep, 1);
      assert t == [s[0]] + t';
      StartsWithCons(s[0], t', pat);
      StartsWithCons(s[0], s[1..], pat);
      assert s == [s[0]] + s[1..];
      assert t[1..] == t';
    }
  }

  /** A text shorter than the pattern does not contain it. */
  lemma {:induction false} ShortNotContained(s: string, pat: string)
    requires |s| < |pat|
    ensures !Contains(s, pat)
    decreases |s|
  {
    if |s| > 0 {
      ShortNotContained(s[1..], pat);
    }
  }

  /** Starting with a pattern, after a first character: the character and then the rest of the pattern. */
  lemma StartsWithCons(c: char, x: string, sub: string)
    ensures |sub| > 0 ==> (StartsWith([c] + x, sub) <==> c == sub[0] && StartsWith(x, sub[1..]))
  {
    if |sub| > 0 {
      assert sub == [sub[0]] + sub[1..];
      if |sub| <= |x| + 1 {
        assert ([c] + x)[..|sub|] == [c] + x[..|sub| - 1];
      }
    }
  }

  /** The last character of a prefix is the character of the text at that place. */
  lemma PrefixLast(t: string, p: string)
    ensures StartsWith(t, p) && |p| > 0 ==> t[|p| - 1] == p[|p| - 1]
  {
    if StartsWith(t, p) && |p| > 0 {
      assert t[..|p|][|p| - 1] == t[|p| - 1];
    }
  }

  /**
   * A tail of the pattern at the start of the output was copied from the
   * input: no replacement can supply it, as it ends in the pattern's last
   * character, which no replacement holds.
   */
  lemma {:induction false} CopiedPrefix(u: string, pat: string, rep: string, k: nat)
    requires 0 < k <= |pat| && |pat| <= |rep| + 1
    requires pat[|pat| - 1] !in rep
    ensures StartsWith(ReplaceAll(u, pat, rep), pat[k..]) ==> StartsWith(u, pat[k..])
    decreases |u|
  {
    var t := ReplaceAll(u, pat, rep);
    var q := pat[k..];
    if k < |pat| && |u| >= |pat| {
      if u[..|pat|] == pat {
        var t' := ReplaceAll(u[|pat|..], pat, rep);
        assert t == rep + t';
        PrefixLast(t, q);
        assert (rep + t')[|q| - 1] == rep[|q| - 1];
        assert q[|q| - 1] == pat[|pat| - 1];
      } else {
        var t' := ReplaceAll(u[1..], pat, rep);
        CopiedPrefix(u[1..], pat, rep, k + 1);
        assert t == [u[0]] + t';
        assert q[1..] == pat[k + 1..];
        StartsWithCons(u[0], t', q);
        StartsWithCons(u[0], u[1..], q);
        assert u == [u[0]] + u[1..];
      }
    }
  }

  /** No window that starts inside the replacement is the pattern. */
  lemma ReplacementWindows(rep: string, t: string, pat: string)
    requires |pat| > 0 && |rep| == |pat|
    requires pat[|pat| - 1] !in rep
    requires rep[|rep| - 1] !in pat[..|pat| - 1]
    ensures forall p :: 0 <= p < |rep| ==> !StartsWith((rep + t)[p..], pat)
  {
    forall p | 0 <= p < |rep| ensures !StartsWith((rep + t)[p..], pat) {
      var w := (rep + t)[p..];
      if p == 0 {
        assert w[..|rep|] == rep;
        assert rep[|rep| - 1] != pat[|pat| - 1];
      } else {
        var d := |rep| - 1 - p;
        assert w[d] == rep[|rep| - 1];
        assert pat[..|pat| - 1][d] == pat[d];
        PrefixAt(w, pat, d);
      }
    }
  }

  lemma PrefixAt(t: string, p: string, d: nat)
    ensures StartsWith(t, p) && d < |p| ==> t[d] == p[d]
  {
    if StartsWith(t, p) && d < |p| {
      assert t[..|p|][d] == t[d];
    }
  }

  /** An occurrence that cannot start in `a` lies in `b`. */
  lemma {:induction false} ContainsAfter(a: string, b: string, sub: string)
    requires forall p :: 0 <= p < |a| ==> !StartsWith((a + b)[p..], sub)
    ensures Contains(a + b, sub) ==> Contains(b, sub)
    decreases |a|
  {
    if a == [] {
      assert a + b == b;
    } else {
      assert (a + b)[0..] == a + b;
      assert (a + b)[1..] == a[1..] + b;
      forall p | 0 <= p < |a| - 1 ensures !StartsWith((a[1..] + b)[p..], sub) {
        assert (a[1..] + b)[p..] == (a + b)[p + 1..];
      }
      ContainsAfter(a[1..], b, sub);
    }
  }

  // ---------------------------------------------------------------------
  // decimal numbers

  predicate IsDigit(c: char)
  {
    '0' <= c <= '9'
  }

  predicate AllDigits(s: string)
  {
    forall k :: 0 <= k < |s| ==> IsDigit(s[k])
  }

  function DigitChar(d: nat): (c: char)
    requires d < 10
    ensures IsDigit(c) && c as int - '0' as int == d
  {
    ('0' as int + d) as char
  }

  /** `n.to_string()` for an unsigned integer: decimal digits with no leading zero. */
  function NatToString(n: nat): (s: string)
    ensures |s| > 0 && AllDigits(s)
    ensures s[0] == '0' ==> s == "0"
    decreases n
  {
    if n < 10 then [DigitChar(n)]
    else NatToString(n / 10) + [DigitChar(n % 10)]
  }

  /** The value of a string of decimal digits (leading zeros allowed). */
  function DigitsValue(s: string): nat
    requires AllDigits(s)
  {
    if s == [] then 0
    else 10 * DigitsValue(s[..|s| - 1]) + (s[|s| - 1] as int - '0' as int)
  }

  /** Reading back the decimal text of `n` gives `n`. */
  lemma {:induction false} DigitsValueOfNatToString(n: nat)
    ensures DigitsValue(NatToString(n)) == n
    decreases n
  {
    if n >= 10 {
      var s := NatToString(n);
      assert s[..|s| - 1] == NatToString(n / 10);
      DigitsValueOfNatToString(n / 10);
    }
  }

  /** Unsigned `str::parse`: a non-empty run of digits, with an optional leading `+`. */
  function ParseUnsigned(s: string): (r: Option<nat>)
    ensures r.Some? <==> |s| > 0 && ((s[0] == '+' && |s| > 1 && AllDigits(s[1..])) || AllDigits(s))
  {
    var digits := if |s| > 0 && s[0] == '+' then s[1..] else s;
    if |digits| > 0 && AllDigits(digits) then Some(DigitsValue(digits)) else None
  }

  /** `s.parse::<u8>()`. */
  function ParseU8(s: string): (r: Option<nat>)
    ensures r.Some? ==> r.value < 256
    ensures r.Some? <==> ParseUnsigned(s).Some? && ParseUnsigned(s).value < 256
  {
    match ParseUnsigned(s)
    case Some(v) => if v < 256 then Some(v) else None
    case None => None
  }

  const I32Min: int := -0x8000_0000
  const I32Max: int := 0x7FFF_FFFF

  /** `s.parse::<i32>()`: an optional sign, then a non-empty run of digits, in range. */
  function ParseI32(s: string): (r: Option<int>)
    ensures r.Some? ==> I32Min <= r.value <= I32Max
  {
    if |s| > 0 && s[0] == '-' then
      if |s| > 1 && AllDigits(s[1..]) && I32Min <= 0 - DigitsValue(s[1..]) then Some(0 - DigitsValue(s[1..]))
      else None
    else
      match ParseUnsigned(s)
      case Some(v) => if v <= I32Max then Some(v) else None
      case None => None
  }

  /** `u8` parsing reads back the decimal text of every value below 256. */
  lemma ParseU8OfNatToString(n: nat)
    requires n < 256
    ensures ParseU8(NatToString(n)) == Some(n)
  {
    DigitsValueOfNatToString(n);
  }

  /** `i32` parsing reads back the decimal text of every non-negative `i32`. */
  lemma ParseI32OfNatToString(n: nat)
    requires n <= I32Max
    ensures ParseI32(NatToString(n)) == Some(n)
  {
    DigitsValueOfNatToString(n);
  }
}
