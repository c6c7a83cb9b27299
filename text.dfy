/**
 * Python `str` operations used by the importer, over `seq<char>`: character classes,
 * `strip`, `split` and `join`.
 *
 * Character classes (`isdigit`, `isalnum`, `isupper`, ...) are taken over ASCII;
 * whitespace is Python's full `str.isspace` set, so `strip()` and `split()` behave as
 * in CPython.
 */
module Text {

  type String = seq<char>

  // ---------------------------------------------------------------- character classes

  predicate IsDigit(c: char) { '0' <= c <= '9' }
  predicate IsUpper(c: char) { 'A' <= c <= 'Z' }
  predicate IsLower(c: char) { 'a' <= c <= 'z' }
  predicate IsLetter(c: char) { IsUpper(c) || IsLower(c) }
  predicate IsAlnum(c: char) { IsLetter(c) || IsDigit(c) }

  /** Python `str.isspace()` (the characters `split()` and `strip()` treat as blanks). */
  predicate IsSpace(c: char)
  {
    c == ' ' || ('\t' <= c <= '\r') || ('\U{1C}' <= c <= '\U{1F}') || c == '\U{85}'
    || c == '\U{A0}' || c == '\U{1680}' || ('\U{2000}' <= c <= '\U{200A}')
    || c == '\U{2028}' || c == '\U{2029}' || c == '\U{202F}' || c == '\U{205F}'
    || c == '\U{3000}'
  }

  /** The class `[\x00-\x1f\x7f-\x9f]`. */
  predicate IsControl(c: char) { c <= '\U{1F}' || ('\U{7F}' <= c <= '\U{9F}') }

  /** `s.isdigit()`: non-empty and every character a digit. */
  predicate AllDigits(s: String) { |s| > 0 && forall i :: 0 <= i < |s| ==> IsDigit(s[i]) }

  /** `s.isalnum()`: non-empty and every character a letter or digit. */
  predicate AllAlnum(s: String) { |s| > 0 && forall i :: 0 <= i < |s| ==> IsAlnum(s[i]) }

  /** `not s.strip()`: the string holds only blanks. */
  predicate IsBlank(s: String) { forall i :: 0 <= i < |s| ==> IsSpace(s[i]) }

  predicate NoControl(s: String) { forall i :: 0 <= i < |s| ==> !IsControl(s[i]) }

  /** A token produced by `split()`: non-empty and blank-free. */
  predicate IsWord(w: String) { |w| > 0 && forall i :: 0 <= i < |w| ==> !IsSpace(w[i]) }

  /** Neither end is a blank: what `strip()` returns. */
  predicate Trimmed(s: String) { s == [] || (!IsSpace(s[0]) && !IsSpace(s[|s| - 1])) }

  predicate StartsWith(s: String, p: String) { |p| <= |s| && s[..|p|] == p }
  predicate EndsWith(s: String, p: String) { |p| <= |s| && s[|s| - |p|..] == p }

  /** Python `sub in s`. */
  predicate Contains(s: String, sub: String)
  {
    exists i | 0 <= i <= |s| - |sub| :: OccursAt(s, sub, i)
  }

  predicate OccursAt(s: String, sub: String, i: int)
  {
    0 <= i <= |s| - |sub| && s[i..i + |sub|] == sub
  }

  // ---------------------------------------------------------------- strip

  /** The first index from `i` on that is not a blank, or `|s|`. */
  function SkipBlanks(s: String, i: nat): (j: nat)
    requires i <= |s|
    ensures i <= j <= |s|
    ensures j == |s| || !IsSpace(s[j])
    decreases |s| - i
  {
    if i < |s| && IsSpace(s[i]) then SkipBlanks(s, i + 1) else i
  }

  /** Everything `SkipBlanks` passes over is blank. */
  lemma {:induction false} SkipBlanksAll(s: String, i: nat)
    requires i <= |s|
    ensures forall m :: i <= m < SkipBlanks(s, i) ==> IsSpace(s[m])
    decreases |s| - i
  {
    if i < |s| && IsSpace(s[i]) {
      SkipBlanksAll(s, i + 1);
    }
  }

  /** The index just past the last non-blank before `j`, or 0. */
  function TrailStart(s: String, j: nat): (k: nat)
    requires j <= |s|
    ensures k <= j
    ensures k == 0 || !IsSpace(s[k - 1])
    decreases j
  {
    if j > 0 && IsSpace(s[j - 1]) then TrailStart(s, j - 1) else j
  }

  /** Everything `TrailStart` passes over is blank. */
  lemma {:induction false} TrailStartAll(s: String, j: nat)
    requires j <= |s|
    ensures forall m :: TrailStart(s, j) <= m < j ==> IsSpace(s[m])
    decreases j
  {
    if j > 0 && IsSpace(s[j - 1]) {
      TrailStartAll(s, j - 1);
    }
  }

  /** `s.lstrip()`. */
  function StripLeft(s: String): (r: String)
    ensures |r| <= |s| && r == s[|s| - |r|..]
    ensures r == [] || !IsSpace(r[0])
  {
    s[SkipBlanks(s, 0)..]
  }

  /** What `lstrip()` drops is blank. */
  lemma StripLeftBlanks(s: String)
    ensures forall i :: 0 <= i < |s| - |StripLeft(s)| ==> IsSpace(s[i])
  {
    SkipBlanksAll(s, 0);
  }

  /** `s.rstrip()`. */
  function StripRight(s: String): (r: String)
    ensures |r| <= |s| && r == s[..|r|]
    ensures r == [] || !IsSpace(r[|r| - 1])
  {
    s[..TrailStart(s, |s|)]
  }

  /** What `rstrip()` drops is blank. */
  lemma StripRightBlanks(s: String)
    ensures forall i :: |StripRight(s)| <= i < |s| ==> IsSpace(s[i])
  {
    TrailStartAll(s, |s|);
  }

  /** `s.strip()`: the infix left after dropping the leading and trailing blanks. */
  function Strip(s: String): (r: String)
    ensures |r| <= |s|
  {
    StripRight(StripLeft(s))
  }

  /** What `strip()` returns: the blank-free-ended infix, empty exactly for blank text. */
  lemma StripSpec(s: String)
    ensures Trimmed(Strip(s))
    ensures |Strip(s)| <= |StripLeft(s)| <= |s|
    ensures Strip(s) == s[|s| - |StripLeft(s)|..|s| - |StripLeft(s)| + |Strip(s)|]
    ensures Strip(s) == [] <==> IsBlank(s)
  {
    StripTrimmed(s);
    StripLocation(s);
    StripBlank(s);
  }

  lemma StripTrimmed(s: String)
    ensures Trimmed(Strip(s))
  {
    var t := StripLeft(s);
    var r := StripRight(t);
    assert r != [] ==> r[0] == t[0];
  }

  lemma StripLocation(s: String)
    ensures |Strip(s)| <= |StripLeft(s)| <= |s|
    ensures Strip(s) == s[|s| - |StripLeft(s)|..|s| - |StripLeft(s)| + |Strip(s)|]
  {
    var t := StripLeft(s);
    PrefixOfSuffix(s, |s| - |t|, |StripRight(t)|);
  }

  lemma PrefixOfSuffix(s: String, k: nat, n: nat)
    requires k + n <= |s|
    ensures s[k..][..n] == s[k..k + n]
  {
  }

  lemma StripBlank(s: String)
    ensures Strip(s) == [] <==> IsBlank(s)
  {
    var t := StripLeft(s);
    var r := StripRight(t);
    StripLeftBlanks(s);
    StripRightBlanks(t);
    if t != [] {
      assert !IsSpace(t[0]);
      assert r != [];
      assert !IsSpace(s[|s| - |t|]);
    }
  }

  lemma StripOfTrimmed(s: String)
    requires Trimmed(s)
    ensures Strip(s) == s
  {
    assert SkipBlanks(s, 0) == 0;
    assert s[0..] == s;
    assert TrailStart(s, |s|) == |s|;
  }

  lemma StripIdempotent(s: String)
    ensures Strip(Strip(s)) == Strip(s)
  {
    StripSpec(s);
    StripOfTrimmed(Strip(s));
  }

  lemma StripLeftIdempotent(s: String)
    ensures StripLeft(StripLeft(s)) == StripLeft(s)
  {
    var t := StripLeft(s);
    assert SkipBlanks(t, 0) == 0;
    assert t[0..] == t;
  }

  // ---------------------------------------------------------------- split

  /** The first index from `i` on that is a blank, or `|s|`: where a word started at `i` ends. */
  function WordEnd(s: String, i: nat): (j: nat)
    requires i <= |s|
    ensures i <= j <= |s|
    ensures j == |s| || IsSpace(s[j])
    ensures i < |s| && !IsSpace(s[i]) ==> i < j
    decreases |s| - i
  {
    if i < |s| && !IsSpace(s[i]) then WordEnd(s, i + 1) else i
  }

  /** The words of `s` from index `i` on. */
  function WordsFrom(s: String, i: nat): seq<String>
    requires i <= |s|
    decreases |s| - i
  {
    var j := SkipBlanks(s, i);
    if j == |s| then []
    else
      var e := WordEnd(s, j);
      [s[j..e]] + WordsFrom(s, e)
  }

  /** `s.split()`: the maximal blank-free runs of `s`, in order. */
  function Words(s: String): seq<String>
  {
    WordsFrom(s, 0)
  }

  /** Everything `WordEnd` passes over is a word character. */
  lemma {:induction false} WordEndAll(s: String, i: nat)
    requires i <= |s|
    ensures forall m :: i <= m < WordEnd(s, i) ==> !IsSpace(s[m])
    decreases |s| - i
  {
    if i < |s| && !IsSpace(s[i]) {
      WordEndAll(s, i + 1);
    }
  }

  /** The `k`-th word from `i` on is the slice `s[a..b]` of a whole word. */
  lemma {:induction false} WordsFromSlice(s: String, i: nat, k: nat) returns (a: nat, b: nat)
    requires i <= |s| && k < |WordsFrom(s, i)|
    ensures a < b <= |s| && b == WordEnd(s, a) && !IsSpace(s[a])
    ensures WordsFrom(s, i)[k] == s[a..b]
    decreases |s| - i
  {
    var j := SkipBlanks(s, i);
    var e := WordEnd(s, j);
    if k == 0 {
      a, b := j, e;
    } else {
      a, b := WordsFromSlice(s, e, k - 1);
    }
  }

  /** Every piece `split()` yields is a non-empty, blank-free word. */
  lemma WordsAreWords(s: String)
    ensures forall k :: 0 <= k < |Words(s)| ==> IsWord(Words(s)[k])
  {
    forall k | 0 <= k < |Words(s)|
      ensures IsWord(Words(s)[k])
    {
      var a, b := WordsFromSlice(s, 0, k);
      WordEndAll(s, a);
      assert forall m :: 0 <= m < b - a ==> s[a..b][m] == s[a + m];
    }
  }

  /** `split()` yields nothing exactly for blank text. */
  lemma WordsEmptyIffBlank(s: String)
    ensures Words(s) == [] <==> IsBlank(s)
  {
    SkipBlanksAll(s, 0);
    if SkipBlanks(s, 0) == |s| {
      WordsFromEnd(s, 0);
    } else {
      WordsFromCons(s, 0);
    }
  }

  /** Splitting never produces a control character that was not in the text. */
  lemma WordsNoControl(s: String, k: nat)
    requires NoControl(s)
    requires k < |Words(s)|
    ensures NoControl(Words(s)[k])
  {
    var a, b := WordsFromSlice(s, 0, k);
    assert forall m :: 0 <= m < b - a ==> s[a..b][m] == s[a + m];
  }

  /** Blanks in front of position `j` make no difference to the words from `i`. */
  lemma {:induction false} WordsFromSkip(s: String, i: nat, j: nat)
    requires i <= j <= |s|
    requires forall m :: i <= m < j ==> IsSpace(s[m])
    ensures WordsFrom(s, i) == WordsFrom(s, j)
    decreases j - i
  {
    SkipBlanksSkip(s, i, j);
    WordsFromSameSkip(s, i, j);
  }

  lemma {:induction false} WordsFromSameSkip(s: String, i: nat, j: nat)
    requires i <= |s| && j <= |s| && SkipBlanks(s, i) == SkipBlanks(s, j)
    ensures WordsFrom(s, i) == WordsFrom(s, j)
  {
  }

  lemma {:induction false} SkipBlanksSkip(s: String, i: nat, j: nat)
    requires i <= j <= |s|
    requires forall m :: i <= m < j ==> IsSpace(s[m])
    ensures SkipBlanks(s, i) == SkipBlanks(s, j)
    decreases j - i
  {
    if i < j {
      assert IsSpace(s[i]);
      SkipBlanksSkip(s, i + 1, j);
    }
  }

  /** `r` is `s` from position `off` on. */
  predicate Shifted(s: String, off: nat, r: String)
  {
    |s| == off + |r| && forall m :: 0 <= m < |r| ==> s[off + m] == r[m]
  }

  lemma {:induction false} SkipBlanksShift(s: String, off: nat, r: String, i: nat)
    requires Shifted(s, off, r) && i <= |r|
    ensures SkipBlanks(s, off + i) == off + SkipBlanks(r, i)
    decreases |r| - i
  {
    if i < |r| {
      assert s[off + i] == r[i];
      if IsSpace(r[i]) {
        SkipBlanksShift(s, off, r, i + 1);
      }
    }
  }

  lemma {:induction false} WordEndShift(s: String, off: nat, r: String, i: nat)
    requires Shifted(s, off, r) && i <= |r|
    ensures WordEnd(s, off + i) == off + WordEnd(r, i)
    decreases |r| - i
  {
    if i < |r| {
      assert s[off + i] == r[i];
      if !IsSpace(r[i]) {
        WordEndShift(s, off, r, i + 1);
      }
    }
  }

  /** Text in front of position `off` makes no difference to the words after it. */
  lemma {:induction false} WordsFromShift(s: String, off: nat, r: String, i: nat)
    requires Shifted(s, off, r) && i <= |r|
    ensures WordsFrom(s, off + i) == WordsFrom(r, i)
    decreases |r| - i
  {
    SkipBlanksShift(s, off, r, i);
    var j := SkipBlanks(r, i);
    if j < |r| {
      var e := WordEnd(r, j);
      WordsFromShift(s, off, r, e);
      WordsFromShiftStep(s, off, r, i, j, e);
    } else {
      WordsFromEnd(s, off + i);
      WordsFromEnd(r, i);
    }
  }

  lemma WordsFromShiftStep(s: String, off: nat, r: String, i: nat, j: nat, e: nat)
    requires Shifted(s, off, r) && i <= |r| && j == SkipBlanks(r, i) && j < |r| && e == WordEnd(r, j)
    requires SkipBlanks(s, off + i) == off + j
    requires WordsFrom(s, off + e) == WordsFrom(r, e)
    ensures WordsFrom(s, off + i) == WordsFrom(r, i)
  {
    WordEndShift(s, off, r, j);
    SliceShift(s, off, r, j, e);
    WordsFromStep(s, off + i, off + j, off + e, r, i, j, e);
  }

  lemma {:induction false} WordsFromEnd(s: String, i: nat)
    requires i <= |s| && SkipBlanks(s, i) == |s|
    ensures WordsFrom(s, i) == []
  {
  }

  /** Two positions that start the same word and are followed by the same words give the same words. */
  lemma {:induction false} WordsFromStep(s: String, i1: nat, j1: nat, e1: nat, r: String, i: nat, j: nat, e: nat)
    requires i1 <= |s| && j1 == SkipBlanks(s, i1) && j1 < |s| && e1 == WordEnd(s, j1)
    requires i <= |r| && j == SkipBlanks(r, i) && j < |r| && e == WordEnd(r, j)
    requires s[j1..e1] == r[j..e] && WordsFrom(s, e1) == WordsFrom(r, e)
    ensures WordsFrom(s, i1) == WordsFrom(r, i)
  {
    WordsFromConsAt(s, i1, j1, e1);
    WordsFromConsAt(r, i, j, e);
    ConsEqual(WordsFrom(s, i1), s[j1..e1], WordsFrom(s, e1), WordsFrom(r, i), r[j..e], WordsFrom(r, e));
  }

  lemma ConsEqual(x: seq<String>, a: String, b: seq<String>, y: seq<String>, a2: String, b2: seq<String>)
    requires x == [a] + b && y == [a2] + b2 && a == a2 && b == b2
    ensures x == y
  {
  }

  lemma {:induction false} WordsFromConsAt(s: String, i: nat, j: nat, e: nat)
    requires i <= |s| && j == SkipBlanks(s, i) && j < |s| && e == WordEnd(s, j)
    ensures WordsFrom(s, i) == [s[j..e]] + WordsFrom(s, e)
  {
  }

  lemma ShiftedAppend(p: String, r: String)
    ensures Shifted(p + r, |p|, r)
  {
  }

  lemma ShiftedSuffix(s: String, i: nat)
    requires i <= |s|
    ensures Shifted(s, i, s[i..])
  {
  }

  lemma SliceShift(s: String, off: nat, r: String, a: nat, b: nat)
    requires Shifted(s, off, r) && a <= b <= |r|
    ensures s[off + a..off + b] == r[a..b]
  {
    assert forall m :: 0 <= m < b - a ==> s[off + a..off + b][m] == r[a..b][m];
  }

  /** The words from position `i` are the words of the suffix `s[i..]`. */
  lemma WordsOfSuffix(s: String, i: nat)
    requires i <= |s|
    ensures WordsFrom(s, i) == Words(s[i..])
  {
    ShiftedSuffix(s, i);
    WordsFromShift(s, i, s[i..], 0);
  }

  lemma {:induction false} WordEndOfWord(w: String, rest: String, i: nat)
    requires IsWord(w) && i <= |w|
    requires rest == [] || IsSpace(rest[0])
    ensures WordEnd(w + rest, i) == |w|
    decreases |w| - i
  {
    if i < |w| {
      assert (w + rest)[i] == w[i];
      WordEndOfWord(w, rest, i + 1);
    } else if rest != [] {
      assert (w + rest)[i] == rest[0];
    }
  }

  /** A word followed by a blank or by nothing is the first word. */
  lemma WordsOfWordThen(w: String, rest: String)
    requires IsWord(w)
    requires rest == [] || IsSpace(rest[0])
    ensures Words(w + rest) == [w] + Words(rest)
  {
    var j := w + rest;
    assert j[0] == w[0];
    WordEndOfWord(w, rest, 0);
    assert j[0..|w|] == w;
    ShiftedAppend(w, rest);
    WordsFromShift(j, |w|, rest, 0);
  }

  lemma WordsOfBlankThen(c: char, s: String)
    requires IsSpace(c)
    ensures Words([c] + s) == Words(s)
  {
    var t := [c] + s;
    assert t[0] == c;
    assert SkipBlanks(t, 0) == SkipBlanks(t, 1);
    WordsFromSameSkip(t, 0, 1);
    ShiftedAppend([c], s);
    WordsFromShift(t, 1, s, 0);
  }

  lemma WordsOfStripLeft(s: String)
    ensures Words(StripLeft(s)) == Words(s)
  {
    var d := SkipBlanks(s, 0);
    assert SkipBlanks(s, d) == d;
    WordsFromSameSkip(s, 0, d);
    WordsOfSuffix(s, d);
  }

  /**
   * `s.split(None, 1)`: the first word and, when more text follows, the rest of the
   * string after the blanks that end that word (its own trailing blanks kept).
   */
  function SplitFirstWord(s: String): (parts: seq<String>)
    ensures |parts| <= 2
  {
    var j := SkipBlanks(s, 0);
    if j == |s| then []
    else
      var e := WordEnd(s, j);
      var r := SkipBlanks(s, e);
      if r == |s| then [s[j..e]] else [s[j..e], s[r..]]
  }

  /** The first part is the first word and the rest splits into exactly the remaining words. */
  lemma SplitFirstWordSpec(s: String)
    ensures var parts := SplitFirstWord(s);
      (parts == [] <==> IsBlank(s))
      && (|parts| >= 1 ==> IsWord(parts[0]) && Words(s)[0] == parts[0])
      && (|parts| == 1 ==> Words(s) == [parts[0]])
      && (|parts| == 2 ==> parts[1] != [] && !IsSpace(parts[1][0]) && Words(s) == [parts[0]] + Words(parts[1]))
  {
    WordsEmptyIffBlank(s);
    var j := SkipBlanks(s, 0);
    if j == |s| {
      WordsFromEnd(s, 0);
    } else {
      var e := WordEnd(s, j);
      var r := SkipBlanks(s, e);
      WordsFromCons(s, 0);
      WordAtIsWord(s, j);
      SkipBlanksAll(s, e);
      WordsFromSkip(s, e, r);
      if r == |s| {
        WordsFromEnd(s, r);
      } else {
        WordsOfSuffix(s, r);
      }
    }
  }

  lemma {:induction false} WordsFromCons(s: String, i: nat)
    requires i <= |s| && SkipBlanks(s, i) < |s|
    ensures WordsFrom(s, i) == [s[SkipBlanks(s, i)..WordEnd(s, SkipBlanks(s, i))]] + WordsFrom(s, WordEnd(s, SkipBlanks(s, i)))
  {
  }

  /** The run that starts at a word character is a word. */
  lemma WordAtIsWord(s: String, j: nat)
    requires j < |s| && !IsSpace(s[j])
    ensures IsWord(s[j..WordEnd(s, j)])
  {
    WordEndAll(s, j);
    assert forall m :: 0 <= m < WordEnd(s, j) - j ==> s[j..WordEnd(s, j)][m] == s[j + m];
  }

  /** Position of the first `c` in `s` (Python `s.index(c)`). */
  function IndexOf(s: String, c: char): (i: nat)
    requires c in s
    ensures i < |s| && s[i] == c && c !in s[..i]
  {
    if s[0] == c then 0
    else
      var j := IndexOf(s[1..], c);
      assert s[..j + 1] == [s[0]] + s[1..][..j];
      j + 1
  }

  /** `sep.join(parts)`. */
  function Join(sep: String, parts: seq<String>): String
  {
    if |parts| == 0 then []
    else if |parts| == 1 then parts[0]
    else parts[0] + sep + Join(sep, parts[1..])
  }

  // ---------------------------------------------------------------- join of words

  /** Splitting words joined by single spaces gives the words back. */
  lemma {:induction false} WordsOfJoin(ws: seq<String>)
    requires forall k :: 0 <= k < |ws| ==> IsWord(ws[k])
    ensures Words(Join(" ", ws)) == ws
  {
    if |ws| == 1 {
      WordsOfWordThen(ws[0], []);
      assert ws[0] + [] == ws[0];
    } else if |ws| > 1 {
      var tail := ws[1..];
      WordsOfJoin(tail);
      WordsOfJoinStep(ws[0], tail);
      assert ws == [ws[0]] + tail;
    }
  }

  lemma WordsOfJoinStep(w: String, tail: seq<String>)
    requires IsWord(w) && tail != []
    ensures Words(Join(" ", [w] + tail)) == [w] + Words(Join(" ", tail))
  {
    var rest := Join(" ", tail);
    assert ([w] + tail)[1..] == tail;
    assert Join(" ", [w] + tail) == w + (" " + rest);
    WordsOfWordThen(w, " " + rest);
    WordsOfBlankThen(' ', rest);
  }

  /** Words joined by single spaces have no blank at either end. */
  lemma {:induction false} JoinWordsTrimmed(ws: seq<String>)
    requires forall k :: 0 <= k < |ws| ==> IsWord(ws[k])
    ensures Trimmed(Join(" ", ws))
    ensures ws != [] ==> Join(" ", ws) != [] && Join(" ", ws)[0] == ws[0][0]
  {
    if |ws| > 1 {
      JoinWordsTrimmed(ws[1..]);
      var j := Join(" ", ws);
      assert j == ws[0] + " " + Join(" ", ws[1..]);
    }
  }

  /** Every character of words joined by single spaces is a word character or a space. */
  lemma {:induction false} JoinWordsChars(ws: seq<String>, c: char)
    requires forall k :: 0 <= k < |ws| ==> IsWord(ws[k])
    requires c in Join(" ", ws)
    ensures c == ' ' || exists k, i :: 0 <= k < |ws| && 0 <= i < |ws[k]| && ws[k][i] == c
  {
    if |ws| == 1 {
      var i :| 0 <= i < |ws[0]| && ws[0][i] == c;
    } else if |ws| > 1 {
      var rest := Join(" ", ws[1..]);
      assert Join(" ", ws) == ws[0] + " " + rest;
      if c in ws[0] {
        var i :| 0 <= i < |ws[0]| && ws[0][i] == c;
      } else if c != ' ' {
        assert c in rest;
        JoinWordsChars(ws[1..], c);
        var k, i :| 0 <= k < |ws[1..]| && 0 <= i < |ws[1..][k]| && ws[1..][k][i] == c;
        assert ws[k + 1][i] == c;
      }
    }
  }

  /** Between two characters of a single-space join there is never a second space. */
  lemma {:induction false} JoinWordsSingleSpaced(ws: seq<String>)
    requires forall k :: 0 <= k < |ws| ==> IsWord(ws[k])
    ensures SingleSpaced(Join(" ", ws))
  {
    if |ws| > 1 {
      var rest := Join(" ", ws[1..]);
      var w := ws[0];
      var j := w + " " + rest;
      assert Join(" ", ws) == j;
      JoinWordsSingleSpaced(ws[1..]);
      JoinWordsTrimmed(ws[1..]);
      forall i | 0 <= i < |j| - 1
        ensures j[i] == ' ' ==> j[i + 1] != ' '
      {
        if i < |w| {
          assert j[i] == w[i];
        } else if i == |w| {
          assert j[i + 1] == rest[0];
        } else {
          assert j[i] == rest[i - |w| - 1];
          assert j[i + 1] == rest[i - |w|];
        }
      }
    }
  }

  /** Blanks after position `n` make no difference to where the blanks from `i` end. */
  lemma {:induction false} SkipBlanksPrefix(s: String, n: nat, i: nat)
    requires i <= n <= |s|
    requires forall m :: n <= m < |s| ==> IsSpace(s[m])
    ensures SkipBlanks(s, i) == if SkipBlanks(s[..n], i) == n then |s| else SkipBlanks(s[..n], i)
    decreases n - i
  {
    if i < n && IsSpace(s[i]) {
      assert s[..n][i] == s[i];
      SkipBlanksPrefix(s, n, i + 1);
    } else if i == n {
      SkipBlanksSkip(s, n, |s|);
    } else {
      assert s[..n][i] == s[i];
    }
  }

  /** A word inside the prefix `s[..n]` ends at the same place when blanks follow `n`. */
  lemma {:induction false} WordEndPrefix(s: String, n: nat, i: nat)
    requires i <= n <= |s|
    requires n == |s| || IsSpace(s[n])
    ensures WordEnd(s, i) == WordEnd(s[..n], i)
    decreases n - i
  {
    if i < n {
      assert s[..n][i] == s[i];
      if !IsSpace(s[i]) {
        WordEndPrefix(s, n, i + 1);
      }
    }
  }

  /** Trailing blanks make no difference to the words. */
  lemma {:induction false} WordsFromPrefix(s: String, n: nat, i: nat)
    requires i <= n <= |s|
    requires forall m :: n <= m < |s| ==> IsSpace(s[m])
    ensures WordsFrom(s, i) == WordsFrom(s[..n], i)
    decreases n - i
  {
    var t := s[..n];
    SkipBlanksPrefix(s, n, i);
    var j := SkipBlanks(t, i);
    if j == n {
      WordsFromEnd(s, i);
      WordsFromEnd(t, i);
    } else {
      WordEndPrefix(s, n, j);
      var e := WordEnd(t, j);
      assert s[j..e] == t[j..e] by {
        assert e <= n;
        forall m | j <= m < e
          ensures s[m] == t[m]
        {
        }
      }
      WordsFromPrefix(s, n, e);
      WordsFromStep(s, i, j, e, t, i, j, e);
    }
  }

  /** `strip()` keeps the words: `s.strip().split() == s.split()`. */
  lemma WordsOfStrip(s: String)
    ensures Words(Strip(s)) == Words(s)
  {
    var t := StripLeft(s);
    var r := StripRight(t);
    StripRightBlanks(t);
    WordsFromPrefix(t, |r|, 0);
    WordsOfStripLeft(s);
  }

  /** No two consecutive `' '`. */
  predicate SingleSpaced(s: String)
  {
    forall i :: 0 <= i < |s| - 1 && s[i] == ' ' ==> s[i + 1] != ' '
  }
}
