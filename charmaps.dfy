/**
 * Python's character-by-character string maps used by the importer: `replace`, `lower`,
 * `upper`, and the accent folding of `unicodedata.normalize("NFKD", s)` followed by
 * `encode("ascii", "ignore")`. `lower()` covers ASCII and Latin-1, `upper()` ASCII; the NFKD
 * decomposition is given by a table over Latin-1, and characters above U+00FF are dropped
 * by the folding.
 */
module CharMaps {
  import opened Text

  /** `s.replace(a, b)` for single characters. */
  function ReplaceChar(s: String, a: char, b: char): (r: String)
    ensures |r| == |s|
  {
    seq(|s|, i requires 0 <= i < |s| => if s[i] == a then b else s[i])
  }

  /** `s.replace(c, "")`. */
  function RemoveChar(s: String, c: char): (r: String)
    ensures c !in r
    ensures |r| <= |s|
    ensures forall x :: x in r ==> x in s
    ensures c !in s ==> r == s
  {
    if s == [] then []
    else if s[0] == c then RemoveChar(s[1..], c)
    else [s[0]] + RemoveChar(s[1..], c)
  }

  /** Keeps the characters of `s` that are not in the class `[\x00-\x1f\x7f-\x9f]`. */
  function RemoveControls(s: String): (r: String)
    ensures NoControl(r)
    ensures |r| <= |s|
    ensures NoControl(s) ==> r == s
  {
    if s == [] then []
    else if IsControl(s[0]) then RemoveControls(s[1..])
    else [s[0]] + RemoveControls(s[1..])
  }

  lemma RemoveControlsAppend(a: String, b: String)
    ensures RemoveControls(a + b) == RemoveControls(a) + RemoveControls(b)
  {
    if a != [] {
      assert (a + b)[1..] == a[1..] + b;
      RemoveControlsAppend(a[1..], b);
    } else {
      assert a + b == b;
    }
  }

  function LowerChar(c: char): char
  {
    if 'A' <= c <= 'Z' || ('\U{C0}' <= c <= '\U{DE}' && c != '\U{D7}') then (c as int + 32) as char else c
  }

  /** `s.lower()` (ASCII and Latin-1 capitals). */
  function ToLower(s: String): (r: String)
    ensures |r| == |s|
  {
    seq(|s|, i requires 0 <= i < |s| => LowerChar(s[i]))
  }

  function UpperChar(c: char): char
  {
    if 'a' <= c <= 'z' then (c as int - 32) as char else c
  }

  /** `s.upper()` (ASCII letters). */
  function ToUpper(s: String): (r: String)
    ensures |r| == |s|
  {
    seq(|s|, i requires 0 <= i < |s| => UpperChar(s[i]))
  }

  /**
   * NFKD decomposition of one character followed by dropping every non-ASCII code point
   * (`unicodedata.normalize("NFKD", c).encode("ascii", "ignore")`), over Latin-1.
   */
  function FoldChar(c: char): (r: String)
    ensures forall i :: 0 <= i < |r| ==> r[i] < '\U{80}'
  {
    if c < '\U{80}' then [c]
    else if c == '\U{A0}' || c == '\U{A8}' || c == '\U{AF}' || c == '\U{B4}' || c == '\U{B8}' then " "
    else if c == '\U{AA}' then "a"
    else if c == '\U{BA}' then "o"
    else if c == '\U{B2}' then "2"
    else if c == '\U{B3}' then "3"
    else if c == '\U{B9}' then "1"
    else if c == '\U{BC}' then "14"
    else if c == '\U{BD}' then "12"
    else if c == '\U{BE}' then "34"
    else if '\U{C0}' <= c <= '\U{C5}' then "A"
    else if c == '\U{C7}' then "C"
    else if '\U{C8}' <= c <= '\U{CB}' then "E"
    else if '\U{CC}' <= c <= '\U{CF}' then "I"
    else if c == '\U{D1}' then "N"
    else if '\U{D2}' <= c <= '\U{D6}' then "O"
    else if '\U{D9}' <= c <= '\U{DC}' then "U"
    else if c == '\U{DD}' then "Y"
    else if '\U{E0}' <= c <= '\U{E5}' then "a"
    else if c == '\U{E7}' then "c"
    else if '\U{E8}' <= c <= '\U{EB}' then "e"
    else if '\U{EC}' <= c <= '\U{EF}' then "i"
    else if c == '\U{F1}' then "n"
    else if '\U{F2}' <= c <= '\U{F6}' then "o"
    else if '\U{F9}' <= c <= '\U{FC}' then "u"
    else if c == '\U{FD}' || c == '\U{FF}' then "y"
    else ""
  }

  /** Accent folding of a whole string: the ASCII text NFKD leaves behind. */
  function Fold(s: String): (r: String)
    ensures forall i :: 0 <= i < |r| ==> r[i] < '\U{80}'
  {
    if s == [] then [] else FoldChar(s[0]) + Fold(s[1..])
  }

  lemma FoldAppend(a: String, b: String)
    ensures Fold(a + b) == Fold(a) + Fold(b)
  {
    if a != [] {
      assert (a + b)[1..] == a[1..] + b;
      FoldAppend(a[1..], b);
      calc {
        Fold(a + b);
        FoldChar(a[0]) + Fold(a[1..] + b);
        FoldChar(a[0]) + (Fold(a[1..]) + Fold(b));
        (FoldChar(a[0]) + Fold(a[1..])) + Fold(b);
      }
    } else {
      assert a + b == b;
    }
  }

  /** Folding leaves ASCII text untouched. */
  lemma {:induction false} FoldAscii(s: String)
    requires forall i :: 0 <= i < |s| ==> s[i] < '\U{80}'
    ensures Fold(s) == s
  {
    if s != [] {
      assert FoldChar(s[0]) == [s[0]];
      FoldAscii(s[1..]);
    }
  }

}
