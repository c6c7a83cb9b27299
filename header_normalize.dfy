/**
 * The header normalisation of `ExcelParser` (`utils/excel_parser.py`): the cleaning every
 * header gets when a sheet is read, and the `normalize` helper of `_auto_map_columns`.
 */
module HeaderNormalize {
  import opened Text
  import opened CharMaps

  /** `str(col).strip().lower().replace(" ", "_")`: the cleaning of headers and `col_clean`. */
  function CleanHeader(t: String): (r: String)
    ensures ' ' !in r
  {
    ReplaceChar(ToLower(Strip(t)), ' ', '_')
  }

  /**
   * `normalize`: the cleaned header folded to ASCII by NFKD, then with every `.`, `°` and
   * `º` removed.
   */
  function Normalize(t: String): String
  {
    RemoveChar(RemoveChar(RemoveChar(Fold(CleanHeader(t)), '.'), '\U{B0}'), '\U{BA}')
  }

  /** `[normalize(a) for a in aliases]`. */
  function NormalizeAll(s: seq<String>): (r: seq<String>)
    ensures |r| == |s| && forall i :: 0 <= i < |s| ==> r[i] == Normalize(s[i])
  {
    seq(|s|, i requires 0 <= i < |s| => Normalize(s[i]))
  }

  predicate Ascii(s: String)
  {
    forall c :: c in s ==> c < '\U{80}'
  }

  /**
   * A normalised header is ASCII without dots. The removal of `°` and `º` never changes
   * anything: NFKD has already turned `º` into `o` and dropped `°` with the other non-ASCII
   * characters.
   */
  lemma NormalizeShape(t: String)
    ensures var r := Normalize(t);
      '.' !in r && Ascii(r) && r == RemoveChar(Fold(CleanHeader(t)), '.')
  {
    var f := Fold(CleanHeader(t));
    var s := RemoveChar(f, '.');
    forall c | c in s
      ensures c < '\U{80}'
    {
      assert c in f;
    }
    assert '\U{B0}' !in s;
    assert '\U{BA}' !in s;
  }

  /** Folding leaves the three characters `x`, `c`, `y` as they are when all are ASCII. */
  lemma Fold3(x: char, c: char, y: char)
    requires x < '\U{80}' && c < '\U{80}' && y < '\U{80}'
    ensures Fold([x, c, y]) == [x, c, y]
  {
    FoldAscii([x, c, y]);
  }

  /** A header with a non-breaking space: the space appears only after folding. */
  lemma NormalizeNotIdempotentNbsp()
    ensures Normalize("a\U{A0}b") == "a b"
    ensures Normalize("a b") == "a_b"
  {
    NbspFirstPass('a', 'b');
    SpaceSecondPass('a', 'b');
  }

  /** Text with blank-free ends, no space and no capital is its own cleaned header. */
  lemma CleanHeaderUnchanged(s: String)
    requires s != [] && !IsSpace(s[0]) && !IsSpace(s[|s| - 1])
    requires forall i :: 0 <= i < |s| ==> s[i] != ' ' && LowerChar(s[i]) == s[i]
    ensures CleanHeader(s) == s
  {
    StripOfTrimmed(s);
    assert ToLower(s) == s;
    assert ReplaceChar(s, ' ', '_') == s;
  }

  lemma NbspFirstPass(x: char, y: char)
    requires 'a' <= x <= 'z' && 'a' <= y <= 'z'
    ensures Normalize([x, '\U{A0}', y]) == [x, ' ', y]
  {
    var s := [x, '\U{A0}', y];
    CleanHeaderUnchanged(s);
    FoldNbsp(x, y);
    NormalizeShape(s);
  }

  lemma FoldNbsp(x: char, y: char)
    requires x < '\U{80}' && y < '\U{80}'
    ensures Fold([x, '\U{A0}', y]) == [x, ' ', y]
  {
    var s := [x, '\U{A0}', y];
    assert FoldChar('\U{A0}') == " ";
    assert s[1..] == ['\U{A0}', y] && s[1..][1..] == [y];
    assert Fold([y]) == [y];
    assert Fold(s[1..]) == [' ', y];
  }

  lemma SpaceSecondPass(x: char, y: char)
    requires 'a' <= x <= 'z' && 'a' <= y <= 'z'
    ensures Normalize([x, ' ', y]) == [x, '_', y]
  {
    var u := [x, ' ', y];
    CleanHeaderSpace(x, y);
    Fold3(x, '_', y);
    NormalizeShape(u);
  }

  lemma CleanHeaderSpace(x: char, y: char)
    requires 'a' <= x <= 'z' && 'a' <= y <= 'z'
    ensures CleanHeader([x, ' ', y]) == [x, '_', y]
  {
    var u := [x, ' ', y];
    assert LowerChar(u[0]) == u[0] && LowerChar(u[1]) == u[1] && LowerChar(u[2]) == u[2];
    CleanHeaderPlain(u);
    var r := ReplaceChar(u, ' ', '_');
    assert r == [x, '_', y] by {
      assert |r| == 3 && r[0] == x && r[1] == '_' && r[2] == y;
    }
  }

  /** Blank-free ends and no capital: cleaning only turns spaces into underscores. */
  lemma CleanHeaderPlain(u: String)
    requires u != [] && !IsSpace(u[0]) && !IsSpace(u[|u| - 1])
    requires forall i :: 0 <= i < |u| ==> LowerChar(u[i]) == u[i]
    ensures CleanHeader(u) == ReplaceChar(u, ' ', '_')
  {
    StripOfTrimmed(u);
    ToLowerUnchanged(u);
  }

  lemma ToLowerUnchanged(s: String)
    requires forall i :: 0 <= i < |s| ==> LowerChar(s[i]) == s[i]
    ensures ToLower(s) == s
  {
  }

  /** A tab before a trailing dot: the dot goes after `strip()`, leaving a blank at the end. */
  lemma NormalizeNotIdempotentDot()
    ensures Normalize("a\t.") == "a\t"
    ensures Normalize("a\t") == "a"
  {
    DotFirstPass('a');
    TabSecondPass('a');
  }

  lemma DotFirstPass(x: char)
    requires 'a' <= x <= 'z'
    ensures Normalize([x, '\t', '.']) == [x, '\t']
  {
    var s := [x, '\t', '.'];
    CleanHeaderUnchanged(s);
    Fold3(x, '\t', '.');
    RemoveTrailingDot(x, '\t');
    NormalizeShape(s);
  }

  lemma RemoveTrailingDot(x: char, y: char)
    requires x != '.' && y != '.'
    ensures RemoveChar([x, y, '.'], '.') == [x, y]
  {
    var s := [x, y, '.'];
    assert s[1..] == [y, '.'] && s[1..][1..] == ['.'];
    assert RemoveChar(['.'], '.') == [];
    assert RemoveChar([y, '.'], '.') == [y];
  }

  lemma TabSecondPass(x: char)
    requires 'a' <= x <= 'z'
    ensures Normalize([x, '\t']) == [x]
  {
    var u := [x, '\t'];
    assert Strip(u) == [x] by {
      assert SkipBlanks(u, 0) == 0;
      assert TrailStart(u, 2) == 1;
    }
    assert ToLower([x]) == [x];
    assert ReplaceChar([x], ' ', '_') == [x];
    FoldAscii([x]);
    NormalizeShape(u);
  }

  /** Normalising brings in no `j`: the folding gives none from another character. */
  lemma NormalizeAddsNoJ(t: String)
    requires 'j' !in t && 'J' !in t
    ensures 'j' !in Normalize(t)
  {
    StripSpec(t);
    var s := Strip(t);
    forall i | 0 <= i < |s|
      ensures s[i] != 'j' && s[i] != 'J'
    {
      assert s[i] == t[|t| - |StripLeft(t)| + i];
    }
    var c := ReplaceChar(ToLower(s), ' ', '_');
    assert 'j' !in c;
    FoldAddsNoJ(c);
  }

  lemma {:induction false} FoldAddsNoJ(s: String)
    requires 'j' !in s
    ensures 'j' !in Fold(s)
  {
    if s != [] {
      assert 'j' !in FoldChar(s[0]);
      assert s[0] in s;
      FoldAddsNoJ(s[1..]);
    }
  }

  /** ASCII text whose only blank is the plain space. */
  predicate PlainAscii(t: String)
  {
    forall c :: c in t ==> c < '\U{80}' && (IsSpace(c) ==> c == ' ')
  }

  /** Text with nothing `strip`, `lower`, `replace` or the folding would change. */
  predicate Settled(r: String)
  {
    forall c :: c in r ==> c < '\U{80}' && !IsSpace(c) && !('A' <= c <= 'Z')
  }

  lemma CleanHeaderOfPlainAscii(t: String)
    requires PlainAscii(t)
    ensures Settled(CleanHeader(t))
  {
    StripSpec(t);
    var s := Strip(t);
    var l := ToLower(s);
    forall c | c in CleanHeader(t)
      ensures c < '\U{80}' && !IsSpace(c) && !('A' <= c <= 'Z')
    {
      var i :| 0 <= i < |CleanHeader(t)| && CleanHeader(t)[i] == c;
      assert s[i] in t;
    }
  }

  lemma NormalizeOfSettled(r: String)
    requires Settled(r) && '.' !in r
    ensures Normalize(r) == r
  {
    forall i | 0 <= i < |r|
      ensures r[i] < '\U{80}' && !IsSpace(r[i]) && !('A' <= r[i] <= 'Z')
    {
      assert r[i] in r;
    }
    assert r == [] || (!IsSpace(r[0]) && !IsSpace(r[|r| - 1]));
    StripOfTrimmed(r);
    assert ToLower(r) == r;
    assert ReplaceChar(r, ' ', '_') == r;
    FoldAscii(r);
    NormalizeShape(r);
  }

  /** On ASCII headers whose only blank is the space, normalising twice is normalising once. */
  lemma NormalizeIdempotentOnPlainAscii(t: String)
    requires PlainAscii(t)
    ensures Normalize(Normalize(t)) == Normalize(t)
  {
    var c := CleanHeader(t);
    CleanHeaderOfPlainAscii(t);
    forall i | 0 <= i < |c|
      ensures c[i] < '\U{80}'
    {
      assert c[i] in c;
    }
    FoldAscii(c);
    NormalizeShape(t);
    var r := Normalize(t);
    assert Settled(r) by {
      forall x | x in r
        ensures x < '\U{80}' && !IsSpace(x) && !('A' <= x <= 'Z')
      {
        assert x in c;
      }
    }
    NormalizeOfSettled(r);
  }
}
