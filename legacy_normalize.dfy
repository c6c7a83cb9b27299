/**
 * The header normalisation of the earlier importer embedded in `_rebuild_phase2.py`:
 * `_normalize` folds the accents away (NFKD, then ASCII only), lowers the text, turns every
 * run of characters other than `a-z` and `0-9` into one `_` and strips `_` from both ends;
 * `_is_ignorable` tells counter columns and unnamed columns apart.
 */
module LegacyNormalize {
  import opened Text
  import opened CharMaps

  /** The characters `[a-z0-9]` the normalised text keeps. */
  predicate SlugChar(c: char) { 'a' <= c <= 'z' || '0' <= c <= '9' }

  /** `re.sub(r"[^a-z0-9]+", "_", s)`: every maximal run of other characters becomes one `_`. */
  function SubRuns(s: String): String
  {
    if s == [] then []
    else
      var n := |s| - 1;
      var prev := SubRuns(s[..n]);
      if SlugChar(s[n]) then prev + [s[n]]
      else if n > 0 && !SlugChar(s[n - 1]) then prev
      else prev + "_"
  }

  /** `s.lstrip("_")`. */
  function DropLeading(s: String): (r: String)
    ensures |r| <= |s| && r == s[|s| - |r|..]
    ensures r != [] ==> r[0] != '_'
  {
    if s != [] && s[0] == '_' then DropLeading(s[1..]) else s
  }

  /** `s.rstrip("_")`. */
  function DropTrailing(s: String): (r: String)
    ensures |r| <= |s| && r == s[..|r|]
    ensures r != [] ==> r[|r| - 1] != '_'
  {
    if s != [] && s[|s| - 1] == '_' then DropTrailing(s[..|s| - 1]) else s
  }

  /** `_normalize(text)`: empty text gives `""`. */
  function Slug(text: String): String
  {
    if text == [] then []
    else DropTrailing(DropLeading(SubRuns(ToLower(Fold(text)))))
  }

  /** Only `[a-z0-9_]`, no `_` at either end and never two `_` in a row. */
  predicate SlugShape(s: String)
  {
    (forall i :: 0 <= i < |s| ==> SlugChar(s[i]) || s[i] == '_')
    && (s != [] ==> s[0] != '_' && s[|s| - 1] != '_')
    && (forall i :: 0 <= i < |s| - 1 && s[i] == '_' ==> s[i + 1] != '_')
  }

  /** No two `_` in a row. */
  predicate NoDoubleUnderscore(s: String)
  {
    forall i :: 0 <= i < |s| - 1 && s[i] == '_' ==> s[i + 1] != '_'
  }

  /** Only `[a-z0-9_]`. */
  predicate SlugChars(s: String)
  {
    forall i :: 0 <= i < |s| ==> SlugChar(s[i]) || s[i] == '_'
  }

  // ---------------------------------------------------------------- the shape of the result

  /**
   * The substitution leaves only `[a-z0-9_]`, never two `_` in a row, and ends in `_` exactly
   * when the text ends in a character outside `[a-z0-9]`.
   */
  lemma {:induction false} SubRunsShape(s: String)
    ensures SlugChars(SubRuns(s)) && NoDoubleUnderscore(SubRuns(s))
    ensures (SubRuns(s) != [] && SubRuns(s)[|SubRuns(s)| - 1] == '_') <==> (s != [] && !SlugChar(s[|s| - 1]))
    ensures SubRuns(s) == [] <==> s == []
  {
    if s != [] {
      var n := |s| - 1;
      SubRunsShape(s[..n]);
      var prev := SubRuns(s[..n]);
      if n > 0 {
        assert s[..n][n - 1] == s[n - 1];
      }
    }
  }

  /** A piece of a string without `__` has none either. */
  lemma SliceNoDouble(s: String, a: nat, b: nat)
    requires a <= b <= |s| && NoDoubleUnderscore(s) && SlugChars(s)
    ensures NoDoubleUnderscore(s[a..b]) && SlugChars(s[a..b])
  {
    forall i | 0 <= i < b - a - 1 && s[a..b][i] == '_'
      ensures s[a..b][i + 1] != '_'
    {
      assert s[a..b][i] == s[a + i] && s[a..b][i + 1] == s[a + i + 1];
    }
    forall i | 0 <= i < b - a
      ensures SlugChar(s[a..b][i]) || s[a..b][i] == '_'
    {
      assert s[a..b][i] == s[a + i];
    }
  }

  /** Stripping `_` from both ends of such text leaves the normalised shape. */
  lemma StripShaped(sub: String)
    requires SlugChars(sub) && NoDoubleUnderscore(sub)
    ensures SlugShape(DropTrailing(DropLeading(sub)))
  {
    var lead := DropLeading(sub);
    SliceNoDouble(sub, |sub| - |lead|, |sub|);
    var r := DropTrailing(lead);
    SliceNoDouble(lead, 0, |r|);
    if r != [] {
      assert r[0] == lead[0];
    }
  }

  /** `_normalize` yields only `[a-z0-9_]`, with no `_` at either end and no `__`. */
  lemma SlugIsShaped(text: String)
    ensures SlugShape(Slug(text))
  {
    if text != [] {
      SubRunsShape(ToLower(Fold(text)));
      StripShaped(SubRuns(ToLower(Fold(text))));
    }
  }

  // ---------------------------------------------------------------- idempotence

  /** Text already in the normalised shape passes the substitution unchanged. */
  lemma {:induction false} SubRunsOfShaped(s: String)
    requires SlugChars(s) && NoDoubleUnderscore(s)
    ensures SubRuns(s) == s
  {
    if s != [] {
      var n := |s| - 1;
      SliceNoDouble(s, 0, n);
      SubRunsOfShaped(s[..n]);
      assert s == s[..n] + [s[n]];
      if !SlugChar(s[n]) && n > 0 {
        assert s[n] == '_';
        assert s[n - 1] != '_';
      }
    }
  }

  /** Folding and lowering leave normalised text unchanged. */
  lemma FoldLowerOfShaped(s: String)
    requires SlugChars(s)
    ensures ToLower(Fold(s)) == s
  {
    FoldAscii(s);
  }

  /** Normalising a normalised name changes nothing: `_normalize` is idempotent. */
  lemma SlugIdempotent(text: String)
    ensures Slug(Slug(text)) == Slug(text)
  {
    SlugIsShaped(text);
    SlugOfShaped(Slug(text));
  }

  /** Text in the normalised shape is its own normalisation. */
  lemma SlugOfShaped(s: String)
    requires SlugShape(s)
    ensures Slug(s) == s
  {
    if s != [] {
      FoldLowerOfShaped(s);
      SubRunsOfShaped(s);
      assert DropLeading(s) == s;
      assert DropTrailing(s) == s;
    }
  }

  // ---------------------------------------------------------------- empty results

  /** The substitution keeps a character of `[a-z0-9]` exactly when the text has one. */
  lemma {:induction false} SubRunsKeepsSlugChars(s: String)
    ensures (exists i :: 0 <= i < |SubRuns(s)| && SlugChar(SubRuns(s)[i])) <==> (exists i :: 0 <= i < |s| && SlugChar(s[i]))
  {
    if s != [] {
      var n := |s| - 1;
      SubRunsKeepsSlugChars(s[..n]);
      var prev := SubRuns(s[..n]);
      assert forall i :: 0 <= i < n ==> s[..n][i] == s[i];
      var r := SubRuns(s);
      if SlugChar(s[n]) {
        assert r == prev + [s[n]];
        assert r[|prev|] == s[n];
      } else {
        assert r == prev || r == prev + "_";
        assert forall i :: 0 <= i < |prev| ==> r[i] == prev[i];
        assert |r| == |prev| + 1 ==> r[|prev|] == '_';
        if i :| 0 <= i < |s| && SlugChar(s[i]) {
          assert i < n && SlugChar(s[..n][i]);
        }
      }
    }
  }

  /** Stripping `_` from both ends keeps every other character. */
  lemma StripKeepsSlugChars(s: String)
    requires SlugChars(s)
    ensures (exists i :: 0 <= i < |DropTrailing(DropLeading(s))| && SlugChar(DropTrailing(DropLeading(s))[i]))
      <==> (exists i :: 0 <= i < |s| && SlugChar(s[i]))
  {
    if i :| 0 <= i < |s| && SlugChar(s[i]) {
      StripKeepsSlugChar(s, i);
    }
    var r := DropTrailing(DropLeading(s));
    if i :| 0 <= i < |r| && SlugChar(r[i]) {
      StripTakesSlugChar(s, i);
    }
  }

  /** A `[a-z0-9]` character survives the stripping of `_`. */
  lemma StripKeepsSlugChar(s: String, i: nat)
    requires i < |s| && SlugChar(s[i])
    ensures exists j :: 0 <= j < |DropTrailing(DropLeading(s))| && SlugChar(DropTrailing(DropLeading(s))[j])
  {
    var lead := DropLeading(s);
    var r := DropTrailing(lead);
    LeadingKeeps(s, i);
    var j := i - (|s| - |lead|);
    assert lead[j] == s[i];
    TrailingKeeps(lead, j);
    assert r[j] == lead[j];
  }

  /** A character of the stripped text is a character of the text. */
  lemma StripTakesSlugChar(s: String, i: nat)
    requires i < |DropTrailing(DropLeading(s))| && SlugChar(DropTrailing(DropLeading(s))[i])
    ensures exists j :: 0 <= j < |s| && SlugChar(s[j])
  {
    var lead := DropLeading(s);
    var r := DropTrailing(lead);
    assert r[i] == lead[i];
    assert lead[i] == s[|s| - |lead| + i];
  }

  /** `lstrip("_")` keeps every character after the first one that is not `_`. */
  lemma {:induction false} LeadingKeeps(s: String, i: nat)
    requires i < |s| && s[i] != '_'
    ensures |s| - |DropLeading(s)| <= i
  {
    if s != [] && s[0] == '_' {
      LeadingKeeps(s[1..], i - 1);
    }
  }

  /** `rstrip("_")` keeps every character before the last one that is not `_`. */
  lemma {:induction false} TrailingKeeps(s: String, i: nat)
    requires i < |s| && s[i] != '_'
    ensures i < |DropTrailing(s)|
  {
    if s != [] && s[|s| - 1] == '_' {
      TrailingKeeps(s[..|s| - 1], i);
    }
  }

  /** The normalised name is empty exactly when the folded, lowered text has no `[a-z0-9]`. */
  lemma SlugEmptyIff(text: String)
    ensures Slug(text) == [] <==> forall i :: 0 <= i < |ToLower(Fold(text))| ==> !SlugChar(ToLower(Fold(text))[i])
  {
    if text != [] {
      var low := ToLower(Fold(text));
      var sub := SubRuns(low);
      SubRunsShape(low);
      SubRunsKeepsSlugChars(low);
      StripKeepsSlugChars(sub);
      var r := Slug(text);
      if r == [] {
        assert !exists i :: 0 <= i < |r| && SlugChar(r[i]);
      } else {
        SlugIsShaped(text);
        assert SlugChar(r[0]);
      }
    } else {
      assert Fold(text) == [];
    }
  }

  // ---------------------------------------------------------------- _is_ignorable

  /** The loop over the stoplist: some entry normalises to the header. */
  predicate PatternHit(patrones: seq<String>, colNormalized: String)
  {
    patrones != [] && (Slug(patrones[0]) == colNormalized || PatternHit(patrones[1..], colNormalized))
  }

  /** `_is_ignorable(col_normalized)`: on the stoplist, empty, or digits only. */
  predicate IsIgnorable(colNormalized: String, ignorar: seq<String>)
  {
    PatternHit(ignorar, colNormalized) || colNormalized == [] || AllDigits(colNormalized)
  }

  /** A header is ignorable exactly when a stoplist entry normalises to it, or it is empty or all digits. */
  lemma {:induction false} IsIgnorableSpec(colNormalized: String, ignorar: seq<String>)
    ensures IsIgnorable(colNormalized, ignorar) <==>
      (exists i :: 0 <= i < |ignorar| && Slug(ignorar[i]) == colNormalized)
      || colNormalized == [] || AllDigits(colNormalized)
  {
    PatternHitSpec(colNormalized, ignorar);
  }

  lemma {:induction false} PatternHitSpec(colNormalized: String, patrones: seq<String>)
    ensures PatternHit(patrones, colNormalized) <==> exists i :: 0 <= i < |patrones| && Slug(patrones[i]) == colNormalized
  {
    if patrones != [] {
      PatternHitSpec(colNormalized, patrones[1..]);
      assert forall i :: 0 < i < |patrones| ==> patrones[i] == patrones[1..][i - 1];
      if i :| 0 <= i < |patrones| && Slug(patrones[i]) == colNormalized {
        if i > 0 {
          assert Slug(patrones[1..][i - 1]) == colNormalized;
        }
      }
    }
  }
}
