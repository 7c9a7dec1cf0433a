/** The three slug generators of the admin screens and the slug pattern the forms check.

    - the category dialog (src/pages/genre_management/components/AddCategoryDialog.tsx:50-58)
      lower-cases and trims, drops everything but word characters, white space and
      hyphens, turns white-space runs into one hyphen, collapses hyphen runs, and drops
      one hyphen at each end;
    - the movie dialog (src/pages/movie_management/components/AddMovieDialog.tsx:157-165)
      lower-cases, removes combining marks, keeps only `[a-z0-9]` and white space, turns
      white-space runs into one hyphen and drops every hyphen at either end;
    - the genres page (src/pages/genres/GenresPage.tsx:74-79) lower-cases, turns
      white-space runs into one hyphen and then keeps only `[a-z0-9-]`.

    Each is modelled step for step, as the chain of `replace` calls in the source. */
module Slugs {
  import opened Text

  /** The two classes whose runs the rules rewrite: `\s` and `-`. */
  datatype Run = Spaces | Hyphens

  predicate InRun(c: char, p: Run) {
    match p
    case Spaces => IsSpace(c)
    case Hyphens => c == '-'
  }

  /** Every character of `s` satisfies `q`. */
  predicate All(s: string, q: char -> bool) {
    forall i :: 0 <= i < |s| ==> q(s[i])
  }

  /** No two hyphens stand next to each other. */
  predicate NoDoubleHyphen(s: string) {
    forall i :: 0 <= i < |s| - 1 ==> !(s[i] == '-' && s[i + 1] == '-')
  }

  /** `s` neither starts nor ends with a hyphen. */
  predicate NoEdgeHyphen(s: string) {
    |s| > 0 ==> s[0] != '-' && s[|s| - 1] != '-'
  }

  /** The class `[a-z0-9-]` of the slug pattern. */
  predicate IsSlugChar(c: char) { IsLowerAlnum(c) || c == '-' }

  /** `/^[a-z0-9-]+$/.test(s)`. */
  predicate MatchesSlugPattern(s: string) {
    |s| > 0 && All(s, IsSlugChar)
  }

  /** An underscore anywhere fails the slug pattern. */
  lemma UnderscoreFailsPattern(s: string)
    requires '_' in s
    ensures !MatchesSlugPattern(s)
  {
    var i :| 0 <= i < |s| && s[i] == '_';
    assert !IsSlugChar(s[i]);
  }

  /** The index of the first character at or after `i` outside the class `p`, or `|s|`. */
  function RunEnd(s: string, i: nat, p: Run): (n: nat)
    requires i <= |s|
    ensures i <= n <= |s|
    ensures forall j :: i <= j < n ==> InRun(s[j], p)
    ensures n < |s| ==> !InRun(s[n], p)
    decreases |s| - i
  {
    if i < |s| && InRun(s[i], p) then RunEnd(s, i + 1, p) else i
  }

  /** The index, going back from `j` but not below `lo`, where the run of the class `p`
      that ends at `j` starts. */
  function RunStart(s: string, lo: nat, j: nat, p: Run): (n: nat)
    requires lo <= j <= |s|
    ensures lo <= n <= j
    ensures forall k :: n <= k < j ==> InRun(s[k], p)
    ensures n > lo ==> !InRun(s[n - 1], p)
    decreases j
  {
    if j > lo && InRun(s[j - 1], p) then RunStart(s, lo, j - 1, p) else j
  }

  /** `replace(/x+/g, '-')` on `s[i..]`, where `x` is the class `p`: every maximal run of
      characters in the class becomes one hyphen; the other characters stay, in order. */
  function ReplaceFrom(s: string, i: nat, p: Run): (r: string)
    requires i <= |s|
    ensures |r| == 0 <==> i == |s|
    ensures |r| <= |s| - i
    ensures i < |s| ==> r[0] == (if InRun(s[i], p) then '-' else s[i])
    ensures forall k :: 0 <= k < |r| ==> r[k] == '-' || !InRun(r[k], p)
    decreases |s| - i
  {
    if i == |s| then []
    else if InRun(s[i], p) then "-" + ReplaceFrom(s, RunEnd(s, i + 1, p), p)
    else [s[i]] + ReplaceFrom(s, i + 1, p)
  }

  /** `replace(/x+/g, '-')` on the whole of `s`. */
  function ReplaceRuns(s: string, p: Run): (r: string)
    ensures |r| == 0 <==> |s| == 0
    ensures |r| <= |s|
    ensures |s| > 0 ==> r[0] == (if InRun(s[0], p) then '-' else s[0])
    ensures forall k :: 0 <= k < |r| ==> r[k] == '-' || !InRun(r[k], p)
  {
    ReplaceFrom(s, 0, p)
  }

  lemma AllCons(c: char, t: string, q: char -> bool)
    requires q(c) && All(t, q)
    ensures All([c] + t, q)
  {
    assert forall k :: 0 < k < |t| + 1 ==> ([c] + t)[k] == t[k - 1];
  }

  /** A class that holds of the hyphen and of every character outside the runs holds of
      every character of the result. */
  lemma {:induction false} ReplaceKeepsClass(s: string, i: nat, p: Run, q: char -> bool)
    requires i <= |s| && q('-')
    requires forall j :: i <= j < |s| ==> InRun(s[j], p) || q(s[j])
    ensures All(ReplaceFrom(s, i, p), q)
    decreases |s| - i
  {
    if i < |s| {
      if InRun(s[i], p) {
        ReplaceKeepsClass(s, RunEnd(s, i + 1, p), p, q);
        AllCons('-', ReplaceFrom(s, RunEnd(s, i + 1, p), p), q);
      } else {
        ReplaceKeepsClass(s, i + 1, p, q);
        AllCons(s[i], ReplaceFrom(s, i + 1, p), q);
      }
    }
  }

  lemma ConsNoDoubleHyphen(c: char, t: string)
    requires NoDoubleHyphen(t)
    requires c == '-' && |t| > 0 ==> t[0] != '-'
    ensures NoDoubleHyphen([c] + t)
  {
    var r := [c] + t;
    forall k | 0 < k < |r| - 1 ensures !(r[k] == '-' && r[k + 1] == '-') {
      assert r[k] == t[k - 1] && r[k + 1] == t[k];
    }
  }

  /** When every hyphen of `s` lies in the replaced class, the result has no two hyphens
      side by side: each run became one hyphen, and what follows a run is outside it. */
  lemma {:induction false} ReplaceNoDoubleHyphen(s: string, i: nat, p: Run)
    requires i <= |s|
    requires forall j :: i <= j < |s| ==> s[j] == '-' ==> InRun(s[j], p)
    ensures NoDoubleHyphen(ReplaceFrom(s, i, p))
    decreases |s| - i
  {
    if i < |s| {
      if InRun(s[i], p) {
        var e := RunEnd(s, i + 1, p);
        ReplaceNoDoubleHyphen(s, e, p);
        ConsNoDoubleHyphen('-', ReplaceFrom(s, e, p));
      } else {
        ReplaceNoDoubleHyphen(s, i + 1, p);
        ConsNoDoubleHyphen(s[i], ReplaceFrom(s, i + 1, p));
      }
    }
  }

  /** Replacing runs of a class that does not occur changes nothing. */
  lemma {:induction false} ReplaceAbsent(s: string, i: nat, p: Run)
    requires i <= |s|
    requires forall j :: i <= j < |s| ==> !InRun(s[j], p)
    ensures ReplaceFrom(s, i, p) == s[i..]
    decreases |s| - i
  {
    if i < |s| {
      ReplaceAbsent(s, i + 1, p);
      assert s[i..] == [s[i]] + s[i + 1..];
    }
  }

  /** Collapsing hyphen runs changes nothing when there are no two hyphens side by side. */
  lemma {:induction false} CollapseSingleHyphens(s: string, i: nat)
    requires i <= |s| && NoDoubleHyphen(s)
    ensures ReplaceFrom(s, i, Hyphens) == s[i..]
    decreases |s| - i
  {
    if i < |s| {
      if s[i] == '-' {
        assert RunEnd(s, i + 1, Hyphens) == i + 1 by {
          if i + 1 < |s| { assert s[i + 1] != '-'; }
        }
      }
      CollapseSingleHyphens(s, i + 1);
      assert s[i..] == [s[i]] + s[i + 1..];
    }
  }

  /** Without hyphens in `s`, the last character of the result is a hyphen exactly when
      `s` ends in the class. */
  lemma {:induction false} ReplaceLast(s: string, i: nat, p: Run)
    requires i < |s|
    requires forall j :: i <= j < |s| ==> s[j] != '-'
    ensures var r := ReplaceFrom(s, i, p); r[|r| - 1] == '-' <==> InRun(s[|s| - 1], p)
    decreases |s| - i
  {
    if InRun(s[i], p) {
      var e := RunEnd(s, i + 1, p);
      if e < |s| {
        ReplaceLast(s, e, p);
        LastOfCons('-', ReplaceFrom(s, e, p));
      }
    } else if i + 1 < |s| {
      ReplaceLast(s, i + 1, p);
      LastOfCons(s[i], ReplaceFrom(s, i + 1, p));
    }
  }

  lemma LastOfCons(c: char, t: string)
    requires |t| > 0
    ensures ([c] + t)[|t|] == t[|t| - 1]
  {
  }

  /** A slice of a string without double hyphens has none either. */
  lemma NoDoubleHyphenSlice(s: string, a: int, b: int)
    requires NoDoubleHyphen(s) && 0 <= a <= b <= |s|
    ensures NoDoubleHyphen(s[a..b])
  {
    var t := s[a..b];
    forall i | 0 <= i < |t| - 1 ensures !(t[i] == '-' && t[i + 1] == '-') {
      assert t[i] == s[a + i] && t[i + 1] == s[a + i + 1];
    }
  }

  lemma AllSlice(s: string, q: char -> bool, a: int, b: int)
    requires All(s, q) && 0 <= a <= b <= |s|
    ensures All(s[a..b], q)
  {
    assert forall i :: 0 <= i < b - a ==> s[a..b][i] == s[a + i];
  }

  lemma AllKeep(s: string, keep: char -> bool, q: char -> bool)
    requires All(s, q)
    ensures All(Keep(s, keep), q)
  {
    if |s| > 0 {
      AllSlice(s, q, 1, |s|);
      AllKeep(s[1..], keep, q);
    }
  }

  lemma AllTrim(s: string, q: char -> bool)
    requires All(s, q)
    ensures All(Trim(s), q)
  {
    var r := Trim(s);
    var k :| SliceAt(s, r, k) && IsBlank(s[..k]) && IsBlank(s[k + |r|..]);
    AllSlice(s, q, k, k + |r|);
  }

  // ---------------------------------------------------------------------------------
  // The category dialog's rule

  /** `[\w\s-]`, the characters the category rule keeps. */
  predicate IsCategoryKept(c: char) { IsWordChar(c) || IsSpace(c) || c == '-' }

  /** What a category slug is made of: `[a-z0-9_-]`. */
  predicate IsCategorySlugChar(c: char) { IsLowerAlnum(c) || c == '_' || c == '-' }

  /** `replace(/^-|-$/g, '')`: one hyphen off the front, then one off the back. */
  function StripOneHyphen(s: string): (r: string)
    ensures |r| <= |s|
    ensures |s| > 0 && s[0] == '-' ==> |r| <= |s| - 1 && r == s[1..1 + |r|]
    ensures (|s| == 0 || s[0] != '-') ==> r == s[..|r|]
  {
    var a := if |s| > 0 && s[0] == '-' then s[1..] else s;
    if |a| > 0 && a[|a| - 1] == '-' then a[..|a| - 1] else a
  }

  /** The first steps of the category rule: lower-cased, trimmed and filtered. */
  function CategoryKept(name: string): (r: string)
    ensures All(r, IsCategoryKept)
  {
    Keep(Trim(ToLower(name)), IsCategoryKept)
  }

  /** The category rule up to the last step: white-space runs replaced and hyphen runs
      collapsed. */
  function CategoryCollapsed(name: string): (r: string)
    ensures All(r, IsCategorySlugChar) && NoDoubleHyphen(r)
  {
    var spaced := ReplaceRuns(CategoryKept(name), Spaces);
    CategorySlugClass(name);
    ReplaceNoDoubleHyphen(spaced, 0, Hyphens);
    ReplaceRuns(spaced, Hyphens)
  }

  /** `generateSlug` of the category dialog. Its results are made of `[a-z0-9_-]` and
      have no hyphen at either end and no two hyphens side by side. */
  function CategorySlug(name: string): (r: string)
    ensures All(r, IsCategorySlugChar)
    ensures NoEdgeHyphen(r)
    ensures NoDoubleHyphen(r)
  {
    StripOneHyphenClean(CategoryCollapsed(name));
    StripOneHyphen(CategoryCollapsed(name))
  }

  /** Text of the category slug class has no white space to trim. */
  lemma CategoryTextIsTrimmed(y: string)
    requires All(y, IsCategorySlugChar)
    ensures Trim(y) == y
  {
    if |y| > 0 {
      assert IsCategorySlugChar(y[0]) && IsCategorySlugChar(y[|y| - 1]);
    }
    TrimIdentity(y);
  }

  /** Text of the category slug class matches the slug pattern exactly when it is
      non-empty and free of underscores. */
  lemma CategoryTextMatchesPattern(y: string)
    requires All(y, IsCategorySlugChar)
    ensures MatchesSlugPattern(y) <==> y != "" && '_' !in y
  {
    if '_' in y {
      UnderscoreFailsPattern(y);
    } else {
      assert forall i :: 0 <= i < |y| ==> IsCategorySlugChar(y[i]) && y[i] != '_';
    }
  }

  /** The character class of every stage of the category rule. */
  lemma CategorySlugClass(name: string)
    ensures All(ReplaceRuns(ReplaceRuns(CategoryKept(name), Spaces), Hyphens), IsCategorySlugChar)
  {
    var lowered := ToLower(name);
    assert All(lowered, c => !IsUpper(c));
    AllTrim(lowered, c => !IsUpper(c));
    var trimmed := Trim(lowered);
    var kept := CategoryKept(name);
    AllKeep(trimmed, IsCategoryKept, c => !IsUpper(c));
    assert forall i :: 0 <= i < |kept| ==> IsSpace(kept[i]) || IsCategorySlugChar(kept[i]);
    ReplaceKeepsClass(kept, 0, Spaces, IsCategorySlugChar);
    var spaced := ReplaceRuns(kept, Spaces);
    ReplaceKeepsClass(spaced, 0, Hyphens, IsCategorySlugChar);
  }

  /** Stripping one hyphen at each end of a string without double hyphens leaves none at
      either end, keeps the string's class and adds no double hyphen. */
  lemma StripOneHyphenClean(s: string)
    requires NoDoubleHyphen(s)
    ensures NoEdgeHyphen(StripOneHyphen(s)) && NoDoubleHyphen(StripOneHyphen(s))
    ensures All(s, IsCategorySlugChar) ==> All(StripOneHyphen(s), IsCategorySlugChar)
  {
    var a := if |s| > 0 && s[0] == '-' then s[1..] else s;
    var lo := if |s| > 0 && s[0] == '-' then 1 else 0;
    assert a == s[lo..];
    var r := StripOneHyphen(s);
    var hi := if |a| > 0 && a[|a| - 1] == '-' then |s| - 1 else |s|;
    assert r == s[lo..hi];
    NoDoubleHyphenSlice(s, lo, hi);
    if All(s, IsCategorySlugChar) {
      AllSlice(s, IsCategorySlugChar, lo, hi);
    }
  }

  /** Every string made of `[a-z0-9_-]` with no hyphen at either end and no two side by
      side is its own category slug. */
  lemma CategorySlugFixesCleanSlugs(y: string)
    requires All(y, IsCategorySlugChar) && NoEdgeHyphen(y) && NoDoubleHyphen(y)
    ensures CategorySlug(y) == y
  {
    assert forall i :: 0 <= i < |y| ==> IsCategorySlugChar(y[i]);
    CategoryCollapsedFixes(y);
  }

  /** The category rule's filtering steps leave lower-case text of the kept class, with
      no white space at either end, as it is. */
  lemma CategoryKeptFixes(y: string)
    requires forall i :: 0 <= i < |y| ==> IsCategoryKept(y[i]) && !IsUpper(y[i])
    requires NoEdgeSpace(y)
    ensures CategoryKept(y) == y
  {
    ToLowerIdentity(y);
    TrimIdentity(y);
  }

  /** Up to its last step the category rule leaves lower-case text of the kept class
      with no white space and no double hyphen as it is. */
  lemma CategoryCollapsedFixes(y: string)
    requires forall i :: 0 <= i < |y| ==> IsCategoryKept(y[i]) && !IsUpper(y[i]) && !IsSpace(y[i])
    requires NoDoubleHyphen(y)
    ensures CategoryCollapsed(y) == y
  {
    CategoryKeptFixes(y);
    ReplaceAbsent(y, 0, Spaces);
    CollapseSingleHyphens(y, 0);
  }

  /** Regenerating a category slug from a category slug changes nothing. */
  lemma CategorySlugIdempotent(name: string)
    ensures CategorySlug(CategorySlug(name)) == CategorySlug(name)
  {
    CategorySlugFixesCleanSlugs(CategorySlug(name));
  }

  // ---------------------------------------------------------------------------------
  // The movie dialog's rule

  /** The class `[\u0300-\u036f]`, the combining diacritical marks. */
  predicate IsCombiningMark(c: char) { '\U{0300}' <= c <= '\U{036F}' }

  predicate IsNotCombiningMark(c: char) { !IsCombiningMark(c) }

  /** `[a-z0-9\s]`, the characters the movie rule keeps. */
  predicate IsMovieKept(c: char) { IsLowerAlnum(c) || IsSpace(c) }

  /** `replace(/^-+|-+$/g, '')`: every hyphen off either end. */
  function StripHyphens(s: string): (r: string)
    ensures NoEdgeHyphen(r) && |r| <= |s|
    ensures NoEdgeHyphen(s) ==> r == s
  {
    var a := RunEnd(s, 0, Hyphens);
    s[a..RunStart(s, a, |s|, Hyphens)]
  }

  /** The first steps of the movie rule: lower-cased, unmarked and filtered. */
  function MovieKept(name: string): (r: string)
    ensures All(r, IsMovieKept)
  {
    Keep(Keep(ToLower(name), IsNotCombiningMark), IsMovieKept)
  }

  /** The movie rule up to the last step: white-space runs replaced. */
  function MovieSpaced(name: string): (r: string)
    ensures All(r, IsSlugChar) && NoDoubleHyphen(r)
  {
    var kept := MovieKept(name);
    assert forall i :: 0 <= i < |kept| ==> IsSpace(kept[i]) || IsSlugChar(kept[i]);
    ReplaceKeepsClass(kept, 0, Spaces, IsSlugChar);
    ReplaceNoDoubleHyphen(kept, 0, Spaces);
    ReplaceRuns(kept, Spaces)
  }

  /** `generateSlug` of the movie dialog; `normalize('NFD')` is the identity here, so
      only combining marks already present are removed. Its results match the slug
      pattern whenever they are non-empty, and have no hyphen at either end and no two
      hyphens side by side. */
  function MovieSlug(name: string): (r: string)
    ensures All(r, IsSlugChar)
    ensures NoEdgeHyphen(r)
    ensures NoDoubleHyphen(r)
  {
    MovieSlugClean(MovieSpaced(name));
    StripHyphens(MovieSpaced(name))
  }

  lemma MovieSlugClean(spaced: string)
    requires All(spaced, IsSlugChar) && NoDoubleHyphen(spaced)
    ensures All(StripHyphens(spaced), IsSlugChar) && NoDoubleHyphen(StripHyphens(spaced))
  {
    var a := RunEnd(spaced, 0, Hyphens);
    var b := RunStart(spaced, a, |spaced|, Hyphens);
    AllSlice(spaced, IsSlugChar, a, b);
    NoDoubleHyphenSlice(spaced, a, b);
  }

  /** The movie rule keeps hyphens out of what it reads: regenerating a slug from a
      movie slug drops its hyphens, so the rule is not idempotent. */
  lemma MovieSlugRegeneratedDropsHyphens(name: string)
    ensures MovieSlug(MovieSlug(name)) == Keep(MovieSlug(name), IsLowerAlnum)
  {
    MovieSlugOfSlugText(MovieSlug(name));
  }

  /** On text made of `[a-z0-9-]` the movie rule only drops the hyphens. */
  lemma MovieSlugOfSlugText(y: string)
    requires All(y, IsSlugChar)
    ensures MovieSlug(y) == Keep(y, IsLowerAlnum)
  {
    var k := Keep(y, IsLowerAlnum);
    MovieSpacedOfSlugText(y);
    assert NoEdgeHyphen(k) by {
      if |k| > 0 { assert IsLowerAlnum(k[0]) && IsLowerAlnum(k[|k| - 1]); }
    }
  }

  lemma MovieSpacedOfSlugText(y: string)
    requires All(y, IsSlugChar)
    ensures MovieSpaced(y) == Keep(y, IsLowerAlnum)
  {
    var k := Keep(y, IsLowerAlnum);
    MovieKeptOfSlugText(y);
    assert forall i :: 0 <= i < |k| ==> !IsSpace(k[i]);
    ReplaceAbsent(k, 0, Spaces);
  }

  lemma MovieKeptOfSlugText(y: string)
    requires All(y, IsSlugChar)
    ensures MovieKept(y) == Keep(y, IsLowerAlnum)
  {
    assert forall i :: 0 <= i < |y| ==> IsSlugChar(y[i]) && IsNotCombiningMark(y[i]);
    ToLowerIdentity(y);
    KeepSameOn(y, IsMovieKept, IsLowerAlnum);
  }

  /** The movie rule's filtering steps leave text of the kept class as it is. */
  lemma MovieKeptFixes(y: string)
    requires All(y, IsMovieKept)
    ensures MovieKept(y) == y
  {
    assert forall i :: 0 <= i < |y| ==> IsMovieKept(y[i]) && IsNotCombiningMark(y[i]);
    ToLowerIdentity(y);
  }

  /** Two filters that agree on every character of `s` keep the same characters. */
  lemma KeepSameOn(s: string, a: char -> bool, b: char -> bool)
    requires forall i :: 0 <= i < |s| ==> a(s[i]) == b(s[i])
    ensures Keep(s, a) == Keep(s, b)
  {
    if |s| > 0 {
      assert forall i :: 0 <= i < |s| - 1 ==> s[1..][i] == s[i + 1];
      KeepSameOn(s[1..], a, b);
    }
  }

  /** The hyphen of a slug disappears when the movie rule reads it. */
  lemma MovieSlugOfHyphenated(y: string)
    requires |y| == 3 && IsLowerAlnum(y[0]) && y[1] == '-' && IsLowerAlnum(y[2])
    ensures MovieSlug(y) == [y[0], y[2]]
  {
    assert All(y, IsSlugChar);
    MovieSlugOfSlugText(y);
    KeepMiddleOut(y, IsLowerAlnum);
  }

  lemma KeepMiddleOut(y: string, keep: char -> bool)
    requires |y| == 3 && keep(y[0]) && !keep(y[1]) && keep(y[2])
    ensures Keep(y, keep) == [y[0], y[2]]
  {
    assert y[1..][1..][1..] == [];
  }

  /** On text already made of lower-case letters, digits and white space, with no white
      space at either end, the movie rule is the category rule: both put one hyphen for
      each run of white space. */
  lemma MovieAndCategoryAgreeOnPlainWords(name: string)
    requires All(name, IsMovieKept) && NoEdgeSpace(name)
    ensures MovieSlug(name) == CategorySlug(name)
  {
    PlainWordsMovieSlug(name);
    PlainWordsCategorySlug(name);
  }

  lemma PlainWordsMovieSlug(name: string)
    requires All(name, IsMovieKept) && NoEdgeSpace(name)
    ensures MovieSlug(name) == ReplaceRuns(name, Spaces)
  {
    MovieKeptFixes(name);
    PlainWordsSpacedEdges(name);
  }

  lemma PlainWordsCategorySlug(name: string)
    requires All(name, IsMovieKept) && NoEdgeSpace(name)
    ensures CategorySlug(name) == ReplaceRuns(name, Spaces)
  {
    var spaced := ReplaceRuns(name, Spaces);
    PlainWordsCategoryStages(name);
    PlainWordsSpacedEdges(name);
    assert StripOneHyphen(spaced) == spaced;
  }

  /** Plain words give no hyphen at either end: the first and last characters stay. */
  lemma PlainWordsSpacedEdges(name: string)
    requires All(name, IsMovieKept) && NoEdgeSpace(name)
    ensures NoEdgeHyphen(ReplaceRuns(name, Spaces))
  {
    var spaced := ReplaceRuns(name, Spaces);
    if |name| > 0 {
      assert forall i :: 0 <= i < |name| ==> name[i] != '-' by {
        assert forall i :: 0 <= i < |name| ==> IsMovieKept(name[i]);
      }
      ReplaceLast(name, 0, Spaces);
      assert spaced[0] == name[0];
    }
  }

  /** On plain words the category rule reaches, before its last step, the text with each
      white-space run replaced. */
  lemma PlainWordsCategoryStages(name: string)
    requires All(name, IsMovieKept) && NoEdgeSpace(name)
    ensures CategoryCollapsed(name) == ReplaceRuns(name, Spaces)
  {
    assert forall i :: 0 <= i < |name| ==> IsMovieKept(name[i]) && IsCategoryKept(name[i]) && !IsUpper(name[i]);
    CategoryKeptFixes(name);
    ReplaceNoDoubleHyphen(name, 0, Spaces);
    CollapseSingleHyphens(ReplaceRuns(name, Spaces), 0);
  }

  /** `s` neither starts nor ends with white space. */
  predicate NoEdgeSpace(s: string) {
    |s| > 0 ==> !IsSpace(s[0]) && !IsSpace(s[|s| - 1])
  }

  // ---------------------------------------------------------------------------------
  // The genres page's rule

  /** The genres page's slug rule, applied as the name is typed on a new genre. Its
      results are made of `[a-z0-9-]`. */
  function GenreSlug(value: string): (r: string)
    ensures All(r, IsSlugChar)
    ensures |r| <= |value|
  {
    Keep(ReplaceRuns(ToLower(value), Spaces), IsSlugChar)
  }

  /** Regenerating a genre slug from a genre slug changes nothing. */
  lemma GenreSlugIdempotent(value: string)
    ensures GenreSlug(GenreSlug(value)) == GenreSlug(value)
  {
    var y := GenreSlug(value);
    ToLowerIdentity(y);
    ReplaceAbsent(y, 0, Spaces);
  }

  /** Unlike the other two rules, the genres rule lets a slug start with a hyphen: a
      name that starts with white space gives one. */
  lemma GenreSlugLeadingSpace(value: string)
    requires |value| > 0 && IsSpace(value[0])
    ensures |GenreSlug(value)| > 0 && GenreSlug(value)[0] == '-'
  {
    var lowered := ToLower(value);
    assert lowered[0] == value[0];
    var spaced := ReplaceRuns(lowered, Spaces);
    assert spaced[0] == '-';
    assert Keep(spaced, IsSlugChar) == [spaced[0]] + Keep(spaced[1..], IsSlugChar);
  }

  /** The genres rule also keeps hyphens side by side, which the category rule never
      does: a hyphen followed by white space gives two. */
  lemma GenreSlugHyphenBeforeSpace(value: string)
    requires |value| >= 2 && value[0] == '-' && IsSpace(value[1])
    ensures |GenreSlug(value)| >= 2 && GenreSlug(value)[0] == '-' && GenreSlug(value)[1] == '-'
  {
    var lowered := ToLower(value);
    assert lowered[0] == '-' && IsSpace(lowered[1]);
    HyphenThenSpaceGivesTwoHyphens(lowered);
    KeepLeadingHyphens(ReplaceRuns(lowered, Spaces));
  }

  lemma HyphenThenSpaceGivesTwoHyphens(s: string)
    requires |s| >= 2 && s[0] == '-' && IsSpace(s[1])
    ensures |ReplaceRuns(s, Spaces)| >= 2
    ensures ReplaceRuns(s, Spaces)[0] == '-' && ReplaceRuns(s, Spaces)[1] == '-'
  {
    assert ReplaceRuns(s, Spaces) == [s[0]] + ReplaceFrom(s, 1, Spaces);
  }

  lemma KeepLeadingHyphens(t: string)
    requires |t| >= 2 && t[0] == '-' && t[1] == '-'
    ensures |Keep(t, IsSlugChar)| >= 2 && Keep(t, IsSlugChar)[0] == '-' && Keep(t, IsSlugChar)[1] == '-'
  {
    var u := t[1..];
    assert u[0] == '-';
    assert Keep(t, IsSlugChar) == [t[0]] + Keep(u, IsSlugChar);
    assert Keep(u, IsSlugChar) == [u[0]] + Keep(u[1..], IsSlugChar);
  }
}
