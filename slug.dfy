/** The file-name slug that the symbol indexer derives from a panel label:
    lowercase it, replace every maximal run of characters outside `a-z0-9`
    by one underscore, strip leading and trailing underscores, and keep the
    first 80 characters. Also the two fallbacks around it: a panel without
    a label is called "unlabeled", and a preview whose slug is empty is
    named after the panel's position. */
module Slug {
  import opened Common

  predicate IsAlnum(c: char) { 'a' <= c <= 'z' || '0' <= c <= '9' }

  predicate IsSlugChar(c: char) { IsAlnum(c) || c == '_' }

  predicate AllSlugChars(s: string)
  {
    forall i :: 0 <= i < |s| ==> IsSlugChar(s[i])
  }

  /** No two underscores in a row. */
  predicate NoDoubleUnderscore(s: string)
  {
    forall i :: 0 <= i && i + 1 < |s| ==> !(s[i] == '_' && s[i + 1] == '_')
  }

  const MaxSlugLength: nat := 80

  /** The replacement of each maximal run of non-alphanumerics by `_`;
      `inRun` says that the character before `s` was already replaced. */
  function CollapseFrom(s: string, inRun: bool): (r: string)
    ensures AllSlugChars(r) && NoDoubleUnderscore(r)
    ensures inRun && |r| > 0 ==> r[0] != '_'
    decreases |s|
  {
    if s == [] then []
    else if IsAlnum(s[0]) then [s[0]] + CollapseFrom(s[1..], false)
    else if inRun then CollapseFrom(s[1..], true)
    else "_" + CollapseFrom(s[1..], true)
  }

  /** `.replace(/^_+/, '')`: a suffix of `s` with no leading underscore. */
  function TrimStart(s: string): (r: string)
    ensures |r| <= |s| && r == s[|s| - |r|..]
    ensures |r| > 0 ==> r[0] != '_'
    decreases |s|
  {
    if s != [] && s[0] == '_' then TrimStart(s[1..]) else s
  }

  /** `.replace(/_+$/, '')`: a prefix of `s` with no trailing underscore. */
  function TrimEnd(s: string): (r: string)
    ensures |r| <= |s| && r == s[..|r|]
    ensures |r| > 0 ==> r[|r| - 1] != '_'
    decreases |s|
  {
    if s != [] && s[|s| - 1] == '_' then TrimEnd(s[..|s| - 1]) else s
  }

  /** `.substring(0, n)` */
  function Take(s: string, n: nat): (r: string)
    ensures |r| <= n && |r| <= |s| && r == s[..|r|]
    ensures |s| <= n ==> r == s
    ensures |s| > n ==> |r| == n
  {
    if |s| <= n then s else s[..n]
  }

  /** The slug before truncation: lowered, collapsed and trimmed. */
  function Trimmed(text: string): string
  {
    TrimEnd(TrimStart(CollapseFrom(Lower(text), false)))
  }

  /** `slugify(label)`: only letters, digits and single underscores, never
      longer than 80, never starting with `_`, and ending with `_` only
      where the 80-character cut fell right after one. */
  function Slugify(text: string): (slug: string)
    ensures AllSlugChars(slug)
    ensures |slug| <= MaxSlugLength
    ensures NoDoubleUnderscore(slug)
    ensures |slug| > 0 ==> slug[0] != '_'
    ensures |slug| > 0 && slug[|slug| - 1] == '_' ==> |slug| == MaxSlugLength < |Trimmed(text)|
  {
    var collapsed := CollapseFrom(Lower(text), false);
    var trimmed := TrimEnd(TrimStart(collapsed));
    SliceKeepsShape(collapsed, |collapsed| - |TrimStart(collapsed)|, |collapsed|);
    SliceKeepsShape(TrimStart(collapsed), 0, |trimmed|);
    SliceKeepsShape(trimmed, 0, |Take(trimmed, MaxSlugLength)|);
    Take(trimmed, MaxSlugLength)
  }

  lemma SliceKeepsShape(s: string, a: int, b: int)
    requires 0 <= a <= b <= |s|
    requires AllSlugChars(s) && NoDoubleUnderscore(s)
    ensures AllSlugChars(s[a..b]) && NoDoubleUnderscore(s[a..b])
  {
    forall i | 0 <= i && i + 1 < b - a
      ensures !(s[a..b][i] == '_' && s[a..b][i + 1] == '_')
    {
      assert s[a..b][i] == s[a + i] && s[a..b][i + 1] == s[a + i + 1];
    }
  }

  // ---------------------------------------------------------------------
  // The alphanumeric content of a slug
  // ---------------------------------------------------------------------

  /** The letters and digits of `s`, in order. */
  function Alnums(s: string): (r: string)
    ensures |r| <= |s|
    decreases |s|
  {
    if s == [] then []
    else (if IsAlnum(s[0]) then [s[0]] else []) + Alnums(s[1..])
  }

  lemma {:induction false} AlnumsConcat(a: string, b: string)
    ensures Alnums(a + b) == Alnums(a) + Alnums(b)
    decreases |a|
  {
    if a == [] {
      assert a + b == b;
    } else {
      var ab := a + b;
      var head := if IsAlnum(a[0]) then [a[0]] else [];
      assert ab[0] == a[0] && ab[1..] == a[1..] + b;
      assert Alnums(ab) == head + Alnums(a[1..] + b);
      AlnumsConcat(a[1..], b);
      assert Alnums(a) == head + Alnums(a[1..]);
      assert head + (Alnums(a[1..]) + Alnums(b)) == (head + Alnums(a[1..])) + Alnums(b);
    }
  }

  lemma {:induction false} AlnumsCollapse(s: string, inRun: bool)
    ensures Alnums(CollapseFrom(s, inRun)) == Alnums(s)
    decreases |s|
  {
    if s != [] {
      AlnumsCollapse(s[1..], !IsAlnum(s[0]));
      if IsAlnum(s[0]) {
        AlnumsConcat([s[0]], CollapseFrom(s[1..], false));
      } else if !inRun {
        AlnumsConcat("_", CollapseFrom(s[1..], true));
      }
    }
  }

  lemma {:induction false} AlnumsTrimStart(s: string)
    ensures Alnums(TrimStart(s)) == Alnums(s)
    decreases |s|
  {
    if s != [] && s[0] == '_' {
      AlnumsTrimStart(s[1..]);
    }
  }

  lemma {:induction false} AlnumsTrimEnd(s: string)
    ensures Alnums(TrimEnd(s)) == Alnums(s)
    decreases |s|
  {
    if s != [] && s[|s| - 1] == '_' {
      AlnumsTrimEnd(s[..|s| - 1]);
      assert s == s[..|s| - 1] + "_";
      AlnumsConcat(s[..|s| - 1], "_");
    }
  }

  /** The letters and digits of the lowered, collapsed and trimmed label
      are those of the label. */
  lemma AlnumsTrimmed(text: string)
    ensures Alnums(Trimmed(text)) == Alnums(Lower(text))
  {
    var collapsed := CollapseFrom(Lower(text), false);
    AlnumsCollapse(Lower(text), false);
    AlnumsTrimStart(collapsed);
    AlnumsTrimEnd(TrimStart(collapsed));
  }

  /** Deleting the underscores from a slug leaves a prefix of the label's
      lowered letters and digits, and all of them when nothing was cut. */
  lemma SlugContent(text: string)
    ensures var a := Alnums(Lower(text));
      var b := Alnums(Slugify(text));
      |b| <= |a| && b == a[..|b|] && (|Trimmed(text)| <= MaxSlugLength ==> b == a)
  {
    AlnumsTrimmed(text);
    var trimmed := Trimmed(text);
    var slug := Slugify(text);
    assert slug == trimmed[..|slug|];
    assert trimmed == slug + trimmed[|slug|..];
    AlnumsConcat(slug, trimmed[|slug|..]);
  }

  lemma AlnumsOfAlnumStart(s: string)
    requires |s| > 0 && IsAlnum(s[0])
    ensures Alnums(s) != []
  {
  }

  /** The slug is empty exactly when the label has no letter or digit. */
  lemma EmptySlug(text: string)
    ensures Slugify(text) == "" <==> Alnums(Lower(text)) == ""
  {
    var collapsed := CollapseFrom(Lower(text), false);
    var trimmed := Trimmed(text);
    AlnumsTrimmed(text);
    if trimmed != [] {
      SliceKeepsShape(collapsed, |collapsed| - |TrimStart(collapsed)|, |collapsed|);
      SliceKeepsShape(TrimStart(collapsed), 0, |trimmed|);
      assert IsSlugChar(trimmed[0]) && trimmed[0] != '_';
      AlnumsOfAlnumStart(trimmed);
    }
  }

  /** A string that is already a slug. */
  predicate SlugShaped(s: string)
  {
    && AllSlugChars(s)
    && NoDoubleUnderscore(s)
    && (|s| > 0 ==> s[0] != '_' && s[|s| - 1] != '_')
    && |s| <= MaxSlugLength
  }

  lemma {:induction false} CollapseFixesSlugChars(s: string, inRun: bool)
    requires AllSlugChars(s) && NoDoubleUnderscore(s)
    requires inRun && |s| > 0 ==> s[0] != '_'
    ensures CollapseFrom(s, inRun) == s
    decreases |s|
  {
    if s != [] {
      assert NoDoubleUnderscore(s[1..]) by {
        forall i | 0 <= i && i + 1 < |s[1..]|
          ensures !(s[1..][i] == '_' && s[1..][i + 1] == '_')
        {
          assert s[1..][i] == s[i + 1] && s[1..][i + 1] == s[i + 2];
        }
      }
      CollapseFixesSlugChars(s[1..], !IsAlnum(s[0]));
      assert s == [s[0]] + s[1..];
    }
  }

  /** `slugify` leaves a slug as it is. */
  lemma SlugifyFixesSlugs(s: string)
    requires SlugShaped(s)
    ensures Slugify(s) == s
  {
    assert Lower(s) == s;
    CollapseFixesSlugChars(s, false);
  }

  /** The slug of a slug is that slug, unless the 80-character cut left a
      trailing underscore, which the second pass strips. */
  lemma SlugifyIdempotent(text: string)
    requires |Slugify(text)| > 0 ==> Slugify(text)[|Slugify(text)| - 1] != '_'
    ensures Slugify(Slugify(text)) == Slugify(text)
  {
    SlugifyFixesSlugs(Slugify(text));
  }

  /** A label cut after an underscore is not a fixed point: 79 letters, a
      space and a letter. */
  lemma TruncatedSlugNotIdempotent()
    ensures var text := seq(79, _ => 'a') + " b";
      var slug := Slugify(text);
      |slug| == 80 && slug[79] == '_' && Slugify(slug) == slug[..79]
  {
    var letters := seq(79, _ => 'a');
    var text := letters + " b";
    assert text == letters + " " + "b";
    assert Lower(text) == text;
    CollapseSpace(letters, "b");
    var collapsed := letters + "_b";
    assert CollapseFrom(Lower(text), false) == collapsed;
    assert TrimStart(collapsed) == collapsed;
    assert TrimEnd(collapsed) == collapsed;
    var slug := Slugify(text);
    assert slug == collapsed[..80];
    assert slug == letters + "_";
    assert Slugify(slug) == letters by {
      assert Lower(slug) == slug;
      CollapseFixesSlugChars(slug, false);
      assert TrimStart(slug) == slug;
      assert slug[..|slug| - 1] == letters;
      assert TrimEnd(letters) == letters;
      assert TrimEnd(slug) == letters;
    }
    assert slug[..79] == letters;
  }

  lemma {:induction false} CollapseSpace(letters: string, rest: string)
    requires forall i :: 0 <= i < |letters| ==> IsAlnum(letters[i])
    requires forall i :: 0 <= i < |rest| ==> IsAlnum(rest[i])
    ensures CollapseFrom(letters + " " + rest, false) == letters + "_" + rest
    decreases |letters|
  {
    var s := letters + " " + rest;
    if letters == [] {
      assert s == " " + rest;
      CollapseAfterSpace(rest);
    } else {
      var t := letters[1..] + " " + rest;
      assert s[0] == letters[0] && s[1..] == t;
      CollapseSpace(letters[1..], rest);
      assert CollapseFrom(s, false) == [letters[0]] + CollapseFrom(t, false);
      assert letters + "_" + rest == [letters[0]] + (letters[1..] + "_" + rest);
    }
  }

  lemma CollapseAfterSpace(rest: string)
    requires forall i :: 0 <= i < |rest| ==> IsAlnum(rest[i])
    ensures CollapseFrom(" " + rest, false) == "_" + rest
  {
    var s := " " + rest;
    assert s[0] == ' ' && s[1..] == rest;
    AlnumsAreSlugShaped(rest);
    CollapseFixesSlugChars(rest, true);
  }

  lemma AlnumsAreSlugShaped(s: string)
    requires forall i :: 0 <= i < |s| ==> IsAlnum(s[i])
    ensures AllSlugChars(s) && NoDoubleUnderscore(s) && (|s| > 0 ==> s[0] != '_')
  {
  }

  // ---------------------------------------------------------------------
  // The fallbacks around the slug
  // ---------------------------------------------------------------------

  /** `extractEnglishLabel($, $switch) || 'unlabeled'`: no label, or an
      empty one, becomes "unlabeled". */
  function LabelOr(extracted: Option<string>): (text: string)
    ensures text != ""
    ensures extracted.Some? && extracted.value != "" ==> text == extracted.value
    ensures extracted.None? || extracted.value == "" ==> text == "unlabeled"
  {
    match extracted
    case Some(l) => if l != "" then l else "unlabeled"
    case None => "unlabeled"
  }

  /** An unlabeled panel's slug is "unlabeled". */
  lemma UnlabeledSlug()
    ensures Slugify(LabelOr(None)) == "unlabeled"
  {
    SlugifyFixesSlugs("unlabeled");
  }

  /** The decimal numeral of `n`, as `String(n)` writes it. */
  function NatToDecimal(n: nat): (s: string)
    ensures |s| > 0
    ensures forall i :: 0 <= i < |s| ==> '0' <= s[i] <= '9'
    ensures n < 10 <==> |s| == 1
  {
    if n < 10 then [Digit(n)] else NatToDecimal(n / 10) + [Digit(n % 10)]
  }

  function Digit(d: nat): (c: char)
    requires d < 10
    ensures '0' <= c <= '9' && c as int - '0' as int == d
  {
    ('0' as int + d) as char
  }

  /** Distinct numbers have distinct numerals. */
  lemma {:induction false} NatToDecimalInjective(a: nat, b: nat)
    requires NatToDecimal(a) == NatToDecimal(b)
    ensures a == b
    decreases a
  {
    var s := NatToDecimal(a);
    if a >= 10 && b >= 10 {
      assert Digit(a % 10) == s[|s| - 1] == Digit(b % 10);
      assert NatToDecimal(a / 10) == s[..|s| - 1] == NatToDecimal(b / 10);
      NatToDecimalInjective(a / 10, b / 10);
    } else if a < 10 && b < 10 {
      assert Digit(a) == Digit(b);
    }
  }

  /** The preview file stem, `slug || 'symbol_' + i`: the slug, or for an
      empty slug a name built from the panel's position. */
  function PreviewStem(slug: string, i: nat): (stem: string)
    ensures stem != ""
    ensures slug != "" ==> stem == slug
  {
    if slug != "" then slug else "symbol_" + NatToDecimal(i)
  }

  /** Panels with empty slugs at different positions get different
      preview files. */
  lemma PreviewStemsDistinct(i: nat, j: nat)
    requires i != j
    ensures PreviewStem("", i) != PreviewStem("", j)
  {
    if PreviewStem("", i) == PreviewStem("", j) {
      assert NatToDecimal(i) == PreviewStem("", i)[7..];
      assert NatToDecimal(j) == PreviewStem("", j)[7..];
      NatToDecimalInjective(i, j);
    }
  }
}
