/**
 * The two ways the storefront turns a category title into a URL fragment:
 * `normalizeForMatch` (the products page's route lookup) and `slugify` (the
 * categories page's links). Both trim, lower-case, drop every character
 * outside `[a-z0-9\s-]` and turn each white-space run into one `-`; only
 * `slugify` then collapses runs of `-`.
 */
module Slugs {
  import opened Text

  /** `[a-z0-9-]`: the characters a normalised title is made of. */
  predicate SlugChar(c: char) {
    IsLowerLetter(c) || IsDigit(c) || c == '-'
  }

  predicate IsDash(c: char) {
    c == '-'
  }

  predicate AllSlugChars(s: string) {
    forall i :: 0 <= i < |s| ==> SlugChar(s[i])
  }

  /** No `-` is followed by another `-`. */
  predicate NoDoubleDash(s: string) {
    forall i :: 0 <= i < |s| - 1 ==> !(s[i] == '-' && s[i + 1] == '-')
  }

  /** `s.replace(/[^a-z0-9\s-]/g, "")` */
  function Strip(s: string): (r: string)
    ensures |r| <= |s|
  {
    if s == [] then [] else (if SlugChar(s[0]) || IsSpace(s[0]) then [s[0]] else []) + Strip(s[1..])
  }

  /** Drops the leading run of characters satisfying `run`. */
  function SkipRun(s: string, run: char -> bool): (r: string)
    ensures |r| <= |s|
  {
    if s != [] && run(s[0]) then SkipRun(s[1..], run) else s
  }

  /**
   * Replaces every maximal run of characters satisfying `run` by a single
   * `-`: `replace(/\s+/g, "-")` with `run` the white space, `replace(/-+/g, "-")`
   * with `run` the dash.
   */
  function Squeeze(s: string, run: char -> bool): string
    decreases |s|
  {
    if s == [] then []
    else if run(s[0]) then "-" + Squeeze(SkipRun(s[1..], run), run)
    else [s[0]] + Squeeze(s[1..], run)
  }

  /** `normalizeForMatch(title)` */
  function NormalizeForMatch(title: string): string {
    Squeeze(Strip(Lower(Trim(title))), IsSpace)
  }

  /** `slugify(title)` */
  function Slugify(title: string): string {
    Squeeze(NormalizeForMatch(title), IsDash)
  }

  lemma {:induction false} StripSpec(s: string)
    ensures forall i :: 0 <= i < |Strip(s)| ==> SlugChar(Strip(s)[i]) || IsSpace(Strip(s)[i])
    decreases |s|
  {
    if s != [] {
      StripSpec(s[1..]);
    }
  }

  lemma {:induction false} StripFixes(s: string)
    requires AllSlugChars(s)
    ensures Strip(s) == s
    decreases |s|
  {
    if s != [] {
      StripFixes(s[1..]);
    }
  }

  lemma {:induction false} SkipRunSpec(s: string, run: char -> bool)
    ensures SkipRun(s, run) == s[|s| - |SkipRun(s, run)|..]
    ensures SkipRun(s, run) != [] ==> !run(SkipRun(s, run)[0])
    decreases |s|
  {
    if s != [] && run(s[0]) {
      SkipRunSpec(s[1..], run);
    }
  }

  /**
   * Squeezing keeps every character that is not in a run and writes `-` for
   * each run, so whatever property the kept characters and `-` share holds of
   * the whole result.
   */
  lemma {:induction false} SqueezeChars(s: string, run: char -> bool, ok: char -> bool)
    requires ok('-')
    requires forall i :: 0 <= i < |s| ==> ok(s[i]) || run(s[i])
    ensures forall i :: 0 <= i < |Squeeze(s, run)| ==> ok(Squeeze(s, run)[i])
    ensures forall i :: 0 <= i < |Squeeze(s, run)| && run(Squeeze(s, run)[i]) ==> Squeeze(s, run)[i] == '-'
    decreases |s|
  {
    if s != [] {
      if run(s[0]) {
        var t := SkipRun(s[1..], run);
        SkipRunSpec(s[1..], run);
        assert forall i :: 0 <= i < |t| ==> t[i] == s[1..][|s[1..]| - |t| + i];
        SqueezeChars(t, run, ok);
      } else {
        SqueezeChars(s[1..], run, ok);
      }
    }
  }

  /** A squeezed text that starts outside a run starts with that same character. */
  lemma SqueezeHead(s: string, run: char -> bool)
    requires s != [] && !run(s[0])
    ensures Squeeze(s, run) != [] && Squeeze(s, run)[0] == s[0]
  {
  }

  /** Collapsing `-` runs leaves no two dashes side by side. */
  lemma {:induction false} SqueezeDashes(s: string)
    ensures NoDoubleDash(Squeeze(s, IsDash))
    decreases |s|
  {
    if s != [] {
      if IsDash(s[0]) {
        var t := SkipRun(s[1..], IsDash);
        SkipRunSpec(s[1..], IsDash);
        SqueezeDashes(t);
        if t != [] {
          SqueezeHead(t, IsDash);
        }
      } else {
        SqueezeDashes(s[1..]);
      }
    }
  }

  /** Every run-character is a lone `-`: what squeezing leaves. */
  predicate NoRun(s: string, run: char -> bool) {
    forall i :: 0 <= i < |s| && run(s[i]) ==> s[i] == '-' && (i + 1 < |s| ==> !run(s[i + 1]))
  }

  lemma {:induction false} SqueezeFixes(s: string, run: char -> bool)
    requires NoRun(s, run)
    ensures Squeeze(s, run) == s
    decreases |s|
  {
    if s != [] {
      assert NoRun(s[1..], run) by {
        forall i | 0 <= i < |s[1..]| && run(s[1..][i])
          ensures s[1..][i] == '-' && (i + 1 < |s[1..]| ==> !run(s[1..][i + 1]))
        {
          assert s[1..][i] == s[i + 1];
        }
      }
      if run(s[0]) {
        assert SkipRun(s[1..], run) == s[1..];
      }
      SqueezeFixes(s[1..], run);
    }
  }

  /** Lower-casing leaves text without upper-case letters alone. */
  lemma LowerFixesSlug(s: string)
    requires AllSlugChars(s)
    ensures Lower(s) == s
  {
    LowerAt(s);
  }

  /** Text made of `[a-z0-9-]` is its own normal form. */
  lemma NormalizeFixes(s: string)
    requires AllSlugChars(s)
    ensures NormalizeForMatch(s) == s
  {
    assert NoSpaceAtEnds(s);
    TrimFixesNoSpaceAtEnds(s);
    LowerFixesSlug(s);
    StripFixes(s);
    SqueezeFixes(s, IsSpace);
  }

  /** `normalizeForMatch` yields only `[a-z0-9-]`: no upper case, no white space. */
  lemma NormalizeForMatchChars(title: string)
    ensures AllSlugChars(NormalizeForMatch(title))
  {
    var s := Strip(Lower(Trim(title)));
    StripSpec(Lower(Trim(title)));
    SqueezeChars(s, IsSpace, SlugChar);
  }

  /** Normalising twice is normalising once. */
  lemma NormalizeForMatchIdempotent(title: string)
    ensures NormalizeForMatch(NormalizeForMatch(title)) == NormalizeForMatch(title)
  {
    NormalizeForMatchChars(title);
    NormalizeFixes(NormalizeForMatch(title));
  }

  /** A slug is made of `[a-z0-9-]`, without white space and without two dashes in a row. */
  lemma SlugifyChars(title: string)
    ensures AllSlugChars(Slugify(title))
    ensures NoDoubleDash(Slugify(title))
  {
    NormalizeForMatchChars(title);
    SqueezeChars(NormalizeForMatch(title), IsDash, SlugChar);
    SqueezeDashes(NormalizeForMatch(title));
  }

  /** `slugify` is stable: a slug slugifies to itself. */
  lemma SlugifyIdempotent(title: string)
    ensures Slugify(Slugify(title)) == Slugify(title)
  {
    var s := Slugify(title);
    SlugifyChars(title);
    NormalizeFixes(s);
    SqueezeFixes(s, IsDash);
  }

  /** A slug is also a normal form of `normalizeForMatch`, so the route parameter `slugify` builds is unchanged by it. */
  lemma SlugIsNormal(title: string)
    ensures NormalizeForMatch(Slugify(title)) == Slugify(title)
  {
    SlugifyChars(title);
    NormalizeFixes(Slugify(title));
  }

  /** The two agree exactly on the titles whose normal form has no two dashes in a row. */
  lemma SlugAgreement(title: string)
    ensures Slugify(title) == NormalizeForMatch(title) <==> NoDoubleDash(NormalizeForMatch(title))
  {
    var n := NormalizeForMatch(title);
    NormalizeForMatchChars(title);
    SqueezeDashes(n);
    if NoDoubleDash(n) {
      SqueezeFixes(n, IsDash);
    }
  }

  predicate IsAlphanumeric(c: char) {
    IsLowerLetter(c) || IsUpperLetter(c) || IsDigit(c)
  }

  /** A title of letters and digits only is matched and slugged alike: both give its lower-case form. */
  lemma PlainTitle(title: string)
    requires forall i :: 0 <= i < |title| ==> IsAlphanumeric(title[i])
    ensures NormalizeForMatch(title) == Lower(title)
    ensures Slugify(title) == Lower(title)
  {
    PlainHasNoSpaceAtEnds(title);
    TrimFixesNoSpaceAtEnds(title);
    LowerPlain(title);
    PlainFixed(Lower(title));
  }

  lemma PlainHasNoSpaceAtEnds(title: string)
    requires forall i :: 0 <= i < |title| ==> IsAlphanumeric(title[i])
    ensures NoSpaceAtEnds(title)
  {
    if title != [] {
      assert IsAlphanumeric(title[0]) && IsAlphanumeric(title[|title| - 1]);
    }
  }

  lemma LowerPlain(title: string)
    requires forall i :: 0 <= i < |title| ==> IsAlphanumeric(title[i])
    ensures forall i :: 0 <= i < |Lower(title)| ==> IsAlphanumeric(Lower(title)[i]) && !IsUpperLetter(Lower(title)[i])
  {
    LowerAt(title);
    forall i | 0 <= i < |title|
      ensures IsAlphanumeric(Lower(title)[i]) && !IsUpperLetter(Lower(title)[i])
    {
      LowerCharPlain(title[i]);
    }
  }

  lemma LowerCharPlain(c: char)
    requires IsAlphanumeric(c)
    ensures IsAlphanumeric(LowerChar(c)) && !IsUpperLetter(LowerChar(c))
  {
  }

  /** Lower-case letters and digits pass every step of both functions untouched. */
  lemma PlainFixed(low: string)
    requires forall i :: 0 <= i < |low| ==> IsAlphanumeric(low[i]) && !IsUpperLetter(low[i])
    ensures Strip(low) == low && Squeeze(low, IsSpace) == low && Squeeze(low, IsDash) == low
  {
    assert forall i :: 0 <= i < |low| ==> SlugChar(low[i]) && !IsSpace(low[i]) && !IsDash(low[i]);
    StripFixes(low);
    SqueezeFixes(low, IsSpace);
    SqueezeFixes(low, IsDash);
  }

  lemma SpacedTitleTrim()
    ensures Trim("A - B") == "A - B"
  {
  }

  lemma SpacedTitleLower()
    ensures Lower("A - B") == "a - b"
  {
  }

  lemma SpacedTitleStrip()
    ensures Strip("a - b") == "a - b"
  {
  }

  lemma SpacedTitleSpaces()
    ensures Squeeze("a - b", IsSpace) == "a---b"
  {
  }

  lemma SpacedTitleDashes()
    ensures Squeeze("a---b", IsDash) == "a-b"
  {
  }

  /** "A - B" slugifies to `a-b` but normalises to `a---b`. */
  lemma SpacedDashTitle()
    ensures NormalizeForMatch("A - B") == "a---b"
    ensures Slugify("A - B") == "a-b"
  {
    SpacedTitleTrim();
    SpacedTitleLower();
    SpacedTitleStrip();
    SpacedTitleSpaces();
    SpacedTitleDashes();
  }
}
