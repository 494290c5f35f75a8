/** Unique org slugs: `generate_unique_slug`. */
module Slug {
  import opened Text

  predicate SlugChar(c: char) { IsLower(c) || IsDigit(c) || c == '-' }

  predicate SlugText(s: string) { forall i :: 0 <= i < |s| ==> SlugChar(s[i]) }

  /** `re.sub(r"[^a-z0-9-]", "", s)`. */
  function KeepSlugChars(s: string): (r: string)
    ensures SlugText(r)
    ensures SlugText(s) ==> r == s
  {
    if s == "" then ""
    else (if SlugChar(s[0]) then [s[0]] else "") + KeepSlugChars(s[1..])
  }

  function StripLeft(s: string): (r: string)
    ensures |r| <= |s| && r == s[|s| - |r|..] && (r != "" ==> r[0] != '-')
    ensures forall k :: 0 <= k < |s| - |r| ==> s[k] == '-'
  {
    if s != "" && s[0] == '-' then
      var r := StripLeft(s[1..]);
      assert forall k :: 0 < k < |s| - |r| ==> s[k] == s[1..][k - 1];
      r
    else s
  }

  function StripRight(s: string): (r: string)
    ensures |r| <= |s| && r == s[..|r|] && (r != "" ==> r[|r| - 1] != '-')
    ensures forall k :: |r| <= k < |s| ==> s[k] == '-'
  {
    if s != "" && s[|s| - 1] == '-' then StripRight(s[..|s| - 1]) else s
  }

  /** `s.strip("-")`: what is left when the hyphens at both ends are gone. */
  function StripHyphens(s: string): (r: string)
    ensures r != "" ==> r[0] != '-' && r[|r| - 1] != '-'
    ensures SlugText(s) ==> SlugText(r)
  {
    StripRight(StripLeft(s))
  }

  /** The base slug of an already slugified name; too short a rest becomes "org". */
  function Base(slugified: string): string {
    var base := StripHyphens(KeepSlugChars(slugified));
    if |base| < 2 then "org" else base
  }

  lemma OrgShape()
    ensures "org"[0] != '-' && "org"[2] != '-' && SlugText("org")
  {
  }

  /** A base slug has the shape `[a-z0-9][a-z0-9-]*[a-z0-9]`. */
  lemma BaseShape(slugified: string)
    ensures var base := Base(slugified);
            |base| >= 2 && base[0] != '-' && base[|base| - 1] != '-' && SlugText(base)
  {
    var base := StripHyphens(KeepSlugChars(slugified));
    assert Base(slugified) == if |base| < 2 then "org" else base;
    hide KeepSlugChars, StripHyphens, Base, SlugText;
    if |base| < 2 { OrgShape(); }
  }

  /** Filtering works letter by letter: a slug character stays, any other goes. */
  lemma {:induction false} KeepSlugCharsAppend(s: string, t: string)
    ensures KeepSlugChars(s + t) == KeepSlugChars(s) + KeepSlugChars(t)
  {
    if s == "" {
      assert s + t == t;
    } else {
      assert (s + t)[0] == s[0] && (s + t)[1..] == s[1..] + t;
      KeepSlugCharsAppend(s[1..], t);
    }
  }

  lemma KeepSlugCharsOne(c: char)
    ensures KeepSlugChars([c]) == if 'a' <= c <= 'z' || '0' <= c <= '9' || c == '-' then [c] else ""
  {
    assert [c][1..] == "";
  }

  /** Only the hyphens at both ends go. */
  lemma StripHyphensMeans(left: nat, core: string, right: nat)
    requires core != "" ==> core[0] != '-' && core[|core| - 1] != '-'
    ensures StripHyphens(Hyphens(left) + (core + Hyphens(right))) == core
  {
    var rest := core + Hyphens(right);
    LeadingHyphensGo(left, rest);
    EndsGo(core, right);
    hide Hyphens, StripLeft, StripRight;
  }

  lemma EndsGo(core: string, n: nat)
    requires core != "" ==> core[0] != '-' && core[|core| - 1] != '-'
    ensures StripRight(StripLeft(core + Hyphens(n))) == core
  {
    var s := core + Hyphens(n);
    hide Hyphens, StripRight;
    if core == "" {
      assert forall k | 0 <= k < |s| :: s[k] == '-';
      OnlyHyphens(s);
      NothingRight(StripLeft(s));
    } else {
      assert s[0] == core[0];
      assert StripLeft(s) == s;
      hide StripLeft;
      TrailingHyphensGo(core, n);
    }
  }

  lemma OnlyHyphens(s: string)
    requires forall k | 0 <= k < |s| :: s[k] == '-'
    ensures StripLeft(s) == ""
  {
    var r := StripLeft(s);
    hide StripLeft;
    assert forall k | 0 <= k < |r| :: r[k] == '-';
  }

  lemma NothingRight(s: string)
    requires s == ""
    ensures StripRight(s) == ""
  {
  }

  lemma {:induction false} LeadingHyphensGo(n: nat, rest: string)
    ensures StripLeft(Hyphens(n) + rest) == StripLeft(rest)
  {
    var s := Hyphens(n) + rest;
    if n == 0 {
      assert s == rest;
    } else {
      assert s[0] == '-' && s[1..] == Hyphens(n - 1) + rest;
      LeadingHyphensGo(n - 1, rest);
    }
  }

  lemma {:induction false} TrailingHyphensGo(core: string, n: nat)
    requires core != "" && core[|core| - 1] != '-'
    ensures StripRight(core + Hyphens(n)) == core
  {
    var s := core + Hyphens(n);
    if n == 0 {
      assert s == core;
    } else {
      assert s[|s| - 1] == '-' && s[..|s| - 1] == core + Hyphens(n - 1);
      TrailingHyphensGo(core, n - 1);
    }
  }

  function Hyphens(n: nat): (r: string)
    ensures |r| == n && forall i | 0 <= i < n :: r[i] == '-'
  {
    if n == 0 then "" else "-" + Hyphens(n - 1)
  }

  /** A name that already is a slug is its own base, so naming is idempotent. */
  lemma BaseOfSlug(s: string)
    requires |s| >= 2 && SlugText(s) && s[0] != '-' && s[|s| - 1] != '-'
    ensures Base(s) == s
  {
    assert KeepSlugChars(s) == s;
    StripHyphensMeans(0, s, 0);
    assert Hyphens(0) + (s + Hyphens(0)) == s;
  }

  lemma BaseTwice(slugified: string)
    ensures Base(Base(slugified)) == Base(slugified)
  {
    BaseShape(slugified);
    BaseOfSlug(Base(slugified));
  }

  function Candidate(base: string, suffix: nat): string { base + "-" + Decimal(suffix) }

  lemma CandidateInjective(base: string, m: nat, n: nat)
    requires Candidate(base, m) == Candidate(base, n)
    ensures m == n
  {
    var prefix := base + "-";
    assert Decimal(m) == Candidate(base, m)[|prefix|..];
    assert Decimal(n) == Candidate(base, n)[|prefix|..];
    DecimalInjective(m, n);
  }

  /** `^base(?:-\d+)?$`, for the slugs that start with `base`. */
  predicate Variant(base: string, slug: string) {
    base <= slug
    && (slug == base
        || (|slug| > |base| + 1 && slug[|base|] == '-'
            && forall i :: |base| < i < |slug| ==> IsDigit(slug[i])))
  }

  lemma BaseIsVariant(base: string)
    ensures Variant(base, base)
  {
  }

  lemma CandidateIsVariant(base: string, suffix: nat)
    ensures Variant(base, Candidate(base, suffix))
  {
    var c := Candidate(base, suffix);
    assert c[..|base|] == base;
    forall i | |base| < i < |c| ensures IsDigit(c[i]) {
      assert c[i] == Decimal(suffix)[i - |base| - 1];
    }
  }

  /** `slug` is the base when it is free, and otherwise the base with the least free suffix from 2. */
  ghost predicate Chosen(base: string, taken: set<string>, slug: string) {
    if base !in taken then slug == base
    else exists n: nat :: n >= 2 && slug == Candidate(base, n) && Candidate(base, n) !in taken
                          && forall m: nat :: 2 <= m < n ==> Candidate(base, m) in taken
  }

  /** The rule picks one slug only. */
  lemma ChosenUnique(base: string, taken: set<string>, slug: string, slug': string)
    requires Chosen(base, taken, slug) && Chosen(base, taken, slug')
    ensures slug == slug'
  {
    hide Candidate;
    if base in taken {
      var n: nat :| n >= 2 && slug == Candidate(base, n) && Candidate(base, n) !in taken
                    && forall m: nat :: 2 <= m < n ==> Candidate(base, m) in taken;
      var n': nat :| n' >= 2 && slug' == Candidate(base, n') && Candidate(base, n') !in taken
                    && forall m: nat :: 2 <= m < n' ==> Candidate(base, m) in taken;
      assert n == n';
    }
  }

  /** `left` still holds every taken candidate with a suffix of `n` or more. */
  ghost predicate Ahead(base: string, taken: set<string>, left: set<string>, n: nat) {
    forall m: nat :: m >= n && Candidate(base, m) in taken ==> Candidate(base, m) in left
  }

  lemma CrossOff(base: string, taken: set<string>, left: set<string>, n: nat)
    requires Ahead(base, taken, left, n) && Candidate(base, n) in taken
    ensures Ahead(base, taken, left - {Candidate(base, n)}, n + 1)
    ensures left - {Candidate(base, n)} < left
  {
    hide Candidate;
    forall m: nat | m >= n + 1 && Candidate(base, m) in taken
      ensures Candidate(base, m) in left - {Candidate(base, n)}
    {
      if Candidate(base, m) == Candidate(base, n) { CandidateInjective(base, m, n); }
    }
  }

  /** The slug the generator settles on, as a function of the table. */
  function UniqueSlug(base: string, taken: set<string>): string {
    if base !in taken then base else Candidate(base, FreeSuffix(base, taken, taken, 2))
  }

  lemma UniqueSlugChosen(base: string, taken: set<string>)
    ensures Chosen(base, taken, UniqueSlug(base, taken))
    ensures UniqueSlug(base, taken) !in taken
  {
    hide Candidate;
    if base in taken {
      var n := FreeSuffix(base, taken, taken, 2);
      assert UniqueSlug(base, taken) == Candidate(base, n);
    }
  }

  /** The least free suffix from `n` on; `left` holds the taken slugs that may still be met. */
  function FreeSuffix(base: string, taken: set<string>, ghost left: set<string>, n: nat): (r: nat)
    requires Ahead(base, taken, left, n)
    ensures r >= n && Candidate(base, r) !in taken
    ensures forall m: nat :: n <= m < r ==> Candidate(base, m) in taken
    decreases left
  {
    if Candidate(base, n) !in taken then n
    else
      CrossOff(base, taken, left, n);
      FreeSuffix(base, taken, left - {Candidate(base, n)}, n + 1)
  }

  /** The suffix loop over the consulted slugs. */
  method PickSuffix(base: string, existing: set<string>) returns (suffix: nat)
    ensures suffix >= 2 && Candidate(base, suffix) !in existing
    ensures forall m: nat :: 2 <= m < suffix ==> Candidate(base, m) in existing
  {
    hide Candidate;
    suffix := 2;
    ghost var left := existing;
    while Candidate(base, suffix) in existing
      invariant suffix >= 2 && Ahead(base, existing, left, suffix)
      invariant forall m: nat :: 2 <= m < suffix ==> Candidate(base, m) in existing
      decreases left
    {
      CrossOff(base, existing, left, suffix);
      left := left - {Candidate(base, suffix)};
      suffix := suffix + 1;
    }
  }

  /** `generate_unique_slug` after slugification. Only the slugs that look like variants of the base
      are consulted, yet the answer is absent from the whole table; the loop ends because distinct
      suffixes print differently and the table is finite. */
  method GenerateUniqueSlug(slugified: string, slugs: set<string>) returns (slug: string)
    ensures Chosen(Base(slugified), slugs, slug)
    ensures slug == UniqueSlug(Base(slugified), slugs)
  {
    hide Base, Candidate, Variant, UniqueSlug;
    var base := Base(slugified);
    var existing := set s | s in slugs && Variant(base, s);
    BaseIsVariant(base);
    if base !in existing {
      slug := base;
    } else {
      var suffix := PickSuffix(base, existing);
      CandidateIsVariant(base, suffix);
      slug := Candidate(base, suffix);
    }
    UniqueSlugChosen(base, slugs);
    ChosenUnique(base, slugs, slug, UniqueSlug(base, slugs));
  }
}
