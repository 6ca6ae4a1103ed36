/** URL slugs for blog posts (app/api/admin/blogs/route.ts): `generateSlug`
    and the counter loop that makes a slug unique among existing posts. */
module Slug {
  import opened Text
  import opened Seqs

  /** The characters `/[^a-z0-9]+/` does not match. */
  predicate IsSlugChar(c: char) { 'a' <= c <= 'z' || '0' <= c <= '9' }

  /** Only slug characters and hyphens. */
  predicate SlugAlphabet(s: string) {
    forall i :: 0 <= i < |s| ==> IsSlugChar(s[i]) || s[i] == '-'
  }

  /** No two hyphens in a row. */
  predicate NoDoubleHyphen(s: string) {
    forall i :: 0 <= i < |s| - 1 ==> !(s[i] == '-' && s[i + 1] == '-')
  }

  /** A well-formed slug: lower-case letters, digits and single inner hyphens. */
  predicate IsSlug(s: string) {
    SlugAlphabet(s) && NoDoubleHyphen(s) && (|s| > 0 ==> s[0] != '-' && s[|s| - 1] != '-')
  }

  /** `toLowerCase` on one character; only ASCII letters are modelled. */
  function LowerChar(c: char): char {
    if 'A' <= c <= 'Z' then (c as int + 32) as char else c
  }

  function Lower(s: string): (r: string)
    ensures |r| == |s| && forall i :: 0 <= i < |s| ==> r[i] == LowerChar(s[i])
  {
    seq(|s|, i requires 0 <= i < |s| => LowerChar(s[i]))
  }

  /** The combining diacritical marks U+0300..U+036F, which `generateSlug`
      deletes after decomposition. */
  predicate IsCombiningMark(c: char) { 0x300 <= c as int <= 0x36F }

  predicate NotCombiningMark(c: char) { !IsCombiningMark(c) }

  function StripMarks(s: string): string {
    Filter(s, NotCombiningMark)
  }

  /** The letters and digits of `s`, in order. */
  function SlugChars(s: string): string {
    Filter(s, IsSlugChar)
  }

  /** Stripping marks keeps every letter and digit. */
  lemma {:induction false} SlugCharsOfStripMarks(s: string)
    ensures SlugChars(StripMarks(s)) == SlugChars(s)
    decreases |s|
  {
    if |s| > 0 {
      SlugCharsOfStripMarks(s[1..]);
      if NotCombiningMark(s[0]) {
        var t := StripMarks(s);
        assert t == [s[0]] + StripMarks(s[1..]);
        assert t[0] == s[0] && t[1..] == StripMarks(s[1..]);
      }
    }
  }

  /** Drops the rest of a run of non-slug characters. */
  function DropRun(s: string): (r: string)
    ensures |r| <= |s| && r == s[|s| - |r|..]
    ensures |r| > 0 ==> IsSlugChar(r[0])
    ensures SlugChars(r) == SlugChars(s)
  {
    if |s| > 0 && !IsSlugChar(s[0]) then
      var r := DropRun(s[1..]);
      assert SlugChars(s) == SlugChars(s[1..]);
      assert s[1..][|s| - 1 - |r|..] == s[|s| - |r|..];
      r
    else s
  }

  /** `replace(/[^a-z0-9]+/g, '-')`: every maximal run of other characters
      becomes one hyphen. */
  function Hyphenate(s: string): (r: string)
    ensures SlugAlphabet(r) && NoDoubleHyphen(r)
    ensures |s| == 0 <==> |r| == 0
    ensures |s| > 0 && IsSlugChar(s[0]) ==> r[0] == s[0]
    ensures SlugChars(r) == SlugChars(s)
    decreases |s|
  {
    if |s| == 0 then ""
    else if IsSlugChar(s[0]) then
      var h := Hyphenate(s[1..]);
      assert ([s[0]] + h)[1..] == h;
      [s[0]] + h
    else
      var h := Hyphenate(DropRun(s[1..]));
      assert ("-" + h)[1..] == h;
      "-" + h
  }

  function DropLeadingHyphens(s: string): (r: string)
    ensures |r| <= |s| && r == s[|s| - |r|..]
    ensures |r| > 0 ==> r[0] != '-'
  {
    if |s| > 0 && s[0] == '-' then DropLeadingHyphens(s[1..]) else s
  }

  function DropTrailingHyphens(s: string): (r: string)
    ensures |r| <= |s| && r == s[..|r|]
    ensures |r| > 0 ==> r[|r| - 1] != '-'
  {
    if |s| > 0 && s[|s| - 1] == '-' then DropTrailingHyphens(s[..|s| - 1]) else s
  }

  /** `replace(/^-+|-+$/g, '')`. */
  function TrimHyphens(s: string): (r: string)
    ensures |r| > 0 ==> r[0] != '-' && r[|r| - 1] != '-'
    ensures SlugAlphabet(s) ==> SlugAlphabet(r)
    ensures NoDoubleHyphen(s) ==> NoDoubleHyphen(r)
  {
    var a := DropLeadingHyphens(s);
    var r := DropTrailingHyphens(a);
    assert r == s[|s| - |a|..|s| - |a| + |r|];
    r
  }

  /** Trimming hyphens removes no letter or digit. */
  lemma TrimHyphensKeepsSlugChars(s: string)
    ensures SlugChars(TrimHyphens(s)) == SlugChars(s)
  {
    LeadingHyphensHoldNoSlugChar(s);
    TrailingHyphensHoldNoSlugChar(DropLeadingHyphens(s));
  }

  lemma {:induction false} LeadingHyphensHoldNoSlugChar(s: string)
    ensures SlugChars(DropLeadingHyphens(s)) == SlugChars(s)
    decreases |s|
  {
    if |s| > 0 && s[0] == '-' {
      LeadingHyphensHoldNoSlugChar(s[1..]);
    }
  }

  lemma {:induction false} TrailingHyphensHoldNoSlugChar(s: string)
    ensures SlugChars(DropTrailingHyphens(s)) == SlugChars(s)
    decreases |s|
  {
    if |s| > 0 && s[|s| - 1] == '-' {
      TrailingHyphensHoldNoSlugChar(s[..|s| - 1]);
      FilterAppend(s[..|s| - 1], ['-'], IsSlugChar);
      assert s == s[..|s| - 1] + ['-'];
    }
  }

  /** `generateSlug(title)`: lower-case, strip combining marks, turn every run of
      other characters into a hyphen, drop hyphens at both ends. Canonical
      decomposition (`normalize('NFD')`) is taken to have been applied already. */
  function GenerateSlug(title: string): (r: string)
    ensures IsSlug(r)
    ensures SlugChars(r) == SlugChars(Lower(title))
  {
    SlugCharsOfStripMarks(Lower(title));
    TrimHyphensKeepsSlugChars(Hyphenate(StripMarks(Lower(title))));
    TrimHyphens(Hyphenate(StripMarks(Lower(title))))
  }

  lemma {:induction false} HyphenateOfSlugAlphabet(s: string)
    requires SlugAlphabet(s) && NoDoubleHyphen(s)
    ensures Hyphenate(s) == s
    decreases |s|
  {
    if |s| > 0 {
      HyphenateOfSlugAlphabet(s[1..]);
      if !IsSlugChar(s[0]) {
        assert DropRun(s[1..]) == s[1..];
      }
      assert s == [s[0]] + s[1..];
    }
  }

  lemma LowerOfSlugAlphabet(s: string)
    requires SlugAlphabet(s)
    ensures Lower(s) == s
  {
    assert forall i :: 0 <= i < |s| ==> Lower(s)[i] == s[i];
  }

  lemma StripMarksOfSlugAlphabet(s: string)
    requires SlugAlphabet(s)
    ensures StripMarks(s) == s
  {
    FilterAllKept(s, NotCombiningMark);
  }

  lemma TrimHyphensOfSlug(s: string)
    requires IsSlug(s)
    ensures TrimHyphens(s) == s
  {
    assert DropLeadingHyphens(s) == s;
    assert DropTrailingHyphens(s) == s;
  }

  /** A well-formed slug is its own slug. */
  lemma GenerateSlugOfSlug(s: string)
    requires IsSlug(s)
    ensures GenerateSlug(s) == s
  {
    LowerOfSlugAlphabet(s);
    StripMarksOfSlugAlphabet(s);
    HyphenateOfSlugAlphabet(s);
    TrimHyphensOfSlug(s);
  }

  /** Slugging is idempotent. */
  lemma GenerateSlugIdempotent(title: string)
    ensures GenerateSlug(GenerateSlug(title)) == GenerateSlug(title)
  {
    GenerateSlugOfSlug(GenerateSlug(title));
  }

  /** A run of non-slug characters before a slug character (or the end) is
      dropped whole. */
  lemma {:induction false} DropRunOfRun(x: string, b: string)
    requires forall i :: 0 <= i < |x| ==> !IsSlugChar(x[i])
    requires |b| == 0 || IsSlugChar(b[0])
    ensures DropRun(x + b) == b
    decreases |x|
  {
    if |x| == 0 {
      assert x + b == b;
    } else {
      assert (x + b)[1..] == x[1..] + b;
      DropRunOfRun(x[1..], b);
    }
  }

  /** Dropping a run inside a string that ends in a slug character does not
      reach past its end. */
  lemma {:induction false} DropRunAppend(a: string, rest: string)
    requires |a| > 0 && IsSlugChar(a[|a| - 1])
    ensures DropRun(a + rest) == DropRun(a) + rest
    decreases |a|
  {
    if !IsSlugChar(a[0]) {
      assert (a + rest)[1..] == a[1..] + rest;
      DropRunAppend(a[1..], rest);
    }
  }

  /** Hyphenating splits at a boundary between a slug character and any
      other character: each side is hyphenated on its own. */
  lemma {:induction false} HyphenateAppend(a: string, y: string)
    requires |a| == 0 || IsSlugChar(a[|a| - 1])
    requires |y| == 0 || !IsSlugChar(y[0])
    ensures Hyphenate(a + y) == Hyphenate(a) + Hyphenate(y)
    decreases |a|, 1
  {
    if |a| == 0 {
      assert a + y == y;
    } else if IsSlugChar(a[0]) {
      AppendAfterSlugChar(a, y);
    } else {
      AppendAfterOtherRun(a, y);
    }
  }

  lemma {:induction false} AppendAfterSlugChar(a: string, y: string)
    requires |a| > 0 && IsSlugChar(a[0]) && IsSlugChar(a[|a| - 1])
    requires |y| == 0 || !IsSlugChar(y[0])
    ensures Hyphenate(a + y) == Hyphenate(a) + Hyphenate(y)
    decreases |a|, 0
  {
    var t := a + y;
    assert t[0] == a[0] && t[1..] == a[1..] + y;
    HyphenateAppend(a[1..], y);
    var h := Hyphenate(a[1..]);
    assert Hyphenate(t) == [a[0]] + (h + Hyphenate(y));
    assert Hyphenate(a) == [a[0]] + h;
    ConcatAssoc([a[0]], h, Hyphenate(y));
  }

  lemma {:induction false} AppendAfterOtherRun(a: string, y: string)
    requires |a| > 0 && !IsSlugChar(a[0]) && IsSlugChar(a[|a| - 1])
    requires |y| == 0 || !IsSlugChar(y[0])
    ensures Hyphenate(a + y) == Hyphenate(a) + Hyphenate(y)
    decreases |a|, 0
  {
    var t := a + y;
    assert t[0] == a[0] && t[1..] == a[1..] + y;
    DropRunAppend(a[1..], y);
    var d := DropRun(a[1..]);
    assert d[|d| - 1] == a[|a| - 1];
    HyphenateAppend(d, y);
    assert Hyphenate(t) == "-" + (Hyphenate(d) + Hyphenate(y));
    assert Hyphenate(a) == "-" + Hyphenate(d);
    ConcatAssoc("-", Hyphenate(d), Hyphenate(y));
  }

  /** A run of non-slug characters followed by a slug character (or
      nothing) becomes one hyphen. */
  lemma HyphenateOfRun(x: string, b: string)
    requires |x| > 0 && forall i :: 0 <= i < |x| ==> !IsSlugChar(x[i])
    requires |b| == 0 || IsSlugChar(b[0])
    ensures Hyphenate(x + b) == "-" + Hyphenate(b)
  {
    var t := x + b;
    assert t[0] == x[0] && t[1..] == x[1..] + b;
    DropRunOfRun(x[1..], b);
  }

  /** Where the hyphens go: a maximal run `x` of non-slug characters, with a
      slug character (or nothing) on each side, becomes exactly one hyphen
      between what the two sides become. */
  lemma HyphenateSplitsAtRun(a: string, x: string, b: string)
    requires |a| == 0 || IsSlugChar(a[|a| - 1])
    requires |x| > 0 && forall i :: 0 <= i < |x| ==> !IsSlugChar(x[i])
    requires |b| == 0 || IsSlugChar(b[0])
    ensures Hyphenate(a + (x + b)) == Hyphenate(a) + "-" + Hyphenate(b)
  {
    HyphenateAppend(a, x + b);
    HyphenateOfRun(x, b);
    ConcatAssoc(Hyphenate(a), "-", Hyphenate(b));
  }

  lemma ConcatAssoc(u: string, v: string, w: string)
    ensures u + (v + w) == u + v + w
  {
  }

  /** The k-th name the de-duplication loop tries: the base itself, then
      `${base}-${k}` for k = 1, 2, ... */
  function Candidate(base: string, k: nat): (r: string)
    ensures StartsWith(r, base)
  {
    if k == 0 then base else base + "-" + Decimal(k)
  }

  lemma CandidateInjective(base: string, j: nat, k: nat)
    requires Candidate(base, j) == Candidate(base, k)
    ensures j == k
  {
    if j > 0 && k > 0 {
      var cj := Candidate(base, j);
      assert cj[|base| + 1..] == Decimal(j);
      assert Candidate(base, k)[|base| + 1..] == Decimal(k);
      DecimalInjective(j, k);
    }
  }

  /** The first k candidates are k different strings. */
  lemma {:induction false} CandidatesDistinct(base: string, k: nat)
    ensures |set j | 0 <= j < k :: Candidate(base, j)| == k
  {
    if k > 0 {
      CandidatesDistinct(base, k - 1);
      var before := set j | 0 <= j < k - 1 :: Candidate(base, j);
      var now := set j | 0 <= j < k :: Candidate(base, j);
      assert now == before + {Candidate(base, k - 1)};
      if Candidate(base, k - 1) in before {
        var j :| 0 <= j < k - 1 && Candidate(base, j) == Candidate(base, k - 1);
        CandidateInjective(base, j, k - 1);
      }
    }
  }

  /** `slug` is the first candidate for `base` that is not taken. */
  ghost predicate FirstFreeCandidate(slug: string, base: string, taken: set<string>) {
    slug !in taken &&
    exists k: nat :: slug == Candidate(base, k) && forall j :: 0 <= j < k ==> Candidate(base, j) in taken
  }

  /** The loop `while (blogs.some(b => b.slug === finalSlug)) { finalSlug =
      `${slug}-${counter}`; counter++; }`, with `taken` the slugs it tests
      against. It stops after at most |taken| rounds. */
  method UniqueSlug(base: string, taken: set<string>) returns (slug: string)
    ensures slug !in taken
    ensures base !in taken ==> slug == base
    ensures FirstFreeCandidate(slug, base, taken)
  {
    slug := base;
    var counter := 1;
    while slug in taken
      invariant 1 <= counter
      invariant slug == Candidate(base, counter - 1)
      invariant forall j :: 0 <= j < counter - 1 ==> Candidate(base, j) in taken
      decreases |taken| - (counter - 1)
    {
      CandidatesDistinct(base, counter);
      var tried := set j | 0 <= j < counter :: Candidate(base, j);
      assert tried <= taken;
      assert taken == tried + (taken - tried);
      slug := base + "-" + Decimal(counter);
      counter := counter + 1;
    }
  }
}
