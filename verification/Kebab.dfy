/** Slugs made from titles (internal/problems/uploader.go:188-228). */
module Kebab {
  import opened Paths

  /** unicode.IsLetter or unicode.IsDigit, and unicode.ToLower, as the caller's tables give them. */
  datatype Unicode = Unicode(isWord: char -> bool, lower: char -> char)

  predicate AlphaNum(c: char) {
    'a' <= c <= 'z' || '0' <= c <= '9'
  }

  /** What every Unicode table says about the ASCII characters of a slug. */
  ghost predicate UnicodeOk(u: Unicode) {
    && (forall c | AlphaNum(c) :: u.isWord(c) && u.lower(c) == c)
    && !u.isWord('-')
  }

  /** strings.Map over the title. */
  function Lowered(u: Unicode, title: string): (r: string)
    ensures |r| == |title|
  {
    seq(|title|, i requires 0 <= i < |title| => if u.isWord(title[i]) then u.lower(title[i]) else '-')
  }

  /** ReplaceAllString of [^a-z0-9]+ by one dash; the last character of a run writes it. */
  function Collapse(s: string): string {
    if s == [] then []
    else if AlphaNum(s[0]) then [s[0]] + Collapse(s[1..])
    else if |s| > 1 && !AlphaNum(s[1]) then Collapse(s[1..])
    else ['-'] + Collapse(s[1..])
  }

  function TrimLeft(s: string): string {
    if s != [] && s[0] == '-' then TrimLeft(s[1..]) else s
  }

  function TrimRight(s: string): string {
    if s != [] && s[|s| - 1] == '-' then TrimRight(s[..|s| - 1]) else s
  }

  /** strings.LastIndex(s, "-"). */
  function LastDash(s: string): (i: int)
    ensures -1 <= i < |s|
    ensures i >= 0 ==> s[i] == '-'
    ensures forall j | i < j < |s| :: s[j] != '-'
  {
    if s == [] then -1
    else if s[|s| - 1] == '-' then |s| - 1
    else LastDash(s[..|s| - 1])
  }

  const MAX_BASE := 40

  function Cut(s: string): string {
    if |s| <= MAX_BASE then s
    else
      var head := s[..MAX_BASE];
      var idx := LastDash(head);
      if idx > 0 then head[..idx] else head
  }

  function TitleToKebab(u: Unicode, title: string): string {
    Cut(TrimRight(TrimLeft(Collapse(Lowered(u, title)))))
  }

  predicate KebabChars(s: string) {
    forall i | 0 <= i < |s| :: AlphaNum(s[i]) || s[i] == '-'
  }

  predicate NoDoubleDash(s: string) {
    forall i | 0 <= i < |s| - 1 :: !(s[i] == '-' && s[i + 1] == '-')
  }

  predicate NoOuterDash(s: string) {
    s != [] ==> s[0] != '-' && s[|s| - 1] != '-'
  }

  /** At most 40 characters of [a-z0-9-] with no leading, trailing or doubled dash. */
  predicate IsSlugBase(s: string) {
    |s| <= MAX_BASE && KebabChars(s) && NoDoubleDash(s) && NoOuterDash(s)
  }

  lemma {:induction false} CollapseClean(s: string)
    ensures KebabChars(Collapse(s)) && NoDoubleDash(Collapse(s))
    ensures s != [] ==> Collapse(s) != []
    ensures s != [] && AlphaNum(s[0]) ==> Collapse(s)[0] == s[0]
  {
    if s != [] {
      CollapseClean(s[1..]);
    }
  }

  lemma {:induction false} TrimLeftClean(s: string)
    requires KebabChars(s) && NoDoubleDash(s)
    ensures var t := TrimLeft(s); KebabChars(t) && NoDoubleDash(t) && (t != [] ==> t[0] != '-')
  {
    if s != [] && s[0] == '-' {
      TrimLeftClean(s[1..]);
    }
  }

  lemma {:induction false} TrimRightClean(s: string)
    requires KebabChars(s) && NoDoubleDash(s) && (s != [] ==> s[0] != '-')
    ensures var t := TrimRight(s); KebabChars(t) && NoDoubleDash(t) && NoOuterDash(t)
  {
    if s != [] && s[|s| - 1] == '-' {
      TrimRightClean(s[..|s| - 1]);
    }
  }

  lemma CutClean(s: string)
    requires KebabChars(s) && NoDoubleDash(s) && NoOuterDash(s)
    ensures IsSlugBase(Cut(s))
  {
    if |s| > MAX_BASE {
      var head := s[..MAX_BASE];
      var idx := LastDash(head);
      if idx > 0 {
        assert s[idx - 1 + 1] == '-';
        assert s[idx - 1] != '-';
      }
    }
  }

  /** Whatever the title and the Unicode tables, the result is a well-formed slug base. */
  lemma KebabIsSlugBase(u: Unicode, title: string)
    ensures IsSlugBase(TitleToKebab(u, title))
  {
    var c := Collapse(Lowered(u, title));
    CollapseClean(Lowered(u, title));
    TrimLeftClean(c);
    TrimRightClean(TrimLeft(c));
    CutClean(TrimRight(TrimLeft(c)));
  }

  lemma {:induction false} CollapseFixes(s: string)
    requires KebabChars(s) && NoDoubleDash(s)
    ensures Collapse(s) == s
  {
    if s != [] {
      CollapseFixes(s[1..]);
      assert s == [s[0]] + s[1..];
    }
  }

  /** The well-formed slug bases are exactly the titles that come back unchanged, so the conversion is idempotent. */
  lemma KebabFixedPoints(u: Unicode, s: string)
    requires UnicodeOk(u)
    ensures TitleToKebab(u, s) == s <==> IsSlugBase(s)
    ensures TitleToKebab(u, TitleToKebab(u, s)) == TitleToKebab(u, s)
  {
    KebabIsSlugBase(u, s);
    FixesSlugBase(u, TitleToKebab(u, s));
    if IsSlugBase(s) {
      FixesSlugBase(u, s);
    }
  }

  lemma FixesSlugBase(u: Unicode, s: string)
    requires UnicodeOk(u) && IsSlugBase(s)
    ensures TitleToKebab(u, s) == s
  {
    assert Lowered(u, s) == s by {
      forall i | 0 <= i < |s| ensures Lowered(u, s)[i] == s[i] {}
    }
    CollapseFixes(s);
  }

  // What becomes of a title

  /** What every Unicode table says about the characters of a plain title. */
  ghost predicate AsciiOk(u: Unicode) {
    && UnicodeOk(u) && !u.isWord(' ')
    && (forall c | 'A' <= c <= 'Z' :: u.isWord(c) && u.lower(c) == c - 'A' + 'a')
  }

  predicate PlainChar(c: char) {
    'a' <= c <= 'z' || 'A' <= c <= 'Z' || '0' <= c <= '9'
  }

  /** Words of ASCII letters and digits with single spaces between them. */
  predicate PlainTitle(t: string) {
    && (forall i | 0 <= i < |t| :: PlainChar(t[i]) || t[i] == ' ')
    && (forall i | 0 <= i < |t| - 1 :: t[i] == ' ' ==> t[i + 1] != ' ')
    && (t != [] ==> t[0] != ' ' && t[|t| - 1] != ' ')
  }

  /** Character by character: a dash for a space, the small letter for a capital. */
  ghost predicate WrittenAs(t: string, r: string) {
    && |r| == |t|
    && forall i | 0 <= i < |t| ::
      r[i] == if t[i] == ' ' then '-' else if 'A' <= t[i] <= 'Z' then t[i] - 'A' + 'a' else t[i]
  }

  /** At most 40 characters stay as they are; of more the part before the last dash of the first 40 is left, or those 40
      if they have no dash. */
  ghost predicate ShortForm(full: string, r: string) {
    if |full| <= 40 then r == full
    else if '-' !in full[..40] then r == full[..40]
    else |r| < 40 && r == full[..|r|] && full[|r|] == '-' && '-' !in full[|r| + 1..40]
  }

  /** A plain title is written in small letters with a dash for each space, and shortened to 40 characters. */
  lemma PlainTitles(u: Unicode, title: string, full: string)
    requires AsciiOk(u) && PlainTitle(title) && WrittenAs(title, full)
    ensures ShortForm(full, TitleToKebab(u, title))
  {
    PlainLowered(u, title, full);
    CollapseFixes(full);
    assert TitleToKebab(u, title) == Cut(TrimRight(TrimLeft(full))) == Cut(full);
    CutPlain(full);
  }

  lemma PlainLowered(u: Unicode, title: string, full: string)
    requires AsciiOk(u) && PlainTitle(title) && WrittenAs(title, full)
    ensures Lowered(u, title) == full && KebabChars(full) && NoDoubleDash(full) && NoOuterDash(full)
  {
    forall i | 0 <= i < |title|
      ensures Lowered(u, title)[i] == full[i] && (AlphaNum(full[i]) || full[i] == '-')
      ensures full[i] == '-' <==> title[i] == ' '
    {
    }
  }

  lemma CutPlain(full: string)
    requires NoOuterDash(full)
    ensures ShortForm(full, Cut(full))
  {
    if |full| > 40 {
      var head := full[..40];
      var idx := LastDash(head);
      assert idx >= 0 ==> head[idx] == full[idx];
      if '-' in head {
        assert idx > 0;
        assert head[..idx] == full[..idx];
      }
    }
  }

  predicate NoAlphaNum(s: string) {
    forall i | 0 <= i < |s| :: !AlphaNum(s[i])
  }

  lemma {:induction false} CollapseSeparator(x: string, b: string)
    requires x != [] && NoAlphaNum(x)
    ensures Collapse(x + b) == if b != [] && !AlphaNum(b[0]) then Collapse(b) else ['-'] + Collapse(b)
    decreases |x|
  {
    assert (x + b)[1..] == x[1..] + b;
    if |x| == 1 {
      assert x[1..] + b == b;
    } else {
      CollapseSeparator(x[1..], b);
    }
  }

  lemma {:induction false} CollapseInner(a: string, x: string, y: string, b: string)
    requires x != [] && y != [] && NoAlphaNum(x) && NoAlphaNum(y)
    ensures Collapse(a + x + b) == Collapse(a + y + b)
    decreases |a|
  {
    if a == [] {
      assert a + x + b == x + b && a + y + b == y + b;
      CollapseSeparator(x, b);
      CollapseSeparator(y, b);
    } else {
      assert (a + x + b)[1..] == a[1..] + x + b && (a + y + b)[1..] == a[1..] + y + b;
      CollapseInner(a[1..], x, y, b);
    }
  }

  lemma LoweredConcat(u: Unicode, s: string, t: string)
    ensures Lowered(u, s + t) == Lowered(u, s) + Lowered(u, t)
  {
  }

  /** How two words are separated, by whatever that is neither an ASCII letter nor a digit, makes no difference. */
  lemma SeparatorsAlike(u: Unicode, a: string, x: string, y: string, b: string)
    requires x != [] && y != [] && NoAlphaNum(Lowered(u, x)) && NoAlphaNum(Lowered(u, y))
    ensures TitleToKebab(u, a + x + b) == TitleToKebab(u, a + y + b)
  {
    LoweredConcat(u, a + x, b);
    LoweredConcat(u, a, x);
    LoweredConcat(u, a + y, b);
    LoweredConcat(u, a, y);
    CollapseInner(Lowered(u, a), Lowered(u, x), Lowered(u, y), Lowered(u, b));
  }

  lemma {:induction false} CollapseTrailing(a: string, x: string)
    requires x != [] && NoAlphaNum(x)
    ensures Collapse(a + x) == Collapse(a) || Collapse(a + x) == Collapse(a) + ['-']
    decreases |a|
  {
    if a == [] {
      assert a + x == x + [];
      CollapseSeparator(x, []);
    } else {
      assert (a + x)[1..] == a[1..] + x;
      CollapseTrailing(a[1..], x);
      if |a| == 1 && !AlphaNum(a[0]) {
        assert a + x == (a + x) + [];
        CollapseSeparator(a + x, []);
      }
    }
  }

  lemma {:induction false} TrimOneMore(c: string)
    ensures TrimRight(TrimLeft(c + ['-'])) == TrimRight(TrimLeft(c))
  {
    if c == [] {
      assert (c + ['-'])[1..] == [];
    } else if c[0] == '-' {
      assert (c + ['-'])[1..] == c[1..] + ['-'];
      TrimOneMore(c[1..]);
    } else {
      assert (c + ['-'])[..|c|] == c;
    }
  }

  /** What comes before the first word or after the last makes no difference. */
  lemma OuterSeparatorsIgnored(u: Unicode, a: string, x: string)
    requires NoAlphaNum(Lowered(u, x))
    ensures TitleToKebab(u, x + a) == TitleToKebab(u, a)
    ensures TitleToKebab(u, a + x) == TitleToKebab(u, a)
  {
    LoweredConcat(u, x, a);
    LoweredConcat(u, a, x);
    var la, lx := Lowered(u, a), Lowered(u, x);
    if x == [] {
      assert x + a == a && a + x == a;
    } else {
      CollapseSeparator(lx, la);
      CollapseTrailing(la, lx);
      TrimOneMore(Collapse(la));
    }
  }

  predicate HexSuffix(s: string) {
    |s| == 4 && forall i | 0 <= i < |s| :: '0' <= s[i] <= '9' || 'a' <= s[i] <= 'f'
  }

  /** generateSlug's candidate for a random suffix. */
  function SlugCandidate(u: Unicode, title: string, suffix: string): string {
    var base := TitleToKebab(u, title);
    (if base == "" then "problem" else base) + "-" + suffix
  }

  /** A generated slug has no slash, so its artifact paths split back into it. */
  lemma GeneratedSlugSplits(u: Unicode, title: string, suffix: string, version: nat)
    requires HexSuffix(suffix)
    ensures var slug := SlugCandidate(u, title, suffix);
            && SlashFree(slug) && |slug| <= MAX_BASE + 5 && SlugOf(ArtifactPath(slug, version)) == slug
            && (TitleToKebab(u, title) == "" ==> slug == "problem-" + suffix)
            && (TitleToKebab(u, title) != "" ==> slug == TitleToKebab(u, title) + "-" + suffix)
  {
    KebabIsSlugBase(u, title);
    SlugRecovered(SlugCandidate(u, title, suffix), version);
  }
}
