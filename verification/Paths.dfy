/** Artifact paths and version directories (internal/problems/uploader.go, store.go, seeder.go). */
module Paths {
  import opened Common

  predicate IsDigit(c: char) {
    '0' <= c <= '9'
  }

  function DigitValue(c: char): nat
    requires IsDigit(c)
  {
    (c - '0') as nat
  }

  function DigitChar(d: nat): char
    requires d < 10
  {
    '0' + d as char
  }

  /** Decimal rendering as fmt's %d writes it. */
  function Decimal(n: nat): string {
    if n < 10 then [DigitChar(n)] else Decimal(n / 10) + [DigitChar(n % 10)]
  }

  function DigitsValue(s: string): nat
    requires forall i | 0 <= i < |s| :: IsDigit(s[i])
  {
    if s == [] then 0 else DigitsValue(s[..|s| - 1]) * 10 + DigitValue(s[|s| - 1])
  }

  predicate AllDigits(s: string) {
    forall i | 0 <= i < |s| :: IsDigit(s[i])
  }

  lemma {:induction false} DecimalRoundTrip(n: nat)
    ensures Decimal(n) != [] && AllDigits(Decimal(n))
    ensures DigitsValue(Decimal(n)) == n
    ensures n > 0 ==> Decimal(n)[0] != '0'
  {
    if n < 10 {
      assert Decimal(n)[..0] == [];
    } else {
      DecimalRoundTrip(n / 10);
      var s := Decimal(n);
      assert s[..|s| - 1] == Decimal(n / 10);
    }
  }

  lemma DecimalInjective(m: nat, n: nat)
    requires Decimal(m) == Decimal(n)
    ensures m == n
  {
    DecimalRoundTrip(m);
    DecimalRoundTrip(n);
  }

  predicate SlashFree(s: string) {
    '/' !in s
  }

  /** slug + "/v" + version, the artifact path of an uploaded version. */
  function ArtifactPath(slug: string, version: nat): string {
    slug + "/v" + Decimal(version)
  }

  /** strings.SplitN(path, "/", 2)[0]: everything before the first slash, or the whole path. */
  function SlugOf(path: string): string {
    if path == [] || path[0] == '/' then [] else [path[0]] + SlugOf(path[1..])
  }

  lemma {:induction false} SlugOfSplits(slug: string, rest: string)
    requires SlashFree(slug)
    ensures SlugOf(slug + ['/'] + rest) == slug
  {
    var path := slug + ['/'] + rest;
    if slug != [] {
      assert path[1..] == slug[1..] + ['/'] + rest;
      SlugOfSplits(slug[1..], rest);
    }
  }

  /** What is split off is the part before the first slash, or all of a path without one. */
  lemma {:induction false} SlugOfExactly(path: string)
    ensures SlashFree(SlugOf(path)) && |SlugOf(path)| <= |path| && path[..|SlugOf(path)|] == SlugOf(path)
    ensures |SlugOf(path)| < |path| ==> path[|SlugOf(path)|] == '/'
  {
    if path != [] && path[0] != '/' {
      SlugOfExactly(path[1..]);
      assert path[..|SlugOf(path)|] == [path[0]] + path[1..][..|SlugOf(path[1..])|];
    }
  }

  /** Splitting an artifact path gives its slug back. */
  lemma SlugRecovered(slug: string, version: nat)
    requires SlashFree(slug)
    ensures SlugOf(ArtifactPath(slug, version)) == slug
  {
    assert ArtifactPath(slug, version) == slug + ['/'] + (['v'] + Decimal(version));
    SlugOfSplits(slug, ['v'] + Decimal(version));
  }

  /** Two artifact paths agree only when slug and version agree. */
  lemma ArtifactPathInjective(slug1: string, version1: nat, slug2: string, version2: nat)
    requires SlashFree(slug1) && SlashFree(slug2)
    requires ArtifactPath(slug1, version1) == ArtifactPath(slug2, version2)
    ensures slug1 == slug2 && version1 == version2
  {
    SlugRecovered(slug1, version1);
    SlugRecovered(slug2, version2);
    assert ArtifactPath(slug1, version1)[|slug1| + 2..] == Decimal(version1);
    assert ArtifactPath(slug2, version2)[|slug2| + 2..] == Decimal(version2);
    DecimalInjective(version1, version2);
  }

  const MAX_INT := 0x7FFF_FFFF_FFFF_FFFF

  /** strconv.Atoi on a 64-bit int: an optional sign, then at least one digit and nothing else,
      with a range error outside the int range. */
  function Atoi(s: string): Option<int> {
    var negative := s != [] && s[0] == '-';
    var digits := if s != [] && (s[0] == '-' || s[0] == '+') then s[1..] else s;
    if digits == [] || !AllDigits(digits) then None
    else
      var n: int := DigitsValue(digits);
      if negative then (if n <= MAX_INT + 1 then Some(-n) else None)
      else if n <= MAX_INT then Some(n) else None
  }

  /** versionStrToInt: anything that is not v<positive number> counts as version 1. */
  function VersionStrToInt(v: string): (n: int)
    ensures n >= 1
  {
    var digits := if v != [] && v[0] == 'v' then v[1..] else v;
    match Atoi(digits)
    case Some(n) => if n <= 0 then 1 else n
    case None => 1
  }

  /** The directory name written for version n reads back as n exactly when n is a positive int. */
  lemma VersionRoundTrip(n: nat)
    ensures VersionStrToInt("v" + Decimal(n)) == n <==> 1 <= n <= MAX_INT
  {
    DecimalRoundTrip(n);
    var d := Decimal(n);
    assert ("v" + d)[1..] == d;
    assert IsDigit(d[0]);
  }

  /** The directory an upload writes for version n is one that the seeder's scan takes for version n. */
  lemma UploadedDirReadsBack(slug: string, n: nat)
    requires 1 <= n <= MAX_INT
    ensures var path := ArtifactPath(slug, n);
            && |slug| < |path| && path[..|slug|] == slug && path[|slug|] == '/'
            && IsVersionDir(DirEntry(path[|slug| + 1..], true)) && VersionStrToInt(path[|slug| + 1..]) == n
  {
    assert ArtifactPath(slug, n) == slug + ['/'] + ("v" + Decimal(n));
    assert ArtifactPath(slug, n)[|slug| + 1..] == "v" + Decimal(n);
    VersionRoundTrip(n);
  }

  /** The name is a number, with or without the leading v and a plus sign. */
  predicate Names(v: string, digits: string) {
    v == digits || v == "v" + digits || v == "+" + digits || v == "v+" + digits
  }

  /** Only names of numbers that fit an int are read as a version above 1; everything else counts as version 1. */
  lemma VersionReadExactly(v: string, n: nat)
    requires n >= 2
    ensures VersionStrToInt(v) == n <==>
              n <= MAX_INT && exists d :: d != [] && AllDigits(d) && DigitsValue(d) == n && Names(v, d)
  {
    if VersionStrToInt(v) == n {
      var number := if v != [] && v[0] == 'v' then v[1..] else v;
      var d := if number != [] && (number[0] == '-' || number[0] == '+') then number[1..] else number;
      assert number == d || number == "+" + d;
      assert v == number || v == "v" + number;
      assert Names(v, d);
    }
    forall d | d != [] && AllDigits(d) && DigitsValue(d) == n && Names(v, d) && n <= MAX_INT
      ensures VersionStrToInt(v) == n
    {
      NamedNumber(v, d);
    }
  }

  lemma NamedNumber(v: string, d: string)
    requires d != [] && AllDigits(d) && 1 <= DigitsValue(d) <= MAX_INT && Names(v, d)
    ensures VersionStrToInt(v) == DigitsValue(d)
  {
    assert IsDigit(d[0]);
    assert ("v" + d)[1..] == d && ("+" + d)[1..] == d && ("v+" + d)[1..] == "+" + d;
  }

  // latestVersionDir

  datatype DirEntry = DirEntry(name: string, isDir: bool)

  predicate IsVersionDir(e: DirEntry) {
    e.isDir && e.name != [] && e.name[0] == 'v'
  }

  /** A version directory with the number its name stands for. */
  datatype VersionDir = VersionDir(name: string, number: int)

  ghost predicate SortedByVersion(s: seq<VersionDir>) {
    forall i, j | 0 <= i < j < |s| :: s[i].number <= s[j].number
  }

  /** latestVersionDir: collect the directories named v..., sort them in place by version number
      and return the last; an empty collection is an error. The sort is an insertion sort here, and
      the contract holds for any sort since it says nothing about ties. */
  method LatestVersionDir(entries: seq<DirEntry>) returns (r: Option<string>)
    ensures r.None? <==> forall e | e in entries :: !IsVersionDir(e)
    ensures r.Some? ==> DirEntry(r.value, true) in entries && IsVersionDir(DirEntry(r.value, true))
    ensures r.Some? ==>
              forall e | e in entries && IsVersionDir(e) :: VersionStrToInt(e.name) <= VersionStrToInt(r.value)
  {
    var versions := SortedVersions(entries);
    if versions == [] {
      return None;
    }
    var last := versions[|versions| - 1];
    assert last in versions;
    r := Some(last.name);
    forall e | e in entries && IsVersionDir(e) ensures VersionStrToInt(e.name) <= VersionStrToInt(r.value) {
      LastIsLargest(versions, VersionDir(e.name, VersionStrToInt(e.name)));
    }
  }

  lemma LastIsLargest(versions: seq<VersionDir>, v: VersionDir)
    requires SortedByVersion(versions) && v in versions
    ensures v.number <= versions[|versions| - 1].number
  {
  }

  /** The version directories of a listing, sorted. */
  method SortedVersions(entries: seq<DirEntry>) returns (versions: seq<VersionDir>)
    ensures SortedByVersion(versions)
    ensures forall v | v in versions ::
              v.number == VersionStrToInt(v.name) && DirEntry(v.name, true) in entries
                  && IsVersionDir(DirEntry(v.name, true))
    ensures forall e | e in entries && IsVersionDir(e) :: VersionDir(e.name, VersionStrToInt(e.name)) in versions
  {
    versions := [];
    for i := 0 to |entries|
      invariant SortedByVersion(versions)
      invariant forall v | v in versions ::
                  v.number == VersionStrToInt(v.name) && DirEntry(v.name, true) in entries
                      && IsVersionDir(DirEntry(v.name, true))
      invariant forall j | 0 <= j < i && IsVersionDir(entries[j]) ::
                  VersionDir(entries[j].name, VersionStrToInt(entries[j].name)) in versions
    {
      if IsVersionDir(entries[i]) {
        assert entries[i] == DirEntry(entries[i].name, true);
        versions := InsertVersion(versions, VersionDir(entries[i].name, VersionStrToInt(entries[i].name)));
      }
    }
  }

  method InsertVersion(s: seq<VersionDir>, v: VersionDir) returns (r: seq<VersionDir>)
    requires SortedByVersion(s)
    ensures SortedByVersion(r)
    ensures forall x :: x in r <==> x in s || x == v
  {
    var i := |s|;
    while i > 0 && v.number < s[i - 1].number
      invariant 0 <= i <= |s|
      invariant forall j | i <= j < |s| :: v.number < s[j].number
    {
      i := i - 1;
    }
    r := s[..i] + [v] + s[i..];
    SplicedMembers(s, i, v);
  }

  lemma SplicedMembers<T>(s: seq<T>, i: nat, v: T)
    requires i <= |s|
    ensures forall x :: x in s[..i] + [v] + s[i..] <==> x in s || x == v
  {
    assert s == s[..i] + s[i..];
  }
}
