/** Archive extraction under a byte budget (internal/problems/validator.go:237-378). Decoding and the
    file system are an oracle: each entry says how many bytes its stream yields before it ends or
    breaks and which calls on it fail. */
module Extraction {
  import opened Common

  datatype Kind = Dir | Regular | Other

  /** `length` bytes flow out of the stream; `broken` says it then fails instead of ending. `refused`
      and `badTarget` stand for an unreadable header or unsafe path and for a directory or file that cannot be made or
      opened, `closeFails` for a failing close. */
  datatype Entry = Entry(kind: Kind, length: nat, broken: bool, refused: bool, badTarget: bool, closeFails: bool)

  /** A zip file: anything that is neither a symlink nor a directory is extracted as a regular file. */
  datatype ZipFile = ZipFile(symlink: bool, isDir: bool, entry: Entry)

  datatype Failure = BadEntry | TooBig

  /** The bytes a regular entry would write in full. */
  function Size(e: Entry): nat {
    if e.kind == Regular then e.length else 0
  }

  function TotalSize(es: seq<Entry>): nat {
    if es == [] then 0 else TotalSize(es[..|es| - 1]) + Size(es[|es| - 1])
  }

  /** Nothing about the entry itself makes extraction fail. */
  predicate Sound(e: Entry) {
    && !e.refused
    && (e.kind == Other || !e.badTarget)
    && (e.kind == Regular ==> !e.broken && !e.closeFails)
  }

  /** io.Copy from a LimitReader of `limit` bytes: what it copied and whether it saw the stream break;
      a stream that yields the whole limit is not read any further. */
  function Copied(e: Entry, limit: nat): (nat, bool) {
    if e.length >= limit then (limit, false) else (e.length, e.broken)
  }

  /** extractEntry: the bytes written and whether the call failed. The precondition is what every caller must
      establish. */
  method ExtractEntry(e: Entry, remaining: int) returns (n: nat, failed: bool)
    requires remaining >= 0
    ensures n <= remaining + 1
    ensures n <= remaining ==> n <= Size(e)
    ensures !failed && n <= remaining ==> n == Size(e)
    ensures n == remaining + 1 ==> n <= Size(e)
    ensures Size(e) <= remaining ==> (failed <==>
              (e.kind != Other && e.badTarget) || (e.kind == Regular && (e.broken || e.closeFails)))
    ensures e.badTarget ==> n == 0
    ensures Size(e) > remaining ==>
              if e.badTarget then n == 0 && failed else n == remaining + 1 && failed == e.closeFails
  {
    match e.kind
    case Dir =>
      return 0, e.badTarget;
    case Regular =>
      if e.badTarget {
        return 0, true;
      }
      var (copied, copyErr) := Copied(e, remaining + 1);
      if e.closeFails && !copyErr {
        return copied, true;
      }
      return copied, copyErr;
    case Other =>
      return 0, false;
  }

  function Sum(ns: seq<nat>): nat {
    if ns == [] then 0 else Sum(ns[..|ns| - 1]) + ns[|ns| - 1]
  }

  lemma SumAppend(ns: seq<nat>, n: nat)
    ensures Sum(ns + [n]) == Sum(ns) + n
  {
    assert (ns + [n])[..|ns|] == ns;
  }

  lemma TotalAppend(es: seq<Entry>, e: Entry)
    ensures TotalSize(es + [e]) == TotalSize(es) + Size(e)
  {
    assert (es + [e])[..|es|] == es;
  }

  lemma {:induction false} TotalMonotone(es: seq<Entry>, i: nat)
    requires i <= |es|
    ensures TotalSize(es[..i]) <= TotalSize(es)
    decreases |es|
  {
    if i < |es| {
      assert es[..|es| - 1][..i] == es[..i];
      TotalMonotone(es[..|es| - 1], i);
    } else {
      assert es[..i] == es;
    }
  }

  predicate AllSound(es: seq<Entry>) {
    forall i | 0 <= i < |es| :: Sound(es[i])
  }

  /** Every entry can be extracted and together they fit. */
  predicate Extractable(es: seq<Entry>, maxBytes: nat) {
    AllSound(es) && TotalSize(es) <= maxBytes
  }

  lemma ExtractableExactly(es: seq<Entry>, maxBytes: nat)
    ensures Extractable(es, maxBytes) <==>
              && TotalSize(es) <= maxBytes
              && forall i | 0 <= i < |es| ::
                && !es[i].refused && !(es[i].kind == Dir && es[i].badTarget)
                && !(es[i].kind == Regular && (es[i].badTarget || es[i].broken || es[i].closeFails))
  {
    if Extractable(es, maxBytes) {
      forall i | 0 <= i < |es|
        ensures !es[i].refused && !(es[i].kind == Dir && es[i].badTarget)
        ensures !(es[i].kind == Regular && (es[i].badTarget || es[i].broken || es[i].closeFails))
      {
        assert Sound(es[i]);
      }
    }
  }

  /** An entry that is unsound, or that takes the running total over the budget, spoils the archive. */
  lemma Spoils(es: seq<Entry>, i: nat, maxBytes: nat)
    requires i < |es|
    requires !Sound(es[i]) || TotalSize(es[..i]) + Size(es[i]) > maxBytes
    ensures !Extractable(es, maxBytes)
  {
    TotalAppend(es[..i], es[i]);
    assert es[..i + 1] == es[..i] + [es[i]];
    TotalMonotone(es, i + 1);
  }

  /** Entry i is the first that spoils the archive, and how: it is too big if nothing else is wrong with it up to the
      byte at which the budget is passed. */
  ghost predicate StopsAt(es: seq<Entry>, maxBytes: nat, i: nat, failure: Failure) {
    && i < |es| && AllSound(es[..i]) && TotalSize(es[..i]) <= maxBytes
    && (failure == TooBig <==>
          && !es[i].refused && !es[i].badTarget && es[i].kind == Regular && !es[i].closeFails
          && TotalSize(es[..i]) + es[i].length > maxBytes)
    && (failure == BadEntry ==> !Sound(es[i]))
  }

  /** extractTarGz's loop; `written[i]` is what entry i wrote. The bytes written never pass the budget by
      more than one, success means that every entry is sound and all of them fit, and then nothing is truncated. */
  method ExtractTarGz(es: seq<Entry>, maxBytes: nat) returns (r: Result<(), Failure>, written: seq<nat>)
    ensures Sum(written) <= maxBytes + 1
    ensures r.Ok? <==>
              && TotalSize(es) <= maxBytes
              && forall i | 0 <= i < |es| ::
                && !es[i].refused && !(es[i].kind == Dir && es[i].badTarget)
                && !(es[i].kind == Regular && (es[i].badTarget || es[i].broken || es[i].closeFails))
    ensures r.Err? ==> |written| <= |es| && exists i :: StopsAt(es, maxBytes, i, r.error)
    ensures r.Ok? ==> |written| == |es| && Sum(written) == TotalSize(es) && forall i | 0 <= i < |es| ::
              written[i] == Size(es[i])
  {
    ExtractableExactly(es, maxBytes);
    var totalBytes := 0;
    written := [];
    for i := 0 to |es|
      invariant |written| == i && totalBytes == Sum(written) == TotalSize(es[..i]) <= maxBytes
      invariant forall j | 0 <= j < i :: Sound(es[j]) && written[j] == Size(es[j])
    {
      assert AllSound(es[..i]);
      if es[i].refused {
        Spoils(es, i, maxBytes);
        assert StopsAt(es, maxBytes, i, BadEntry);
        return Err(BadEntry), written;
      }
      var n, failed := ExtractEntry(es[i], maxBytes - totalBytes);
      SumAppend(written, n);
      written := written + [n];
      if failed {
        Spoils(es, i, maxBytes);
        assert StopsAt(es, maxBytes, i, BadEntry);
        return Err(BadEntry), written;
      }
      totalBytes := totalBytes + n;
      if totalBytes > maxBytes {
        Spoils(es, i, maxBytes);
        assert StopsAt(es, maxBytes, i, TooBig);
        return Err(TooBig), written;
      }
      TotalAppend(es[..i], es[i]);
      assert es[..i + 1] == es[..i] + [es[i]];
    }
    assert es[..|es|] == es;
    r := Ok(());
  }

  function AsEntry(f: ZipFile): Entry {
    f.entry.(kind := if f.isDir then Dir else Regular)
  }

  /** The zip members that extraction looks at. */
  function Kept(fs: seq<ZipFile>): seq<Entry> {
    if fs == [] then []
    else Kept(fs[..|fs| - 1]) + (if fs[|fs| - 1].symlink then [] else [AsEntry(fs[|fs| - 1])])
  }

  lemma {:induction false} KeptPrefix(fs: seq<ZipFile>, i: nat)
    requires i < |fs|
    ensures fs[i].symlink ==> Kept(fs[..i + 1]) == Kept(fs[..i])
    ensures !fs[i].symlink ==>
              && Kept(fs[..i + 1]) == Kept(fs[..i]) + [AsEntry(fs[i])]
              && |Kept(fs[..i])| < |Kept(fs)| && Kept(fs)[..|Kept(fs[..i])|] == Kept(fs[..i])
              && Kept(fs)[|Kept(fs[..i])|] == AsEntry(fs[i])
    decreases |fs|
  {
    assert fs[..i + 1][..i] == fs[..i];
    if i + 1 < |fs| {
      var init := fs[..|fs| - 1];
      KeptPrefix(init, i);
      assert init[..i] == fs[..i] && init[..i + 1] == fs[..i + 1];
    } else {
      assert fs[..i + 1] == fs;
    }
  }

  /** The first i files are extracted in full, `written[j]` bytes of file j, within the budget. */
  ghost predicate ZipSoFar(fs: seq<ZipFile>, i: nat, written: seq<nat>, maxBytes: nat)
    requires i <= |fs|
  {
    && |written| == i && Sum(written) == TotalSize(Kept(fs[..i])) <= maxBytes
    && AllSound(Kept(fs[..i]))
    && (forall j | 0 <= j < i :: written[j] == if fs[j].symlink then 0 else Size(AsEntry(fs[j])))
  }

  lemma SkipsLink(fs: seq<ZipFile>, i: nat, written: seq<nat>, maxBytes: nat)
    requires i < |fs| && fs[i].symlink && ZipSoFar(fs, i, written, maxBytes)
    ensures ZipSoFar(fs, i + 1, written + [0], maxBytes)
  {
    KeptPrefix(fs, i);
    SumAppend(written, 0);
  }

  lemma WritesFile(fs: seq<ZipFile>, i: nat, written: seq<nat>, maxBytes: nat)
    requires i < |fs| && !fs[i].symlink && ZipSoFar(fs, i, written, maxBytes)
    requires Sound(AsEntry(fs[i])) && Sum(written) + Size(AsEntry(fs[i])) <= maxBytes
    ensures ZipSoFar(fs, i + 1, written + [Size(AsEntry(fs[i]))], maxBytes)
  {
    KeptPrefix(fs, i);
    SumAppend(written, Size(AsEntry(fs[i])));
    TotalAppend(Kept(fs[..i]), AsEntry(fs[i]));
  }

  lemma SpoilsZip(fs: seq<ZipFile>, i: nat, written: seq<nat>, maxBytes: nat)
    requires i < |fs| && !fs[i].symlink && ZipSoFar(fs, i, written, maxBytes)
    requires !Sound(AsEntry(fs[i])) || Sum(written) + Size(AsEntry(fs[i])) > maxBytes
    ensures !Extractable(Kept(fs), maxBytes)
  {
    KeptPrefix(fs, i);
    Spoils(Kept(fs), |Kept(fs[..i])|, maxBytes);
  }

  lemma AllSoundAppend(es: seq<Entry>, e: Entry)
    ensures AllSound(es + [e]) <==> AllSound(es) && Sound(e)
  {
    if AllSound(es + [e]) {
      assert (es + [e])[|es|] == e;
      forall j | 0 <= j < |es| ensures Sound(es[j]) { assert (es + [e])[j] == es[j]; }
    }
  }

  /** The file is no obstacle: a symlink is passed over, a directory can be made, a regular file written in full. */
  predicate FileSound(f: ZipFile) {
    f.symlink || (!f.entry.refused && !f.entry.badTarget && (f.isDir || !(f.entry.broken || f.entry.closeFails)))
  }

  ghost predicate FilesSound(fs: seq<ZipFile>) {
    forall i | 0 <= i < |fs| :: FileSound(fs[i])
  }

  lemma {:induction false} KeptSound(fs: seq<ZipFile>)
    ensures AllSound(Kept(fs)) <==> FilesSound(fs)
    decreases |fs|
  {
    if fs != [] {
      var init, last := fs[..|fs| - 1], fs[|fs| - 1];
      KeptSound(init);
      assert FilesSound(fs) <==> FilesSound(init) && FileSound(last);
      if last.symlink {
        assert Kept(fs) == Kept(init);
      } else {
        AllSoundAppend(Kept(init), AsEntry(last));
      }
    }
  }

  /** extractZip's loop, which passes over symlinks; `written[i]` is what file i wrote. */
  method ExtractZip(fs: seq<ZipFile>, maxBytes: nat) returns (r: Result<(), Failure>, written: seq<nat>)
    ensures Sum(written) <= maxBytes + 1
    ensures r.Ok? <==> TotalSize(Kept(fs)) <= maxBytes && FilesSound(fs)
    ensures r.Ok? ==> |written| == |fs| && Sum(written) == TotalSize(Kept(fs))
    ensures r.Ok? ==> forall i | 0 <= i < |fs| :: written[i] == if fs[i].symlink then 0 else Size(AsEntry(fs[i]))
  {
    KeptSound(fs);
    var totalBytes := 0;
    written := [];
    for i := 0 to |fs|
      invariant totalBytes == Sum(written) && ZipSoFar(fs, i, written, maxBytes)
    {
      if fs[i].symlink {
        SkipsLink(fs, i, written, maxBytes);
        SumAppend(written, 0);
        written := written + [0];
      } else {
        var n, failure := ExtractZipEntry(AsEntry(fs[i]), maxBytes - totalBytes);
        SumAppend(written, n);
        if failure.Some? {
          SpoilsZip(fs, i, written, maxBytes);
          return Err(failure.value), written + [n];
        }
        WritesFile(fs, i, written, maxBytes);
        written := written + [n];
        totalBytes := totalBytes + n;
      }
    }
    assert fs[..|fs|] == fs;
    r := Ok(());
  }

  /** extractZipEntry with the checks around it: fails exactly if the file is unsound or does not fit. */
  method ExtractZipEntry(e: Entry, remaining: int) returns (n: nat, failure: Option<Failure>)
    requires remaining >= 0 && e.kind != Other
    ensures n <= remaining + 1
    ensures failure.None? <==> Sound(e) && Size(e) <= remaining
    ensures failure.None? <==>
              && !e.refused && !e.badTarget
              && (e.kind == Regular ==> !e.broken && !e.closeFails && e.length <= remaining)
    ensures failure.None? ==> n == Size(e)
    ensures failure == Some(TooBig) <==>
              !e.refused && !e.badTarget && e.kind == Regular && !e.closeFails && e.length > remaining
    ensures e.refused || e.badTarget ==> n == 0
  {
    if e.refused {
      return 0, Some(BadEntry);
    }
    var copied, failed := ExtractEntry(e, remaining);
    if failed {
      return copied, Some(BadEntry);
    }
    if copied > remaining {
      return copied, Some(TooBig);
    }
    return copied, None;
  }
}
