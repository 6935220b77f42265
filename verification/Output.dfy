/** Output comparison (internal/problems/store.go:143-153). */
module Output {

  predicate IsBlank(c: char) {
    c == ' ' || c == '\t' || c == '\r'
  }

  /** strings.TrimRight(s, " \t\r"). */
  function TrimBlanks(s: string): string {
    if s != [] && IsBlank(s[|s| - 1]) then TrimBlanks(s[..|s| - 1]) else s
  }

  /** strings.TrimRight(s, "\n"). */
  function TrimNewlines(s: string): string {
    if s != [] && s[|s| - 1] == '\n' then TrimNewlines(s[..|s| - 1]) else s
  }

  /** strings.Split(s, "\n"). */
  function Split(s: string): (lines: seq<string>)
    ensures |lines| >= 1
  {
    if s == [] then [""]
    else
      var rest := Split(s[..|s| - 1]);
      if s[|s| - 1] == '\n' then rest + [""]
      else rest[..|rest| - 1] + [rest[|rest| - 1] + [s[|s| - 1]]]
  }

  /** strings.Join(lines, "\n"). */
  function Join(lines: seq<string>): string {
    if lines == [] then ""
    else if |lines| == 1 then lines[0]
    else Join(lines[..|lines| - 1]) + ['\n'] + lines[|lines| - 1]
  }

  function TrimLines(lines: seq<string>): (r: seq<string>)
    ensures |r| == |lines|
  {
    seq(|lines|, i requires 0 <= i < |lines| => TrimBlanks(lines[i]))
  }

  function Normalize(s: string): string {
    TrimNewlines(Join(TrimLines(Split(s))))
  }

  /** NormalizeOutput: overwrite each line in place, then join and trim. */
  method NormalizeOutput(s: string) returns (r: string)
    ensures r == Normalize(s) == Join(CanonicalLines(s))
  {
    var split := Split(s);
    var lines := new string[|split|](i requires 0 <= i < |split| => split[i]);
    for i := 0 to lines.Length
      invariant forall j | 0 <= j < i :: lines[j] == TrimBlanks(split[j])
      invariant forall j | i <= j < lines.Length :: lines[j] == split[j]
    {
      lines[i] := TrimBlanks(lines[i]);
    }
    assert lines[..] == TrimLines(split);
    r := TrimNewlines(Join(lines[..]));
    NormalizeJoins(s);
  }

  /** Match. */
  predicate Match(actual: string, expected: string) {
    Normalize(actual) == Normalize(expected)
  }

  // The reference: right-trimmed lines without the trailing blank ones.

  function DropBlankTail(lines: seq<string>): seq<string> {
    if lines != [] && lines[|lines| - 1] == "" then DropBlankTail(lines[..|lines| - 1]) else lines
  }

  function CanonicalLines(s: string): seq<string> {
    DropBlankTail(TrimLines(Split(s)))
  }

  // Lines and their joining

  predicate NewlineFree(lines: seq<string>) {
    forall i | 0 <= i < |lines| :: '\n' !in lines[i]
  }

  /** No line of a split text holds a newline. */
  lemma {:induction false} SplitNewlineFree(s: string)
    ensures NewlineFree(Split(s))
  {
    if s != [] {
      SplitNewlineFree(s[..|s| - 1]);
    }
  }

  lemma {:induction false} SplitAppendLine(s: string, l: string)
    requires '\n' !in l
    ensures Split(s + ['\n'] + l) == Split(s) + [l]
    decreases |l|
  {
    var t := s + ['\n'] + l;
    if l == [] {
      assert t[..|t| - 1] == s;
    } else {
      var l' := l[..|l| - 1];
      assert t[..|t| - 1] == s + ['\n'] + l';
      SplitAppendLine(s, l');
      assert l == l' + [l[|l| - 1]];
    }
  }

  lemma {:induction false} SplitLine(l: string)
    requires '\n' !in l
    ensures Split(l) == [l]
  {
    if l != [] {
      SplitLine(l[..|l| - 1]);
      assert l == l[..|l| - 1] + [l[|l| - 1]];
    }
  }

  lemma JoinMore(init: seq<string>, last: string)
    requires init != []
    ensures Join(init + [last]) == (Join(init) + "\n") + last
  {
    assert (init + [last])[..|init|] == init;
  }

  lemma ThreePieces(x: string, y: string, z: string)
    ensures (x + "\n" + y) + "\n" + z == x + "\n" + ((y + "\n") + z)
  {
  }

  /** Joining puts one newline between two texts, and a single line is itself. */
  lemma {:induction false} JoinConcat(a: seq<string>, b: seq<string>)
    requires a != [] && b != []
    ensures Join(a + b) == Join(a) + "\n" + Join(b)
    ensures |a| == 1 ==> Join(a) == a[0]
    decreases |b|
  {
    var init, last := b[..|b| - 1], b[|b| - 1];
    assert b == init + [last] && a + b == (a + init) + [last];
    JoinMore(a + init, last);
    if init == [] {
      assert a + init == a;
    } else {
      JoinConcat(a, init);
      JoinMore(init, last);
      ThreePieces(Join(a), Join(init), last);
    }
  }

  /** Joining undoes splitting. */
  lemma {:induction false} JoinSplit(s: string)
    ensures Join(Split(s)) == s
  {
    if s != [] {
      var init, c := s[..|s| - 1], s[|s| - 1];
      JoinSplit(init);
      SplitAppend(init, c);
      assert init + [c] == s;
      if c == '\n' {
        JoinConcat(Split(init), [""]);
      } else {
        var lines := Split(init);
        assert lines == lines[..|lines| - 1] + [lines[|lines| - 1]];
        JoinLast(lines[..|lines| - 1], lines[|lines| - 1], c);
      }
    }
  }

  lemma AppendEnd(x: string, y: string, c: char)
    ensures x + (y + [c]) == (x + y) + [c]
  {
  }

  /** A text that goes before the last line does not change when the last line grows. */
  lemma JoinLast(init: seq<string>, last: string, c: char)
    ensures Join(init + [last + [c]]) == Join(init + [last]) + [c]
  {
    if init == [] {
      assert init + [last] == [last] && init + [last + [c]] == [last + [c]];
    } else {
      JoinMore(init, last);
      JoinMore(init, last + [c]);
      AppendEnd(Join(init) + "\n", last, c);
    }
  }

  /** The lines of a text are the one way to write it as newline-free pieces with newlines between them. */
  lemma SplitExactly(s: string, lines: seq<string>)
    ensures lines == Split(s) <==> lines != [] && NewlineFree(lines) && Join(lines) == s
  {
    SplitNewlineFree(s);
    JoinSplit(s);
    if lines != [] && NewlineFree(lines) {
      SplitJoin(lines);
    }
  }

  /** Splitting undoes joining. */
  lemma {:induction false} SplitJoin(lines: seq<string>)
    requires lines != [] && NewlineFree(lines)
    ensures Split(Join(lines)) == lines
    decreases |lines|
  {
    if |lines| == 1 {
      SplitLine(lines[0]);
    } else {
      var init, last := lines[..|lines| - 1], lines[|lines| - 1];
      SplitJoin(init);
      SplitAppendLine(Join(init), last);
      assert lines == init + [last];
    }
  }

  /** From its n-th character on the line is nothing but spaces, tabs and carriage returns. */
  predicate BlankFrom(l: string, n: nat) {
    n <= |l| && forall i | n <= i < |l| :: l[i] == ' ' || l[i] == '\t' || l[i] == '\r'
  }

  /** Trimming cuts the longest blank tail off a line and nothing else. */
  lemma {:induction false} TrimBlanksExactly(l: string)
    ensures TrimBlanks(l) <= l && BlankFrom(l, |TrimBlanks(l)|)
    ensures TrimBlanks(l) != [] ==>
              var c := TrimBlanks(l)[|TrimBlanks(l)| - 1];
              c != ' ' && c != '\t' && c != '\r'
  {
    if l != [] && IsBlank(l[|l| - 1]) {
      TrimBlanksExactly(l[..|l| - 1]);
    }
  }

  lemma {:induction false} BlankTailCut(l: string, n: nat)
    requires BlankFrom(l, n)
    ensures TrimBlanks(l) == TrimBlanks(l[..n])
    decreases |l|
  {
    if n < |l| {
      assert l[..|l| - 1][..n] == l[..n];
      BlankTailCut(l[..|l| - 1], n);
    } else {
      assert l[..n] == l;
    }
  }

  lemma TrimBlanksFacts(l: string)
    ensures TrimBlanks(TrimBlanks(l)) == TrimBlanks(l)
    ensures '\n' !in l ==> '\n' !in TrimBlanks(l)
  {
    TrimBlanksExactly(l);
    assert TrimBlanks(l) == l[..|TrimBlanks(l)|];
    BlankTailCut(l, |TrimBlanks(l)|);
  }

  lemma TrimLinesNewlineFree(lines: seq<string>)
    requires NewlineFree(lines)
    ensures NewlineFree(TrimLines(lines))
  {
    forall i | 0 <= i < |lines| ensures '\n' !in TrimLines(lines)[i] {
      TrimBlanksFacts(lines[i]);
    }
  }

  lemma LastChar(lines: seq<string>)
    requires lines != [] && NewlineFree(lines)
    ensures lines[|lines| - 1] != "" ==> Join(lines) != [] && Join(lines)[|Join(lines)| - 1] != '\n'
    ensures lines[|lines| - 1] == "" && |lines| > 1 ==> Join(lines) == Join(lines[..|lines| - 1]) + ['\n']
  {
    var last := lines[|lines| - 1];
    if last != "" {
      assert last[|last| - 1] in last;
    }
  }

  /** Trimming the trailing newlines of a joined text drops its trailing blank lines. */
  lemma {:induction false} TrimJoin(lines: seq<string>)
    requires NewlineFree(lines)
    ensures TrimNewlines(Join(lines)) == Join(DropBlankTail(lines))
    decreases |lines|
  {
    if lines != [] {
      LastChar(lines);
      var init := lines[..|lines| - 1];
      if lines[|lines| - 1] == "" {
        if |lines| > 1 {
          assert Join(lines)[..|Join(lines)| - 1] == Join(init);
        }
        TrimJoin(init);
      }
    }
  }

  lemma {:induction false} DropBlankTailFacts(lines: seq<string>)
    ensures DropBlankTail(lines) <= lines
    ensures DropBlankTail(lines) != [] ==> DropBlankTail(lines)[|DropBlankTail(lines)| - 1] != ""
    ensures DropBlankTail(DropBlankTail(lines)) == DropBlankTail(lines)
    decreases |lines|
  {
    if lines != [] && lines[|lines| - 1] == "" {
      DropBlankTailFacts(lines[..|lines| - 1]);
    }
  }

  /** `kept` are the lines without their blank tails and without the blank lines at the end. */
  ghost predicate IsCanonical(kept: seq<string>, lines: seq<string>) {
    && |kept| <= |lines|
    && (forall i | 0 <= i < |kept| :: kept[i] <= lines[i] && BlankFrom(lines[i], |kept[i]|))
    && (forall i | 0 <= i < |kept| && kept[i] != "" :: !BlankFrom(kept[i], |kept[i]| - 1))
    && (forall i | |kept| <= i < |lines| :: BlankFrom(lines[i], 0))
    && (kept != [] ==> kept[|kept| - 1] != "")
  }

  lemma CanonicalForm(lines: seq<string>)
    ensures IsCanonical(DropBlankTail(TrimLines(lines)), lines)
  {
    var trimmed := TrimLines(lines);
    DropBlankTailFacts(trimmed);
    DroppedAreBlank(trimmed);
    forall i | 0 <= i < |lines|
      ensures trimmed[i] <= lines[i] && BlankFrom(lines[i], |trimmed[i]|)
      ensures trimmed[i] != "" ==> !BlankFrom(trimmed[i], |trimmed[i]| - 1)
    {
      TrimBlanksExactly(lines[i]);
    }
  }

  lemma CanonicalLinesExactly(s: string)
    ensures IsCanonical(CanonicalLines(s), Split(s))
  {
    CanonicalForm(Split(s));
  }

  lemma CanonicalLonger(a: seq<string>, b: seq<string>, lines: seq<string>)
    requires IsCanonical(a, lines) && IsCanonical(b, lines)
    ensures |b| <= |a|
  {
  }

  lemma CanonicalLineLonger(a: seq<string>, b: seq<string>, lines: seq<string>, i: nat)
    requires IsCanonical(a, lines) && IsCanonical(b, lines) && i < |a| && i < |b|
    ensures |b[i]| <= |a[i]|
  {
  }

  /** Lines have one canonical form: the one that CanonicalLines computes. */
  lemma CanonicalIsUnique(s: string, kept: seq<string>)
    ensures IsCanonical(kept, Split(s)) <==> kept == CanonicalLines(s)
  {
    var lines, canon := Split(s), CanonicalLines(s);
    CanonicalLinesExactly(s);
    if IsCanonical(kept, lines) {
      CanonicalLonger(kept, canon, lines);
      CanonicalLonger(canon, kept, lines);
      forall i | 0 <= i < |kept| ensures kept[i] == canon[i] {
        CanonicalLineLonger(kept, canon, lines, i);
        CanonicalLineLonger(canon, kept, lines, i);
      }
    }
  }

  /** Normalize renders the canonical lines: those of the text without the blank tails and the blank lines at the
      end. */
  lemma NormalizeIsCanonical(s: string)
    ensures Normalize(s) == Join(CanonicalLines(s)) && IsCanonical(CanonicalLines(s), Split(s))
  {
    CanonicalLinesExactly(s);
    NormalizeJoins(s);
  }

  lemma NormalizeJoins(s: string)
    ensures Normalize(s) == Join(CanonicalLines(s))
    ensures NewlineFree(CanonicalLines(s))
  {
    SplitNewlineFree(s);
    TrimLinesNewlineFree(Split(s));
    TrimJoin(TrimLines(Split(s)));
    DropBlankTailFacts(TrimLines(Split(s)));
  }

  lemma JoinInjective(a: seq<string>, b: seq<string>)
    requires NewlineFree(a) && NewlineFree(b) && Join(a) == Join(b)
    requires a != [] ==> a[|a| - 1] != ""
    requires b != [] ==> b[|b| - 1] != ""
    ensures a == b
  {
    if a != [] { LastChar(a); SplitJoin(a); }
    if b != [] { LastChar(b); SplitJoin(b); }
  }

  /** Two lines are the same character by character, but for a blank tail of each. */
  ghost predicate SameLine(a: string, b: string) {
    exists n: nat :: n <= |a| && n <= |b| && a[..n] == b[..n] && BlankFrom(a, n) && BlankFrom(b, n)
  }

  lemma SameLineExactly(a: string, b: string)
    ensures TrimBlanks(a) == TrimBlanks(b) <==> SameLine(a, b)
  {
    TrimBlanksExactly(a);
    TrimBlanksExactly(b);
    if TrimBlanks(a) == TrimBlanks(b) {
      var n := |TrimBlanks(a)|;
      assert a[..n] == TrimBlanks(a) == b[..n];
    }
    if SameLine(a, b) {
      var n: nat :| n <= |a| && n <= |b| && a[..n] == b[..n] && BlankFrom(a, n) && BlankFrom(b, n);
      BlankTailCut(a, n);
      BlankTailCut(b, n);
    }
  }

  /** The first n lines of the two texts are the same pairwise, and all further lines of either are blank. */
  ghost predicate SameUpTo(a: seq<string>, b: seq<string>, n: nat) {
    && n <= |a| && n <= |b|
    && (forall i | 0 <= i < n :: SameLine(a[i], b[i]))
    && (forall i | n <= i < |a| :: BlankFrom(a[i], 0))
    && (forall i | n <= i < |b| :: BlankFrom(b[i], 0))
  }

  lemma {:induction false} BlankLinesCut(lines: seq<string>, n: nat)
    requires n <= |lines| && forall i | n <= i < |lines| :: lines[i] == ""
    ensures DropBlankTail(lines) == DropBlankTail(lines[..n])
    decreases |lines|
  {
    if n < |lines| {
      assert lines[..|lines| - 1][..n] == lines[..n];
      BlankLinesCut(lines[..|lines| - 1], n);
    } else {
      assert lines[..n] == lines;
    }
  }

  lemma {:induction false} DroppedAreBlank(lines: seq<string>)
    ensures DropBlankTail(lines) <= lines
    ensures forall i | |DropBlankTail(lines)| <= i < |lines| :: lines[i] == ""
    decreases |lines|
  {
    if lines != [] && lines[|lines| - 1] == "" {
      DroppedAreBlank(lines[..|lines| - 1]);
    }
  }

  lemma BlankLine(l: string)
    ensures TrimBlanks(l) == "" <==> BlankFrom(l, 0)
  {
    TrimBlanksExactly(l);
    if BlankFrom(l, 0) {
      BlankTailCut(l, 0);
    }
  }

  lemma SameUpToIsCanonical(a: seq<string>, b: seq<string>, n: nat)
    requires SameUpTo(a, b, n)
    ensures DropBlankTail(TrimLines(a)) == DropBlankTail(TrimLines(b))
  {
    forall i | n <= i < |a| ensures TrimLines(a)[i] == "" { BlankLine(a[i]); }
    forall i | n <= i < |b| ensures TrimLines(b)[i] == "" { BlankLine(b[i]); }
    BlankLinesCut(TrimLines(a), n);
    BlankLinesCut(TrimLines(b), n);
    forall i | 0 <= i < n ensures TrimLines(a)[i] == TrimLines(b)[i] { SameLineExactly(a[i], b[i]); }
    assert TrimLines(a)[..n] == TrimLines(b)[..n];
  }

  lemma CanonicalIsSameUpTo(a: seq<string>, b: seq<string>)
    requires DropBlankTail(TrimLines(a)) == DropBlankTail(TrimLines(b))
    ensures SameUpTo(a, b, |DropBlankTail(TrimLines(a))|)
  {
    var n := |DropBlankTail(TrimLines(a))|;
    DroppedAreBlank(TrimLines(a));
    DroppedAreBlank(TrimLines(b));
    forall i | n <= i < |a| ensures BlankFrom(a[i], 0) {
      assert TrimLines(a)[i] == "";
      BlankLine(a[i]);
    }
    forall i | n <= i < |b| ensures BlankFrom(b[i], 0) {
      assert TrimLines(b)[i] == "";
      BlankLine(b[i]);
    }
    forall i | 0 <= i < n ensures SameLine(a[i], b[i]) {
      assert TrimLines(a)[i] == DropBlankTail(TrimLines(a))[i] == TrimLines(b)[i];
      SameLineExactly(a[i], b[i]);
    }
  }

  /** Match holds exactly when the two texts are the same character by character, blank tails of lines and trailing
      blank lines aside; put differently, when their canonical lines are equal, so it is an equivalence relation. */
  lemma MatchExactly(a: string, b: string)
    ensures Match(a, b) <==> exists n: nat :: SameUpTo(Split(a), Split(b), n)
    ensures Match(a, b) <==> CanonicalLines(a) == CanonicalLines(b)
  {
    MatchIsCanonical(a, b);
    if CanonicalLines(a) == CanonicalLines(b) {
      CanonicalIsSameUpTo(Split(a), Split(b));
      assert exists n: nat :: SameUpTo(Split(a), Split(b), n);
    }
    forall n: nat | SameUpTo(Split(a), Split(b), n) ensures CanonicalLines(a) == CanonicalLines(b) {
      SameUpToIsCanonical(Split(a), Split(b), n);
    }
  }

  lemma MatchIsCanonical(a: string, b: string)
    ensures Match(a, b) <==> CanonicalLines(a) == CanonicalLines(b)
  {
    NormalizeJoins(a);
    NormalizeJoins(b);
    DropBlankTailFacts(TrimLines(Split(a)));
    DropBlankTailFacts(TrimLines(Split(b)));
    if Match(a, b) {
      JoinInjective(CanonicalLines(a), CanonicalLines(b));
    }
  }

  /** Normalizing twice is normalizing once. */
  lemma NormalizeIdempotent(s: string)
    ensures Normalize(Normalize(s)) == Normalize(s)
  {
    NormalizeJoins(s);
    var canon := CanonicalLines(s);
    DropBlankTailFacts(TrimLines(Split(s)));
    if canon == [] {
      assert TrimLines([""]) == [""];
    } else {
      SplitJoin(canon);
      assert TrimLines(canon) == canon by {
        forall i | 0 <= i < |canon| ensures TrimBlanks(canon[i]) == canon[i] {
          TrimBlanksFacts(Split(s)[i]);
        }
      }
      TrimJoin(canon);
    }
  }

  // Appended white space

  predicate IsWhite(c: char) {
    IsBlank(c) || c == '\n'
  }

  lemma AppendWhite(s: string, c: char)
    requires IsWhite(c)
    ensures CanonicalLines(s + [c]) == CanonicalLines(s)
  {
    SplitAppend(s, c);
    if c == '\n' {
      BlankTailLine(Split(s));
    } else {
      BlankTailChar(Split(s), c);
    }
  }

  lemma SplitAppend(s: string, c: char)
    ensures var lines := Split(s);
            Split(s + [c]) == if c == '\n' then lines + [""] else lines[..|lines| - 1] + [lines[|lines| - 1] + [c]]
  {
    assert (s + [c])[..|s|] == s;
  }

  lemma BlankTailLine(lines: seq<string>)
    ensures DropBlankTail(TrimLines(lines + [""])) == DropBlankTail(TrimLines(lines))
  {
    var trimmed := TrimLines(lines);
    assert TrimLines(lines + [""]) == trimmed + [""];
    assert (trimmed + [""])[..|trimmed|] == trimmed;
  }

  lemma BlankTailChar(lines: seq<string>, c: char)
    requires lines != [] && IsBlank(c)
    ensures TrimLines(lines[..|lines| - 1] + [lines[|lines| - 1] + [c]]) == TrimLines(lines)
  {
    var last := lines[|lines| - 1];
    assert (last + [c])[..|last|] == last;
    assert TrimBlanks(last + [c]) == TrimBlanks(last);
  }

  lemma {:induction false} AppendedWhiteSpace(s: string, w: string)
    requires forall i | 0 <= i < |w| :: IsWhite(w[i])
    ensures CanonicalLines(s + w) == CanonicalLines(s)
    decreases |w|
  {
    if w == [] {
      assert s + w == s;
    } else {
      var w', c := w[..|w| - 1], w[|w| - 1];
      AppendedWhiteSpace(s, w');
      assert s + w == (s + w') + [c];
      AppendWhite(s + w', c);
    }
  }

  /** Appending any mix of space, tab, CR and newline never changes the normal form. */
  lemma AppendedWhiteSpaceIgnored(s: string, w: string)
    requires forall i | 0 <= i < |w| :: w[i] == ' ' || w[i] == '\t' || w[i] == '\r' || w[i] == '\n'
    ensures Normalize(s + w) == Normalize(s)
  {
    AppendedWhiteSpace(s, w);
    NormalizeJoins(s);
    NormalizeJoins(s + w);
  }
}
