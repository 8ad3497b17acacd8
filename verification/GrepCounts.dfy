/** Count and file-name modes: what an accumulator that re-reads its own last output line adds up to. */
module GrepCounts {
  import opened Wrappers
  import opened Decimal
  import opened GrepCollector

  datatype Entry = Entry(path: string, count: nat)

  function MatchCount(lines: seq<Scanned>): nat {
    if lines == [] then 0
    else MatchCount(lines[..|lines| - 1]) + if lines[|lines| - 1].matched then 1 else 0
  }

  /** Adds n matching lines of `path` to a tally that only ever grows at its end. */
  function Add(tally: seq<Entry>, path: string, n: nat): seq<Entry> {
    if n == 0 then tally
    else if tally != [] && tally[|tally| - 1].path == path
    then tally[|tally| - 1 := Entry(path, tally[|tally| - 1].count + n)]
    else tally + [Entry(path, n)]
  }

  function Tally(files: seq<FileScan>): seq<Entry> {
    if files == [] then [] else
    var f := files[|files| - 1];
    Add(Tally(files[..|files| - 1]), f.path, MatchCount(f.lines))
  }

  /** One entry per matching file, in order, with its number of matching lines. */
  function PerFile(files: seq<FileScan>): seq<Entry> {
    if files == [] then [] else
    var f := files[|files| - 1];
    PerFile(files[..|files| - 1]) + if MatchCount(f.lines) > 0 then [Entry(f.path, MatchCount(f.lines))] else []
  }

  function CountLines(tally: seq<Entry>): (lines: seq<string>)
    ensures |lines| == |tally|
  {
    seq(|tally|, i requires 0 <= i < |tally| => CountLine(tally[i].path, tally[i].count))
  }

  function Paths(tally: seq<Entry>): (lines: seq<string>)
    ensures |lines| == |tally|
  {
    seq(|tally|, i requires 0 <= i < |tally| => tally[i].path)
  }

  /**
   Only a count line of this very path parses back: paths may hold colons and digits, or be prefixes of one another,
   because the number ends at the last colon.
   */
  lemma CountLineParses(p: string, n: nat, q: string)
    ensures LastCount([CountLine(p, n)], q) == if p == q then Some(n) else None
  {
    var line := CountLine(p, n);
    assert line[|p|] == ':' && forall k :: |p| < k < |line| ==> line[k] == Itoa(n)[k - |p| - 1];
    assert [line] != [] && [line][0] == line;
    if |q| == |p| {
      assert line[..|q|] == p && line[..|q| + 1] == p + ":";
      assert line[|q| + 1..] == Itoa(n);
      AtoiOfItoa(n);
    } else if q + ":" <= line {
      var rest := line[|q| + 1..];
      assert line[|q|] == (q + ":")[|q|] == ':';
      assert rest[|p| - |q| - 1] == ':';
      if Atoi(rest).Some? {
        NumbersHoldNoColon(rest);
      }
    }
  }

  lemma LastCountIsOwn(tally: seq<Entry>, path: string)
    ensures LastCount(CountLines(tally), path)
            == if tally != [] && tally[|tally| - 1].path == path then Some(tally[|tally| - 1].count) else None
  {
    if tally != [] {
      var lines, last := CountLines(tally), tally[|tally| - 1];
      CountLineParses(last.path, last.count, path);
      assert lines[|lines| - 1] == CountLine(last.path, last.count);
      SameLast(lines, [lines[|lines| - 1]], path);
    }
  }

  lemma SameLast(a: seq<string>, b: seq<string>, path: string)
    requires a != [] && b != [] && a[|a| - 1] == b[|b| - 1]
    ensures LastCount(a, path) == LastCount(b, path)
  {
  }

  lemma CountStep(s: State, tally: seq<Entry>, path: string, lineNo: nat, line: Scanned)
    requires s.lines == CountLines(tally)
    ensures AfterLine(s, CountMode, path, lineNo, line)
            == s.(lines := CountLines(Add(tally, path, if line.matched then 1 else 0)))
  {
    LastCountIsOwn(tally, path);
    var after := Add(tally, path, 1);
    if tally != [] && tally[|tally| - 1].path == path {
      assert CountLines(after) == CountLines(tally)[..|tally| - 1] + [CountLine(path, tally[|tally| - 1].count + 1)];
    } else {
      assert CountLines(after) == CountLines(tally) + [CountLine(path, 1)];
    }
  }

  lemma FilesStep(s: State, tally: seq<Entry>, path: string, lineNo: nat, line: Scanned)
    requires s.lines == Paths(tally)
    ensures AfterLine(s, FilesMode, path, lineNo, line)
            == s.(lines := Paths(Add(tally, path, if line.matched then 1 else 0)))
  {
    var after := Add(tally, path, 1);
    if tally != [] && tally[|tally| - 1].path == path {
      assert Paths(after) == Paths(tally);
    } else {
      assert Paths(after) == Paths(tally) + [path];
    }
  }

  /** What the two accumulating modes print for a tally. */
  function Printed(mode: Mode, tally: seq<Entry>): seq<string> {
    if mode == CountMode then CountLines(tally) else Paths(tally)
  }

  lemma LineAdds(s: State, mode: Mode, tally: seq<Entry>, path: string, lineNo: nat, line: Scanned)
    requires mode != ContentMode && s.lines == Printed(mode, tally)
    ensures AfterLine(s, mode, path, lineNo, line)
            == s.(lines := Printed(mode, Add(tally, path, if line.matched then 1 else 0)))
  {
    if mode == CountMode {
      CountStep(s, tally, path, lineNo, line);
    } else {
      FilesStep(s, tally, path, lineNo, line);
    }
  }

  lemma {:induction false} ScanAdds(s: State, mode: Mode, tally: seq<Entry>, path: string, lines: seq<Scanned>)
    requires mode != ContentMode && s.lines == Printed(mode, tally)
    ensures AfterLines(s, mode, path, lines) == s.(lines := Printed(mode, Add(tally, path, MatchCount(lines))))
    decreases |lines|
  {
    if lines != [] {
      hide AfterLine, Printed, Add;
      var k := |lines| - 1;
      var m, hit := MatchCount(lines[..k]), if lines[k].matched then 1 else 0;
      ScanAdds(s, mode, tally, path, lines[..k]);
      var before := AfterLines(s, mode, path, lines[..k]);
      LineAdds(before, mode, Add(tally, path, m), path, k + 1, lines[k]);
      AddTwice(tally, path, m, hit);
      assert AfterLines(s, mode, path, lines) == AfterLine(before, mode, path, k + 1, lines[k]);
    } else {
      assert MatchCount(lines) == 0;
    }
  }

  lemma AddTwice(tally: seq<Entry>, path: string, m: nat, n: nat)
    ensures Add(Add(tally, path, m), path, n) == Add(tally, path, m + n)
  {
  }

  lemma {:induction false} OutputIsTally(files: seq<FileScan>, mode: Mode, c: nat)
    requires mode != ContentMode
    ensures AfterFiles(INITIAL, mode, c, files) == INITIAL.(lines := Printed(mode, Tally(files)))
    ensures Output(files, mode, c) == Printed(mode, Tally(files))
    decreases |files|
  {
    if files != [] {
      var front, f := files[..|files| - 1], files[|files| - 1];
      OutputIsTally(front, mode, c);
      ScanAdds(AfterFiles(INITIAL, mode, c, front), mode, Tally(front), f.path, f.lines);
    }
  }

  predicate NeighboursDiffer(entries: seq<Entry>) {
    forall i :: 0 <= i < |entries| - 1 ==> entries[i].path != entries[i + 1].path
  }

  lemma {:induction false} TallyVersusPerFile(files: seq<FileScan>)
    ensures var t, p := Tally(files), PerFile(files);
            && |t| <= |p| && (t == [] <==> p == [])
            && (t != [] ==> t[|t| - 1].path == p[|p| - 1].path)
            && (NeighboursDiffer(p) ==> t == p)
            && (!NeighboursDiffer(p) ==> |t| < |p|)
    decreases |files|
  {
    if files != [] {
      var front, f := files[..|files| - 1], files[|files| - 1];
      TallyVersusPerFile(front);
      var n, p, q := MatchCount(f.lines), PerFile(front), PerFile(files);
      if n > 0 {
        assert q == p + [Entry(f.path, n)];
        if p != [] {
          assert q[|p| - 1] == p[|p| - 1] && q[|p|] == Entry(f.path, n);
        }
        assert NeighboursDiffer(q) ==> NeighboursDiffer(p) by {
          if NeighboursDiffer(q) {
            forall i | 0 <= i < |p| - 1 ensures p[i].path != p[i + 1].path {
              assert q[i] == p[i] && q[i + 1] == p[i + 1];
            }
          }
        }
      } else {
        assert q == p;
      }
    }
  }

  /**
   Count mode answers one entry per matching file, in order, with its true count, exactly when no two matching files
   that follow one another (non-matching ones aside) have the same path.
   */
  lemma CountModeIsPerFile(files: seq<FileScan>, c: nat)
    ensures Output(files, CountMode, c) == CountLines(Tally(files))
    ensures Output(files, FilesMode, c) == Paths(Tally(files))
    ensures Output(files, CountMode, c) == CountLines(PerFile(files)) <==> NeighboursDiffer(PerFile(files))
  {
    OutputIsTally(files, CountMode, c);
    OutputIsTally(files, FilesMode, c);
    TallyVersusPerFile(files);
  }

  /** Distinct neighbouring paths alone are not enough: a non-matching file between two scans of one path hides it. */
  lemma HiddenRepeat(p: string, q: string, c: nat)
    requires p != q
    ensures var hit, miss := [Scanned("x", true)], [Scanned("x", false)];
            var files := [FileScan(p, hit, false), FileScan(q, miss, false), FileScan(p, hit, false)];
            Output(files, CountMode, c) == [p + ":2"] && CountLines(PerFile(files)) == [p + ":1", p + ":1"]
  {
    var hit, miss := [Scanned("x", true)], [Scanned("x", false)];
    var files := [FileScan(p, hit, false), FileScan(q, miss, false), FileScan(p, hit, false)];
    assert hit[..0] == [] && miss[..0] == [];
    assert MatchCount(hit) == 1 && MatchCount(miss) == 0;
    RepeatTallies(p, hit, q, miss);
    OutputIsTally(files, CountMode, c);
    CountLineReads(p);
    hide Tally, PerFile, Output, CountLine;
    assert CountLines([Entry(p, 2)]) == [CountLine(p, 2)];
    assert CountLines([Entry(p, 1), Entry(p, 1)]) == [CountLine(p, 1), CountLine(p, 1)];
  }

  lemma CountLineReads(p: string)
    ensures CountLine(p, 1) == p + ":1" && CountLine(p, 2) == p + ":2"
  {
    assert Itoa(1) == "1" && Itoa(2) == "2";
    assert p + ":" + "1" == p + ":1" && p + ":" + "2" == p + ":2";
  }

  lemma RepeatTallies(p: string, hit: seq<Scanned>, q: string, miss: seq<Scanned>)
    requires MatchCount(hit) == 1 && MatchCount(miss) == 0
    ensures var files := [FileScan(p, hit, false), FileScan(q, miss, false), FileScan(p, hit, false)];
      Tally(files) == [Entry(p, 2)] && PerFile(files) == [Entry(p, 1), Entry(p, 1)]
  {
    hide MatchCount;
    var f1, f2, f3 := FileScan(p, hit, false), FileScan(q, miss, false), FileScan(p, hit, false);
    OneMore([], f1);
    OneMore([f1], f2);
    OneMore([f1, f2], f3);
    hide Tally, PerFile;
    assert [] + [f1] == [f1] && [f1] + [f2] == [f1, f2] && [f1, f2] + [f3] == [f1, f2, f3];
    assert [Entry(p, 1)] + [] == [Entry(p, 1)];
  }

  lemma OneMore(files: seq<FileScan>, f: FileScan)
    ensures Tally([]) == [] && PerFile([]) == []
    ensures var n := MatchCount(f.lines);
      && Tally(files + [f]) == Add(Tally(files), f.path, n)
      && PerFile(files + [f]) == PerFile(files) + if n > 0 then [Entry(f.path, n)] else []
  {
    assert (files + [f])[..|files|] == files;
  }
}
