/**
 Content mode over whole sequences of scans. A scan given up midway leaves its lines in the collector's buffer, so what
 is flushed together is a run: the scans given up since the last flush, and the one that then ends (or nothing more).
 */
module GrepRuns {
  import opened ByteSearch
  import opened Decimal
  import opened GrepCollector
  import opened GrepProperties

  /** The sequence cut after every scan that reached the end of its file; the last run is still open. */
  function Runs(files: seq<FileScan>): (runs: seq<seq<FileScan>>)
    ensures runs != []
    ensures forall r :: 0 <= r < |runs| - 1 ==> runs[r] != []
  {
    if files == [] then [[]] else
    var runs, f := Runs(files[..|files| - 1]), files[|files| - 1];
    runs[..|runs| - 1] + [runs[|runs| - 1] + [f]] + if f.aborted then [] else [[]]
  }

  // What a run amounts to: one file, named after its first scan with a line, every scan numbering its lines from 1.

  function RunTexts(run: seq<FileScan>): seq<string> {
    if run == [] then [] else RunTexts(run[..|run| - 1]) + Texts(run[|run| - 1].lines)
  }

  function RunMatches(run: seq<FileScan>): set<nat> {
    if run == [] then {} else RunMatches(run[..|run| - 1]) + MatchSet(run[|run| - 1].lines)
  }

  function Owner(run: seq<FileScan>): (f: FileScan)
    requires RunTexts(run) != []
    ensures f in run && f.lines != []
  {
    var front, f := run[..|run| - 1], run[|run| - 1];
    if RunTexts(front) != [] then Owner(front) else f
  }

  /** A group of rows, with the scan whose path they bear. */
  datatype Group = Group(owner: FileScan, rows: seq<string>)

  function Named(owner: FileScan, blocks: seq<seq<string>>): (groups: seq<Group>)
    ensures |groups| == |blocks|
  {
    seq(|blocks|, i requires 0 <= i < |blocks| => Group(owner, blocks[i]))
  }

  function RunGroups(run: seq<FileScan>, c: nat): seq<Group> {
    if RunTexts(run) == [] then []
    else Named(Owner(run), FlushBlocks(Owner(run).path, RunTexts(run), RunMatches(run), c))
  }

  function AllGroups(runs: seq<seq<FileScan>>, c: nat): seq<Group> {
    if runs == [] then [] else AllGroups(runs[..|runs| - 1], c) + RunGroups(runs[|runs| - 1], c)
  }

  function Rows(groups: seq<Group>): (rows: seq<seq<string>>)
    ensures |rows| == |groups|
  {
    seq(|groups|, i requires 0 <= i < |groups| => groups[i].rows)
  }

  function Separator(c: nat): seq<string> {
    if c > 0 then ["--"] else []
  }

  // The collector's output, for every sequence of scans.

  lemma {:induction false} EmitJoins(lines: seq<string>, done: seq<seq<string>>, c: nat, blocks: seq<seq<string>>)
    requires lines == Join(done, Separator(c))
    ensures EmitBlocks(lines, done != [], c, blocks) == Join(done + blocks, Separator(c))
    decreases |blocks|
  {
    if blocks == [] {
      assert done + blocks == done;
    } else {
      var next := done + [blocks[0]];
      JoinSnoc(done, blocks[0], Separator(c));
      if done == [] {
        assert [] + [] + blocks[0] == blocks[0];
      } else {
        assert lines + (if c > 0 then ["--"] else []) + blocks[0] == Join(next, Separator(c));
      }
      EmitJoins(Join(next, Separator(c)), next, c, blocks[1..]);
      assert done + blocks == next + blocks[1..];
    }
  }

  lemma {:induction false} BufferedLines(s: State, path: string, lines: seq<Scanned>)
    requires s.texts == [] ==> s.matches == {}
    ensures AfterLines(s, ContentMode, path, lines)
            == if lines == [] then s
               else s.(curPath := if s.texts == [] then path else s.curPath,
                       texts := s.texts + Texts(lines), matches := s.matches + MatchSet(lines))
    decreases |lines|
  {
    if lines != [] {
      var k := |lines| - 1;
      var front := lines[..k];
      BufferedLines(s, path, front);
      assert Texts(lines) == Texts(front) + [lines[k].text];
      assert MatchSet(lines) == MatchSet(front) + if lines[k].matched then {k + 1} else {};
      if k == 0 {
        assert s.texts + Texts(lines) == s.texts + [lines[0].text] && s.matches + MatchSet(front) == s.matches;
      } else {
        assert s.texts + Texts(lines) == s.texts + Texts(front) + [lines[k].text];
        assert s.matches + MatchSet(lines) == s.matches + MatchSet(front) + if lines[k].matched then {k + 1} else {};
      }
    }
  }

  /** The collector after some whole runs and an open one. */
  ghost predicate Between(s: State, done: seq<Group>, open: seq<FileScan>, c: nat) {
    && s.lines == Join(Rows(done), Separator(c)) && s.emitted == (done != [])
    && s.texts == RunTexts(open) && s.matches == RunMatches(open)
    && (s.texts == [] ==> s.curPath == "" && s.matches == {})
    && (s.texts != [] ==> s.curPath == Owner(open).path)
  }

  lemma LinesJoinTheRun(s: State, done: seq<Group>, open: seq<FileScan>, c: nat, f: FileScan)
    requires Between(s, done, open, c)
    ensures Between(AfterLines(s, ContentMode, f.path, f.lines), done, open + [f], c)
  {
    BufferedLines(s, f.path, f.lines);
    var run := open + [f];
    assert run[..|run| - 1] == open;
    if f.lines == [] {
      assert RunTexts(run) == RunTexts(open) && MatchSet(f.lines) == {} && RunMatches(run) == RunMatches(open);
    }
  }

  lemma FlushPrints(s: State, c: nat)
    requires s.texts != []
    ensures var blocks := FlushBlocks(s.curPath, s.texts, s.matches, c);
      AfterEnd(s, ContentMode, c)
      == State(EmitBlocks(s.lines, s.emitted, c, blocks), "", [], {}, s.emitted || blocks != [])
  {
  }

  lemma RowsAppend(a: seq<Group>, b: seq<Group>)
    ensures Rows(a + b) == Rows(a) + Rows(b)
  {
  }

  lemma FlushEndsTheRun(s: State, done: seq<Group>, open: seq<FileScan>, c: nat)
    requires Between(s, done, open, c)
    ensures Between(AfterEnd(s, ContentMode, c), done + RunGroups(open, c), [], c)
  {
    hide FlushBlocks, EmitBlocks, Join, Rows;
    if s.texts == [] {
      assert done + [] == done;
    } else {
      hide AfterEnd;
      var blocks := FlushBlocks(s.curPath, s.texts, s.matches, c);
      FlushPrints(s, c);
      EmitJoins(s.lines, Rows(done), c, blocks);
      RowsAppend(done, RunGroups(open, c));
      NamedRows(Owner(open), blocks);
    }
  }

  lemma NamedRows(owner: FileScan, blocks: seq<seq<string>>)
    ensures Rows(Named(owner, blocks)) == blocks
  {
  }

  lemma RunsGrow(files: seq<FileScan>)
    requires files != []
    ensures var f, was, now := files[|files| - 1], Runs(files[..|files| - 1]), Runs(files);
      var k, n := |was| - 1, |now| - 1;
      if f.aborted then now[..n] == was[..k] && now[n] == was[k] + [f]
      else now[..n] == was[..k] + [was[k] + [f]] && now[n] == []
  {
  }

  /** The groups of the runs that are over. */
  function ClosedGroups(files: seq<FileScan>, c: nat): seq<Group> {
    AllGroups(Runs(files)[..|Runs(files)| - 1], c)
  }

  function OpenRun(files: seq<FileScan>): seq<FileScan> {
    Runs(files)[|Runs(files)| - 1]
  }

  lemma GroupsGrow(files: seq<FileScan>, c: nat)
    requires files != []
    ensures var front, f := files[..|files| - 1], files[|files| - 1];
      var run := OpenRun(front) + [f];
      if f.aborted then OpenRun(files) == run && ClosedGroups(files, c) == ClosedGroups(front, c)
      else OpenRun(files) == [] && ClosedGroups(files, c) == ClosedGroups(front, c) + RunGroups(run, c)
  {
    hide Runs, RunGroups;
    RunsGrow(files);
    var runs := Runs(files)[..|Runs(files)| - 1];
    if !files[|files| - 1].aborted {
      assert runs[..|runs| - 1] == Runs(files[..|files| - 1])[..|runs| - 1];
    }
  }

  lemma {:induction false} AfterAllScans(files: seq<FileScan>, c: nat)
    ensures Between(AfterFiles(INITIAL, ContentMode, c, files), ClosedGroups(files, c), OpenRun(files), c)
    decreases |files|
  {
    if files != [] {
      hide Between, AfterLines, AfterEnd, ClosedGroups, OpenRun, RunGroups;
      var front, f := files[..|files| - 1], files[|files| - 1];
      AfterAllScans(front, c);
      var s, done, open := AfterFiles(INITIAL, ContentMode, c, front), ClosedGroups(front, c), OpenRun(front);
      GroupsGrow(files, c);
      LinesJoinTheRun(s, done, open, c, f);
      if !f.aborted {
        FlushEndsTheRun(AfterLines(s, ContentMode, f.path, f.lines), done, open + [f], c);
      }
    }
  }

  /** What is printed for any sequence of scans: the groups of its runs in order, separated exactly when a context is asked for. */
  lemma ContentIsJoinedRuns(files: seq<FileScan>, c: nat)
    ensures Output(files, ContentMode, c) == Join(Rows(AllGroups(Runs(files), c)), if c > 0 then ["--"] else [])
  {
    AfterAllScans(files, c);
    FlushEndsTheRun(AfterFiles(INITIAL, ContentMode, c, files), ClosedGroups(files, c), OpenRun(files), c);
  }

  // When that is what it should be: the groups of the files that were scanned to their end.

  function OwnGroups(f: FileScan, c: nat): (groups: seq<Group>)
    ensures forall i :: 0 <= i < |groups| ==> groups[i].owner == f
  {
    Named(f, FlushBlocks(f.path, Texts(f.lines), MatchSet(f.lines), c))
  }

  function Completed(files: seq<FileScan>, c: nat): (groups: seq<Group>)
    ensures forall i :: 0 <= i < |groups| ==> !groups[i].owner.aborted
  {
    if files == [] then [] else
    var f := files[|files| - 1];
    Completed(files[..|files| - 1], c) + if f.aborted then [] else OwnGroups(f, c)
  }

  /** The run holds a line of a scan that was given up. */
  predicate Broken(run: seq<FileScan>) {
    exists i :: 0 <= i < |run| && run[i].aborted && run[i].lines != []
  }

  /** If a scan was given up after its first line, neither it nor the rest of its run matched anything. */
  predicate Harmless(runs: seq<seq<FileScan>>) {
    forall r :: 0 <= r < |runs| && Broken(runs[r]) ==> RunMatches(runs[r]) == {}
  }

  /** Only the last scan of a run reached the end of its file. */
  lemma {:induction false} OpenRunIsGivenUp(files: seq<FileScan>)
    ensures forall i :: 0 <= i < |OpenRun(files)| ==> OpenRun(files)[i].aborted
    decreases |files|
  {
    if files != [] {
      OpenRunIsGivenUp(files[..|files| - 1]);
      GroupsGrow(files, 0);
    }
  }

  lemma {:induction false} WholeRunTexts(run: seq<FileScan>)
    requires forall i :: 0 <= i < |run| ==> run[i].aborted
    ensures RunTexts(run) == [] <==> !Broken(run)
    ensures RunTexts(run) == [] ==> RunMatches(run) == {}
    decreases |run|
  {
    if run != [] {
      var front, f := run[..|run| - 1], run[|run| - 1];
      WholeRunTexts(front);
      if Broken(run) && f.lines == [] {
        var i :| 0 <= i < |run| && run[i].aborted && run[i].lines != [];
        assert front[i] == run[i];
      }
    }
  }

  predicate GivenUpButLast(run: seq<FileScan>) {
    forall i :: 0 <= i < |run| - 1 ==> run[i].aborted
  }

  lemma {:induction false} RunsAreGivenUp(files: seq<FileScan>)
    ensures forall r :: 0 <= r < |Runs(files)| ==> GivenUpButLast(Runs(files)[r])
    decreases |files|
  {
    if files != [] {
      hide Runs;
      var front, f := files[..|files| - 1], files[|files| - 1];
      RunsAreGivenUp(front);
      RunsGrow(files);
      OpenRunIsGivenUp(files);
      OpenRunIsGivenUp(front);
      var was, now := Runs(front), Runs(files);
      forall r | 0 <= r < |now| ensures GivenUpButLast(now[r]) {
        if r < |now| - 1 {
          assert now[r] == now[..|now| - 1][r];
          assert now[r] == if r < |was| - 1 then was[r] else was[r] + [f];
        }
      }
    }
  }

  lemma {:induction false} MatchesInRange(run: seq<FileScan>)
    ensures forall m :: m in RunMatches(run) ==> 1 <= m <= |RunTexts(run)|
    decreases |run|
  {
    if run != [] {
      MatchesInRange(run[..|run| - 1]);
    }
  }

  lemma MatchlessPrintNothing(path: string, texts: seq<string>, matches: set<nat>, c: nat)
    requires forall m :: m in matches ==> 1 <= m <= |texts|
    ensures FlushBlocks(path, texts, matches, c) == [] <==> matches == {}
  {
    var spans := Merge(matches, |texts|, c, |texts|);
    MergeIsExact(matches, |texts|, c, |texts|);
    if m :| m in matches {
      assert InContext(m, m, c) && Covered(matches, |texts|, c, |texts|, m);
      assert InSpans(spans, m);
    }
    if spans != [] {
      FirstCovers(spans, spans[0].lo);
      assert Covered(matches, |texts|, c, |texts|, spans[0].lo);
    }
  }

  lemma BrokenOwner(run: seq<FileScan>)
    requires Broken(run) && GivenUpButLast(run)
    ensures RunTexts(run) != [] && Owner(run).aborted
  {
    var front, f := run[..|run| - 1], run[|run| - 1];
    WholeRunTexts(front);
    BrokenEarlier(run);
    hide Broken;
    if Broken(front) {
      var o := Owner(front);
      assert o in front;
    }
  }

  lemma BrokenEarlier(run: seq<FileScan>)
    requires Broken(run)
    ensures Broken(run[..|run| - 1]) || (run[|run| - 1].aborted && run[|run| - 1].lines != [])
  {
    var front := run[..|run| - 1];
    var k :| 0 <= k < |run| && run[k].aborted && run[k].lines != [];
    assert k < |front| ==> front[k] == run[k];
  }

  /** What a broken run prints bears the name of a scan that was given up, and it prints something if anything matched. */
  lemma BrokenRun(run: seq<FileScan>, c: nat)
    requires Broken(run) && GivenUpButLast(run)
    ensures RunTexts(run) != [] && Owner(run).aborted
    ensures RunGroups(run, c) == [] <==> RunMatches(run) == {}
  {
    BrokenOwner(run);
    hide RunTexts, RunMatches, Owner, FlushBlocks;
    MatchesInRange(run);
    MatchlessPrintNothing(Owner(run).path, RunTexts(run), RunMatches(run), c);
  }

  /** A run that ends without having been broken, or without a match, prints its last file as it is. */
  lemma HarmlessRun(open: seq<FileScan>, f: FileScan, c: nat)
    requires (forall i :: 0 <= i < |open| ==> open[i].aborted) && !f.aborted
    requires Broken(open + [f]) ==> RunMatches(open + [f]) == {}
    ensures RunGroups(open + [f], c) == OwnGroups(f, c)
  {
    var run := open + [f];
    MatchlessPrintNothing(f.path, Texts(f.lines), MatchSet(f.lines), c);
    if Broken(run) {
      hide Broken;
      BrokenRun(run, c);
    } else {
      UnbrokenRun(open, f);
    }
  }

  lemma UnbrokenRun(open: seq<FileScan>, f: FileScan)
    requires (forall i :: 0 <= i < |open| ==> open[i].aborted) && !Broken(open + [f])
    ensures RunTexts(open + [f]) == Texts(f.lines) && RunMatches(open + [f]) == MatchSet(f.lines)
    ensures f.lines != [] ==> Owner(open + [f]) == f
  {
    var run := open + [f];
    assert run[..|run| - 1] == open;
    forall i | 0 <= i < |open| ensures open[i].lines == [] {
      assert run[i] == open[i];
    }
    WholeRunTexts(open);
  }

  lemma HarmlessBefore(files: seq<FileScan>)
    requires files != [] && Harmless(Runs(files)[..|Runs(files)| - 1])
    ensures var front, f := files[..|files| - 1], files[|files| - 1];
      && Harmless(Runs(front)[..|Runs(front)| - 1])
      && (!f.aborted && Broken(OpenRun(front) + [f]) ==> RunMatches(OpenRun(front) + [f]) == {})
  {
    hide Runs, Broken, RunMatches;
    RunsGrow(files);
    var front := files[..|files| - 1];
    var was, now := Runs(front)[..|Runs(front)| - 1], Runs(files)[..|Runs(files)| - 1];
    assert forall r :: 0 <= r < |was| ==> was[r] == now[r];
    if !files[|files| - 1].aborted {
      assert now[|was|] == OpenRun(front) + [files[|files| - 1]];
    }
  }

  lemma {:induction false} ClosedAreCompleted(files: seq<FileScan>, c: nat)
    requires Harmless(Runs(files)[..|Runs(files)| - 1])
    ensures ClosedGroups(files, c) == Completed(files, c)
    decreases |files|
  {
    if files != [] {
      hide Runs, RunGroups, Broken, Harmless, ClosedGroups, OpenRun;
      var front, f := files[..|files| - 1], files[|files| - 1];
      HarmlessBefore(files);
      GroupsGrow(files, c);
      ClosedAreCompleted(front, c);
      if !f.aborted {
        OpenRunIsGivenUp(front);
        HarmlessRun(OpenRun(front), f, c);
      }
    } else {
      assert Runs(files)[..0] == [];
    }
  }

  lemma {:induction false} GroupsOfARun(runs: seq<seq<FileScan>>, r: nat, c: nat)
    requires r < |runs| && RunGroups(runs[r], c) != []
    ensures RunGroups(runs[r], c)[0] in AllGroups(runs, c)
    decreases |runs|
  {
    if r < |runs| - 1 {
      GroupsOfARun(runs[..|runs| - 1], r, c);
    }
  }

  /**
   Every printed group belongs to a file scanned to its end, and every such file's groups are printed, in order, if and
   only if no run that holds a line of a scan given up holds a match. Otherwise some group bears that scan's path.
   */
  lemma RunsAreFilesExactly(files: seq<FileScan>, c: nat)
    ensures AllGroups(Runs(files), c) == Completed(files, c) <==> Harmless(Runs(files))
    ensures !Harmless(Runs(files)) ==> exists g :: g in AllGroups(Runs(files), c) && g.owner.aborted
  {
    var runs := Runs(files);
    if Harmless(runs) {
      ClosedAreCompleted(files, c);
      OpenRunIsGivenUp(files);
      var open := OpenRun(files);
      WholeRunTexts(open);
      if Broken(open) {
        BrokenRun(open, c);
      }
      assert Completed(files, c) + [] == Completed(files, c);
    } else {
      var r :| 0 <= r < |runs| && Broken(runs[r]) && RunMatches(runs[r]) != {};
      RunsAreGivenUp(files);
      BrokenRun(runs[r], c);
      GroupsOfARun(runs, r, c);
    }
  }

  /**
   What is printed of one file scanned to its end: the lines within c lines of one that matched, in order and each once,
   every row with the file's path, the line's own number and text, and a colon or a dash as it matched or not.
   */
  lemma FileReads(f: FileScan, c: nat) returns (lns: seq<nat>)
    ensures var rows := Join(Rows(OwnGroups(f, c)), []);
      && |rows| == |lns|
      && (forall n: nat :: n in lns <==>
            1 <= n <= |f.lines| && exists i :: 0 <= i < |f.lines| && f.lines[i].matched && i + 1 - c <= n <= i + 1 + c)
      && (forall i, j :: 0 <= i < j < |lns| ==> lns[i] < lns[j])
      && forall k :: 0 <= k < |lns| ==>
           1 <= lns[k] <= |f.lines|
           && RowReads(rows[k], f.path, Itoa(lns[k]), lns[k], f.lines[lns[k] - 1].text, f.lines[lns[k] - 1].matched)
  {
    var texts, matches := Texts(f.lines), MatchSet(f.lines);
    NamedRows(f, FlushBlocks(f.path, texts, matches, c));
    lns := FlushReads(f.path, texts, matches, c);
    MatchSetSays(f.lines);
    var rows := Join(Rows(OwnGroups(f, c)), []);
    forall k | 0 <= k < |lns| ensures 1 <= lns[k] <= |f.lines|
      && RowReads(rows[k], f.path, Itoa(lns[k]), lns[k], f.lines[lns[k] - 1].text, f.lines[lns[k] - 1].matched)
    {
    }
    forall n: nat ensures n in lns <==>
      1 <= n <= |f.lines| && exists i :: 0 <= i < |f.lines| && f.lines[i].matched && i + 1 - c <= n <= i + 1 + c
    {
      if m :| m in matches && 1 <= m <= |texts| && m - c <= n <= m + c {
        assert f.lines[m - 1].matched;
      }
      if i :| 0 <= i < |f.lines| && f.lines[i].matched && i + 1 - c <= n <= i + 1 + c {
        assert i + 1 in matches;
      }
    }
  }

  lemma MatchSetSays(lines: seq<Scanned>)
    ensures forall m: nat :: m in MatchSet(lines) <==> 1 <= m <= |lines| && lines[m - 1].matched
  {
  }

  /** So with no scan given up after its first line, or none that matters, content output is the files' groups, joined. */
  lemma ContentIsJoinedGroups(files: seq<FileScan>, c: nat)
    requires Harmless(Runs(files))
    ensures Output(files, ContentMode, c) == Join(Rows(Completed(files, c)), Separator(c))
  {
    ContentIsJoinedRuns(files, c);
    RunsAreFilesExactly(files, c);
  }

  /** Without a context, a match on the first line alone is a span of its own. */
  lemma FirstLineSpan(total: nat)
    requires 1 <= total
    ensures Merge({1}, total, 0, total) == [Span(1, 1)]
  {
    var one := [Span(1, 1)];
    MergeIsExact({1}, total, 0, total);
    forall ln: nat ensures InSpans(one, ln) <==> Covered({1}, total, 0, total, ln) {
      assert InSpans(one, ln) <==> one[0].lo <= ln <= one[0].hi;
      assert InContext(1, 1, 0);
    }
    ExactIsUnique(Merge({1}, total, 0, total), one, total);
  }

  lemma FirstLineBlock(path: string, texts: seq<string>)
    requires texts != []
    ensures FlushBlocks(path, texts, {1}, 0) == [[path + ":1:" + texts[0]]]
  {
    hide Merge;
    FirstLineSpan(|texts|);
    assert Itoa(1) == "1" && path + ":" + "1" + ":" == path + ":1:";
    assert Row(path, texts, {1}, 1) == path + ":1:" + texts[0];
    assert Block(path, texts, {1}, Span(1, 1)) == [Row(path, texts, {1}, 1)];
  }

  lemma TwoScans(a: FileScan, b: FileScan)
    requires a.aborted && !b.aborted && a.lines != []
    ensures Runs([a, b]) == [[a, b], []]
    ensures RunTexts([a, b]) == Texts(a.lines) + Texts(b.lines) && RunMatches([a, b]) == MatchSet(a.lines) + MatchSet(b.lines)
    ensures Owner([a, b]) == a
  {
    assert [a, b][..1] == [a] && [a][..0] == [];
    var none: seq<FileScan> := [];
    assert Runs(none) == [none] && [none][..0] == [] && none + [a] == [a];
    assert Runs([a]) == [[a]];
    assert [[a]][..0] == [] && [a] + [b] == [a, b];
    assert RunTexts(none) == [] && RunMatches(none) == {};
    assert RunTexts([a]) == Texts(a.lines) && RunMatches([a]) == MatchSet(a.lines);
  }

  lemma TwoGroups(a: FileScan, b: FileScan, c: nat)
    requires a.aborted && !b.aborted && a.lines != []
    ensures AllGroups(Runs([a, b]), c) == RunGroups([a, b], c)
    ensures Completed([a, b], c) == OwnGroups(b, c)
  {
    hide Runs, RunGroups, FlushBlocks;
    TwoScans(a, b);
    assert [[a, b], []][..1] == [[a, b]] && [[a, b]][..0] == [];
    assert AllGroups([[a, b]], c) == RunGroups([a, b], c);
    assert RunGroups([], c) == [] by { EmptyRun(c); }
    assert [a, b][..1] == [a] && [a][..0] == [];
    assert Completed([a], c) == [];
  }

  lemma EmptyRun(c: nat)
    ensures RunGroups([], c) == []
  {
  }

  /** One scan given up, and one after it. */
  lemma PairPrints(a: FileScan, b: FileScan, c: nat)
    requires a.aborted && !b.aborted && a.lines != []
    ensures Output([a, b], ContentMode, c)
            == Join(FlushBlocks(a.path, Texts(a.lines) + Texts(b.lines), MatchSet(a.lines) + MatchSet(b.lines), c), Separator(c))
    ensures Rows(Completed([a, b], c)) == FlushBlocks(b.path, Texts(b.lines), MatchSet(b.lines), c)
  {
    TwoScans(a, b);
    TwoGroups(a, b, c);
    ContentIsJoinedRuns([a, b], c);
    hide Runs, RunTexts, RunMatches, Owner, FlushBlocks, AllGroups, Completed, MatchSet, Texts, Output, Join, Rows;
    NamedRows(a, FlushBlocks(a.path, Texts(a.lines) + Texts(b.lines), MatchSet(a.lines) + MatchSet(b.lines), c));
    NamedRows(b, FlushBlocks(b.path, Texts(b.lines), MatchSet(b.lines), c));
  }

  /** With the first given up before any match, the match of the second is printed as the first one's line. */
  lemma AbortedScanMisattributes(p: string, t: string, q: string, u: string)
    ensures var files := [FileScan(p, [Scanned(t, false)], true), FileScan(q, [Scanned(u, true)], false)];
      && Output(files, ContentMode, 0) == [p + ":1:" + t]
      && Rows(Completed(files, 0)) == [[q + ":1:" + u]]
  {
    var a, b := FileScan(p, [Scanned(t, false)], true), FileScan(q, [Scanned(u, true)], false);
    assert MatchSet(a.lines) == {} && MatchSet(b.lines) == {1} && Texts(a.lines) == [t] && Texts(b.lines) == [u];
    hide FlushBlocks, Completed, MatchSet, Texts, Output, Rows;
    assert [t] + [u] == [t, u] && {} + {1} == {1};
    PairPrints(a, b, 0);
    FirstLineBlock(p, [t, u]);
    FirstLineBlock(q, [u]);
  }
}
