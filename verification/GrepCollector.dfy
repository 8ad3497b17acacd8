/**
 The fallback grep engine's collector: per-file buffering and interval merging in content mode, and an accumulator
 that re-reads its own last output line in count mode.
 */
module GrepCollector {
  import opened Wrappers
  import opened Decimal

  datatype Mode = ContentMode | CountMode | FilesMode

  /** One scanned line and whether the pattern matched it. */
  datatype Scanned = Scanned(text: string, matched: bool)

  /** A file handed to the collector; an aborted scan stops after `lines` and never reaches the end of the file. */
  datatype FileScan = FileScan(path: string, lines: seq<Scanned>, aborted: bool)

  datatype Span = Span(lo: nat, hi: nat)

  datatype State = State(lines: seq<string>, curPath: string, texts: seq<string>, matches: set<nat>, emitted: bool)

  const INITIAL := State([], "", [], {}, false)

  // What each call does to the collector.

  function CountLine(path: string, n: nat): string {
    path + ":" + Itoa(n)
  }

  /** The number of the last output line, if that line is a count line of this very path. */
  function LastCount(lines: seq<string>, path: string): Option<int> {
    if lines == [] then None else
    var prev := lines[|lines| - 1];
    if path + ":" <= prev then Atoi(prev[|path| + 1..]) else None
  }

  function AfterLine(s: State, mode: Mode, path: string, lineNo: nat, line: Scanned): State {
    match mode
    case ContentMode =>
      var opening := s.texts == [];
      var matches := if opening then {} else s.matches;
      s.(curPath := if opening then path else s.curPath, texts := s.texts + [line.text],
         matches := if line.matched then matches + {lineNo} else matches)
    case CountMode =>
      if !line.matched then s else
      (match LastCount(s.lines, path)
       case Some(n) => s.(lines := s.lines[..|s.lines| - 1] + [Bumped(path, n)])
       case None => s.(lines := s.lines + [CountLine(path, 1)]))
    case FilesMode =>
      if line.matched && (s.lines == [] || s.lines[|s.lines| - 1] != path) then s.(lines := s.lines + [path]) else s
  }

  function Bumped(path: string, n: int): string {
    if n + 1 >= 0 then CountLine(path, n + 1) else path + ":-" + Itoa(-(n + 1))
  }

  function Lo(ln: nat, c: nat): nat {
    if ln - c < 1 then 1 else ln - c
  }

  function Hi(ln: nat, c: nat, total: nat): nat {
    Min(ln + c, total)
  }

  /** The merged spans once lines 1..n have been looked at. */
  function Merge(matches: set<nat>, total: nat, c: nat, n: nat): seq<Span>
    requires n <= total
  {
    if n == 0 then [] else
    var spans := Merge(matches, total, c, n - 1);
    if n !in matches then spans else AddSpan(spans, Lo(n, c), Hi(n, c, total))
  }

  function AddSpan(spans: seq<Span>, lo: nat, hi: nat): seq<Span> {
    if spans == [] || spans[|spans| - 1].hi + 1 < lo then spans + [Span(lo, hi)] else
    var last := spans[|spans| - 1];
    spans[|spans| - 1 := Span(last.lo, if hi > last.hi then hi else last.hi)]
  }

  function Row(path: string, texts: seq<string>, matches: set<nat>, ln: nat): string
    requires 1 <= ln <= |texts|
  {
    if ln in matches then path + ":" + Itoa(ln) + ":" + texts[ln - 1] else path + "-" + Itoa(ln) + "-" + texts[ln - 1]
  }

  function Block(path: string, texts: seq<string>, matches: set<nat>, sp: Span): seq<string>
    requires 1 <= sp.lo && sp.hi <= |texts|
  {
    if sp.lo > sp.hi then [] else
    seq(sp.hi + 1 - sp.lo, i requires 0 <= i < sp.hi + 1 - sp.lo => Row(path, texts, matches, sp.lo + i))
  }

  predicate InRange(spans: seq<Span>, total: nat) {
    forall i :: 0 <= i < |spans| ==> 1 <= spans[i].lo <= spans[i].hi <= total
  }

  function Blocks(path: string, texts: seq<string>, matches: set<nat>, spans: seq<Span>): (blocks: seq<seq<string>>)
    requires InRange(spans, |texts|)
    ensures |blocks| == |spans|
  {
    seq(|spans|, i requires 0 <= i < |spans| => Block(path, texts, matches, spans[i]))
  }

  /** Appends blocks, each after a separator if anything was emitted before and a context is asked for. */
  function EmitBlocks(lines: seq<string>, emitted: bool, c: nat, blocks: seq<seq<string>>): seq<string>
    decreases |blocks|
  {
    if blocks == [] then lines else
    EmitBlocks(lines + (if emitted && c > 0 then ["--"] else []) + blocks[0], true, c, blocks[1..])
  }

  function AfterEnd(s: State, mode: Mode, c: nat): State {
    if mode != ContentMode || s.texts == [] then s else
    var spans := Merge(s.matches, |s.texts|, c, |s.texts|);
    MergeInRange(s.matches, |s.texts|, c, |s.texts|);
    State(EmitBlocks(s.lines, s.emitted, c, Blocks(s.curPath, s.texts, s.matches, spans)), "", [], {},
          s.emitted || spans != [])
  }

  lemma {:induction false} MergeInRange(matches: set<nat>, total: nat, c: nat, n: nat)
    requires n <= total
    ensures InRange(Merge(matches, total, c, n), total)
  {
    if n > 0 {
      MergeInRange(matches, total, c, n - 1);
    }
  }

  function AfterLines(s: State, mode: Mode, path: string, lines: seq<Scanned>): State
    decreases |lines|
  {
    if lines == [] then s
    else AfterLine(AfterLines(s, mode, path, lines[..|lines| - 1]), mode, path, |lines|, lines[|lines| - 1])
  }

  function AfterFile(s: State, mode: Mode, c: nat, f: FileScan): State {
    var scanned := AfterLines(s, mode, f.path, f.lines);
    if f.aborted then scanned else AfterEnd(scanned, mode, c)
  }

  function AfterFiles(s: State, mode: Mode, c: nat, files: seq<FileScan>): State {
    if files == [] then s else AfterFile(AfterFiles(s, mode, c, files[..|files| - 1]), mode, c, files[|files| - 1])
  }

  /** The collector object, with the source's fields. */
  class Collector {
    const mode: Mode
    const contextLines: nat
    var lines: seq<string>
    var curPath: string
    var texts: seq<string>
    var matches: set<nat>
    var emitted: bool

    constructor (mode: Mode, contextLines: nat)
      ensures this.mode == mode && this.contextLines == contextLines && Now() == INITIAL
    {
      this.mode, this.contextLines := mode, contextLines;
      lines, curPath, texts, matches, emitted := [], "", [], {}, false;
    }

    function Now(): State
      reads this
    {
      State(lines, curPath, texts, matches, emitted)
    }

    method Line(path: string, lineNo: nat, text: string, matched: bool)
      modifies this
      ensures Now() == AfterLine(old(Now()), mode, path, lineNo, Scanned(text, matched))
    {
      match mode
      case ContentMode =>
        if |texts| == 0 {
          curPath, matches := path, {};
        }
        texts := texts + [text];
        if matched {
          matches := matches + {lineNo};
        }
      case CountMode =>
        if matched {
          if |lines| > 0 && path + ":" <= lines[|lines| - 1] {
            var prev := lines[|lines| - 1];
            var n := Atoi(prev[|path| + 1..]);
            if n.Some? {
              lines := lines[..|lines| - 1] + [Bumped(path, n.value)];
              return;
            }
          }
          lines := lines + [CountLine(path, 1)];
        }
      case FilesMode =>
        if matched && (|lines| == 0 || lines[|lines| - 1] != path) {
          lines := lines + [path];
        }
    }

    method EndFile()
      modifies this
      ensures Now() == AfterEnd(old(Now()), mode, contextLines)
    {
      if mode != ContentMode || |texts| == 0 {
        return;
      }
      var spans := MergedSpans();
      for i := 0 to |spans|
        invariant unchanged(`texts) && unchanged(`matches) && unchanged(`curPath)
        invariant emitted == (old(emitted) || i > 0)
        invariant EmitBlocks(lines, emitted, contextLines, Blocks(curPath, texts, matches, spans)[i..])
                  == EmitBlocks(old(lines), old(emitted), contextLines, Blocks(curPath, texts, matches, spans))
      {
        ghost var blocks, before := Blocks(curPath, texts, matches, spans), lines;
        assert blocks[i..][1..] == blocks[i + 1..];
        if emitted && contextLines > 0 {
          lines := lines + ["--"];
        } else {
          assert before + [] == before;
        }
        EmitSpan(spans[i]);
        emitted := true;
      }
      texts, matches, curPath := [], {}, "";
    }

    /** Expands each match by the context and merges overlapping and adjacent ranges. */
    method MergedSpans() returns (spans: seq<Span>)
      ensures spans == Merge(matches, |texts|, contextLines, |texts|) && InRange(spans, |texts|)
    {
      spans := [];
      for ln := 1 to |texts| + 1
        invariant spans == Merge(matches, |texts|, contextLines, ln - 1)
      {
        if ln !in matches {
          continue;
        }
        var lo: int, hi := ln - contextLines, ln + contextLines;
        if lo < 1 {
          lo := 1;
        }
        if hi > |texts| {
          hi := |texts|;
        }
        var n := |spans|;
        if n > 0 && lo <= spans[n - 1].hi + 1 {
          if hi > spans[n - 1].hi {
            spans := spans[n - 1 := Span(spans[n - 1].lo, hi)];
          }
          continue;
        }
        spans := spans + [Span(lo, hi)];
      }
      MergeInRange(matches, |texts|, contextLines, |texts|);
    }

    /** Appends one row per line of the span. */
    method EmitSpan(sp: Span)
      requires 1 <= sp.lo <= sp.hi <= |texts|
      modifies this`lines
      ensures lines == old(lines) + Block(curPath, texts, matches, sp)
    {
      ghost var block := Block(curPath, texts, matches, sp);
      for ln := sp.lo to sp.hi + 1
        invariant lines == old(lines) + block[..ln - sp.lo]
      {
        assert block[ln - sp.lo] == Row(curPath, texts, matches, ln);
        assert block[..ln + 1 - sp.lo] == block[..ln - sp.lo] + [block[ln - sp.lo]];
        if ln in matches {
          lines := lines + [curPath + ":" + Itoa(ln) + ":" + texts[ln - 1]];
        } else {
          lines := lines + [curPath + "-" + Itoa(ln) + "-" + texts[ln - 1]];
        }
      }
    }

    /** Scans one file line by line; a scan error leaves the file unflushed. */
    method ScanFile(f: FileScan)
      modifies this
      ensures Now() == AfterFile(old(Now()), mode, contextLines, f)
    {
      for lineNo := 0 to |f.lines|
        invariant Now() == AfterLines(old(Now()), mode, f.path, f.lines[..lineNo])
      {
        assert f.lines[..lineNo + 1][..lineNo] == f.lines[..lineNo];
        Line(f.path, lineNo + 1, f.lines[lineNo].text, f.lines[lineNo].matched);
      }
      assert f.lines[..|f.lines|] == f.lines;
      if f.aborted {
        return;
      }
      EndFile();
    }
  }

  /** The walk: every file in order, then a last flush. */
  method GrepFallback(files: seq<FileScan>, mode: Mode, contextLines: nat) returns (lines: seq<string>)
    ensures lines == Output(files, mode, contextLines)
  {
    var col := new Collector(mode, contextLines);
    for i := 0 to |files|
      invariant col.mode == mode && col.contextLines == contextLines
      invariant col.Now() == AfterFiles(INITIAL, mode, contextLines, files[..i])
    {
      assert files[..i + 1][..i] == files[..i];
      col.ScanFile(files[i]);
    }
    assert files[..|files|] == files;
    col.EndFile();
    return col.lines;
  }

  function Output(files: seq<FileScan>, mode: Mode, c: nat): seq<string> {
    AfterEnd(AfterFiles(INITIAL, mode, c, files), mode, c).lines
  }
}
