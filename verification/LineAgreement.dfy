/** The engine's incremental line numbers and the renderer's split lines count the same lines. */
module LineAgreement {
  import opened Wrappers
  import opened ByteSearch
  import opened EditEngine
  import opened LineIO

  /** The offset at which line n + 1 starts when the lines before it are joined by newlines. */
  function LineStart(lines: seq<Bytes>, n: nat): nat
    requires n <= |lines|
  {
    if n == 0 then 0 else LineStart(lines, n - 1) + |lines[n - 1]| + 1
  }

  /**
   Line n of the lines found from offset `from` on holds byte `off`: the byte is one of the line's own or the newline
   that ends it.
   */
  predicate HoldsFrom(lines: seq<Bytes>, content: Bytes, from: nat, n: nat, off: nat) {
    && 1 <= n <= |lines|
    && var start := from + LineStart(lines, n - 1);
       && start <= off <= start + |lines[n - 1]| <= |content|
       && content[start..start + |lines[n - 1]|] == lines[n - 1]
  }

  predicate Holds(lines: seq<Bytes>, content: Bytes, n: nat, off: nat) {
    HoldsFrom(lines, content, 0, n, off)
  }

  lemma NoNewline(b: Bytes)
    requires Free(b, [NEWLINE])
    ensures CountNewlines(b) == 0
  {
    if NEWLINE in b {
      var k :| 0 <= k < |b| && b[k] == NEWLINE;
      assert b[k..k + 1] == [NEWLINE];
      assert OccursAt(b, [NEWLINE], k);
    }
  }

  lemma {:induction false} StartOfTail(lines: seq<Bytes>, first: Bytes, n: nat)
    requires n <= |lines|
    ensures LineStart([first] + lines, n + 1) == |first| + 1 + LineStart(lines, n)
  {
    if n > 0 {
      StartOfTail(lines, first, n - 1);
    }
  }

  lemma FirstLineHolds(content: Bytes, from: nat, hi: nat, off: nat, lines: seq<Bytes>)
    requires from <= off <= hi <= |content| && lines != [] && lines[0] == content[from..hi]
    requires Free(content[from..off], [NEWLINE])
    ensures HoldsFrom(lines, content, from, CountNewlines(content[from..off]) + 1, off)
  {
    NoNewline(content[from..off]);
  }

  lemma LaterLineHolds(content: Bytes, from: nat, i: nat, off: nat, rest: seq<Bytes>, n: nat)
    requires from <= i < off <= |content| && content[i] == NEWLINE && Free(content[from..i], [NEWLINE])
    requires n == CountNewlines(content[i + 1..off]) + 1 && HoldsFrom(rest, content, i + 1, n, off)
    ensures HoldsFrom([content[from..i]] + rest, content, from, CountNewlines(content[from..off]) + 1, off)
  {
    NoNewline(content[from..i]);
    assert content[from..off] == content[from..i] + [NEWLINE] + content[i + 1..off];
    StartOfTail(rest, content[from..i], n - 1);
    assert ([content[from..i]] + rest)[n] == rest[n - 1];
  }

  lemma {:induction false} SplitHolds(content: Bytes, from: nat, off: nat)
    requires from <= off <= |content|
    ensures HoldsFrom(SplitFrom(content, [NEWLINE], from), content, from, CountNewlines(content[from..off]) + 1, off)
    decreases |content| - from
  {
    hide HoldsFrom, CountNewlines, Free;
    var nl := [NEWLINE];
    IndexIsFirst(content, nl, from);
    match IndexFrom(content, nl, from)
    case None =>
      FreeSlice(content, nl, from, off);
      FirstLineHolds(content, from, |content|, off, SplitFrom(content, nl, from));
    case Some(i) =>
      if off <= i {
        FreeSlice(content, nl, from, off);
        FirstLineHolds(content, from, i, off, SplitFrom(content, nl, from));
      } else {
        FreeSlice(content, nl, from, i);
        SplitHolds(content, i + 1, off);
        assert content[i] == content[i..i + 1][0];
        var rest := SplitFrom(content, nl, i + 1);
        assert SplitFrom(content, nl, from) == [content[from..i]] + rest;
        LaterLineHolds(content, from, i, off, rest, CountNewlines(content[i + 1..off]) + 1);
      }
  }

  /** For every byte of the file, the engine's line number is the renderer's number of the line that holds it. */
  lemma EngineAndRendererAgree(content: Bytes, off: nat)
    requires off < |content|
    ensures Holds(SplitLines(content), content, LineOf(content, off), off)
  {
    hide HoldsFrom, SplitFrom, CountNewlines;
    var last := |content| - 1;
    if content[last] == NEWLINE {
      var body := content[..last];
      SplitHolds(body, 0, off);
      HoldsExtends(Split(body, [NEWLINE]), body, content, LineOf(content, off), off);
    } else {
      SplitHolds(content, 0, off);
      assert content[0..off] == content[..off];
    }
  }

  lemma HoldsExtends(lines: seq<Bytes>, body: Bytes, content: Bytes, n: nat, off: nat)
    requires body <= content && off <= |body| && n == LineOf(content, off)
    requires HoldsFrom(lines, body, 0, CountNewlines(body[0..off]) + 1, off)
    ensures Holds(lines, content, n, off)
  {
    assert body[0..off] == body[..off] == content[..off];
    var start := LineStart(lines, n - 1);
    assert body[start..start + |lines[n - 1]|] == content[start..start + |lines[n - 1]|];
  }

  /** The numbers an ambiguous edit reports are the numbers read prints beside the matches. */
  lemma AmbiguousLinesAreReadLines(content: Bytes, e: Edit)
    requires Outcome(content, e).Err? && Outcome(content, e).error.EAmbiguous?
    ensures var ms, reported := Matches(content, e.pat), Outcome(content, e).error;
            && reported.count == |ms| > 1 && |reported.lines| == (if |ms| < 5 then |ms| else 5)
            && forall i :: 0 <= i < |reported.lines| ==>
                             ms[i] < |content| && Holds(SplitLines(content), content, reported.lines[i], ms[i])
  {
    var ms, reported := Matches(content, e.pat), Outcome(content, e).error;
    MatchBounds(content, e.pat, 0);
    forall i | 0 <= i < |reported.lines|
      ensures ms[i] < |content| && Holds(SplitLines(content), content, reported.lines[i], ms[i])
    {
      EngineAndRendererAgree(content, ms[i]);
    }
  }

  /** Joining the split lines, and the newline a final one was stripped of, restores the file; no line holds a newline. */
  lemma LinesRestoreTheFile(content: Bytes)
    ensures var lines := SplitLines(content);
            && (content == [] <==> lines == [])
            && (forall i :: 0 <= i < |lines| ==> NEWLINE !in lines[i])
            && content == Join(lines, [NEWLINE])
                          + (if content != [] && content[|content| - 1] == NEWLINE then [NEWLINE] else [])
  {
    if content != [] {
      var lines, last := SplitLines(content), |content| - 1;
      var body := if content[last] == NEWLINE then content[..last] else content;
      JoinSplit(body, [NEWLINE], 0);
      SplitPieces(body, [NEWLINE], 0);
      assert body[0..] == body;
      forall i | 0 <= i < |lines| ensures NEWLINE !in lines[i] {
        NoNewline(lines[i]);
      }
    }
  }

  /** The first newline after a newline-free piece is the one that follows it. */
  lemma PieceEnds(content: Bytes, off: nat, piece: Bytes)
    requires off <= |content| && piece <= content[off..] && NEWLINE !in piece
    requires off + |piece| == |content| || content[off + |piece|] == NEWLINE
    ensures IndexFrom(content, [NEWLINE], off) ==
            if off + |piece| == |content| then None else Some(off + |piece|)
  {
    var end := off + |piece|;
    forall k | off <= k < end ensures content[k] != NEWLINE {
      assert content[k] == content[off..][k - off] == piece[k - off];
    }
    IndexIsFirst(content, [NEWLINE], off);
    if end < |content| {
      assert content[end..end + 1] == [NEWLINE];
      assert OccursAt(content, [NEWLINE], end);
    }
    if i :| off <= i && IndexFrom(content, [NEWLINE], off) == Some(i) {
      assert content[i..i + 1][0] == NEWLINE;
    }
  }

  lemma TailOfJoin(content: Bytes, off: nat, lines: seq<Bytes>)
    requires |lines| > 1 && off <= |content| && content[off..] == Join(lines, [NEWLINE])
    ensures var end := off + |lines[0]|;
      end < |content| && content[end] == NEWLINE && content[end + 1..] == Join(lines[1..], [NEWLINE])
  {
    var rest, tail := Join(lines[1..], [NEWLINE]), content[off..];
    assert tail == lines[0] + [NEWLINE] + rest;
    assert tail[|lines[0]|] == NEWLINE && tail[|lines[0]| + 1..] == rest;
    assert content[off + |lines[0]| + 1..] == tail[|lines[0]| + 1..];
  }

  lemma {:induction false} JoinedSplits(content: Bytes, off: nat, lines: seq<Bytes>)
    requires lines != [] && off <= |content| && content[off..] == Join(lines, [NEWLINE])
    requires forall i :: 0 <= i < |lines| ==> NEWLINE !in lines[i]
    ensures SplitFrom(content, [NEWLINE], off) == lines
    decreases |lines|
  {
    hide OccursAt, IndexFrom;
    assert content[off..off + |lines[0]|] == lines[0];
    if |lines| == 1 {
      PieceEnds(content, off, lines[0]);
    } else {
      TailOfJoin(content, off, lines);
      PieceEnds(content, off, lines[0]);
      JoinedSplits(content, off + |lines[0]| + 1, lines[1..]);
    }
  }

  /** Lines written one by one, each with its newline, are read back as they were. */
  lemma LinesReadBack(lines: seq<Bytes>)
    requires lines != [] && forall i :: 0 <= i < |lines| ==> NEWLINE !in lines[i]
    ensures SplitLines(Join(lines, [NEWLINE]) + [NEWLINE]) == lines
  {
    var body := Join(lines, [NEWLINE]);
    assert body[0..] == body && (body + [NEWLINE])[..|body|] == body;
    JoinedSplits(body, 0, lines);
  }
}
