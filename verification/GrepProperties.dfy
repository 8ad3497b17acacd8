/** What one flush of the collector prints in content mode: its spans, and its rows. */
module GrepProperties {
  import opened Wrappers
  import opened ByteSearch
  import opened Decimal
  import opened GrepCollector

  // Content mode: the merged spans.

  predicate InContext(ln: nat, m: nat, c: nat) {
    m - c <= ln <= m + c
  }

  /** Line `ln` is a line of the file within c lines of one of the matches among lines 1..n. */
  predicate Covered(matches: set<nat>, total: nat, c: nat, n: nat, ln: nat) {
    1 <= ln <= total && exists m :: m in matches && 1 <= m <= n && InContext(ln, m, c)
  }

  predicate InSpans(spans: seq<Span>, ln: nat) {
    exists i :: 0 <= i < |spans| && spans[i].lo <= ln <= spans[i].hi
  }

  /** In order, each in range, and at least one uncovered line between neighbours. */
  predicate Separated(spans: seq<Span>, total: nat) {
    InRange(spans, total) && forall i, j :: 0 <= i < j < |spans| ==> spans[i].hi + 1 < spans[j].lo
  }

  /** The spans are the maximal runs of covered lines. */
  ghost predicate Exact(spans: seq<Span>, matches: set<nat>, total: nat, c: nat, n: nat) {
    && Separated(spans, total)
    && forall ln: nat :: InSpans(spans, ln) <==> Covered(matches, total, c, n, ln)
  }

  lemma AddedStaysSeparated(spans: seq<Span>, lo: nat, hi: nat, total: nat)
    requires Separated(spans, total) && 1 <= lo <= hi <= total
    requires spans != [] ==> spans[|spans| - 1].lo <= lo && spans[|spans| - 1].hi <= hi
    ensures Separated(AddSpan(spans, lo, hi), total)
  {
  }

  lemma AddedSpan(spans: seq<Span>, lo: nat, hi: nat, total: nat, ln: nat)
    requires Separated(spans, total) && 1 <= lo <= hi <= total
    requires spans != [] ==> spans[|spans| - 1].lo <= lo && spans[|spans| - 1].hi <= hi
    ensures Separated(AddSpan(spans, lo, hi), total)
    ensures InSpans(AddSpan(spans, lo, hi), ln) <==> InSpans(spans, ln) || lo <= ln <= hi
  {
    hide Separated;
    AddedStaysSeparated(spans, lo, hi, total);
    var after, k := AddSpan(spans, lo, hi), |spans| - 1;
    if InSpans(spans, ln) {
      var i :| 0 <= i < |spans| && spans[i].lo <= ln <= spans[i].hi;
      assert after[i].lo <= ln <= after[i].hi;
    }
    if lo <= ln <= hi {
      assert after[|after| - 1].lo <= ln <= after[|after| - 1].hi;
    }
    if InSpans(after, ln) && !(lo <= ln <= hi) {
      var i :| 0 <= i < |after| && after[i].lo <= ln <= after[i].hi;
      assert i < |spans| && spans[i].lo <= ln <= spans[i].hi;
    }
  }

  lemma {:induction false} MergeIsExact(matches: set<nat>, total: nat, c: nat, n: nat)
    requires n <= total
    ensures var spans := Merge(matches, total, c, n);
            && Exact(spans, matches, total, c, n)
            && (spans != [] ==> spans[|spans| - 1].lo <= Lo(n, c) && spans[|spans| - 1].hi <= Hi(n, c, total))
  {
    if n > 0 {
      MergeIsExact(matches, total, c, n - 1);
      var before, after := Merge(matches, total, c, n - 1), Merge(matches, total, c, n);
      forall ln: nat ensures InSpans(after, ln) <==> Covered(matches, total, c, n, ln) {
        CoveredStep(matches, total, c, n, ln);
        if n in matches {
          AddedSpan(before, Lo(n, c), Hi(n, c, total), total, ln);
        }
      }
      if n in matches {
        AddedSpan(before, Lo(n, c), Hi(n, c, total), total, 0);
      }
    } else {
      assert Merge(matches, total, c, 0) == [];
    }
  }

  lemma CoveredStep(matches: set<nat>, total: nat, c: nat, n: nat, ln: nat)
    requires 1 <= n <= total
    ensures Covered(matches, total, c, n, ln)
            <==> Covered(matches, total, c, n - 1, ln) || (n in matches && Lo(n, c) <= ln <= Hi(n, c, total))
  {
    if n in matches && Lo(n, c) <= ln <= Hi(n, c, total) {
      assert InContext(ln, n, c);
    }
  }

  /** Maximal runs are unique, so the merged spans do not depend on how they were computed. */
  lemma {:induction false} ExactIsUnique(a: seq<Span>, b: seq<Span>, total: nat)
    requires Separated(a, total) && Separated(b, total)
    requires forall ln: nat :: InSpans(a, ln) <==> InSpans(b, ln)
    ensures a == b
    decreases |a|
  {
    if a == [] {
      FirstCovers(b, if b == [] then 0 else b[0].lo);
      assert !InSpans(a, if b == [] then 0 else b[0].lo);
    } else {
      FirstSpanEqual(a, b, total);
      forall ln: nat ensures InSpans(a[1..], ln) <==> InSpans(b[1..], ln) {
        TailSpans(a, ln, total);
        TailSpans(b, ln, total);
      }
      ExactIsUnique(a[1..], b[1..], total);
      assert a == [a[0]] + a[1..] && b == [b[0]] + b[1..];
    }
  }

  lemma TailSpans(spans: seq<Span>, ln: nat, total: nat)
    requires spans != [] && Separated(spans, total)
    ensures Separated(spans[1..], total)
    ensures InSpans(spans[1..], ln) <==> InSpans(spans, ln) && ln > spans[0].hi
  {
    if InSpans(spans, ln) && ln > spans[0].hi {
      var i :| 0 <= i < |spans| && spans[i].lo <= ln <= spans[i].hi;
      assert spans[1..][i - 1] == spans[i];
    }
    if InSpans(spans[1..], ln) {
      var i :| 0 <= i < |spans[1..]| && spans[1..][i].lo <= ln <= spans[1..][i].hi;
      assert spans[i + 1].lo <= ln <= spans[i + 1].hi;
    }
  }

  lemma FirstSpanEqual(a: seq<Span>, b: seq<Span>, total: nat)
    requires a != [] && Separated(a, total) && Separated(b, total)
    requires forall ln: nat :: InSpans(a, ln) <==> InSpans(b, ln)
    ensures b != [] && a[0] == b[0]
  {
    FirstCovers(a, a[0].lo);
    assert b != [];
    FirstCovers(b, b[0].lo);
    NotBefore(a, b[0].lo, total);
    NotBefore(b, a[0].lo, total);
    EndsFirst(a, total);
    EndsFirst(b, total);
    FirstCovers(a, b[0].hi + 1);
    FirstCovers(b, a[0].hi + 1);
  }

  lemma FirstCovers(spans: seq<Span>, ln: nat)
    ensures spans != [] && spans[0].lo <= ln <= spans[0].hi ==> InSpans(spans, ln)
  {
  }

  lemma NotBefore(spans: seq<Span>, ln: nat, total: nat)
    requires spans != [] && Separated(spans, total) && InSpans(spans, ln)
    ensures spans[0].lo <= ln
  {
  }

  lemma EndsFirst(spans: seq<Span>, total: nat)
    requires spans != [] && Separated(spans, total)
    ensures !InSpans(spans, spans[0].hi + 1)
  {
  }

  // Content mode: the rows.

  function Texts(lines: seq<Scanned>): (texts: seq<string>)
    ensures |texts| == |lines|
  {
    seq(|lines|, i requires 0 <= i < |lines| => lines[i].text)
  }

  function MatchSet(lines: seq<Scanned>): set<nat> {
    set i: nat | i < |lines| && lines[i].matched :: i + 1
  }

  /** The rows of the covered lines from `ln` on, each once, in order. */
  function CoveredRows(path: string, texts: seq<string>, matches: set<nat>, c: nat, ln: nat): seq<string>
    requires 1 <= ln <= |texts| + 1
    decreases |texts| - ln
  {
    if ln > |texts| then []
    else if Covered(matches, |texts|, c, |texts|, ln)
    then [Row(path, texts, matches, ln)] + CoveredRows(path, texts, matches, c, ln + 1)
    else CoveredRows(path, texts, matches, c, ln + 1)
  }

  /** What one flush of a buffer prints: a block for each of its merged spans. */
  function FlushBlocks(path: string, texts: seq<string>, matches: set<nat>, c: nat): seq<seq<string>> {
    MergeInRange(matches, |texts|, c, |texts|);
    Blocks(path, texts, matches, Merge(matches, |texts|, c, |texts|))
  }

  /** The blocks of a flush are the maximal runs of covered lines, and together print each covered line once, in order. */
  lemma GroupsAreExact(path: string, texts: seq<string>, matches: set<nat>, c: nat)
    ensures var spans := Merge(matches, |texts|, c, |texts|);
            && Exact(spans, matches, |texts|, c, |texts|)
            && FlushBlocks(path, texts, matches, c) == Blocks(path, texts, matches, spans)
            && Join(FlushBlocks(path, texts, matches, c), []) == CoveredRows(path, texts, matches, c, 1)
  {
    MergeIsExact(matches, |texts|, c, |texts|);
    RowsFromSpan(path, texts, matches, c, Merge(matches, |texts|, c, |texts|), 0, 1);
    assert FlushBlocks(path, texts, matches, c)[0..] == FlushBlocks(path, texts, matches, c);
  }

  /** From a line in the gap before span i on, the covered rows are the blocks of the spans left. */
  lemma {:induction false} RowsFromSpan(path: string, texts: seq<string>, matches: set<nat>, c: nat, spans: seq<Span>,
                                        i: nat, ln: nat)
    requires Exact(spans, matches, |texts|, c, |texts|) && i <= |spans| && 1 <= ln <= |texts| + 1
    requires i > 0 ==> spans[i - 1].hi < ln
    requires i < |spans| ==> ln <= spans[i].lo
    ensures CoveredRows(path, texts, matches, c, ln) == Join(Blocks(path, texts, matches, spans)[i..], [])
    decreases |texts| + 1 - ln
  {
    var blocks := Blocks(path, texts, matches, spans);
    if i < |spans| && ln == spans[i].lo {
      RowsFromSpan(path, texts, matches, c, spans, i + 1, spans[i].hi + 1);
      SpanThenRest(path, texts, matches, c, spans, i);
    } else if ln <= |texts| {
      GapUncovered(spans, |texts|, i, ln);
      RowsFromSpan(path, texts, matches, c, spans, i, ln + 1);
    } else {
      assert blocks[i..] == [];
    }
  }

  lemma SpanThenRest(path: string, texts: seq<string>, matches: set<nat>, c: nat, spans: seq<Span>, i: nat)
    requires Exact(spans, matches, |texts|, c, |texts|) && i < |spans|
    requires CoveredRows(path, texts, matches, c, spans[i].hi + 1)
             == Join(Blocks(path, texts, matches, spans)[i + 1..], [])
    ensures CoveredRows(path, texts, matches, c, spans[i].lo) == Join(Blocks(path, texts, matches, spans)[i..], [])
  {
    var blocks := Blocks(path, texts, matches, spans);
    forall ln | spans[i].lo <= ln <= spans[i].hi ensures Covered(matches, |texts|, c, |texts|, ln) {
      assert InSpans(spans, ln);
    }
    hide Covered, InSpans, CoveredRows, Block, Join;
    RowsInSpan(path, texts, matches, c, spans[i]);
    JoinFlat(blocks[i], blocks[i + 1..]);
    assert blocks[i..] == [blocks[i]] + blocks[i + 1..];
  }

  lemma JoinFlat<T>(piece: seq<T>, rest: seq<seq<T>>)
    ensures Join([piece] + rest, []) == piece + Join(rest, [])
  {
    if rest != [] {
      JoinCons(piece, rest, []);
      assert piece + [] + Join(rest, []) == piece + Join(rest, []);
    } else {
      assert [piece] + rest == [piece] && piece + [] == piece;
    }
  }

  lemma GapUncovered(spans: seq<Span>, total: nat, i: nat, ln: nat)
    requires Separated(spans, total) && i <= |spans|
    requires (i > 0 ==> spans[i - 1].hi < ln) && (i < |spans| ==> ln < spans[i].lo)
    ensures !InSpans(spans, ln)
  {
    forall j | 0 <= j < |spans| ensures !(spans[j].lo <= ln <= spans[j].hi) {
      if j < i - 1 {
        assert spans[j].hi + 1 < spans[i - 1].lo;
      } else if i < j {
        assert spans[i].hi + 1 < spans[j].lo;
      }
    }
  }

  /** The rows of a stretch of covered lines are one block. */
  lemma {:induction false} RowsInSpan(path: string, texts: seq<string>, matches: set<nat>, c: nat, sp: Span)
    requires 1 <= sp.lo <= sp.hi + 1 <= |texts| + 1
    requires forall ln :: sp.lo <= ln <= sp.hi ==> Covered(matches, |texts|, c, |texts|, ln)
    ensures CoveredRows(path, texts, matches, c, sp.lo)
            == Block(path, texts, matches, sp) + CoveredRows(path, texts, matches, c, sp.hi + 1)
    decreases sp.hi + 1 - sp.lo
  {
    hide Row, Block, Covered;
    BlockCons(path, texts, matches, sp);
    if sp.lo <= sp.hi {
      RowsInSpan(path, texts, matches, c, Span(sp.lo + 1, sp.hi));
    }
  }

  lemma BlockCons(path: string, texts: seq<string>, matches: set<nat>, sp: Span)
    requires 1 <= sp.lo <= sp.hi + 1 <= |texts| + 1
    ensures Block(path, texts, matches, sp)
            == if sp.lo > sp.hi then []
               else [Row(path, texts, matches, sp.lo)] + Block(path, texts, matches, Span(sp.lo + 1, sp.hi))
  {
    hide Row;
  }

  // What a client reads in a flush.

  /** The row gives the path, the line's number and its text, joined by colons if the line matched, else by dashes. */
  predicate RowReads(row: string, path: string, number: string, ln: nat, text: string, matched: bool) {
    && Atoi(number) == Some(ln) && AllDigits(number)
    && row == if matched then path + ":" + number + ":" + text else path + "-" + number + "-" + text
  }

  /** The covered lines from `ln` on. */
  function CoveredLines(matches: set<nat>, total: nat, c: nat, ln: nat): seq<nat>
    requires 1 <= ln <= total + 1
    decreases total - ln
  {
    if ln > total then []
    else (if Covered(matches, total, c, total, ln) then [ln] else []) + CoveredLines(matches, total, c, ln + 1)
  }

  lemma {:induction false} CoveredLinesAreExact(matches: set<nat>, total: nat, c: nat, ln: nat)
    requires 1 <= ln <= total + 1
    ensures var lns := CoveredLines(matches, total, c, ln);
      && (forall n :: n in lns <==> ln <= n && Covered(matches, total, c, total, n))
      && (forall i, j :: 0 <= i < j < |lns| ==> lns[i] < lns[j])
    decreases total - ln
  {
    hide Covered;
    if ln <= total {
      CoveredLinesAreExact(matches, total, c, ln + 1);
      var rest := CoveredLines(matches, total, c, ln + 1);
      assert forall j :: 0 <= j < |rest| ==> rest[j] in rest;
      assert forall n :: n in [ln] + rest <==> n == ln || n in rest;
    }
    CoveredIsInside(matches, total, c);
  }

  lemma CoveredIsInside(matches: set<nat>, total: nat, c: nat)
    ensures forall n: nat :: Covered(matches, total, c, total, n) ==> n <= total
  {
  }

  lemma {:induction false} RowsFollowLines(path: string, texts: seq<string>, matches: set<nat>, c: nat, ln: nat)
    requires 1 <= ln <= |texts| + 1
    ensures var lns, rows := CoveredLines(matches, |texts|, c, ln), CoveredRows(path, texts, matches, c, ln);
      && |lns| == |rows|
      && forall k :: 0 <= k < |lns| ==> 1 <= lns[k] <= |texts| && rows[k] == Row(path, texts, matches, lns[k])
    decreases |texts| - ln
  {
    hide Covered, Row;
    if ln <= |texts| {
      RowsFollowLines(path, texts, matches, c, ln + 1);
    }
  }

  /**
   Every row of a flush, in print order: the lines within c lines of a match, ascending, each once; each row bears the
   path, the line's own number and text, and the marker that says whether that line matched.
   */
  lemma FlushReads(path: string, texts: seq<string>, matches: set<nat>, c: nat) returns (lns: seq<nat>)
    ensures var rows := Join(FlushBlocks(path, texts, matches, c), []);
      && |rows| == |lns|
      && (forall n: nat :: n in lns <==>
            1 <= n <= |texts| && exists m :: m in matches && 1 <= m <= |texts| && m - c <= n <= m + c)
      && (forall i, j :: 0 <= i < j < |lns| ==> lns[i] < lns[j])
      && forall k :: 0 <= k < |lns| ==>
           1 <= lns[k] <= |texts| && RowReads(rows[k], path, Itoa(lns[k]), lns[k], texts[lns[k] - 1], lns[k] in matches)
  {
    lns := CoveredLines(matches, |texts|, c, 1);
    GroupsAreExact(path, texts, matches, c);
    CoveredLinesAreExact(matches, |texts|, c, 1);
    RowsFollowLines(path, texts, matches, c, 1);
    forall n: nat ensures n in lns <==>
      1 <= n <= |texts| && exists m :: m in matches && 1 <= m <= |texts| && m - c <= n <= m + c
    {
      CoveredSays(matches, |texts|, c, n);
    }
    var rows := Join(FlushBlocks(path, texts, matches, c), []);
    forall k | 0 <= k < |lns|
      ensures 1 <= lns[k] <= |texts| && RowReads(rows[k], path, Itoa(lns[k]), lns[k], texts[lns[k] - 1], lns[k] in matches)
    {
      AtoiOfItoa(lns[k]);
    }
    hide Covered, CoveredLines, CoveredRows, Exact, Row, RowReads;
  }

  lemma CoveredSays(matches: set<nat>, total: nat, c: nat, n: nat)
    ensures Covered(matches, total, c, total, n)
            <==> 1 <= n <= total && exists m :: m in matches && 1 <= m <= total && m - c <= n <= m + c
  {
    if m :| m in matches && 1 <= m <= total && m - c <= n <= m + c {
      assert InContext(n, m, c);
    }
  }
}
