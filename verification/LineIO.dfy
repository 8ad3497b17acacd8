/**
 The rendering half of the read tool: lines, 1-based numbers, the three output limits and the continuation notice.
 `Page` says what one call shows; `Render` is the loop that computes it.
 */
module LineIO {
  import opened Wrappers
  import opened ByteSearch
  import opened Decimal
  import opened Utf8

  datatype Limits = Limits(defaultLines: nat, maxLineChars: nat, maxTotalBytes: nat)

  const PRODUCTION := Limits(2000, 2000, 256 * 1024)

  const TRUNCATION_MARKER := "... [truncated]"

  datatype Reason = LineLimit | RequestedLimit | LineLength | SizeLimit | OffsetPastEnd

  datatype Footer = NoFooter | Footer(first: nat, last: nat, total: nat, reasons: seq<Reason>, next: nat)

  datatype RenderResult = RenderResult(text: string, firstLine: nat, lastLine: nat, totalLines: nat,
                                       truncated: bool, reasons: seq<Reason>, footer: Footer)

  datatype ArgError = BadOffset | BadLimit

  /** A trailing newline ends the last line instead of opening an empty one. */
  function SplitLines(content: Bytes): seq<Bytes> {
    if content == [] then []
    else if content[|content| - 1] == NEWLINE then Split(content[..|content| - 1], [NEWLINE])
    else Split(content, [NEWLINE])
  }

  function AppendReason(reasons: seq<Reason>, r: Reason): seq<Reason> {
    if r in reasons then reasons else reasons + [r]
  }

  /** Empty exactly when the render reached the last line and marked nothing as cut. */
  function BuildFooter(first: nat, last: nat, total: nat, truncated: bool, reasons: seq<Reason>): Footer {
    if last >= total && !truncated then NoFooter else Footer(first, last, total, reasons, last + 1)
  }

  method TruncateRunes(s: string, n: nat) returns (r: string)
    requires n < |s|
    ensures r == s[..n]
  {
    var kept := 0;
    for i := 0 to |s|
      invariant kept == i <= n
    {
      if kept == n {
        return s[..i];
      }
      kept := kept + 1;
    }
    return s;
  }

  /** A line as the tool shows it, and whether showing it cut it. */
  datatype Shown = Shown(row: string, cut: bool)

  predicate Cut(line: string, l: Limits) {
    |line| > l.maxLineChars
  }

  function Display(line: string, l: Limits): string {
    if Cut(line, l) then line[..l.maxLineChars] + TRUNCATION_MARKER else line
  }

  /** Line i, counted from zero, as row i + 1. */
  function Show(raw: seq<Bytes>, i: nat, l: Limits): Shown
    requires i < |raw|
  {
    var line := Sanitize(raw[i]);
    Shown(Itoa(i + 1) + "\t" + Display(line, l), Cut(line, l))
  }

  /** Every line of the file in its shown form. */
  function View(content: Bytes, l: Limits): (view: seq<Shown>)
    ensures IsView(SplitLines(content), view, l)
  {
    var raw := SplitLines(content);
    seq(|raw|, i requires 0 <= i < |raw| => Show(raw, i, l))
  }

  ghost predicate IsView(raw: seq<Bytes>, view: seq<Shown>, l: Limits) {
    && |view| == |raw|
    && forall i {:trigger Show(raw, i, l)} :: 0 <= i < |raw| ==> view[i] == Show(raw, i, l)
  }

  /** What each row costs, with the newline that joins it to the next. */
  function Costs(view: seq<Shown>): (costs: seq<nat>)
    ensures |costs| == |view|
  {
    seq(|view|, i requires 0 <= i < |view| => ByteLen(view[i].row) + 1)
  }

  /** The rows of view[lo..hi], newline-joined. */
  function Listing(view: seq<Shown>, lo: nat, hi: nat): string
    requires lo <= hi <= |view|
  {
    if lo == hi then ""
    else if lo + 1 == hi then view[lo].row
    else Listing(view, lo, hi - 1) + "\n" + view[hi - 1].row
  }

  function Sum(costs: seq<nat>, lo: nat, hi: nat): nat
    requires lo <= hi <= |costs|
  {
    if lo == hi then 0 else Sum(costs, lo, hi - 1) + costs[hi - 1]
  }

  /** How many entries of costs[lo..hi] fit, in order, in `budget` once `used` is spent. */
  function Fit(costs: seq<nat>, lo: nat, hi: nat, used: nat, budget: nat): (k: nat)
    requires hi <= |costs|
    ensures k == 0 || lo + k <= hi
    decreases hi - lo
  {
    if lo >= hi || used + costs[lo] > budget then 0
    else 1 + Fit(costs, lo + 1, hi, used + costs[lo], budget)
  }

  predicate SomeCut(view: seq<Shown>, lo: nat, hi: nat)
    requires lo <= hi <= |view|
  {
    exists i :: lo <= i < hi && view[i].cut
  }

  /** One past the last row the line counts allow. */
  function WindowEnd(total: nat, offset: nat, limit: nat, l: Limits): nat
    requires 1 <= offset
  {
    Min(offset - 1 + Min(limit, l.defaultLines), total)
  }

  /** One past the last row shown. */
  function Stop(view: seq<Shown>, offset: nat, limit: nat, l: Limits): nat
    requires 1 <= offset
  {
    offset - 1 + Fit(Costs(view), offset - 1, WindowEnd(|view|, offset, limit, l), 0, l.maxTotalBytes)
  }

  /** The limits that fired, in the order the loop meets them; a size stop leaves no line count to report. */
  function Reasons(truncated: bool, sizeStop: bool, limitHit: bool, capped: bool): (reasons: seq<Reason>)
    requires !(sizeStop && limitHit)
    ensures reasons != [] <==> truncated || sizeStop || limitHit
    ensures SizeLimit in reasons <==> sizeStop
  {
    var limit := if capped then LineLimit else RequestedLimit;
    if sizeStop then if truncated then [LineLength, SizeLimit] else [SizeLimit]
    else if limitHit then if truncated then [LineLength, limit] else [limit]
    else if truncated then [LineLength] else []
  }

  /** The result that shows rows `offset` up to `stop`; a row dropped for its size still counts as looked at. */
  function PageTo(view: seq<Shown>, offset: nat, limit: nat, stop: nat, l: Limits): RenderResult
    requires 1 <= offset <= stop + 1 && stop <= WindowEnd(|view|, offset, limit, l)
  {
    var total, k := |view|, stop + 1 - offset;
    var sizeStop := stop < WindowEnd(total, offset, limit, l);
    var truncated := SomeCut(view, offset - 1, if sizeStop then stop + 1 else stop);
    var first, last := if k > 0 then offset else 0, if k > 0 then stop else 0;
    var limitHit := !sizeStop && k == Min(limit, l.defaultLines) && last < total;
    var reasons := Reasons(truncated, sizeStop, limitHit, limit > l.defaultLines);
    RenderResult(Listing(view, offset - 1, stop), first, last, total, truncated, reasons,
                 BuildFooter(first, last, total, truncated, reasons))
  }

  /** What one call shows of a file with these lines. */
  function Page(view: seq<Shown>, offset: nat, limit: nat, l: Limits): RenderResult
    requires 1 <= offset && 1 <= limit
  {
    if offset <= |view| then PageTo(view, offset, limit, Stop(view, offset, limit, l), l)
    else if view == [] then RenderResult("", 0, 0, 0, false, [], NoFooter)
    else RenderResult("", 0, 0, |view|, false, [OffsetPastEnd], Footer(0, 0, |view|, [OffsetPastEnd], 1))
  }

  /** One numbered row. */
  method ShowLine(raw: seq<Bytes>, ghost view: seq<Shown>, i: nat, l: Limits) returns (rendered: string, cut: bool)
    requires IsView(raw, view, l) && i < |raw|
    ensures view[i] == Shown(rendered, cut)
  {
    var display := Sanitize(raw[i]);
    cut := |display| > l.maxLineChars;
    if cut {
      var head := TruncateRunes(display, l.maxLineChars);
      display := head + TRUNCATION_MARKER;
    }
    rendered := Itoa(i + 1) + "\t" + display;
    assert Show(raw, i, l) == Shown(rendered, cut);
  }

  lemma ListingGrows(view: seq<Shown>, lo: nat, hi: nat, out: seq<string>, row: string)
    requires lo <= hi < |view| && |out| == hi - lo && Join(out, "\n") == Listing(view, lo, hi) && row == view[hi].row
    ensures Join(out + [row], "\n") == Listing(view, lo, hi + 1)
  {
    JoinSnoc(out, row, "\n");
  }

  lemma FitStep(view: seq<Shown>, i: nat, hi: nat, used: nat, budget: nat)
    requires i < hi <= |view|
    ensures var cost := ByteLen(view[i].row) + 1;
      Fit(Costs(view), i, hi, used, budget)
      == if used + cost > budget then 0 else 1 + Fit(Costs(view), i + 1, hi, used + cost, budget)
  {
  }

  /** The rows from `offset` on that are emitted so far, at a cost of `used`, before the window ends. */
  ghost predicate Emitting(view: seq<Shown>, offset: nat, end: nat, out: seq<string>, used: nat, truncated: bool, l: Limits)
    requires 1 <= offset <= |view| && end <= |view|
  {
    var i := offset - 1 + |out|;
    && i <= |view| && (i <= end || out == [])
    && Join(out, "\n") == Listing(view, offset - 1, i)
    && |out| + Fit(Costs(view), i, end, used, l.maxTotalBytes) == Fit(Costs(view), offset - 1, end, 0, l.maxTotalBytes)
    && truncated == SomeCut(view, offset - 1, i)
  }

  lemma EmitStep(view: seq<Shown>, offset: nat, end: nat, out: seq<string>, used: nat, truncated: bool, l: Limits)
    requires 1 <= offset <= |view| && end <= |view| && Emitting(view, offset, end, out, used, truncated, l)
    requires offset - 1 + |out| < end
    ensures var i := offset - 1 + |out|;
      var cost, cut := ByteLen(view[i].row) + 1, truncated || view[i].cut;
      if used + cost > l.maxTotalBytes
      then cut == SomeCut(view, offset - 1, i + 1) && |out| == Fit(Costs(view), offset - 1, end, 0, l.maxTotalBytes)
      else Emitting(view, offset, end, out + [view[i].row], used + cost, cut, l)
  {
    hide Fit, Costs, ByteLen, SomeCut, Listing, Join;
    var i := offset - 1 + |out|;
    SomeCutStep(view, offset - 1, i);
    FitStep(view, i, end, used, l.maxTotalBytes);
    ListingGrows(view, offset - 1, i, out, view[i].row);
  }

  /** Appends rows until the window or the budget ends; a row that would pass the budget is dropped whole. */
  method EmitRows(raw: seq<Bytes>, ghost view: seq<Shown>, offset: nat, end: nat, l: Limits)
    returns (out: seq<string>, reasons: seq<Reason>, sizeStop: bool, truncated: bool)
    requires 1 <= offset <= |raw| && end <= |raw| && IsView(raw, view, l)
    ensures |out| == Fit(Costs(view), offset - 1, end, 0, l.maxTotalBytes)
    ensures Join(out, "\n") == Listing(view, offset - 1, offset - 1 + |out|)
    ensures sizeStop <==> offset - 1 + |out| < end
    ensures truncated == SomeCut(view, offset - 1, offset - 1 + |out| + (if sizeStop then 1 else 0))
    ensures reasons == Reasons(truncated, sizeStop, false, false)
  {
    assert |view| == |raw| && !SomeCut(view, offset - 1, offset - 1);
    assert Emitting(view, offset, end, [], 0, false, l);
    hide Show, IsView, SomeCut, ByteLen, Itoa, Listing, Join, Costs;
    out, reasons, sizeStop, truncated := [], [], false, false;
    var used: nat, i := 0, offset - 1;
    while i < end
      invariant i == offset - 1 + |out| && Emitting(view, offset, end, out, used, truncated, l)
      invariant !sizeStop && reasons == Reasons(truncated, false, false, false)
      decreases end - i
    {
      hide Emitting, Fit;
      EmitStep(view, offset, end, out, used, truncated, l);
      var rendered, cut := ShowLine(raw, view, i, l);
      if cut {
        truncated := true;
        reasons := AppendReason(reasons, LineLength);
      }
      if used + ByteLen(rendered) + 1 > l.maxTotalBytes {
        sizeStop := true;
        reasons := AppendReason(reasons, SizeLimit);
        return;
      }
      used := used + ByteLen(rendered) + 1;
      out := out + [rendered];
      i := i + 1;
    }
  }

  lemma ReasonsGrow(truncated: bool, sizeStop: bool, limitHit: bool, capped: bool)
    requires !(sizeStop && limitHit)
    ensures var reasons := Reasons(truncated, sizeStop, false, false);
      Reasons(truncated, sizeStop, limitHit, capped)
      == if limitHit then AppendReason(reasons, if capped then LineLimit else RequestedLimit) else reasons
  {
  }

  /** A page from inside the file, by the number of rows it shows. */
  lemma PageShows(view: seq<Shown>, offset: nat, limit: nat, k: nat, l: Limits)
    requires 1 <= offset <= |view| && 1 <= limit
    requires k == Fit(Costs(view), offset - 1, WindowEnd(|view|, offset, limit, l), 0, l.maxTotalBytes)
    ensures var total, stop, end := |view|, offset - 1 + k, WindowEnd(|view|, offset, limit, l);
      var sizeStop := stop < end;
      var truncated := SomeCut(view, offset - 1, if sizeStop then stop + 1 else stop);
      var first, last := if k > 0 then offset else 0, if k > 0 then stop else 0;
      var limitHit := !sizeStop && k == Min(limit, l.defaultLines) && last < total;
      var reasons := Reasons(truncated, sizeStop, limitHit, limit > l.defaultLines);
      stop <= end
      && Page(view, offset, limit, l)
         == RenderResult(Listing(view, offset - 1, stop), first, last, total, truncated, reasons,
                         BuildFooter(first, last, total, truncated, reasons))
  {
    hide Fit, Costs, Listing, SomeCut, Reasons, BuildFooter;
  }

  /** The page of an already split file. */
  method RenderLines(raw: seq<Bytes>, ghost view: seq<Shown>, offset: nat, limit: nat, l: Limits)
    returns (r: RenderResult)
    requires IsView(raw, view, l) && 1 <= offset && 1 <= limit
    ensures r == Page(view, offset, limit, l)
  {
    assert |view| == |raw|;
    hide Listing, SomeCut, IsView, ByteLen, Costs, Fit, Join, Reasons;
    var total := |raw|;
    if offset > total {
      if total > 0 {
        return RenderResult("", 0, 0, total, false, [OffsetPastEnd], BuildFooter(0, 0, total, false, [OffsetPastEnd]));
      }
      return RenderResult("", 0, 0, 0, false, [], NoFooter);
    }
    var effective, capped := limit, false;
    if limit > l.defaultLines {
      effective, capped := l.defaultLines, true;
    }
    var end := offset - 1 + effective;
    if end > total {
      end := total;
    }
    assert end == WindowEnd(|view|, offset, limit, l);
    var out, reasons, sizeStop, truncated := EmitRows(raw, view, offset, end, l);
    var first, last := 0, 0;
    if |out| > 0 {
      first, last := offset, offset + |out| - 1;
    }
    var limitHit := !sizeStop && |out| == effective && last < total;
    if limitHit {
      reasons := AppendReason(reasons, if capped then LineLimit else RequestedLimit);
    }
    ReasonsGrow(truncated, sizeStop, limitHit, capped);
    hide Page, BuildFooter, WindowEnd;
    PageShows(view, offset, limit, |out|, l);
    return RenderResult(Join(out, "\n"), first, last, total, truncated, reasons,
                        BuildFooter(first, last, total, truncated, reasons));
  }

  method Render(content: Bytes, offset: int, limit: int, l: Limits) returns (r: Result<RenderResult, ArgError>)
    ensures r.Err? <==> offset < 1 || limit < 1
    ensures r == if offset < 1 then Err(BadOffset)
                 else if limit < 1 then Err(BadLimit)
                 else Ok(Page(View(content, l), offset, limit, l))
  {
    if offset < 1 {
      return Err(BadOffset);
    }
    if limit < 1 {
      return Err(BadLimit);
    }
    var page := RenderLines(SplitLines(content), View(content, l), offset, limit, l);
    return Ok(page);
  }

  lemma SomeCutStep(view: seq<Shown>, lo: nat, hi: nat)
    requires lo <= hi < |view|
    ensures SomeCut(view, lo, hi + 1) <==> SomeCut(view, lo, hi) || view[hi].cut
  {
    if view[hi].cut {
      assert lo <= hi < hi + 1;
    }
  }

  // The byte budget.

  lemma {:induction false} FitIsMaximal(costs: seq<nat>, lo: nat, mid: nat, hi: nat, budget: nat)
    requires lo <= mid <= hi <= |costs| && Sum(costs, lo, mid) <= budget
    ensures var stop := mid + Fit(costs, mid, hi, Sum(costs, lo, mid), budget);
            && stop <= hi && Sum(costs, lo, stop) <= budget
            && (stop < hi ==> Sum(costs, lo, stop) + costs[stop] > budget)
    decreases hi - mid
  {
    if mid < hi && Sum(costs, lo, mid) + costs[mid] <= budget {
      FitIsMaximal(costs, lo, mid + 1, hi, budget);
    }
  }

  lemma {:induction false} ListingCost(view: seq<Shown>, lo: nat, hi: nat)
    requires lo <= hi <= |view|
    ensures ByteLen(Listing(view, lo, hi)) + (if lo < hi then 1 else 0) == Sum(Costs(view), lo, hi)
  {
    if lo < hi {
      var front, row := Listing(view, lo, hi - 1), view[hi - 1].row;
      assert Costs(view)[hi - 1] == ByteLen(row) + 1;
      ListingCost(view, lo, hi - 1);
      ByteLenConcat(front + "\n", row);
      ByteLenConcat(front, "\n");
      ByteLenAscii("\n");
    }
  }

  /** How many rows a page shows. */
  function ShownCount(r: RenderResult): nat {
    if r.lastLine == 0 || r.lastLine < r.firstLine then 0 else r.lastLine - r.firstLine + 1
  }

  lemma StopIsMaximal(view: seq<Shown>, offset: nat, limit: nat, l: Limits)
    requires 1 <= offset <= |view|
    ensures var costs, stop := Costs(view), Stop(view, offset, limit, l);
            && offset - 1 <= stop <= WindowEnd(|view|, offset, limit, l)
            && Sum(costs, offset - 1, stop) <= l.maxTotalBytes
            && (stop < WindowEnd(|view|, offset, limit, l) ==> Sum(costs, offset - 1, stop + 1) > l.maxTotalBytes)
  {
    FitIsMaximal(Costs(view), offset - 1, offset - 1, WindowEnd(|view|, offset, limit, l), l.maxTotalBytes);
  }

  lemma ShownRows(view: seq<Shown>, offset: nat, limit: nat, l: Limits)
    requires 1 <= offset <= |view| && 1 <= limit
    ensures var r := Page(view, offset, limit, l);
            var stop := Stop(view, offset, limit, l);
            && offset - 1 <= stop <= WindowEnd(|view|, offset, limit, l)
            && ShownCount(r) == stop + 1 - offset
            && r.lastLine == (if stop < offset then 0 else stop)
            && r.text == Listing(view, offset - 1, stop)
            && (SizeLimit in r.reasons <==> stop < WindowEnd(|view|, offset, limit, l))
  {
    StopIsMaximal(view, offset, limit, l);
  }

  /** The text stays under the budget, and a size stop only ever drops a row that does not fit. */
  lemma BudgetIsExact(view: seq<Shown>, offset: nat, limit: nat, l: Limits)
    requires 1 <= offset <= |view| && 1 <= limit
    ensures var r := Page(view, offset, limit, l);
            var k, stop := ShownCount(r), offset - 1 + ShownCount(r);
            && k <= Min(limit, l.defaultLines) && stop <= |view|
            && r.text == Listing(view, offset - 1, stop)
            && (l.maxTotalBytes > 0 ==> ByteLen(r.text) < l.maxTotalBytes)
            && (SizeLimit in r.reasons <==> k < Min(limit, l.defaultLines) && stop < |view|)
            && (SizeLimit in r.reasons ==> Sum(Costs(view), offset - 1, stop + 1) > l.maxTotalBytes)
            && (SizeLimit in r.reasons ==> ByteLen(Listing(view, offset - 1, stop + 1)) + 1 > l.maxTotalBytes)
  {
    var stop := Stop(view, offset, limit, l);
    StopIsMaximal(view, offset, limit, l);
    ShownRows(view, offset, limit, l);
    ListingCost(view, offset - 1, stop);
    if stop < |view| {
      ListingCost(view, offset - 1, stop + 1);
    }
  }

  /** The notice is missing exactly when the whole rest of the file was shown uncut, and it always gives a reason. */
  lemma NoticeIsExact(view: seq<Shown>, offset: nat, limit: nat, l: Limits)
    requires 1 <= offset && 1 <= limit
    ensures var r := Page(view, offset, limit, l);
            && (r.reasons != [] <==> r.footer.Footer?)
            && (offset > |view| ==> (r.footer.Footer? <==> view != []))
            && (offset <= |view| ==>
                  (r.footer.NoFooter? <==>
                   r.lastLine == |view| && !SomeCut(view, offset - 1, |view|)))
            && (r.footer.Footer? ==> r.footer == Footer(r.firstLine, r.lastLine, |view|, r.reasons, r.lastLine + 1))
  {
    if offset <= |view| {
      StopIsMaximal(view, offset, limit, l);
    }
  }

  // Pagination.

  /** Limits under which any single row fits an empty page. */
  predicate Roomy(l: Limits) {
    1 <= l.defaultLines && 19 + 1 + 4 * (l.maxLineChars + |TRUNCATION_MARKER|) + 1 <= l.maxTotalBytes
  }

  lemma ProductionIsRoomy()
    ensures Roomy(PRODUCTION)
  {
  }

  predicate EachFits(view: seq<Shown>, l: Limits) {
    && 1 <= l.defaultLines
    && forall i :: 0 <= i < |view| ==> Costs(view)[i] <= l.maxTotalBytes
  }

  /** A code point is at most four octets (section 3 of RFC 3629), a line number at most nineteen digits. */
  lemma RowsFit(content: Bytes, l: Limits)
    requires |SplitLines(content)| <= MAX_INT && Roomy(l)
    ensures EachFits(View(content, l), l)
  {
    var view, raw := View(content, l), SplitLines(content);
    forall i | 0 <= i < |view| ensures Costs(view)[i] <= l.maxTotalBytes {
      RowBytes(raw, i, l);
    }
  }

  lemma RowBytes(raw: seq<Bytes>, i: nat, l: Limits)
    requires i < |raw| <= MAX_INT
    ensures ByteLen(Show(raw, i, l).row) <= 19 + 1 + 4 * (l.maxLineChars + |TRUNCATION_MARKER|)
  {
    var number, display := Itoa(i + 1), Display(Sanitize(raw[i]), l);
    ByteLenConcat(number + "\t", display);
    ByteLenConcat(number, "\t");
    ByteLenAscii("\t");
    ByteLenAscii(number);
    IntDigits(i + 1);
    ByteLenBound(display);
  }

  /** Every call that starts inside the file shows at least one line. */
  lemma Progress(view: seq<Shown>, offset: nat, limit: nat, l: Limits)
    requires 1 <= offset <= |view| && 1 <= limit && EachFits(view, l)
    ensures var r := Page(view, offset, limit, l);
            && offset <= r.lastLine <= |view| == r.totalLines
            && r.text == Listing(view, offset - 1, r.lastLine)
  {
    assert Costs(view)[offset - 1] <= l.maxTotalBytes;
    ShownRows(view, offset, limit, l);
  }

  /** The texts a client collects by asking for the line after the last one shown until the last line is reached. */
  function PageTexts(view: seq<Shown>, offset: nat, limit: nat, l: Limits): (texts: seq<string>)
    requires 1 <= offset && 1 <= limit && EachFits(view, l)
    ensures offset <= |view| ==> texts != []
    decreases |view| + 1 - offset
  {
    if offset > |view| then [] else
    Progress(view, offset, limit, l);
    var r := Page(view, offset, limit, l);
    if r.lastLine < r.totalLines then [r.text] + PageTexts(view, r.lastLine + 1, limit, l) else [r.text]
  }

  lemma {:induction false} ListingSplits(view: seq<Shown>, lo: nat, mid: nat, hi: nat)
    requires lo < mid < hi <= |view|
    ensures Listing(view, lo, hi) == Listing(view, lo, mid) + "\n" + Listing(view, mid, hi)
  {
    var head, row := Listing(view, lo, mid), view[hi - 1].row;
    if mid + 1 < hi {
      ListingSplits(view, lo, mid, hi - 1);
      var middle := Listing(view, mid, hi - 1);
      assert (head + "\n" + middle) + "\n" + row == head + "\n" + (middle + "\n" + row);
    }
  }

  lemma {:induction false} PagesFrom(view: seq<Shown>, offset: nat, limit: nat, l: Limits)
    requires 1 <= offset <= |view| && 1 <= limit && EachFits(view, l)
    ensures Join(PageTexts(view, offset, limit, l), "\n") == Listing(view, offset - 1, |view|)
    decreases |view| + 1 - offset
  {
    var r := Page(view, offset, limit, l);
    Progress(view, offset, limit, l);
    var last := r.lastLine;
    if last < |view| {
      PagesFrom(view, last + 1, limit, l);
      JoinCons(r.text, PageTexts(view, last + 1, limit, l), "\n");
      ListingSplits(view, offset - 1, last, |view|);
    }
  }

  /** The collected pages are the numbered listing of the whole file: every line once, in order, nothing else. */
  lemma PagesPartitionTheFile(content: Bytes, limit: nat)
    requires |SplitLines(content)| <= MAX_INT && 1 <= limit
    ensures EachFits(View(content, PRODUCTION), PRODUCTION)
    ensures var view := View(content, PRODUCTION);
            Join(PageTexts(view, 1, limit, PRODUCTION), "\n") == Listing(view, 0, |view|)
  {
    ProductionIsRoomy();
    RowsFit(content, PRODUCTION);
    if SplitLines(content) != [] {
      PagesFrom(View(content, PRODUCTION), 1, limit, PRODUCTION);
    }
  }

  /**
   Following the notices instead of the line count does not stop: the notice of a page that reached the end points
   past the end exactly when that page cut a line, and the notice past the end points back to line 1.
   */
  lemma NoticesCycleExactlyAfterACut(view: seq<Shown>, offset: nat, limit: nat, l: Limits)
    requires 1 <= offset <= |view| && 1 <= limit
    ensures var r := Page(view, offset, limit, l);
            && (r.footer.Footer? && r.footer.next > |view| <==>
                r.lastLine == |view| && SomeCut(view, offset - 1, |view|))
            && Page(view, |view| + 1, limit, l).footer == Footer(0, 0, |view|, [OffsetPastEnd], 1)
  {
    NoticeIsExact(view, offset, limit, l);
    BudgetIsExact(view, offset, limit, l);
  }
}
