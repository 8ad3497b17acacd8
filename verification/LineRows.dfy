/** What a client reads in a page: the number and the text of every row, and what the result says beside them. */
module LineRows {
  import opened Wrappers
  import opened ByteSearch
  import opened EditEngine
  import opened Decimal
  import opened Utf8
  import opened LineIO
  import opened LineAgreement

  /** A row is what precedes its first tab, and what follows it. */
  predicate Reads(row: string, number: nat, display: string) {
    exists k :: 0 <= k < |row| && row[k] == '\t' && '\t' !in row[..k]
                && Atoi(row[..k]) == Some(number) && row[k + 1..] == display
  }

  /** A line whole, or its first code points and the marker. */
  predicate Shortened(text: string, max: nat, display: string) {
    if |text| <= max then display == text else display == text[..max] + "... [truncated]"
  }

  /** Row i, counted from zero, bears number i + 1 and shows line i: whole if it is short enough, else cut and marked. */
  lemma RowReads(content: Bytes, l: Limits, i: nat) returns (display: string)
    requires i < |SplitLines(content)|
    ensures |View(content, l)| == |SplitLines(content)|
    ensures var v, text := View(content, l)[i], Sanitize(SplitLines(content)[i]);
      && Reads(v.row, i + 1, display) && Shortened(text, l.maxLineChars, display)
      && (v.cut <==> |text| > l.maxLineChars)
  {
    var raw, view := SplitLines(content), View(content, l);
    assert view[i] == Show(raw, i, l);
    var text, number := Sanitize(raw[i]), Itoa(i + 1);
    display := Display(text, l);
    AtoiOfItoa(i + 1);
    var row, k := view[i].row, |number|;
    assert row == number + "\t" + display;
    assert row[..k] == number && row[k] == '\t' && row[k + 1..] == display;
  }

  /** Valid text is read back letter for letter. */
  lemma ValidRowReads(content: Bytes, l: Limits, i: nat, text: string)
    requires i < |SplitLines(content)| && SplitLines(content)[i] == EncodeAll(text) && |text| <= l.maxLineChars
    ensures |View(content, l)| == |SplitLines(content)| && Reads(View(content, l)[i].row, i + 1, text)
  {
    SanitizeKeepsValid(text, false);
    var display := RowReads(content, l, i);
  }

  /** The row that shows a byte of the file bears the number the engine gives that byte. */
  lemma RowOfByte(content: Bytes, l: Limits, off: nat) returns (display: string)
    requires off < |content|
    ensures var n := LineOf(content, off);
      && Holds(SplitLines(content), content, n, off)
      && 1 <= n <= |View(content, l)| && Reads(View(content, l)[n - 1].row, n, display)
  {
    EngineAndRendererAgree(content, off);
    display := RowReads(content, l, LineOf(content, off) - 1);
  }

  /** The rows lo to hi, as they are. */
  function RowsOf(view: seq<Shown>, lo: nat, hi: nat): (rows: seq<string>)
    requires lo <= hi <= |view|
    ensures |rows| == hi - lo && forall i :: 0 <= i < hi - lo ==> rows[i] == view[lo + i].row
  {
    seq(hi - lo, i requires 0 <= i < hi - lo => view[lo + i].row)
  }

  lemma {:induction false} ListingIsJoin(view: seq<Shown>, lo: nat, hi: nat)
    requires lo <= hi <= |view|
    ensures Listing(view, lo, hi) == Join(RowsOf(view, lo, hi), "\n")
  {
    if lo < hi {
      ListingIsJoin(view, lo, hi - 1);
      assert RowsOf(view, lo, hi) == RowsOf(view, lo, hi - 1) + [view[hi - 1].row];
      JoinSnoc(RowsOf(view, lo, hi - 1), view[hi - 1].row, "\n");
    }
  }

  /**
   A page from inside the file: its text is the rows from `offset` on, joined; the first one bears the number `offset`;
   the line numbers of the result are those of the rows shown; and each reason is given exactly when it is one.
   */
  lemma PageIsExact(content: Bytes, offset: nat, limit: nat, l: Limits)
    requires 1 <= offset <= |View(content, l)| && 1 <= limit
    ensures var view := View(content, l);
      var r := Page(view, offset, limit, l);
      var k := ShownCount(r);
      var stop := offset - 1 + k;
      && stop <= |view| == r.totalLines == |SplitLines(content)|
      && r.text == Join(RowsOf(view, offset - 1, stop), "\n")
      && (r.firstLine, r.lastLine) == (if k > 0 then (offset, stop) else (0, 0))
      && (LineLength in r.reasons <==> r.truncated)
      && (LineLimit in r.reasons <==> SizeLimit !in r.reasons && stop < |view| && limit > l.defaultLines)
      && (RequestedLimit in r.reasons <==> SizeLimit !in r.reasons && stop < |view| && limit <= l.defaultLines)
      && OffsetPastEnd !in r.reasons
      && (forall i, j :: 0 <= i < j < |r.reasons| ==> r.reasons[i] != r.reasons[j] && r.reasons[j] != LineLength)
  {
    hide Page, View, Listing, Join, RowsOf, ShownCount;
    var view := View(content, l);
    assert |view| == |SplitLines(content)|;
    PageFields(view, offset, limit, l);
    ListingIsJoin(view, offset - 1, offset - 1 + ShownCount(Page(view, offset, limit, l)));
  }

  lemma PageFields(view: seq<Shown>, offset: nat, limit: nat, l: Limits)
    requires 1 <= offset <= |view| && 1 <= limit
    ensures var r := Page(view, offset, limit, l);
      var k := ShownCount(r);
      var stop := offset - 1 + k;
      && stop <= |view| == r.totalLines && r.text == Listing(view, offset - 1, stop)
      && (r.firstLine, r.lastLine) == (if k > 0 then (offset, stop) else (0, 0))
      && (LineLength in r.reasons <==> r.truncated)
      && (LineLimit in r.reasons <==> SizeLimit !in r.reasons && stop < |view| && limit > l.defaultLines)
      && (RequestedLimit in r.reasons <==> SizeLimit !in r.reasons && stop < |view| && limit <= l.defaultLines)
      && OffsetPastEnd !in r.reasons
      && (forall i, j :: 0 <= i < j < |r.reasons| ==> r.reasons[i] != r.reasons[j] && r.reasons[j] != LineLength)
  {
    hide Listing, Costs, Fit, SomeCut, BuildFooter;
    ShownRows(view, offset, limit, l);
    ReasonsSay(view, offset, limit, l);
  }

  lemma ReasonsSay(view: seq<Shown>, offset: nat, limit: nat, l: Limits)
    requires 1 <= offset <= |view| && 1 <= limit
    ensures var r, stop := Page(view, offset, limit, l), Stop(view, offset, limit, l);
      && (LineLength in r.reasons <==> r.truncated)
      && (LineLimit in r.reasons <==> SizeLimit !in r.reasons && stop < |view| && limit > l.defaultLines)
      && (RequestedLimit in r.reasons <==> SizeLimit !in r.reasons && stop < |view| && limit <= l.defaultLines)
      && OffsetPastEnd !in r.reasons
      && (forall i, j :: 0 <= i < j < |r.reasons| ==> r.reasons[i] != r.reasons[j] && r.reasons[j] != LineLength)
  {
    hide Listing, Costs, Fit, SomeCut, BuildFooter;
    StopIsMaximal(view, offset, limit, l);
  }

  /** A page whose offset is past the end shows nothing and says why, unless the file is empty. */
  lemma PastEndIsExact(content: Bytes, offset: nat, limit: nat, l: Limits)
    requires |View(content, l)| < offset && 1 <= limit
    ensures var r := Page(View(content, l), offset, limit, l);
      && r.text == "" && r.firstLine == 0 && r.lastLine == 0 && r.totalLines == |SplitLines(content)| && !r.truncated
      && r.reasons == if content == [] then [] else [OffsetPastEnd]
  {
    LinesRestoreTheFile(content);
  }

  /** The page begins with the row of line `offset`. */
  lemma PageStartsAtOffset(content: Bytes, offset: nat, limit: nat, l: Limits) returns (display: string)
    requires 1 <= offset <= |View(content, l)| && 1 <= limit && Page(View(content, l), offset, limit, l).firstLine > 0
    ensures var view := View(content, l);
      var r := Page(view, offset, limit, l);
      && r.firstLine == offset && Reads(view[offset - 1].row, offset, display) && view[offset - 1].row <= r.text
  {
    PageIsExact(content, offset, limit, l);
    display := RowReads(content, l, offset - 1);
    var view := View(content, l);
    var k := ShownCount(Page(view, offset, limit, l));
    var rows := RowsOf(view, offset - 1, offset - 1 + k);
    assert k > 0;
    hide Page, View, Reads, RowsOf, Join, Shortened, SplitLines, Sanitize;
    JoinStarts(rows, "\n");
  }

  lemma JoinStarts(rows: seq<string>, sep: string)
    requires rows != []
    ensures rows[0] <= Join(rows, sep)
  {
    if |rows| > 1 {
      JoinCons(rows[0], rows[1..], sep);
      assert rows == [rows[0]] + rows[1..];
    }
  }
}
