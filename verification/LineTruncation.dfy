/** What the render result's `truncated` says (internal/lineio/lineio.go:74-76 and 140-156), and an input that shows it. */
module LineTruncation {
  import opened ByteSearch
  import opened Decimal
  import opened Utf8
  import opened LineIO
  import opened LineAgreement

  /** A page is marked as truncated when it shows a cut line, or when the row it had no room left for was cut. */
  lemma TruncatedIsExact(view: seq<Shown>, offset: nat, limit: nat, l: Limits)
    requires 1 <= offset <= |view| && 1 <= limit
    ensures var r := Page(view, offset, limit, l);
            var stop := offset - 1 + ShownCount(r);
            && offset - 1 <= stop <= |view|
            && (SizeLimit in r.reasons ==> stop < |view|)
            && (r.truncated <==> SomeCut(view, offset - 1, stop) || (SizeLimit in r.reasons && view[stop].cut))
  {
    ShownRows(view, offset, limit, l);
    var stop := Stop(view, offset, limit, l);
    if stop < WindowEnd(|view|, offset, limit, l) {
      SomeCutStep(view, offset - 1, stop);
    }
  }

  function Times(c: char, n: nat): (s: string)
    ensures |s| == n && forall i :: 0 <= i < n ==> s[i] == c
  {
    seq(n, i => c)
  }

  /** 130 lines of 2000 characters, and one of 2001. */
  function Texts(): (texts: seq<string>)
    ensures |texts| == 131 && forall i :: 0 <= i < 131 ==> texts[i] == Times('a', if i < 130 then 2000 else 2001)
  {
    seq(131, i => Times('a', if i < 130 then 2000 else 2001))
  }

  function Written(texts: seq<string>): (lines: seq<Bytes>)
    ensures |lines| == |texts| && forall i :: 0 <= i < |texts| ==> lines[i] == EncodeAll(texts[i])
  {
    seq(|texts|, i requires 0 <= i < |texts| => EncodeAll(texts[i]))
  }

  const FILE := Join(Written(Texts()), [NEWLINE]) + [NEWLINE]

  lemma {:induction false} EncodedHoldsNoNewline(s: string)
    requires forall i :: 0 <= i < |s| ==> s[i] == 'a'
    ensures NEWLINE !in EncodeAll(s)
  {
    if s != [] {
      EncodedHoldsNoNewline(s[1..]);
      assert Encode(s[0]) == [97];
    }
  }

  lemma FileIsRead()
    ensures SplitLines(FILE) == Written(Texts())
  {
    hide Join, SplitLines, EncodeAll;
    var lines := Written(Texts());
    forall i | 0 <= i < |lines| ensures NEWLINE !in lines[i] {
      EncodedHoldsNoNewline(Texts()[i]);
    }
    LinesReadBack(lines);
  }

  lemma RowOf(i: nat)
    requires i < 131
    ensures Show(Written(Texts()), i, PRODUCTION).cut == (i == 130)
    ensures var n := ByteLen(Show(Written(Texts()), i, PRODUCTION).row) + 1;
      if i < 130 then 2003 <= n <= 2005 else 2018 <= n
  {
    var text := Texts()[i];
    var number, display := Itoa(i + 1), Display(text, PRODUCTION);
    SanitizeKeepsValid(text, false);
    assert Pow10(3) == 1000;
    ItoaLength(i + 1, 3);
    assert |TRUNCATION_MARKER| == 15;
    assert |display| == if i < 130 then 2000 else 2015;
    ByteLenAscii(number + "\t" + display);
  }

  lemma {:induction false} CostsBound(costs: seq<nat>, lo: nat, hi: nat, least: nat, most: nat)
    requires lo <= hi <= |costs| && forall i :: lo <= i < hi ==> least <= costs[i] <= most
    ensures (hi - lo) * least <= Sum(costs, lo, hi) <= (hi - lo) * most
    decreases hi - lo
  {
    if lo < hi {
      CostsBound(costs, lo, hi - 1, least, most);
      assert (hi - lo) * least == (hi - 1 - lo) * least + least && (hi - lo) * most == (hi - 1 - lo) * most + most;
    }
  }

  lemma {:induction false} SumGrows(costs: seq<nat>, lo: nat, mid: nat, hi: nat)
    requires lo <= mid <= hi <= |costs|
    ensures Sum(costs, lo, mid) <= Sum(costs, lo, hi)
    decreases hi - mid
  {
    if mid < hi {
      SumGrows(costs, lo, mid, hi - 1);
    }
  }

  lemma FileStops(view: seq<Shown>)
    requires |view| == 131 && forall i :: 0 <= i < 131 ==> view[i].cut == (i == 130)
    requires forall i :: 0 <= i < 130 ==> 2003 <= ByteLen(view[i].row) + 1 <= 2005
    requires 2018 <= ByteLen(view[130].row) + 1
    ensures Stop(view, 1, 2000, PRODUCTION) == 130
  {
    var costs, stop := Costs(view), Stop(view, 1, 2000, PRODUCTION);
    StopIsMaximal(view, 1, 2000, PRODUCTION);
    CostsBound(costs, 0, 130, 2003, 2005);
    assert Sum(costs, 0, 131) == Sum(costs, 0, 130) + costs[130];
    if stop < 130 {
      SumGrows(costs, 0, stop + 1, 130);
    }
  }

  /** `truncated` without a cut line: with the tool's own limits, one call shows lines 1 to 130 of this file, all whole. */
  lemma TruncatedShowsNoCut()
    ensures var view := View(FILE, PRODUCTION);
      && |view| == 131
      && var r := Page(view, 1, 2000, PRODUCTION);
      && r.firstLine == 1 && r.lastLine == 130 && r.text == Listing(view, 0, 130)
      && !SomeCut(view, 0, 130) && r.truncated && r.reasons == [LineLength, SizeLimit]
  {
    FileIsRead();
    var view := View(FILE, PRODUCTION);
    var raw := Written(Texts());
    assert IsView(raw, view, PRODUCTION);
    hide View, Show, ByteLen, Listing;
    forall i | 0 <= i < 131
      ensures view[i] == Show(raw, i, PRODUCTION) && view[i].cut == (i == 130)
      ensures var n := ByteLen(view[i].row) + 1; if i < 130 then 2003 <= n <= 2005 else 2018 <= n
    {
      RowOf(i);
    }
    FileStops(view);
    ShownRows(view, 1, 2000, PRODUCTION);
    TruncatedIsExact(view, 1, 2000, PRODUCTION);
  }
}
