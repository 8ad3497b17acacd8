/** The in-memory engine behind edit and multi_edit: exact byte matching, uniqueness, and ordered batches of edits. */
module EditEngine {
  import opened Wrappers
  import opened ByteSearch

  datatype EditError =
    | EEmptyOld
    | ENoop
    | ENoMatch
    | EAmbiguous(count: nat, lines: seq<nat>)
    | EEditIndex(index: nat, cause: EditError)

  datatype Edit = Edit(pat: Bytes, sub: Bytes, replaceAll: bool)

  datatype Applied = Applied(content: Bytes, matches: nat)

  const MAX_AMBIGUOUS_LINES := 5

  /** Newlines in a stretch of bytes. */
  function CountNewlines(b: Bytes): nat {
    multiset(b)[NEWLINE]
  }

  /** The 1-based number of the line holding byte `off`. */
  function LineOf(content: Bytes, off: nat): nat
    requires off <= |content|
  {
    CountNewlines(content[..off]) + 1
  }

  predicate Ascending(content: Bytes, offsets: seq<nat>) {
    forall i, j :: 0 <= i <= j < |offsets| ==> offsets[i] <= offsets[j] <= |content|
  }

  /** What one edit means, by matches and gaps; `ApplyOnce` is the scanning code. */
  function Outcome(content: Bytes, e: Edit): Result<Applied, EditError> {
    if e.pat == [] then Err(EEmptyOld)
    else if e.pat == e.sub then Err(ENoop)
    else
      var ms := Matches(content, e.pat);
      if ms == [] then Err(ENoMatch)
      else if |ms| > 1 && !e.replaceAll then Err(EAmbiguous(|ms|, FirstLines(content, e.pat)))
      else Ok(Applied(Join(Split(content, e.pat), e.sub), |ms|))
  }

  function FirstLines(content: Bytes, pat: Bytes): (lines: seq<nat>)
    requires pat != []
  {
    MatchBounds(content, pat, 0);
    var ms := Matches(content, pat);
    seq(Min(MAX_AMBIGUOUS_LINES, |ms|), i requires 0 <= i < |ms| && ms[i] <= |content| => LineOf(content, ms[i]))
  }

  /** Folding `Outcome` over a batch; the failing edit is named by its 1-based position. */
  function OutcomeMany(content: Bytes, edits: seq<Edit>, index: nat): Result<Bytes, EditError>
    decreases |edits|
  {
    if edits == [] then Ok(content) else
    match Outcome(content, edits[0])
    case Err(e) => Err(EEditIndex(index, e))
    case Ok(a) => OutcomeMany(a.content, edits[1..], index + 1)
  }

  lemma {:induction false} MatchBounds(content: Bytes, pat: Bytes, off: nat)
    requires pat != [] && off <= |content|
    ensures forall i :: 0 <= i < |MatchesFrom(content, pat, off)| ==>
                          off <= MatchesFrom(content, pat, off)[i] <= |content| - |pat|
    ensures Ascending(content, MatchesFrom(content, pat, off))
    decreases |content| - off
  {
    match IndexFrom(content, pat, off)
    case None =>
    case Some(k) =>
      MatchBounds(content, pat, k + |pat|);
      var rest, ms := MatchesFrom(content, pat, k + |pat|), MatchesFrom(content, pat, off);
      assert ms == [k] + rest;
      forall i | 0 <= i < |ms| ensures off <= ms[i] <= |content| - |pat| {
        if i > 0 {
          assert ms[i] == rest[i - 1];
        }
      }
      forall i, j | 0 <= i <= j < |ms| ensures ms[i] <= ms[j] <= |content| {
        if i > 0 {
          assert ms[i] == rest[i - 1] && ms[j] == rest[j - 1];
        }
      }
  }

  /** Counts the non-overlapping occurrences and keeps the offsets of the first few. */
  method CountMatches(content: Bytes, pat: Bytes) returns (count: nat, firstOffsets: seq<nat>)
    requires pat != []
    ensures count == |Matches(content, pat)|
    ensures firstOffsets == Matches(content, pat)[..Min(MAX_AMBIGUOUS_LINES, count)]
  {
    hide MatchesFrom, IndexFrom;
    NoMoreMatches(content, pat);
    var off := 0;
    count, firstOffsets := 0, [];
    ghost var found: seq<nat> := [];
    assert found + MatchesFrom(content, pat, 0) == Matches(content, pat);
    while off <= |content| - |pat|
      invariant off <= |content| && count == |found|
      invariant Matches(content, pat) == found + MatchesFrom(content, pat, off)
      invariant firstOffsets == found[..Min(MAX_AMBIGUOUS_LINES, |found|)]
      decreases |content| - off
    {
      var i := IndexFrom(content, pat, off);
      if i.None? {
        assert found + [] == found;
        return;
      }
      MatchStep(content, pat, off, i.value, found);
      KeepFirst(found, i.value);
      if |firstOffsets| < MAX_AMBIGUOUS_LINES {
        firstOffsets := firstOffsets + [i.value];
      }
      found := found + [i.value];
      count := count + 1;
      off := i.value + |pat|;
    }
    assert found + [] == found;
  }

  lemma NoMoreMatches(content: Bytes, pat: Bytes)
    requires pat != []
    ensures forall off: nat :: off <= |content| && (IndexFrom(content, pat, off).None? || off > |content| - |pat|)
                               ==> MatchesFrom(content, pat, off) == []
  {
  }

  lemma KeepFirst(found: seq<nat>, i: nat)
    ensures (found + [i])[..Min(MAX_AMBIGUOUS_LINES, |found| + 1)]
            == found[..Min(MAX_AMBIGUOUS_LINES, |found|)] + if |found| < MAX_AMBIGUOUS_LINES then [i] else []
  {
  }

  lemma MatchStep(content: Bytes, pat: Bytes, off: nat, i: nat, found: seq<nat>)
    requires pat != [] && off <= |content| && IndexFrom(content, pat, off) == Some(i)
    ensures found + MatchesFrom(content, pat, off) == found + [i] + MatchesFrom(content, pat, i + |pat|)
  {
    hide IndexFrom;
    var rest := MatchesFrom(content, pat, i + |pat|);
    assert found + ([i] + rest) == found + [i] + rest;
  }

  /** Line numbers of ascending offsets, counting each stretch of content once. */
  method LineNumbers(content: Bytes, offsets: seq<nat>) returns (lines: seq<nat>)
    requires Ascending(content, offsets)
    ensures |lines| == |offsets|
    ensures forall i :: 0 <= i < |lines| ==> lines[i] == LineOf(content, offsets[i])
  {
    lines := [];
    var newlines, prev := 0, 0;
    for i := 0 to |offsets|
      invariant |lines| == i
      invariant prev == if i == 0 then 0 else offsets[i - 1]
      invariant prev <= |content| && newlines == CountNewlines(content[..prev])
      invariant forall j :: 0 <= j < i ==> lines[j] == LineOf(content, offsets[j])
    {
      var off := offsets[i];
      assert prev <= off <= |content|;
      assert content[..off] == content[..prev] + content[prev..off];
      newlines := newlines + CountNewlines(content[prev..off]);
      lines := lines + [newlines + 1];
      prev := off;
    }
  }

  method ApplyOnce(content: Bytes, e: Edit) returns (r: Result<Applied, EditError>)
    ensures r == Outcome(content, e)
  {
    if |e.pat| == 0 {
      return Err(EEmptyOld);
    }
    if e.pat == e.sub {
      return Err(ENoop);
    }
    var matches, firstOffsets := CountMatches(content, e.pat);
    MatchBounds(content, e.pat, 0);
    if matches == 0 {
      return Err(ENoMatch);
    }
    if !e.replaceAll && matches > 1 {
      var lines := LineNumbers(content, firstOffsets);
      assert lines == FirstLines(content, e.pat);
      return Err(EAmbiguous(matches, lines));
    }
    ReplaceRejoins(content, e.pat, e.sub, 0);
    if e.replaceAll {
      return Ok(Applied(Replace(content, e.pat, e.sub, -1), matches));
    }
    ReplaceSingle(content, e.pat, e.sub, Matches(content, e.pat)[0]);
    return Ok(Applied(Replace(content, e.pat, e.sub, 1), matches));
  }

  method ApplyMany(content: Bytes, edits: seq<Edit>) returns (r: Result<Bytes, EditError>)
    ensures r == OutcomeMany(content, edits, 1)
  {
    var cur := content;
    for i := 0 to |edits|
      invariant OutcomeMany(content, edits, 1) == OutcomeMany(cur, edits[i..], i + 1)
    {
      var out := ApplyOnce(cur, edits[i]);
      if out.Err? {
        return Err(EEditIndex(i + 1, out.error));
      }
      assert edits[i..][1..] == edits[i + 1..];
      cur := out.value.content;
    }
    return Ok(cur);
  }

  lemma ReplaceSingle(content: Bytes, pat: Bytes, sub: Bytes, k: nat)
    requires pat != [] && Matches(content, pat) == [k]
    ensures k + |pat| <= |content|
    ensures Replace(content, pat, sub, 1) == content[..k] + sub + content[k + |pat|..]
    ensures Join(Split(content, pat), sub) == content[..k] + sub + content[k + |pat|..]
  {
    var i := IndexFrom(content, pat, 0).value;
    MatchStep(content, pat, 0, i, []);
    assert [k][0] == i && [k][1..] == MatchesFrom(content, pat, k + |pat|);
    assert ReplaceFrom(content, pat, sub, 0, k + |pat|) == content[k + |pat|..];
    assert SplitFrom(content, pat, k + |pat|) == [content[k + |pat|..]];
    JoinCons(content[0..k], [content[k + |pat|..]], sub);
    assert content[0..k] == content[..k];
  }

  // Which edits are refused, and which are made, by occurrences alone.

  ghost predicate Occurs(content: Bytes, pat: Bytes) {
    exists k :: OccursAt(content, pat, k)
  }

  /** Two occurrences that do not overlap. */
  ghost predicate OccursTwice(content: Bytes, pat: Bytes) {
    exists j, k :: OccursAt(content, pat, j) && OccursAt(content, pat, k) && j + |pat| <= k
  }

  lemma MatchesSayHowOften(content: Bytes, pat: Bytes)
    requires pat != []
    ensures Matches(content, pat) != [] <==> Occurs(content, pat)
    ensures |Matches(content, pat)| > 1 <==> OccursTwice(content, pat)
  {
    var ms := Matches(content, pat);
    MatchesAreLeftmost(content, pat, 0);
    if ms == [] {
      assert FreeGap(content, pat, 0, ms, 0);
    } else {
      assert OccursAt(content, pat, ms[0]);
    }
    if |ms| > 1 {
      assert FreeGap(content, pat, 0, ms, 1);
      assert OccursAt(content, pat, ms[1]) && ms[0] + |pat| <= ms[1];
    } else if ms != [] {
      assert ms == [ms[0]];
      forall j | OccursAt(content, pat, j) ensures ms[0] <= j < ms[0] + |pat| {
        UniqueMeansUnique(content, pat, ms[0], j);
      }
    }
  }

  /**
   The whole table of answers: an empty old text, an edit that changes nothing, an old text that is not there, and,
   without replace_all, one that is there twice without overlap are refused, each with its own error; nothing else is.
   */
  lemma OutcomeIsExact(content: Bytes, e: Edit)
    ensures var r, legal := Outcome(content, e), e.pat != [] && e.pat != e.sub;
      && (r == Err(EEmptyOld) <==> e.pat == [])
      && (r == Err(ENoop) <==> e.pat == e.sub && e.pat != [])
      && (r == Err(ENoMatch) <==> legal && forall k :: !OccursAt(content, e.pat, k))
      && (r.Err? && r.error.EAmbiguous? <==> legal && !e.replaceAll && OccursTwice(content, e.pat))
      && (r.Ok? <==> legal && Occurs(content, e.pat) && (e.replaceAll || !OccursTwice(content, e.pat)))
  {
    if e.pat != [] {
      MatchesSayHowOften(content, e.pat);
    }
  }

  /** An edit that is made at one place replaces the first occurrence and nothing else. */
  lemma SingleEditIsSplice(content: Bytes, e: Edit, k: nat)
    requires e.pat != [] && e.pat != e.sub && OccursAt(content, e.pat, k)
    requires (forall j :: 0 <= j < k ==> !OccursAt(content, e.pat, j)) && !OccursTwice(content, e.pat)
    ensures Outcome(content, e) == Ok(Applied(content[..k] + e.sub + content[k + |e.pat|..], 1))
  {
    assert FreeGap(content, e.pat, 0, [k], 0) && FreeGap(content, e.pat, 0, [k], 1);
    LeftmostIsUnique(content, e.pat, 0, [k]);
    ReplaceSingle(content, e.pat, e.sub, k);
  }

  /** replace_all: the pattern-free gaps rejoined, whatever the substitute contains, and the length that follows. */
  lemma ReplaceAllRefinesGaps(content: Bytes, e: Edit)
    requires e.pat != [] && e.pat != e.sub && e.replaceAll && Matches(content, e.pat) != []
    ensures LeftmostDisjoint(content, e.pat, 0, Matches(content, e.pat))
    ensures var gaps := Split(content, e.pat);
            && |gaps| == |Matches(content, e.pat)| + 1
            && (forall i :: 0 <= i < |gaps| ==> Free(gaps[i], e.pat))
            && Join(gaps, e.pat) == content
            && (forall i :: 0 <= i < |gaps| ==> gaps[i] == Gap(content, e.pat, 0, Matches(content, e.pat), i))
            && Outcome(content, e) == Ok(Applied(Join(gaps, e.sub), |gaps| - 1))
            && Outcome(content, e).value.content == Replace(content, e.pat, e.sub, -1)
            && |Join(gaps, e.sub)| == |content| + (|gaps| - 1) * (|e.sub| - |e.pat|)
  {
    hide Gap, FreeGap, OccursAt, Free, LeftmostDisjoint, IndexFrom, Join, ReplaceFrom, MatchesFrom, SplitFrom;
    MatchesAreLeftmost(content, e.pat, 0);
    SplitPieces(content, e.pat, 0);
    SplitIsGaps(content, e.pat, 0);
    JoinSplit(content, e.pat, 0);
    ReplaceRejoins(content, e.pat, e.sub, 0);
    RejoinedLength(content, e.pat, e.sub, 0);
  }

  /** A non-overlapping count of one pins every occurrence, overlapping ones included, inside the match. */
  lemma UniqueMeansUnique(content: Bytes, pat: Bytes, k: nat, j: nat)
    requires pat != [] && Matches(content, pat) == [k] && OccursAt(content, pat, j)
    ensures k <= j < k + |pat|
  {
    MatchesAreLeftmost(content, pat, 0);
    assert FreeGap(content, pat, 0, [k], 0);
    assert FreeGap(content, pat, 0, [k], 1);
  }

  lemma OnlyOccurrence(content: Bytes, pat: Bytes, k: nat)
    requires pat != [] && OccursAt(content, pat, k)
    requires forall j :: OccursAt(content, pat, j) ==> j == k
    ensures Matches(content, pat) == [k]
  {
    assert FreeGap(content, pat, 0, [k], 0) && FreeGap(content, pat, 0, [k], 1);
    LeftmostIsUnique(content, pat, 0, [k]);
  }

  lemma SpliceBack(content: Bytes, pat: Bytes, sub: Bytes, k: nat)
    requires OccursAt(content, pat, k)
    ensures var result := content[..k] + sub + content[k + |pat|..];
            OccursAt(result, sub, k) && result[..k] + pat + result[k + |sub|..] == content
  {
    var result := content[..k] + sub + content[k + |pat|..];
    assert result[k..k + |sub|] == sub;
    assert result[..k] == content[..k] && result[k + |sub|..] == content[k + |pat|..];
    assert content == content[..k] + content[k..k + |pat|] + content[k + |pat|..];
  }

  /** A unique edit is undone by the opposite edit whenever the new text occurs in the result only where it was put. */
  lemma UniqueEditUndoes(content: Bytes, e: Edit, k: nat)
    requires e.pat != [] && e.sub != [] && e.pat != e.sub && Matches(content, e.pat) == [k]
    requires Outcome(content, e).Ok?
    requires forall j :: OccursAt(Outcome(content, e).value.content, e.sub, j) ==> j == k
    ensures Outcome(Outcome(content, e).value.content, Edit(e.sub, e.pat, false)) == Ok(Applied(content, 1))
  {
    var result := Outcome(content, e).value.content;
    ReplaceSingle(content, e.pat, e.sub, k);
    SingleMatchOccurs(content, e.pat, k);
    SpliceBack(content, e.pat, e.sub, k);
    OnlyOccurrence(result, e.sub, k);
    ReplaceSingle(result, e.sub, e.pat, k);
  }

  lemma SingleMatchOccurs(content: Bytes, pat: Bytes, k: nat)
    requires pat != [] && Matches(content, pat) == [k]
    ensures OccursAt(content, pat, k)
  {
    MatchesAreLeftmost(content, pat, 0);
    assert OccursAt(content, pat, [k][0]);
  }

  /** A batch may be cut anywhere: the second part runs on the first part's result and keeps its numbering. */
  lemma {:induction false} BatchSplits(content: Bytes, first: seq<Edit>, second: seq<Edit>, index: nat)
    ensures OutcomeMany(content, first + second, index)
            == match OutcomeMany(content, first, index)
               case Err(e) => Err(e)
               case Ok(mid) => OutcomeMany(mid, second, index + |first|)
    decreases |first|
  {
    if first == [] {
      assert first + second == second;
    } else {
      assert (first + second)[0] == first[0] && (first + second)[1..] == first[1..] + second;
      match Outcome(content, first[0])
      case Err(_) =>
      case Ok(a) => BatchSplits(a.content, first[1..], second, index + 1);
    }
  }

  /** With BatchSplits this fixes every batch: no edit changes nothing, and a batch of one is that edit. */
  lemma BatchOfOne(content: Bytes, e: Edit, index: nat)
    ensures OutcomeMany(content, [], index) == Ok(content)
    ensures var r := Outcome(content, e);
      OutcomeMany(content, [e], index) == if r.Ok? then Ok(r.value.content) else Err(EEditIndex(index, r.error))
  {
    assert [e][1..] == [];
  }

  /** A failing batch names the first edit that fails on the text its predecessors produced, and its cause. */
  lemma {:induction false} FailureNamesTheEdit(content: Bytes, edits: seq<Edit>, index: nat) returns (i: nat, before: Bytes)
    requires OutcomeMany(content, edits, index).Err?
    ensures i < |edits| && OutcomeMany(content, edits[..i], index) == Ok(before)
    ensures Outcome(before, edits[i]).Err?
    ensures OutcomeMany(content, edits, index) == Err(EEditIndex(index + i, Outcome(before, edits[i]).error))
    decreases |edits|
  {
    match Outcome(content, edits[0])
    case Err(_) =>
      i, before := 0, content;
    case Ok(a) =>
      var j, mid := FailureNamesTheEdit(a.content, edits[1..], index + 1);
      i, before := j + 1, mid;
      assert edits[..i][1..] == edits[1..][..j];
  }
}
