/**
 The byte-slice searches the engine and the renderer call: first occurrence, non-overlapping occurrences,
 split, join and replace. `LeftmostDisjoint` says, without reference to any search order, which offsets a
 left-to-right non-overlapping scan must return; it has exactly one solution.
 */
module ByteSearch {
  import opened Wrappers

  newtype byte = x: int | 0 <= x < 256

  type Bytes = seq<byte>

  const NEWLINE: byte := 10

  predicate OccursAt(content: Bytes, pat: Bytes, k: int) {
    0 <= k && k + |pat| <= |content| && content[k..k + |pat|] == pat
  }

  /** First occurrence at or after `off`. */
  function IndexFrom(content: Bytes, pat: Bytes, off: nat): (r: Option<nat>)
    requires off <= |content|
    ensures r.Some? ==> off <= r.value && OccursAt(content, pat, r.value)
    decreases |content| - off
  {
    if OccursAt(content, pat, off) then Some(off)
    else if off == |content| then None
    else IndexFrom(content, pat, off + 1)
  }

  lemma {:induction false} IndexIsFirst(content: Bytes, pat: Bytes, off: nat)
    requires off <= |content|
    ensures var r := IndexFrom(content, pat, off);
            forall k :: off <= k && (r.Some? ==> k < r.value) ==> !OccursAt(content, pat, k)
    decreases |content| - off
  {
    if !OccursAt(content, pat, off) && off < |content| {
      IndexIsFirst(content, pat, off + 1);
    }
  }

  function MatchesFrom(content: Bytes, pat: Bytes, off: nat): seq<nat>
    requires pat != [] && off <= |content|
    decreases |content| - off
  {
    match IndexFrom(content, pat, off)
    case None => []
    case Some(i) => [i] + MatchesFrom(content, pat, i + |pat|)
  }

  function Matches(content: Bytes, pat: Bytes): seq<nat>
    requires pat != []
  {
    MatchesFrom(content, pat, 0)
  }

  // The gap before match number i, the last gap being the one that runs to the end of the content.

  function GapStart(pat: Bytes, off: nat, ms: seq<nat>, i: nat): nat
    requires i <= |ms|
  {
    if i == 0 then off else ms[i - 1] + |pat|
  }

  function GapEnd(content: Bytes, ms: seq<nat>, i: nat): nat
    requires i <= |ms|
  {
    if i == |ms| then |content| else ms[i]
  }

  ghost predicate FreeGap(content: Bytes, pat: Bytes, off: nat, ms: seq<nat>, i: nat)
    requires i <= |ms|
  {
    && GapStart(pat, off, ms, i) <= GapEnd(content, ms, i)
    && forall k :: GapStart(pat, off, ms, i) <= k < GapEnd(content, ms, i) ==> !OccursAt(content, pat, k)
  }

  /** Every offset is an occurrence, and no occurrence starts in a gap. */
  ghost predicate LeftmostDisjoint(content: Bytes, pat: Bytes, off: nat, ms: seq<nat>) {
    && (forall i :: 0 <= i < |ms| ==> OccursAt(content, pat, ms[i]))
    && (forall i :: 0 <= i <= |ms| ==> FreeGap(content, pat, off, ms, i))
  }

  lemma {:induction false} MatchesAreLeftmost(content: Bytes, pat: Bytes, off: nat)
    requires pat != [] && off <= |content|
    ensures LeftmostDisjoint(content, pat, off, MatchesFrom(content, pat, off))
    decreases |content| - off
  {
    IndexIsFirst(content, pat, off);
    match IndexFrom(content, pat, off)
    case None =>
      assert FreeGap(content, pat, off, [], 0);
    case Some(i) =>
      assert OccursAt(content, pat, i) && i + |pat| <= |content|;
      hide OccursAt, LeftmostDisjoint, IndexFrom;
      MatchesAreLeftmost(content, pat, i + |pat|);
      AddFirstMatch(content, pat, off, i, MatchesFrom(content, pat, i + |pat|));
  }

  lemma AddFirstMatch(content: Bytes, pat: Bytes, off: nat, i: nat, rest: seq<nat>)
    requires pat != [] && off <= i && OccursAt(content, pat, i)
    requires forall k :: off <= k < i ==> !OccursAt(content, pat, k)
    requires LeftmostDisjoint(content, pat, i + |pat|, rest)
    ensures LeftmostDisjoint(content, pat, off, [i] + rest)
  {
    hide OccursAt;
    var ms := [i] + rest;
    forall j | 0 <= j <= |ms| ensures FreeGap(content, pat, off, ms, j) {
      if j > 0 {
        assert FreeGap(content, pat, i + |pat|, rest, j - 1);
      }
    }
  }

  lemma DropFirstMatch(content: Bytes, pat: Bytes, off: nat, ms: seq<nat>)
    requires pat != [] && ms != [] && LeftmostDisjoint(content, pat, off, ms)
    ensures ms[0] + |pat| <= |content|
    ensures LeftmostDisjoint(content, pat, ms[0] + |pat|, ms[1..])
  {
    assert OccursAt(content, pat, ms[0]);
    var next, rest := ms[0] + |pat|, ms[1..];
    forall i | 0 <= i < |rest| ensures OccursAt(content, pat, rest[i]) {
      assert OccursAt(content, pat, ms[i + 1]);
    }
    forall i | 0 <= i <= |rest| ensures FreeGap(content, pat, next, rest, i) {
      assert FreeGap(content, pat, off, ms, i + 1);
    }
  }

  /** The leftmost non-overlapping matches are determined by the content alone. */
  lemma {:induction false} LeftmostIsUnique(content: Bytes, pat: Bytes, off: nat, ms: seq<nat>)
    requires pat != [] && off <= |content|
    requires LeftmostDisjoint(content, pat, off, ms)
    ensures ms == MatchesFrom(content, pat, off)
    decreases |ms|
  {
    assert FreeGap(content, pat, off, ms, 0);
    IndexIsFirst(content, pat, off);
    if ms != [] {
      assert OccursAt(content, pat, ms[0]);
      assert IndexFrom(content, pat, off) == Some(ms[0]);
      DropFirstMatch(content, pat, off, ms);
      LeftmostIsUnique(content, pat, ms[0] + |pat|, ms[1..]);
      assert ms == [ms[0]] + ms[1..];
    }
  }

  function Join<T>(pieces: seq<seq<T>>, sep: seq<T>): seq<T> {
    if pieces == [] then []
    else if |pieces| == 1 then pieces[0]
    else pieces[0] + sep + Join(pieces[1..], sep)
  }

  function SplitFrom(content: Bytes, pat: Bytes, off: nat): (pieces: seq<Bytes>)
    requires pat != [] && off <= |content|
    ensures pieces != []
    decreases |content| - off
  {
    match IndexFrom(content, pat, off)
    case None => [content[off..]]
    case Some(i) => [content[off..i]] + SplitFrom(content, pat, i + |pat|)
  }

  /** The text between consecutive matches, both ends included. */
  function Split(content: Bytes, pat: Bytes): (pieces: seq<Bytes>)
    requires pat != []
    ensures pieces != []
  {
    SplitFrom(content, pat, 0)
  }

  /** Replaces the first n matches from `off` on. */
  function ReplaceFrom(content: Bytes, pat: Bytes, sub: Bytes, n: nat, off: nat): Bytes
    requires pat != [] && off <= |content|
    decreases n
  {
    if n == 0 then content[off..] else
    match IndexFrom(content, pat, off)
    case None => content[off..]
    case Some(i) => content[off..i] + sub + ReplaceFrom(content, pat, sub, n - 1, i + |pat|)
  }

  /** Go's bytes.Replace: a negative n means every match. */
  function Replace(content: Bytes, pat: Bytes, sub: Bytes, n: int): Bytes
    requires pat != []
  {
    ReplaceFrom(content, pat, sub, if n < 0 then |Matches(content, pat)| else n, 0)
  }

  predicate Free(piece: Bytes, pat: Bytes) {
    forall k :: 0 <= k <= |piece| ==> !OccursAt(piece, pat, k)
  }

  lemma SliceOfSlice<T>(s: seq<T>, lo: nat, hi: nat, a: nat, b: nat)
    requires lo <= hi <= |s| && a <= b <= hi - lo
    ensures s[lo..hi][a..b] == s[lo + a..lo + b]
  {
    forall i | 0 <= i < b - a ensures s[lo..hi][a..b][i] == s[lo + a..lo + b][i] {
    }
  }

  lemma JoinCons<T>(piece: seq<T>, rest: seq<seq<T>>, sep: seq<T>)
    requires rest != []
    ensures Join([piece] + rest, sep) == piece + sep + Join(rest, sep)
  {
    assert ([piece] + rest)[1..] == rest;
  }

  lemma {:induction false} JoinSnoc<T>(pieces: seq<seq<T>>, last: seq<T>, sep: seq<T>)
    ensures Join(pieces + [last], sep) == if pieces == [] then last else Join(pieces, sep) + sep + last
    decreases |pieces|
  {
    if |pieces| == 1 {
      JoinCons(pieces[0], [last], sep);
      assert pieces + [last] == [pieces[0]] + [last];
    } else if pieces != [] {
      JoinSnoc(pieces[1..], last, sep);
      JoinCons(pieces[0], pieces[1..] + [last], sep);
      assert pieces + [last] == [pieces[0]] + (pieces[1..] + [last]);
      assert pieces[0] + sep + (Join(pieces[1..], sep) + sep + last) == pieces[0] + sep + Join(pieces[1..], sep) + sep + last;
    }
  }

  lemma JoinSplitStep(content: Bytes, off: nat, i: nat, w: nat, rest: seq<Bytes>)
    requires off <= i <= i + w <= |content| && rest != []
    requires Join(rest, content[i..i + w]) == content[i + w..]
    ensures Join([content[off..i]] + rest, content[i..i + w]) == content[off..]
  {
    JoinCons(content[off..i], rest, content[i..i + w]);
    assert content[off..] == content[off..i] + content[i..i + w] + content[i + w..];
  }

  lemma RejoinedLengthStep(piece: Bytes, sub: Bytes, rest: seq<Bytes>, total: int, w: int, n: int)
    requires rest != []
    requires |Join(rest, sub)| == total + n * (|sub| - w)
    ensures |Join([piece] + rest, sub)| == |piece| + w + total + (n + 1) * (|sub| - w)
  {
    JoinCons(piece, rest, sub);
    assert (n + 1) * (|sub| - w) == n * (|sub| - w) + (|sub| - w);
  }

  lemma FreeSlice(content: Bytes, pat: Bytes, lo: nat, hi: nat)
    requires lo <= hi <= |content| && pat != []
    requires forall k :: lo <= k < hi ==> !OccursAt(content, pat, k)
    ensures Free(content[lo..hi], pat)
  {
    var piece := content[lo..hi];
    forall k | 0 <= k <= |piece| ensures !OccursAt(piece, pat, k) {
      if OccursAt(piece, pat, k) {
        SliceOfSlice(content, lo, hi, k, k + |pat|);
        assert OccursAt(content, pat, lo + k);
      }
    }
  }

  lemma {:induction false} SplitPieces(content: Bytes, pat: Bytes, off: nat)
    requires pat != [] && off <= |content|
    ensures var ps := SplitFrom(content, pat, off);
            |ps| == |MatchesFrom(content, pat, off)| + 1 && forall i :: 0 <= i < |ps| ==> Free(ps[i], pat)
    decreases |content| - off
  {
    IndexIsFirst(content, pat, off);
    match IndexFrom(content, pat, off)
    case None =>
      FreeSlice(content, pat, off, |content|);
      assert content[off..] == content[off..|content|];
    case Some(i) =>
      SplitPieces(content, pat, i + |pat|);
      FreeSlice(content, pat, off, i);
  }

  /** Split then join with the separator is the identity. */
  /** The bytes of gap i. */
  function Gap(content: Bytes, pat: Bytes, off: nat, ms: seq<nat>, i: nat): Bytes
    requires i <= |ms|
  {
    var lo, hi := GapStart(pat, off, ms, i), GapEnd(content, ms, i);
    if lo <= hi <= |content| then content[lo..hi] else []
  }

  lemma GapOfTail(content: Bytes, pat: Bytes, off: nat, k: nat, rest: seq<nat>, i: nat)
    requires i <= |rest| + 1
    ensures Gap(content, pat, off, [k] + rest, i)
            == if i > 0 then Gap(content, pat, k + |pat|, rest, i - 1)
               else if off <= k <= |content| then content[off..k] else []
  {
  }

  /** Splitting cuts out exactly the matches. */
  lemma {:induction false} SplitIsGaps(content: Bytes, pat: Bytes, off: nat)
    requires pat != [] && off <= |content|
    ensures var ps, ms := SplitFrom(content, pat, off), MatchesFrom(content, pat, off);
      |ps| == |ms| + 1 && forall i :: 0 <= i < |ps| ==> ps[i] == Gap(content, pat, off, ms, i)
    decreases |content| - off
  {
    match IndexFrom(content, pat, off)
    case None =>
    case Some(k) =>
      hide Gap, OccursAt, IndexFrom;
      var next := k + |pat|;
      SplitIsGaps(content, pat, next);
      var ps, rest := SplitFrom(content, pat, off), MatchesFrom(content, pat, next);
      assert MatchesFrom(content, pat, off) == [k] + rest && ps == [content[off..k]] + SplitFrom(content, pat, next);
      forall i | 0 <= i < |ps| ensures ps[i] == Gap(content, pat, off, [k] + rest, i) {
        GapOfTail(content, pat, off, k, rest, i);
      }
  }

  lemma {:induction false} JoinSplit(content: Bytes, pat: Bytes, off: nat)
    requires pat != [] && off <= |content|
    ensures Join(SplitFrom(content, pat, off), pat) == content[off..]
    decreases |content| - off
  {
    match IndexFrom(content, pat, off)
    case None =>
    case Some(i) =>
      JoinSplit(content, pat, i + |pat|);
      JoinSplitStep(content, off, i, |pat|, SplitFrom(content, pat, i + |pat|));
  }

  /** Replacing every match rejoins the same pieces with the substitute. */
  lemma {:induction false} ReplaceRejoins(content: Bytes, pat: Bytes, sub: Bytes, off: nat)
    requires pat != [] && off <= |content|
    ensures ReplaceFrom(content, pat, sub, |MatchesFrom(content, pat, off)|, off) == Join(SplitFrom(content, pat, off), sub)
    decreases |content| - off
  {
    match IndexFrom(content, pat, off)
    case None =>
    case Some(i) =>
      ReplaceRejoins(content, pat, sub, i + |pat|);
      JoinCons(content[off..i], SplitFrom(content, pat, i + |pat|), sub);
  }

  lemma {:induction false} RejoinedLength(content: Bytes, pat: Bytes, sub: Bytes, off: nat)
    requires pat != [] && off <= |content|
    ensures |Join(SplitFrom(content, pat, off), sub)|
            == |content| - off + |MatchesFrom(content, pat, off)| * (|sub| - |pat|)
    decreases |content| - off
  {
    match IndexFrom(content, pat, off)
    case None =>
    case Some(i) =>
      assert i + |pat| <= |content|;
      hide OccursAt, IndexFrom, Join;
      RejoinedLength(content, pat, sub, i + |pat|);
      RejoinedLengthStep(content[off..i], sub, SplitFrom(content, pat, i + |pat|), |content| - (i + |pat|), |pat|,
                         |MatchesFrom(content, pat, i + |pat|)|);
  }
}
