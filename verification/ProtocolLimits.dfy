/** Where the protocol's guarantees end, each shown on a run: the windows it does not close, and what errors can hide. */
module ProtocolLimits {
  import opened Wrappers
  import opened ByteSearch
  import opened Protocol
  import opened ProtocolInvariant
  import opened ProtocolTheorems
  import opened ProtocolFailures

  /** These cells are what the events lead through. */
  ghost predicate Leads(cells: seq<Cell>, es: seq<Event>) {
    |cells| == |es| + 1 && forall k :: 0 <= k < |es| ==> Enabled(cells[k], es[k]) && Next(cells[k], es[k]) == cells[k + 1]
  }

  lemma {:induction false} Follow(cells: seq<Cell>, es: seq<Event>)
    requires Leads(cells, es)
    ensures Run(cells[0], es) && After(cells[0], es) == cells[|es|]
    decreases |es|
  {
    hide Enabled, Next;
    if es != [] {
      assert Enabled(cells[0], es[0]) && Next(cells[0], es[0]) == cells[1];
      forall k | 0 <= k < |es[1..]|
        ensures Enabled(cells[1..][k], es[1..][k]) && Next(cells[1..][k], es[1..][k]) == cells[1..][k + 1]
      {
        assert Enabled(cells[k + 1], es[k + 1]) && Next(cells[k + 1], es[k + 1]) == cells[k + 2];
      }
      Follow(cells[1..], es[1..]);
    }
  }

  function Calling(answer: Answer, retry: bool, data: Bytes, stamp: Stamp, tmp: TempName, n: nat): Event {
    Step(Choice(answer, retry, data, stamp, tmp, n))
  }

  function Works(stamp: Stamp): Event {
    Calling(Succeeds, false, [], stamp, 5, 0)
  }

  // A token's write of [7] to a missing name.

  const WRITE := Call(0, 0, WriteOp([7]))
  const CLAIMED := Change(By(WRITE), Missing, Missing, Regular([], 3), None)
  const LANDED := Change(By(WRITE), Missing, Regular([], 3), Regular([7], 6), None)

  /** The cell after the first n events of that write. */
  function Writing(n: nat): Cell
    requires n <= 6
  {
    match n
    case 0 => Start(Missing)
    case 1 => Cell(State(Missing, map[], map[], {1}, Missing, [], map[]), Running(WRITE, AtStat), 1)
    case 2 => Cell(State(Missing, map[], map[], {1, 2}, Missing, [], map[]), Running(WRITE, AtClaim([7])), 1)
    case 3 => Cell(State(Regular([], 3), map[], map[], {1, 2, 3}, Missing, [CLAIMED], map[]),
                   Running(WRITE, AtTemp(Missing, [7])), 1)
    case 4 => Cell(State(Regular([], 3), map[5 := Temp([], 4)], map[], {1, 2, 3, 4}, Missing, [CLAIMED], map[]),
                   Running(WRITE, AtTempWrite(Missing, [7], 5)), 1)
    case 5 => Cell(State(Regular([], 3), map[5 := Temp([7], 6)], map[], {1, 2, 3, 4, 6}, Missing, [CLAIMED], map[]),
                   Running(WRITE, AtRename(Missing, [7], 5)), 1)
    case 6 => Cell(State(Regular([7], 6), map[], map[], {1, 2, 3, 4, 6, 7}, Missing, [CLAIMED, LANDED], map[]),
                   Running(WRITE, AtMark(Missing, [7])), 1)
  }

  const WRITE_EVENTS := [Acquire(0, WriteOp([7]), 1, 0), Works(2), Works(3), Works(4), Works(6), Works(7)]

  lemma ClaimSteps(n: nat)
    requires n < 3
    ensures Enabled(Writing(n), WRITE_EVENTS[n]) && Next(Writing(n), WRITE_EVENTS[n]) == Writing(n + 1)
  {
  }

  lemma LandingSteps(n: nat)
    requires 3 <= n < 6
    ensures Enabled(Writing(n), WRITE_EVENTS[n]) && Next(Writing(n), WRITE_EVENTS[n]) == Writing(n + 1)
  {
    assert [CLAIMED] + [LANDED] == [CLAIMED, LANDED];
  }

  lemma WritingIsReachable(m: nat)
    requires m <= 6
    ensures Run(Start(Missing), WRITE_EVENTS[..m]) && After(Start(Missing), WRITE_EVENTS[..m]) == Writing(m)
  {
    var cells := seq(m + 1, k requires 0 <= k <= m => Writing(k));
    forall k | 0 <= k < m
      ensures Enabled(cells[k], WRITE_EVENTS[..m][k]) && Next(cells[k], WRITE_EVENTS[..m][k]) == cells[k + 1]
    {
      hide Enabled, Next;
      if k < 3 {
        ClaimSteps(k);
      } else {
        LandingSteps(k);
      }
    }
    hide Enabled, Next, Run, After;
    Follow(cells, WRITE_EVENTS[..m]);
  }

  // The windows.

  /**
   Why the window after the rename must be assumed quiet: from a reachable state, another program's write leaves the
   token holding a marker that matches bytes it never obtained.
   */
  lemma WindowBreaksMarkers()
    ensures Run(Start(Missing), WRITE_EVENTS)
    ensures var c := After(Start(Missing), WRITE_EVENTS);
      && c == Writing(6)
      && var d := AfterMark(ExternalChange(c.state, Regular([8], 9)), WRITE, c.proc.pc, Works(10).x).state;
      Fits(d.marks[0].marker, d.node) && d.marks[0].bytes == [7] && d.node.bytes == [8]
  {
    hide Run, After;
    assert WRITE_EVENTS[..6] == WRITE_EVENTS;
    WritingIsReachable(6);
  }

  /** Why the window between claim and rename must be assumed quiet: the rename replaces a file nobody read. */
  lemma WindowLosesAWrite()
    ensures Run(Start(Missing), WRITE_EVENTS[..5])
    ensures var c := After(Start(Missing), WRITE_EVENTS[..5]);
      && c == Writing(5)
      && var d := AfterRename(ExternalChange(c.state, Regular([8], 9)), WRITE, c.proc.pc, Works(10).x).state;
      d.node == Regular([7], 6) && d.history[|d.history| - 1].before == Regular([8], 9) && d.marks == map[]
  {
    hide Run, After;
    WritingIsReachable(5);
  }

  /**
   The window after the rename, exactly: whenever a handler is about to stat what it has published, another program's
   change followed by a successful stat leaves its token's marker sound if and only if nothing is left to match, or a
   file with the very bytes published. Any other file matches a marker of bytes the token never obtained.
   */
  lemma MarkerWindowIsExact(start: Node, es: seq<Event>, node: Node, x: Choice)
    requires RealNode(start) && Run(Start(start), es)
    requires var c := After(Start(start), es);
      c.proc.Running? && c.proc.pc.AtMark? && (node != Missing ==> FreshStamp(c.state, node.mtime))
    requires x.answer.Succeeds?
    ensures var c := After(Start(start), es);
      var d, t := AfterMark(ExternalChange(c.state, node), c.proc.call, c.proc.pc, x).state, c.proc.call.token;
      && t in d.marks && d.marks[t].bytes == c.proc.pc.out && c.state.node.Regular? && c.state.node.bytes == c.proc.pc.out
      && (MarkSound(d, t) <==> node == Missing || (node.Regular? && node.bytes == c.proc.pc.out))
      && (node != Missing ==> Fits(d.marks[t].marker, d.node))
  {
    hide Run, After, Core, Intended, TempsFor;
    Reached(start, es);
  }

  /**
   The window before the rename, exactly: whenever a handler is about to rename, another program's change followed by a
   rename that takes effect is an update lost - the change recorded is one the call had no right to - unless it was a
   removal, met by a write.
   */
  lemma RenameWindowIsExact(start: Node, es: seq<Event>, node: Node, x: Choice)
    requires RealNode(start) && Run(Start(start), es)
    requires var c := After(Start(start), es);
      c.proc.Running? && c.proc.pc.AtRename? && (node != Missing ==> FreshStamp(c.state, node.mtime))
    requires x.answer.Succeeds? || x.answer.FailsApplied?
    ensures var c := After(Start(start), es); c.proc.pc.tmp in c.state.temps
    ensures var c := After(Start(start), es);
      var d := AfterRename(ExternalChange(c.state, node), c.proc.call, c.proc.pc, x).state;
      && d.history != [] && d.history[|d.history| - 1].before == node && d.node.Regular? && d.node.bytes == c.proc.pc.out
      && (Legit(d.history[|d.history| - 1]) <==> node == Missing && c.proc.call.op.WriteOp?)
  {
    hide Run, After, HistoryInv, TempsFor;
    Reached(start, es);
    var c := After(Start(start), es);
    if node != Missing {
      FreshIsUnmarked(c.state, node.mtime);
    }
  }

  // What an error can hide.

  /** A claim that fails after taking effect and is retried meets its own file: never-read error, empty file left. */
  lemma AmbiguousClaimLeavesAnEmptyFile(s: State, call: Call, out: Bytes, x: Choice, y: Choice)
    requires s.node == Missing && x.answer.FailsApplied? && x.retry && y.answer.Succeeds?
    ensures var first := AfterClaim(s, call, out, x);
      && first.pc == AtClaim(out)
      && AfterClaim(first.state, call, out, y) == Move(first.state, Done(Failed(NeverRead)))
      && first.state.node == Regular([], x.stamp)
  {
  }

  const HIDDEN_CLAIM := [Calling(FailsApplied, true, [], 3, 5, 0), Works(4)]

  /** That happens on a run from a missing file, which the failed write leaves there, empty. */
  lemma AmbiguousClaimIsReachable()
    ensures Run(Start(Missing), WRITE_EVENTS[..2] + HIDDEN_CLAIM)
    ensures var c := After(Start(Missing), WRITE_EVENTS[..2] + HIDDEN_CLAIM);
      && c.proc == Running(WRITE, Done(Failed(NeverRead))) && c.state.node == Regular([], 3)
      && Changed(c.state, WRITE) && Tracked(Start(Missing), WRITE_EVENTS[..2] + HIDDEN_CLAIM, false)
  {
    var c := Writing(2);
    WritingIsReachable(2);
    HiddenClaimSteps();
    hide Run, After, Enabled, Next;
    var es, e, f := WRITE_EVENTS[..2], HIDDEN_CLAIM[0], HIDDEN_CLAIM[1];
    RunSnoc(Start(Missing), es, e);
    RunSnoc(Start(Missing), es + [e], f);
    assert es + [e] + [f] == es + HIDDEN_CLAIM;
    FailedCallsRestoreExactly(Missing, es + HIDDEN_CLAIM);
  }

  lemma HiddenClaimSteps()
    ensures var c := Writing(2);
      && Enabled(c, HIDDEN_CLAIM[0])
      && var d := Next(c, HIDDEN_CLAIM[0]);
      && Enabled(d, HIDDEN_CLAIM[1])
      && Next(d, HIDDEN_CLAIM[1]) == Cell(State(Regular([], 3), map[], map[], {1, 2, 3, 4}, Missing, [CLAIMED], map[]),
                                          Running(WRITE, Done(Failed(NeverRead))), 1)
  {
    assert {1, 2} + {3} + {4} == {1, 2, 3, 4};
  }

  // A token reads a file and writes over it; the rename takes effect, reports failure and is not retried.

  const BEFORE := Regular([1], 1)
  const SEEN := map[0 := Mark(Marker(1, 1), [1])]
  const READ := Call(0, 0, ReadOp)
  const OVER := Call(1, 0, WriteOp([8]))
  const REPLACED := Change(By(OVER), BEFORE, BEFORE, Regular([8], 10), Some(Mark(Marker(1, 1), [1])))

  function Overwriting(n: nat): Cell
    requires n <= 12
  {
    match n
    case 0 => Start(BEFORE)
    case 1 => Cell(State(BEFORE, map[], map[], {1, 2}, BEFORE, [], map[]), Running(READ, AtStat), 1)
    case 2 => Cell(State(BEFORE, map[], map[], {1, 2, 3}, BEFORE, [], map[]), Running(READ, AtRead(Marker(1, 1))), 1)
    case 3 => Cell(State(BEFORE, map[], map[], {1, 2, 3, 4}, BEFORE, [], map[]), Running(READ, Snapped(Marker(1, 1), [1])), 1)
    case 4 => Cell(State(BEFORE, map[], SEEN, {1, 2, 3, 4, 5}, BEFORE, [], map[]), Running(READ, Done(ReadDone([1]))), 1)
    case 5 => Cell(State(BEFORE, map[], SEEN, {1, 2, 3, 4, 5}, BEFORE, [], map[]), Idle, 1)
    case 6 => Cell(State(BEFORE, map[], SEEN, {1, 2, 3, 4, 5, 6}, BEFORE, [], map[]), Running(OVER, AtStat), 2)
    case 7 => Cell(State(BEFORE, map[], SEEN, {1, 2, 3, 4, 5, 6, 7}, BEFORE, [], map[]),
                   Running(OVER, AtRestat(Marker(1, 1), [1], [8])), 2)
    case 8 => Cell(State(BEFORE, map[], SEEN, {1, 2, 3, 4, 5, 6, 7, 8}, BEFORE, [], map[]),
                   Running(OVER, AtTemp(BEFORE, [8])), 2)
    case 9 => Cell(State(BEFORE, map[5 := Temp([], 9)], SEEN, {1, 2, 3, 4, 5, 6, 7, 8, 9}, BEFORE, [], map[]),
                   Running(OVER, AtTempWrite(BEFORE, [8], 5)), 2)
    case 10 => Cell(State(BEFORE, map[5 := Temp([8], 10)], SEEN, {1, 2, 3, 4, 5, 6, 7, 8, 9, 10}, BEFORE, [], map[]),
                    Running(OVER, AtRename(BEFORE, [8], 5)), 2)
    case 11 => Cell(State(Regular([8], 10), map[], SEEN, {1, 2, 3, 4, 5, 6, 7, 8, 9, 10, 11}, BEFORE, [REPLACED], map[]),
                    Running(OVER, AtTempDrop(BEFORE, [8], 5)), 2)
    case 12 => Cell(State(Regular([8], 10), map[], SEEN, {1, 2, 3, 4, 5, 6, 7, 8, 9, 10, 11, 12}, BEFORE, [REPLACED], map[]),
                    Running(OVER, Done(Failed(FsError))), 2)
  }

  const OVERWRITE := [
    Acquire(0, ReadOp, 2, 0), Works(3), Calling(Succeeds, false, [1], 4, 5, 0), Works(5), Release,
    Acquire(0, WriteOp([8]), 6, 0), Works(7), Works(8), Works(9), Works(10),
    Calling(FailsApplied, false, [], 11, 5, 0), Works(12)]

  lemma OverwriteSteps(n: nat)
    requires n < 12
    ensures Enabled(Overwriting(n), OVERWRITE[n]) && Next(Overwriting(n), OVERWRITE[n]) == Overwriting(n + 1)
  {
    hide Intended;
    if n < 3 {
      FirstOverwriteSteps(n);
    } else if n < 6 {
      NextOverwriteSteps(n);
    } else if n < 9 {
      LaterOverwriteSteps(n);
    } else if n < 11 {
      LastOverwriteSteps(n);
    } else {
      OverwriteFails();
    }
  }

  lemma FirstOverwriteSteps(n: nat)
    requires n < 3
    ensures Enabled(Overwriting(n), OVERWRITE[n]) && Next(Overwriting(n), OVERWRITE[n]) == Overwriting(n + 1)
  {
  }

  lemma NextOverwriteSteps(n: nat)
    requires 3 <= n < 6
    ensures Enabled(Overwriting(n), OVERWRITE[n]) && Next(Overwriting(n), OVERWRITE[n]) == Overwriting(n + 1)
  {
  }

  lemma LaterOverwriteSteps(n: nat)
    requires 6 <= n < 9
    ensures Enabled(Overwriting(n), OVERWRITE[n]) && Next(Overwriting(n), OVERWRITE[n]) == Overwriting(n + 1)
  {
  }

  lemma OverwriteFails()
    ensures Enabled(Overwriting(11), OVERWRITE[11]) && Next(Overwriting(11), OVERWRITE[11]) == Overwriting(12)
  {
  }

  lemma LastOverwriteSteps(n: nat)
    requires 9 <= n < 11
    ensures Enabled(Overwriting(n), OVERWRITE[n]) && Next(Overwriting(n), OVERWRITE[n]) == Overwriting(n + 1)
  {
  }

  lemma OverwritingIsReachable()
    ensures Run(Overwriting(0), OVERWRITE) && After(Overwriting(0), OVERWRITE) == Overwriting(12)
  {
    hide Enabled, Next, Run, After, Overwriting;
    var cells := seq(13, k requires 0 <= k <= 12 => Overwriting(k));
    forall k | 0 <= k < 12 ensures Enabled(cells[k], OVERWRITE[k]) && Next(cells[k], OVERWRITE[k]) == cells[k + 1] {
      OverwriteSteps(k);
    }
    Follow(cells, OVERWRITE);
  }

  lemma OverwritingEnds()
    ensures Overwriting(0) == Start(BEFORE)
    ensures Overwriting(12).proc == Running(OVER, Done(Failed(FsError))) && Overwriting(12).state.node == Regular([8], 10)
    ensures Changed(Overwriting(12).state, OVER)
  {
  }

  /** So a write can answer a file system error over a file that already shows its whole new content. */
  lemma AmbiguousRenameIsReachable()
    ensures Run(Start(BEFORE), OVERWRITE)
    ensures var c := After(Start(BEFORE), OVERWRITE);
      && c.proc == Running(OVER, Done(Failed(FsError))) && c.state.node == Regular([8], 10)
      && Changed(c.state, OVER) && Tracked(Start(BEFORE), OVERWRITE, false)
  {
    hide Enabled, Next, Run, After, Overwriting, Changed, Tracked;
    OverwritingIsReachable();
    OverwritingEnds();
    FailedCallsRestoreExactly(BEFORE, OVERWRITE);
  }

  /** A rename that fails after taking effect and is retried starts over with a new temporary file, its content shown. */
  lemma AmbiguousRenamePublishesTwice(s: State, call: Call, pc: Pc, x: Choice, drop: Choice)
    requires Held(Move(s, pc), call) && pc.AtRename? && x.answer.FailsApplied? && drop.retry
    ensures pc.tmp in s.temps
    ensures var m := AfterRename(s, call, pc, x);
      && m.pc.AtTempDrop?
      && AfterTempDrop(m.state, call, m.pc, drop).pc == AtTemp(pc.base, pc.out)
      && m.state.node.Regular? && m.state.node.bytes == pc.out
  {
    hide StampsInv, MarksInv, HistoryInv, TempsFor, Intended, Based, Landing, Capped, Seen, SeenBytes, Staged;
  }

  // An upload whose exclusive copy takes effect, reports failure and is retried.

  /** It finds its own empty file, which it takes for somebody else's content, and leaves it there. */
  lemma AmbiguousCopyLeavesAnEmptyFile(s: State, call: Call, tmp: TempName, xs: seq<Choice>)
    requires call.op.UploadOp? && call.op.image != [] && s.node == Missing
    requires |xs| == 4 && xs[0].answer.FailsApplied? && xs[0].retry && forall i :: 1 <= i < 4 ==> xs[i].answer.Succeeds?
    requires xs[2].data == []
    ensures var made := AfterDegrade(s, call, tmp, xs[0]);
      && made.state.node == Regular([], xs[0].stamp)
      && made.pc == AtLstat(tmp)
      && var found := AfterLstat(made.state, call, tmp, false, xs[1]);
      && found == Move(made.state, AtCompare(tmp, Marker(0, xs[0].stamp)))
      && var read := AfterCompare(found.state, call, found.pc, xs[2]);
      && read.pc.AtAfter?
      && AfterAfter(read.state, call, read.pc, xs[3]) == Move(made.state, AtCleanup(tmp, ExistsConflict))
  {
    assert forall i :: 1 <= i < 4 ==> xs[i].answer.Succeeds?;
    assert xs[1].answer.Succeeds? && xs[2].answer.Succeeds? && xs[3].answer.Succeeds?;
  }

  const COPY := Call(0, 0, UploadOp([7]))
  const IMAGE := map[5 := Temp([7], 1)]
  const CREATED := Change(By(COPY), Missing, Missing, Regular([], 5), None)

  function Uploading(n: nat): Cell
    requires n <= 9
  {
    match n
    case 0 => Start(Missing)
    case 1 => Cell(State(Missing, IMAGE, map[], {1}, Missing, [], map[]), Running(COPY, AtLstat(5)), 1)
    case 2 => Cell(State(Missing, IMAGE, map[], {1, 2}, Missing, [], map[]), Running(COPY, AtTempCheck(5)), 1)
    case 3 => Cell(State(Missing, IMAGE, map[], {1, 2, 3}, Missing, [], map[]), Running(COPY, AtLink(5)), 1)
    case 4 => Cell(State(Missing, IMAGE, map[], {1, 2, 3, 4}, Missing, [], map[]), Running(COPY, AtDegrade(5)), 1)
    case 5 => Cell(State(Regular([], 5), IMAGE, map[], {1, 2, 3, 4, 5}, Missing, [CREATED], map[]),
                   Running(COPY, AtLstat(5)), 1)
    case 6 => Cell(State(Regular([], 5), IMAGE, map[], {1, 2, 3, 4, 5, 6}, Missing, [CREATED], map[]),
                   Running(COPY, AtCompare(5, Marker(0, 5))), 1)
    case 7 => Cell(State(Regular([], 5), IMAGE, map[], {1, 2, 3, 4, 5, 6, 7}, Missing, [CREATED], map[]),
                   Running(COPY, AtAfter(5, Marker(0, 5), [])), 1)
    case 8 => Cell(State(Regular([], 5), IMAGE, map[], {1, 2, 3, 4, 5, 6, 7, 8}, Missing, [CREATED], map[]),
                   Running(COPY, AtCleanup(5, ExistsConflict)), 1)
    case 9 => Cell(State(Regular([], 5), map[], map[], {1, 2, 3, 4, 5, 6, 7, 8, 9}, Missing, [CREATED], map[]),
                   Running(COPY, Done(Failed(ExistsConflict))), 1)
  }

  const UPLOAD := [
    Acquire(0, UploadOp([7]), 1, 5), Works(2), Works(3), Calling(Refused, false, [], 4, 5, 0),
    Calling(FailsApplied, true, [], 5, 5, 0), Works(6), Works(7), Works(8), Works(9)]

  lemma UploadSteps(n: nat)
    requires n < 9
    ensures Enabled(Uploading(n), UPLOAD[n]) && Next(Uploading(n), UPLOAD[n]) == Uploading(n + 1)
  {
    if n < 3 {
      FirstUploadSteps(n);
    } else if n < 5 {
      NextUploadSteps(n);
    } else if n == 5 {
      FoundUploadStep();
    } else {
      LastUploadSteps(n);
    }
  }

  lemma FirstUploadSteps(n: nat)
    requires n < 3
    ensures Enabled(Uploading(n), UPLOAD[n]) && Next(Uploading(n), UPLOAD[n]) == Uploading(n + 1)
  {
  }

  lemma FoundUploadStep()
    ensures Enabled(Uploading(5), UPLOAD[5]) && Next(Uploading(5), UPLOAD[5]) == Uploading(6)
  {
  }

  lemma NextUploadSteps(n: nat)
    requires 3 <= n < 5
    ensures Enabled(Uploading(n), UPLOAD[n]) && Next(Uploading(n), UPLOAD[n]) == Uploading(n + 1)
  {
  }

  lemma LastUploadSteps(n: nat)
    requires 6 <= n < 9
    ensures Enabled(Uploading(n), UPLOAD[n]) && Next(Uploading(n), UPLOAD[n]) == Uploading(n + 1)
  {
  }

  lemma UploadingIsReachable()
    ensures Run(Uploading(0), UPLOAD) && After(Uploading(0), UPLOAD) == Uploading(9)
  {
    hide Enabled, Next, Run, After, Uploading;
    var cells := seq(10, k requires 0 <= k <= 9 => Uploading(k));
    forall k | 0 <= k < 9 ensures Enabled(cells[k], UPLOAD[k]) && Next(cells[k], UPLOAD[k]) == cells[k + 1] {
      UploadSteps(k);
    }
    Follow(cells, UPLOAD);
  }

  lemma UploadingEnds()
    ensures Uploading(0) == Start(Missing)
    ensures Uploading(9).proc == Running(COPY, Done(Failed(ExistsConflict))) && Uploading(9).state.node == Regular([], 5)
    ensures Changed(Uploading(9).state, COPY)
  {
  }

  /** So an upload can report a conflict with a file that only it has made. */
  lemma AmbiguousCopyIsReachable()
    ensures Run(Start(Missing), UPLOAD)
    ensures var c := After(Start(Missing), UPLOAD);
      && c.proc == Running(COPY, Done(Failed(ExistsConflict))) && c.state.node == Regular([], 5)
      && Changed(c.state, COPY) && Tracked(Start(Missing), UPLOAD, false)
  {
    hide Enabled, Next, Run, After, Uploading, Changed, Tracked;
    UploadingIsReachable();
    UploadingEnds();
    FailedCallsRestoreExactly(Missing, UPLOAD);
  }

  // Temp files that stay.

  const SHOWN := Regular([7], 1)
  const SKIP := [
    Acquire(0, UploadOp([7]), 2, 5), Works(3), Calling(Succeeds, false, [7], 4, 5, 0), Works(5), Release]

  /** An upload of what the path already shows. */
  function Skipping(n: nat): Cell
    requires n <= 5
  {
    match n
    case 0 => Start(SHOWN)
    case 1 => Cell(State(SHOWN, map[5 := Temp([7], 2)], map[], {1, 2}, SHOWN, [], map[]), Running(COPY, AtLstat(5)), 1)
    case 2 => Cell(State(SHOWN, map[5 := Temp([7], 2)], map[], {1, 2, 3}, SHOWN, [], map[]),
                   Running(COPY, AtCompare(5, Marker(1, 1))), 1)
    case 3 => Cell(State(SHOWN, map[5 := Temp([7], 2)], map[], {1, 2, 3, 4}, SHOWN, [], map[]),
                   Running(COPY, AtAfter(5, Marker(1, 1), [7])), 1)
    case 4 => Cell(State(SHOWN, map[5 := Temp([7], 2)], map[], {1, 2, 3, 4, 5}, SHOWN, [], map[5 := SkippedUpload]),
                   Running(COPY, Done(Skipped)), 1)
    case 5 => Cell(State(SHOWN, map[5 := Temp([7], 2)], map[], {1, 2, 3, 4, 5}, SHOWN, [], map[5 := SkippedUpload]), Idle, 1)
  }

  lemma SkipSteps(n: nat)
    requires n < 5
    ensures Enabled(Skipping(n), SKIP[n]) && Next(Skipping(n), SKIP[n]) == Skipping(n + 1)
  {
  }

  lemma SkippingIsReachable()
    ensures Run(Skipping(0), SKIP) && After(Skipping(0), SKIP) == Skipping(5)
  {
    hide Enabled, Next, Run, After, Skipping;
    var cells := seq(6, k requires 0 <= k <= 5 => Skipping(k));
    forall k | 0 <= k < 5 ensures Enabled(cells[k], SKIP[k]) && Next(cells[k], SKIP[k]) == cells[k + 1] {
      SkipSteps(k);
    }
    Follow(cells, SKIP);
  }

  lemma SkippingEnds()
    ensures Skipping(0) == Start(SHOWN)
    ensures Skipping(5).proc.Idle? && Skipping(5).state.temps == map[5 := Temp([7], 2)] && Skipping(5).state.node == SHOWN
  {
  }

  /** A skipped upload succeeds, is over, and its temp file lies beside the path for good. */
  lemma SkippedUploadLeavesItsTemp()
    ensures Run(Start(SHOWN), SKIP)
    ensures var c := After(Start(SHOWN), SKIP);
      && c.proc.Idle? && c.state.node == SHOWN && c.state.temps == map[5 := Temp([7], 2)]
      && !Neat(Start(SHOWN), SKIP)
  {
    hide Enabled, Next, Run, After, Skipping, Neat;
    SkippingIsReachable();
    SkippingEnds();
    CleanIffNeat(SHOWN, SKIP);
    assert 5 in After(Start(SHOWN), SKIP).state.temps;
  }

  /** The write above, from its rename on: the rename fails, and so does the removal of the temp file. */
  const FAIL := [
    Calling(FailsClean, false, [], 7, 5, 0), Calling(FailsClean, false, [], 8, 5, 0), Works(9), Release]

  const UNCLAIMED := Change(By(WRITE), Missing, Regular([], 3), Missing, None)

  function Failing(n: nat): Cell
    requires n <= 4
  {
    match n
    case 0 => Writing(5)
    case 1 => Cell(State(Regular([], 3), map[5 := Temp([7], 6)], map[], {1, 2, 3, 4, 6, 7}, Missing, [CLAIMED], map[]),
                   Running(WRITE, AtTempDrop(Missing, [7], 5)), 1)
    case 2 => Cell(State(Regular([], 3), map[5 := Temp([7], 6)], map[], {1, 2, 3, 4, 6, 7, 8}, Missing, [CLAIMED],
                         map[5 := RemovalFailed]),
                   Running(WRITE, AtUnclaim([7])), 1)
    case 3 => Cell(State(Missing, map[5 := Temp([7], 6)], map[], {1, 2, 3, 4, 6, 7, 8, 9}, Missing, [CLAIMED, UNCLAIMED],
                         map[5 := RemovalFailed]),
                   Running(WRITE, Done(Failed(FsError))), 1)
    case 4 => Cell(State(Missing, map[5 := Temp([7], 6)], map[], {1, 2, 3, 4, 6, 7, 8, 9}, Missing, [CLAIMED, UNCLAIMED],
                         map[5 := RemovalFailed]),
                   Idle, 1)
  }

  lemma FailSteps(n: nat)
    requires n < 4
    ensures Enabled(Failing(n), FAIL[n]) && Next(Failing(n), FAIL[n]) == Failing(n + 1)
  {
    assert [CLAIMED] + [UNCLAIMED] == [CLAIMED, UNCLAIMED];
  }

  lemma FailingIsReachable()
    ensures Run(Failing(0), FAIL) && After(Failing(0), FAIL) == Failing(4)
  {
    hide Enabled, Next, Run, After, Failing;
    var cells := seq(5, k requires 0 <= k <= 4 => Failing(k));
    forall k | 0 <= k < 4 ensures Enabled(cells[k], FAIL[k]) && Next(cells[k], FAIL[k]) == cells[k + 1] {
      FailSteps(k);
    }
    Follow(cells, FAIL);
  }

  lemma FailingEnds()
    ensures Failing(0) == Writing(5)
    ensures Failing(4).proc.Idle? && Failing(4).state.temps == map[5 := Temp([7], 6)] && Failing(4).state.node == Missing
  {
  }

  /** A failed write takes its claim back, and still leaves its temp file for good if that could not be removed. */
  lemma FailedWriteLeavesItsTemp()
    ensures Run(Start(Missing), WRITE_EVENTS[..5] + FAIL)
    ensures var c := After(Start(Missing), WRITE_EVENTS[..5] + FAIL);
      && c.proc.Idle? && c.state.node == Missing && c.state.temps == map[5 := Temp([7], 6)]
      && !Neat(Start(Missing), WRITE_EVENTS[..5] + FAIL)
  {
    hide Enabled, Next, Run, After, Failing, Writing, Neat;
    WritingIsReachable(5);
    FailingIsReachable();
    FailingEnds();
    RunAppend(Start(Missing), WRITE_EVENTS[..5], FAIL);
    CleanIffNeat(Missing, WRITE_EVENTS[..5] + FAIL);
    assert 5 in After(Start(Missing), WRITE_EVENTS[..5] + FAIL).state.temps;
  }

  lemma {:induction false} RunAppend(c: Cell, es: seq<Event>, fs: seq<Event>)
    requires Run(c, es) && Run(After(c, es), fs)
    ensures Run(c, es + fs) && After(c, es + fs) == After(After(c, es), fs)
    decreases |es|
  {
    hide Enabled, Next;
    if es == [] {
      assert es + fs == fs;
    } else {
      assert (es + fs)[0] == es[0] && (es + fs)[1..] == es[1..] + fs;
      RunAppend(Next(c, es[0]), es[1..], fs);
    }
  }
}
