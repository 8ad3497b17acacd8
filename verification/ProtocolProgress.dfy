/**
 That calls get through. A call during which no other program writes the path, and whose file system calls succeed, if
 need be after retries, gives exactly the answer that the path and the token's marker call for when it begins.
 */
module ProtocolProgress {
  import opened Wrappers
  import opened ByteSearch
  import opened EditEngine
  import opened Protocol
  import opened ProtocolInvariant
  import opened ProtocolTheorems

  // What is due, from what the path shows and the markers at the start.

  /** What a text call makes of a file's content, in the engine's terms. */
  function NewContent(op: Op, bytes: Bytes): Result<Bytes, EditError> {
    match op
    case EditOp(e) =>
      var r := Outcome(bytes, e);
      if r.Ok? then Ok(r.value.content) else Err(r.error)
    case MultiEditOp(edits) => OutcomeMany(bytes, edits, 1)
    case WriteOp(content) => Ok(content)
    case _ => Ok(bytes)
  }

  /** The token holds a marker that fits what the path shows. */
  predicate Knows(marks: map<Token, Mark>, t: Token, node: Node) {
    t in marks && Fits(marks[t].marker, node)
  }

  /** A text call may put this in place of what the path shows. */
  predicate MayWrite(node: Node, marks: map<Token, Mark>, call: Call, out: Bytes) {
    if node == Missing then call.op == WriteOp(out)
    else node.Regular? && IsText(call.op) && Knows(marks, call.token, node) && NewContent(call.op, node.bytes) == Ok(out)
  }

  /** The call has published `out`, and its token's marker says so. */
  predicate HasWritten(s: State, call: Call, out: Bytes) {
    && s.node.Regular? && s.node.bytes == out
    && call.token in s.marks && s.marks[call.token] == Mark(MarkerOf(s.node), out)
  }

  predicate TextEnds(node: Node, marks: map<Token, Mark>, call: Call, s: State, r: Reply) {
    var same := s.node == node && s.marks == marks;
    match node
    case Missing =>
      if call.op.WriteOp? then r == WriteDone && HasWritten(s, call, call.op.content)
      else r == Failed(NotExist) && same
    case Directory(_, _) => r == Failed(IsDir) && same
    case Regular(bytes, _) =>
      if call.op.ReadOp?
      then r == ReadDone(bytes) && s.node == node && s.marks == marks[call.token := Mark(MarkerOf(node), bytes)]
      else if call.token !in marks then r == Failed(NeverRead) && same
      else if !Knows(marks, call.token, node) then r == Failed(Stale) && same
      else if NewContent(call.op, bytes).Err? then r == Failed(EditFails(NewContent(call.op, bytes).error)) && same
      else r == WriteDone && HasWritten(s, call, NewContent(call.op, bytes).value)
  }

  predicate UploadEnds(node: Node, marks: map<Token, Mark>, call: Call, s: State, r: Reply)
    requires call.op.UploadOp?
  {
    var same := s.node == node && s.marks == marks;
    match node
    case Missing =>
      r.Created? && s.node.Regular? && s.node.bytes == call.op.image && s.marks == marks - {call.token}
    case Directory(_, _) => r == Failed(IsDir) && same
    case Regular(bytes, _) => r == (if bytes == call.op.image then Skipped else Failed(ExistsConflict)) && same
  }

  // The calls in question.

  /**
   The call succeeds, or fails cleanly and is retried; a rename's failure may go on to a new attempt, a link may be
   refused for good, a partial copy is removed before the next attempt, and the check of the temp file has one try.
   */
  predicate Smooth(pc: Pc, x: Choice) {
    || pc.Snapped?
    || (pc.AtLink? && x.answer.Refused?)
    || (if pc.AtTempDrop? then x.retry
        else if pc.AtCopyDrop? then x.answer.Succeeds? && x.retry
        else if pc.AtTempCheck? then x.answer.Succeeds?
        else x.answer.Succeeds? || (x.answer.FailsClean? && x.retry))
  }

  /** Only such calls, and no change by another program. */
  ghost predicate Quiet(c: Cell, es: seq<Event>)
    requires Run(c, es)
    decreases |es|
  {
    es == [] || (es[0].Step? && Smooth(c.proc.pc, es[0].x) && Quiet(Next(c, es[0]), es[1..]))
  }

  // Where such a call is, at every program point.

  predicate TextTrack(node: Node, marks: map<Token, Mark>, call: Call, s: State, pc: Pc) {
    && !call.op.UploadOp? && !pc.AtUnclaim? && !Uploading(pc)
    && (!pc.Done? ==> s.marks == marks)
    && (pc.AtStat? || pc.AtRead? || pc.Snapped? || pc.AtRestat? || pc.AtClaim? ==> s.node == node)
    && (pc.AtRead? || pc.Snapped? ==> !call.op.WriteOp?)
    && (pc.AtRead? || pc.Snapped? || pc.AtRestat? ==> node.Regular? && pc.st == MarkerOf(node))
    && (pc.Snapped? ==> pc.data == node.bytes)
    && (pc.AtRestat? ==> MayWrite(node, marks, call, pc.out))
    && (pc.AtClaim? ==> node == Missing && call.op == WriteOp(pc.out))
    && (pc.AtTemp? || pc.AtTempWrite? || pc.AtRename? || pc.AtTempDrop? ==>
          && pc.base == node && MayWrite(node, marks, call, pc.out)
          && if node == Missing then s.node.Regular? && s.node.bytes == [] else s.node == node)
    && (pc.AtRename? ==> pc.tmp in s.temps && s.temps[pc.tmp].bytes == pc.out)
    && (pc.AtMark? ==> MayWrite(node, marks, call, pc.out) && s.node.Regular? && s.node.bytes == pc.out)
    && (pc.Done? ==> TextEnds(node, marks, call, s, pc.reply))
  }

  predicate Uploading(pc: Pc) {
    Staging(pc) || pc.AtPublished? || pc.AtCleanup?
  }

  predicate UploadTrack(node: Node, marks: map<Token, Mark>, call: Call, s: State, pc: Pc) {
    && call.op.UploadOp? && (Uploading(pc) || pc.Done?) && !pc.AtRaced?
    && (!pc.Done? ==> s.marks == marks)
    && (pc.AtLstat? || pc.AtCompare? || pc.AtAfter? || pc.AtCleanup? ==> s.node == node)
    && (pc.AtCompare? || pc.AtAfter? ==> node.Regular? && pc.st == MarkerOf(node))
    && (pc.AtAfter? ==> pc.data == Capped(node.bytes) && |pc.data| <= MAX_IMAGE_BYTES)
    && (pc.AtTempCheck? || pc.AtLink? || pc.AtDegrade? ==> node == Missing == s.node)
    && (pc.AtCopy? || pc.AtCopyDrop? || pc.AtPublished? ==> node == Missing)
    && (pc.AtPublished? ==> s.node.Regular? && s.node.bytes == call.op.image)
    && (pc.AtCleanup? ==>
          || (node.Directory? && pc.why == IsDir)
          || (node.Regular? && node.bytes != call.op.image && pc.why == ExistsConflict))
    && (pc.Done? ==> UploadEnds(node, marks, call, s, pc.reply))
  }

  predicate Track(node: Node, marks: map<Token, Mark>, call: Call, s: State, pc: Pc) {
    if call.op.UploadOp? then UploadTrack(node, marks, call, s, pc) else TextTrack(node, marks, call, s, pc)
  }

  lemma NewContentIsIntended(op: Op, bytes: Bytes)
    requires IsText(op)
    ensures NewContent(op, bytes) == Intended(op, bytes)
  {
    hide Outcome, OutcomeMany;
  }

  lemma ReadStays(node: Node, marks: map<Token, Mark>, call: Call, s: State, pc: Pc, x: Choice)
    requires TextTrack(node, marks, call, s, pc) && (pc.AtStat? || pc.AtRead? || pc.Snapped? || pc.AtRestat?)
    requires CanStep(s, pc, x) && Smooth(pc, x)
    ensures var m := AfterStep(Mint(s, x.stamp), call, pc, x); TextTrack(node, marks, call, m.state, m.pc)
  {
    hide NewContent, Intended;
    if pc.Snapped? && IsText(call.op) {
      NewContentIsIntended(call.op, pc.data);
    }
    if pc.AtStat? && call.op.WriteOp? && node.Regular? {
      NewContentIsIntended(call.op, node.bytes);
      WriteIntends(call.op, node.bytes);
    }
  }

  lemma WriteIntends(op: Op, bytes: Bytes)
    requires op.WriteOp?
    ensures Intended(op, bytes) == Ok(op.content)
  {
  }

  lemma ClaimStays(node: Node, marks: map<Token, Mark>, call: Call, s: State, pc: Pc, x: Choice)
    requires TextTrack(node, marks, call, s, pc) && pc.AtClaim? && Smooth(pc, x)
    ensures var m := AfterStep(s, call, pc, x); TextTrack(node, marks, call, m.state, m.pc)
  {
    hide NewContent, Knows;
  }

  lemma TempStays(node: Node, marks: map<Token, Mark>, call: Call, s: State, pc: Pc, x: Choice)
    requires TextTrack(node, marks, call, s, pc) && (pc.AtTemp? || pc.AtTempWrite? || pc.AtTempDrop?) && Smooth(pc, x)
    ensures var m := AfterStep(s, call, pc, x); TextTrack(node, marks, call, m.state, m.pc)
  {
    hide MayWrite;
  }

  lemma RenameStays(node: Node, marks: map<Token, Mark>, call: Call, s: State, pc: Pc, x: Choice)
    requires TextTrack(node, marks, call, s, pc) && pc.AtRename? && Smooth(pc, x)
    ensures var m := AfterStep(s, call, pc, x); TextTrack(node, marks, call, m.state, m.pc)
  {
    hide MayWrite;
  }

  lemma MarkStays(node: Node, marks: map<Token, Mark>, call: Call, s: State, pc: Pc, x: Choice)
    requires TextTrack(node, marks, call, s, pc) && pc.AtMark? && Smooth(pc, x)
    ensures var m := AfterStep(s, call, pc, x); TextTrack(node, marks, call, m.state, m.pc)
  {
    hide NewContent;
    if x.answer.Succeeds? {
      WrittenEnds(node, marks, call, AfterStep(s, call, pc, x).state, pc.out);
    }
  }

  lemma WrittenEnds(node: Node, marks: map<Token, Mark>, call: Call, s: State, out: Bytes)
    requires MayWrite(node, marks, call, out) && HasWritten(s, call, out)
    ensures TextEnds(node, marks, call, s, WriteDone)
  {
    hide HasWritten, Outcome, OutcomeMany;
  }

  lemma CompareStays(node: Node, marks: map<Token, Mark>, call: Call, s: State, pc: Pc, x: Choice)
    requires UploadTrack(node, marks, call, s, pc) && (pc.AtLstat? || pc.AtCompare? || pc.AtAfter?)
    requires |call.op.image| <= MAX_IMAGE_BYTES && CanStep(s, pc, x) && Smooth(pc, x)
    ensures var m := AfterStep(Mint(s, x.stamp), call, pc, x); UploadTrack(node, marks, call, m.state, m.pc)
  {
  }

  lemma LinkStays(node: Node, marks: map<Token, Mark>, call: Call, s: State, pc: Pc, x: Choice)
    requires UploadTrack(node, marks, call, s, pc) && (pc.AtTempCheck? || pc.AtLink? || pc.AtDegrade?)
    requires pc.tmp in s.temps && s.temps[pc.tmp].bytes == call.op.image && Smooth(pc, x)
    ensures Ready(s, call, pc)
    ensures var m := AfterStep(s, call, pc, x); UploadTrack(node, marks, call, m.state, m.pc)
  {
    hide Capped;
  }

  lemma CopyStays(node: Node, marks: map<Token, Mark>, call: Call, s: State, pc: Pc, x: Choice)
    requires UploadTrack(node, marks, call, s, pc) && (pc.AtCopy? || pc.AtCopyDrop?)
    requires pc.tmp in s.temps && s.temps[pc.tmp].bytes == call.op.image && Smooth(pc, x)
    requires pc.AtCopy? ==> pc.n <= |call.op.image| && s.node.Regular? && s.node.bytes == call.op.image[..pc.n]
    ensures Ready(s, call, pc)
    ensures var m := AfterStep(s, call, pc, x); UploadTrack(node, marks, call, m.state, m.pc)
  {
    hide Capped;
    assert call.op.image[..|call.op.image|] == call.op.image;
  }

  lemma EndStays(node: Node, marks: map<Token, Mark>, call: Call, s: State, pc: Pc, x: Choice)
    requires UploadTrack(node, marks, call, s, pc) && (pc.AtPublished? || pc.AtCleanup?)
    ensures var m := AfterStep(s, call, pc, x); UploadTrack(node, marks, call, m.state, m.pc)
  {
  }

  lemma TextStays(node: Node, marks: map<Token, Mark>, call: Call, s: State, pc: Pc, x: Choice)
    requires TextTrack(node, marks, call, s, pc) && Ready(s, call, pc) && CanStep(s, pc, x) && Smooth(pc, x)
    ensures var m := AfterStep(Mint(s, x.stamp), call, pc, x); TextTrack(node, marks, call, m.state, m.pc)
  {
    var t := Mint(s, x.stamp);
    assert TextTrack(node, marks, call, t, pc) by { hide MayWrite, Knows, NewContent; }
    assert !pc.AtUnclaim? && !Uploading(pc);
    hide TextTrack, AfterStep, CanStep, Smooth;
    match pc
    case AtClaim(_) => ClaimStays(node, marks, call, t, pc, x);
    case AtTemp(_, _) => TempStays(node, marks, call, t, pc, x);
    case AtTempWrite(_, _, _) => TempStays(node, marks, call, t, pc, x);
    case AtTempDrop(_, _, _) => TempStays(node, marks, call, t, pc, x);
    case AtRename(_, _, _) => RenameStays(node, marks, call, t, pc, x);
    case AtMark(_, _) => MarkStays(node, marks, call, t, pc, x);
    case _ => ReadStays(node, marks, call, s, pc, x);
  }

  lemma UploadStays(node: Node, marks: map<Token, Mark>, call: Call, s: State, pc: Pc, x: Choice)
    requires UploadTrack(node, marks, call, s, pc) && Held(Move(s, pc), call)
    requires Ready(s, call, pc) && CanStep(s, pc, x) && Smooth(pc, x)
    ensures var m := AfterStep(Mint(s, x.stamp), call, pc, x); UploadTrack(node, marks, call, m.state, m.pc)
  {
    var t := Mint(s, x.stamp);
    assert UploadTrack(node, marks, call, t, pc) && Uploading(pc) && !pc.AtRaced?;
    assert Staging(pc) ==> Staged(s, call, pc.tmp);
    assert pc.AtCopy? ==> pc.n <= |call.op.image| && s.node.Regular? && s.node.bytes == call.op.image[..pc.n];
    hide UploadTrack, AfterStep, CanStep, Smooth, Held;
    if pc.AtLstat? || pc.AtCompare? || pc.AtAfter? {
      CompareStays(node, marks, call, s, pc, x);
    } else if pc.AtTempCheck? || pc.AtLink? || pc.AtDegrade? {
      LinkStays(node, marks, call, t, pc, x);
    } else if pc.AtCopy? || pc.AtCopyDrop? {
      CopyStays(node, marks, call, t, pc, x);
    } else {
      EndStays(node, marks, call, t, pc, x);
    }
  }

  /** On track, step by step. */
  lemma StepStays(node: Node, marks: map<Token, Mark>, c: Cell, x: Choice)
    requires Inv(c) && c.proc.Running? && Enabled(c, Step(x)) && Smooth(c.proc.pc, x)
    requires Track(node, marks, c.proc.call, c.state, c.proc.pc)
    ensures var d := Next(c, Step(x));
      d.proc.Running? && d.proc.call == c.proc.call && Track(node, marks, d.proc.call, d.state, d.proc.pc)
  {
    hide Core, TempsFor, PcInv, AfterStep, UploadTrack, TextTrack, Smooth, CanStep, Ready;
    if c.proc.call.op.UploadOp? {
      UploadStays(node, marks, c.proc.call, c.state, c.proc.pc, x);
    } else {
      TextStays(node, marks, c.proc.call, c.state, c.proc.pc, x);
    }
  }

  lemma {:induction false} QuietStays(node: Node, marks: map<Token, Mark>, c: Cell, es: seq<Event>)
    requires Inv(c) && c.proc.Running? && Run(c, es) && Quiet(c, es)
    requires Track(node, marks, c.proc.call, c.state, c.proc.pc)
    ensures var d := After(c, es);
      d.proc.Running? && d.proc.call == c.proc.call && Track(node, marks, d.proc.call, d.state, d.proc.pc)
    decreases |es|
  {
    hide Inv, Enabled, Next, Track, Smooth;
    if es != [] {
      StepStays(node, marks, c, es[0].x);
      NextKeeps(c, es[0]);
      QuietStays(node, marks, Next(c, es[0]), es[1..]);
    }
  }

  lemma StartsOnTrack(c: Cell, e: Event)
    requires Inv(c) && c.proc.Idle? && e.Acquire? && Enabled(c, e)
    ensures var d := Next(c, e);
      && d.proc.Running? && d.proc.call == Call(c.calls, e.token, e.op)
      && Track(c.state.node, c.state.marks, d.proc.call, d.state, d.proc.pc)
  {
    hide MayWrite, Core;
  }

  /** Every quiet call, in whatever state it finds the path, ends as that state calls for. */
  lemma QuietCallEnds(c: Cell, e: Event, es: seq<Event>)
    requires Inv(c) && c.proc.Idle? && e.Acquire? && Enabled(c, e) && Run(Next(c, e), es) && Quiet(Next(c, e), es)
    ensures var d, call := After(Next(c, e), es), Call(c.calls, e.token, e.op);
      && d.proc.Running? && d.proc.call == call
      && (d.proc.pc.Done? ==>
            if e.op.UploadOp? then UploadEnds(c.state.node, c.state.marks, call, d.state, d.proc.pc.reply)
            else TextEnds(c.state.node, c.state.marks, call, d.state, d.proc.pc.reply))
  {
    StartsOnTrack(c, e);
    NextKeeps(c, e);
    QuietStays(c.state.node, c.state.marks, Next(c, e), es);
    hide Inv, Enabled, Next, Run, Quiet, After, TextEnds, UploadEnds;
  }

  /**
   What a text call answers. In any reachable state, a quiet call ends with exactly one of these, each if and only if the
   path and the token's marker called for it when the call was granted the lock: not there, a directory, the bytes read,
   never read, stale, failed edits, or written. A call that has written shows its complete new content and holds its
   marker; every other one leaves the path as it was, and the markers too unless it has read.
   */
  lemma TextCallsAreExact(start: Node, past: seq<Event>, e: Event, es: seq<Event>)
    requires RealNode(start) && Run(Start(start), past) && After(Start(start), past).proc.Idle?
    requires e.Acquire? && !e.op.UploadOp? && Enabled(After(Start(start), past), e)
    requires Run(Next(After(Start(start), past), e), es) && Quiet(Next(After(Start(start), past), e), es)
    ensures var c := After(Start(start), past);
      var d, node, known := After(Next(c, e), es), c.state.node, e.token in c.state.marks;
      var editing := node.Regular? && !e.op.ReadOp?;
      var fits := known && node != Missing && c.state.marks[e.token].marker == MarkerOf(node);
      d.proc.Running? && d.proc.call == Call(c.calls, e.token, e.op) && (d.proc.pc.Done? ==>
        var r := d.proc.pc.reply;
        && (r == Failed(NotExist) <==> node == Missing && !e.op.WriteOp?)
        && (r == Failed(IsDir) <==> node.Directory?)
        && (r.ReadDone? <==> node.Regular? && e.op.ReadOp?)
        && (r.ReadDone? ==> r.bytes == node.bytes)
        && (r == Failed(NeverRead) <==> editing && !known)
        && (r == Failed(Stale) <==> editing && known && !fits)
        && (r.Failed? && r.why.EditFails? <==> editing && fits && NewContent(e.op, node.bytes).Err?)
        && (r.Failed? && r.why.EditFails? ==> r.why.error == NewContent(e.op, node.bytes).error)
        && (r == WriteDone <==>
              (node == Missing && e.op.WriteOp?) || (editing && fits && NewContent(e.op, node.bytes).Ok?))
        && (r == WriteDone ==>
              HasWritten(d.state, d.proc.call,
                         if node == Missing then e.op.content else NewContent(e.op, node.bytes).value))
        && (r != WriteDone ==> d.state.node == node)
        && (r.Failed? ==> d.state.marks == c.state.marks)
        && (r.ReadDone? ==> d.state.marks == c.state.marks[e.token := Mark(MarkerOf(node), node.bytes)]))
  {
    Reached(start, past);
    QuietCallEnds(After(Start(start), past), e, es);
    hide Run, After, Enabled, Next, Quiet, Inv, NewContent, HasWritten;
  }

  /** What an upload answers: created on a missing name, skipped over the same bytes, a conflict over any others. */
  lemma UploadsAreExact(start: Node, past: seq<Event>, e: Event, es: seq<Event>)
    requires RealNode(start) && Run(Start(start), past) && After(Start(start), past).proc.Idle?
    requires e.Acquire? && e.op.UploadOp? && Enabled(After(Start(start), past), e)
    requires Run(Next(After(Start(start), past), e), es) && Quiet(Next(After(Start(start), past), e), es)
    ensures var c := After(Start(start), past);
      var d, node := After(Next(c, e), es), c.state.node;
      d.proc.Running? && d.proc.call == Call(c.calls, e.token, e.op) && (d.proc.pc.Done? ==>
        var r := d.proc.pc.reply;
        && (r.Created? <==> node == Missing)
        && (r == Skipped <==> node.Regular? && node.bytes == e.op.image)
        && (r == Failed(ExistsConflict) <==> node.Regular? && node.bytes != e.op.image)
        && (r == Failed(IsDir) <==> node.Directory?)
        && (if r.Created? then d.state.node.Regular? && d.state.node.bytes == e.op.image && e.token !in d.state.marks
            else d.state.node == node && d.state.marks == c.state.marks))
  {
    Reached(start, past);
    QuietCallEnds(After(Start(start), past), e, es);
    hide Run, After, Enabled, Next, Quiet, Inv;
  }

  /** A recorded run whose last call was quiet: what a handler that made it has answered. */
  lemma RecordedCallIsExact(start: Node, past: seq<Event>, e: Event, es: seq<Event>)
    requires RealNode(start) && Run(Start(start), past + ([e] + es))
    requires e.Acquire? && Run(Start(start), past) && After(Start(start), past).proc.Idle?
    requires Enabled(After(Start(start), past), e)
    requires Run(Next(After(Start(start), past), e), es) && Quiet(Next(After(Start(start), past), e), es)
    ensures var c, d := After(Start(start), past), After(Start(start), past + ([e] + es));
      var call := Call(c.calls, e.token, e.op);
      && d.proc.Running? && d.proc.call == call
      && (d.proc.pc.Done? ==>
            if e.op.UploadOp? then UploadEnds(c.state.node, c.state.marks, call, d.state, d.proc.pc.reply)
            else TextEnds(c.state.node, c.state.marks, call, d.state, d.proc.pc.reply))
  {
    var c := After(Start(start), past);
    RunSplit(Start(start), past, [e] + es);
    assert ([e] + es)[0] == e && ([e] + es)[1..] == es;
    assert After(c, [e] + es) == After(Next(c, e), es);
    Reached(start, past);
    hide Run, After, Enabled, Next, Quiet, Inv, TextEnds, UploadEnds;
    QuietCallEnds(c, e, es);
  }

  // The reasons given, quiet or not.

  /** Why a call is about to fail, if this step decides it. */
  function Reason(was: Pc, pc: Pc): Option<Failure> {
    if pc.Done? && pc.reply.Failed? && !was.AtCleanup? then Some(pc.reply.why)
    else if pc.AtCleanup? then Some(pc.why)
    else None
  }

  /**
   Every reason is true when it is given, whatever errors and other programs did before: the path is missing, or shows
   a directory; the token has no marker, or a name to be claimed is taken; its marker is not that of the stat just made;
   the edits fail on the bytes just read; a call failed, or a failed write has been given up.
   */
  lemma ReasonsAreTrue(s: State, call: Call, pc: Pc, x: Choice)
    requires Held(Move(s, pc), call) && Ready(s, call, pc)
    ensures var why := Reason(pc, AfterStep(s, call, pc, x).pc);
      var found := if pc.Snapped? then pc.st else if s.node == Missing then Marker(0, ZERO) else MarkerOf(s.node);
      && (why == Some(NotExist) ==> s.node == Missing && x.answer.Succeeds?)
      && (why == Some(IsDir) ==> s.node.Directory? && x.answer.Succeeds?)
      && (why == Some(NeverRead) ==> if pc.AtClaim? then s.node != Missing else call.token !in s.marks)
      && (why == Some(Stale) ==> call.token in s.marks && s.marks[call.token].marker != found)
      && (why.Some? && why.value.EditFails? ==>
            pc.Snapped? && IsText(call.op) && NewContent(call.op, pc.data) == Err(why.value.error))
      && (why == Some(FsError) ==> !x.answer.Succeeds? || pc.AtTempDrop? || pc.AtUnclaim? || pc.AtCopyDrop?)
      && (why == Some(ExistsConflict) ==>
            if pc.AtCompare? then |x.data| > MAX_IMAGE_BYTES
            else pc.AtAfter? && s.node.Regular? && MarkerOf(s.node) == pc.st && s.node.bytes != call.op.image)
      && (why == Some(TargetChanged) ==>
            pc.AtAfter? && s.node != Missing && (MarkerOf(s.node) != pc.st || |pc.data| != pc.st.size))
      && (why == Some(TempLost) ==> pc.AtTempCheck? && !x.answer.Succeeds?)
  {
    hide StampsInv, MarksInv, HistoryInv, TempsFor, Based, Landing, Outcome, OutcomeMany;
  }

  /** A created upload says truly whether its file was copied into place, and whether removing its temp file failed. */
  lemma NoticesAreTrue(s: State, call: Call, pc: Pc, x: Choice)
    requires Held(Move(s, pc), call) && Ready(s, call, pc)
    ensures var m := AfterStep(s, call, pc, x);
      && (m.pc.AtPublished? ==> (m.pc.degraded <==> pc.AtCopy?))
      && (m.pc.Done? && m.pc.reply.Created? ==>
            pc.AtPublished? && m.pc.reply == Created(pc.degraded, !x.answer.Succeeds?)
            && (pc.tmp in m.state.temps ==> m.pc.reply.tempLeft))
  {
    hide StampsInv, MarksInv, HistoryInv, Based, Landing, Intended;
  }

  /** A call that has written always leaves a marker: the stat's, or, if that failed, one with the zero time. */
  lemma WritesAlwaysMark(s: State, call: Call, pc: Pc, x: Choice)
    requires Held(Move(s, pc), call) && Ready(s, call, pc) && AfterStep(s, call, pc, x).pc == Done(WriteDone)
    ensures var m := AfterStep(s, call, pc, x);
      && pc.AtMark? && s.node.Regular? && s.node.bytes == pc.out && m.state.node == s.node
      && m.state.marks == s.marks[call.token :=
           Mark(Marker(|pc.out|, if x.answer.Succeeds? then s.node.mtime else ZERO), pc.out)]
  {
    hide Core, TempsFor, Intended, Based, Landing;
  }

  // That such calls end.

  /** How many successful calls the handler has left at most. */
  function Left(call: Call, pc: Pc): (n: nat)
    ensures n <= 9 && (n == 0 <==> pc.Done?)
  {
    match pc
    case Done(_) => 0
    case AtMark(_, _) => 1
    case AtUnclaim(_) => 1
    case AtRename(_, _, _) => 2
    case AtTempWrite(_, _, _) => 3
    case AtTemp(_, _) => 4
    case AtTempDrop(_, _, _) => 5
    case AtRestat(_, _, _) => 5
    case AtClaim(_) => 5
    case Snapped(_, _) => 6
    case AtRead(_) => 7
    case AtStat => 8
    case AtCleanup(_, _) => 1
    case AtPublished(_, _) => 1
    case AtAfter(_, _, _) => 2
    case AtCompare(_, _) => 3
    case AtCopy(_, n) => if call.op.UploadOp? && n < |call.op.image| then 3 else 2
    case AtDegrade(_) => 5
    case AtLink(_) => 6
    case AtTempCheck(_) => 7
    case AtRaced(_) => 4
    case AtLstat(_) => 8
    case AtCopyDrop(_) => 9
  }

  lemma TextDescends(s: State, call: Call, pc: Pc, x: Choice)
    requires Ready(s, call, pc) && !Uploading(pc) && x.answer.Succeeds?
    ensures var m := AfterStep(s, call, pc, x); Left(call, m.pc) < Left(call, pc) && !Uploading(m.pc)
  {
    hide Intended, Base, LastOwn, MarkOf;
  }

  lemma UploadDescends(s: State, call: Call, pc: Pc, x: Choice)
    requires Ready(s, call, pc) && Uploading(pc) && x.answer.Succeeds?
    requires pc.AtCopy? ==> s.temps[pc.tmp].bytes == call.op.image && pc.n <= |call.op.image| == x.n
    ensures var m := AfterStep(s, call, pc, x); Left(call, m.pc) < Left(call, pc)
  {
    hide Capped, Base, LastOwn, MarkOf;
  }

  predicate AllSucceed(es: seq<Event>) {
    forall i :: 0 <= i < |es| ==> es[i].Step? && es[i].x.answer.Succeeds?
  }

  /** A text call whose calls all succeed makes at most eight, whatever other choices there are. */
  lemma {:induction false} SuccessesAreFew(c: Cell, es: seq<Event>)
    requires c.proc.Running? && !Uploading(c.proc.pc) && Run(c, es) && AllSucceed(es)
    ensures |es| <= Left(c.proc.call, c.proc.pc) && After(c, es).proc.Running?
    ensures |es| == Left(c.proc.call, c.proc.pc) ==> After(c, es).proc.pc.Done?
    decreases |es|
  {
    if es != [] {
      assert es[0].Step? && es[0].x.answer.Succeeds?;
      hide AfterStep, Ready, CanStep;
      TextDescends(Mint(c.state, es[0].x.stamp), c.proc.call, c.proc.pc, es[0].x);
      SuccessesAreFew(Next(c, es[0]), es[1..]);
    }
  }

  /** There is always a next successful call to make. */
  lemma NextCall(c: Cell) returns (x: Choice)
    requires Inv(c) && c.proc.Running? && !c.proc.pc.Done?
    ensures x.answer.Succeeds? && x.retry && Enabled(c, Step(x))
    ensures c.proc.call.op.UploadOp? ==> x.n == |c.proc.call.op.image|
  {
    var stamp := Above(c.state.minted);
    var tmp := Above(c.state.temps.Keys);
    var data := if !c.state.node.Regular? then []
                else if c.proc.pc.AtCompare? then Capped(c.state.node.bytes) else c.state.node.bytes;
    x := Choice(Succeeds, true, data, stamp, tmp, if c.proc.call.op.UploadOp? then |c.proc.call.op.image| else 0);
    ReadyInside(c);
    hide Inv, Capped, Ready;
  }

  /** Whatever has happened to it so far, a running call can end within nine more calls, all of them successful. */
  lemma {:induction false} CallsCanEnd(c: Cell) returns (es: seq<Event>)
    requires Inv(c) && c.proc.Running?
    ensures Run(c, es) && AllSucceed(es) && |es| <= Left(c.proc.call, c.proc.pc) <= 9 && Quiet(c, es)
    ensures After(c, es).proc.Running? && After(c, es).proc.call == c.proc.call && After(c, es).proc.pc.Done?
    decreases Left(c.proc.call, c.proc.pc)
  {
    if c.proc.pc.Done? {
      es := [];
    } else {
      var x := NextCall(c);
      NextCallDescends(c, x);
      NextKeeps(c, Step(x));
      var rest := CallsCanEnd(Next(c, Step(x)));
      es := [Step(x)] + rest;
      assert es[1..] == rest;
      hide Inv, Enabled, Next, Left;
    }
  }

  lemma NextCallDescends(c: Cell, x: Choice)
    requires Inv(c) && c.proc.Running? && Enabled(c, Step(x)) && x.answer.Succeeds?
    requires c.proc.call.op.UploadOp? ==> x.n == |c.proc.call.op.image|
    ensures var d := Next(c, Step(x));
      d.proc.Running? && d.proc.call == c.proc.call && Left(c.proc.call, d.proc.pc) < Left(c.proc.call, c.proc.pc)
  {
    hide Core, TempsFor, AfterStep, CanStep, Left;
    var s := Mint(c.state, x.stamp);
    if Uploading(c.proc.pc) {
      UploadDescends(s, c.proc.call, c.proc.pc, x);
    } else {
      TextDescends(s, c.proc.call, c.proc.pc, x);
    }
  }
}
