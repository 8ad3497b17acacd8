/** What the invariant means over whole runs: no lost update, sound markers, whole versions, no stray temp files. */
module ProtocolTheorems {
  import opened Wrappers
  import opened ByteSearch
  import opened EditEngine
  import opened Protocol
  import opened ProtocolInvariant

  // Runs: any interleaving of any number of tokens' calls, retries, failures and other programs, on one path.

  ghost predicate Run(c: Cell, es: seq<Event>)
    decreases |es|
  {
    es == [] || (Enabled(c, es[0]) && Run(Next(c, es[0]), es[1..]))
  }

  ghost function After(c: Cell, es: seq<Event>): Cell
    requires Run(c, es)
    decreases |es|
  {
    if es == [] then c else After(Next(c, es[0]), es[1..])
  }

  lemma {:induction false} RunSnoc(c: Cell, es: seq<Event>, e: Event)
    requires Run(c, es) && Enabled(After(c, es), e)
    ensures Run(c, es + [e]) && After(c, es + [e]) == Next(After(c, es), e)
    decreases |es|
  {
    hide Enabled, Next;
    if es == [] {
      assert es + [e] == [e] && [e][1..] == [];
    } else {
      assert (es + [e])[0] == es[0] && (es + [e])[1..] == es[1..] + [e];
      RunSnoc(Next(c, es[0]), es[1..], e);
    }
  }

  lemma {:induction false} RunSplit(c: Cell, es: seq<Event>, fs: seq<Event>)
    requires Run(c, es + fs)
    ensures Run(c, es) && Run(After(c, es), fs) && After(c, es + fs) == After(After(c, es), fs)
    decreases |es|
  {
    hide Enabled, Next;
    if es == [] {
      assert es + fs == fs;
    } else {
      assert (es + fs)[0] == es[0] && (es + fs)[1..] == es[1..] + fs;
      RunSplit(Next(c, es[0]), es[1..], fs);
    }
  }

  /** A real file never bears Go's zero time. */
  predicate RealNode(n: Node) {
    n != Missing ==> n.mtime != ZERO
  }

  lemma {:induction false} RunKeeps(c: Cell, es: seq<Event>)
    requires Inv(c) && Run(c, es)
    ensures Inv(After(c, es))
    decreases |es|
  {
    hide Inv, Enabled, Next;
    if es != [] {
      NextKeeps(c, es[0]);
      RunKeeps(Next(c, es[0]), es[1..]);
    }
  }

  lemma Reached(node: Node, es: seq<Event>)
    requires RealNode(node) && Run(Start(node), es)
    ensures Inv(After(Start(node), es)) && Core(After(Start(node), es).state)
  {
    hide Core, PcInv, TempsFor, Start, Run;
    StartInv(node);
    RunKeeps(Start(node), es);
  }

  // Markers.

  /**
   Whenever a token's marker matches what the path shows, the read or write that set it obtained exactly the bytes
   the path now shows; a zero-time marker matches nothing.
   */
  lemma MarkersAreSound(node: Node, es: seq<Event>, t: Token)
    requires RealNode(node) && Run(Start(node), es)
    ensures var s := After(Start(node), es).state;
      t in s.marks && Fits(s.marks[t].marker, s.node)
      ==> s.marks[t].marker.mtime != ZERO && s.node == Regular(s.marks[t].bytes, s.marks[t].marker.mtime)
  {
    hide HistoryInv, Run;
    Reached(node, es);
    var s := After(Start(node), es).state;
    assert t in s.marks ==> MarkSound(s, t);
  }

  /** A marker is set only by a reply that carries its bytes, and dropped only by a created upload. */
  lemma MarkersComeFromReplies(s: State, call: Call, pc: Pc, x: Choice, t: Token)
    requires Held(Move(s, pc), call) && Ready(s, call, pc)
    ensures var m := AfterStep(s, call, pc, x);
      || ((t in m.state.marks <==> t in s.marks) && (t in s.marks ==> m.state.marks[t] == s.marks[t]))
      || (t == call.token && t in m.state.marks && m.pc == Done(ReadDone(m.state.marks[t].bytes)))
      || (t == call.token && t in m.state.marks && m.pc == Done(WriteDone)
          && s.node.Regular? && s.node.bytes == m.state.marks[t].bytes)
      || (t == call.token && t !in m.state.marks && m.pc.Done? && m.pc.reply.Created?)
  {
    hide Core, TempsFor, Intended, Based, Landing;
  }

  // The chain of versions.

  /**
   No lost update, and no partial version. The versions of the path form one chain from its first to its present
   state. Every change is either another program's or belongs to an unbroken stretch of one call, and what the stretch
   replaces, `base`, is the version that stood just before it. Over an existing file the call's token held the marker
   matching that version and had obtained exactly its bytes, and whatever the call shows is the complete result of its
   edits on those bytes; a write on a missing name shows only its empty claim, its complete content, or nothing again;
   an upload begins only on a missing name.
   */
  lemma NoLostUpdate(node: Node, es: seq<Event>, i: nat)
    requires RealNode(node) && Run(Start(node), es)
    requires i < |After(Start(node), es).state.history|
    ensures var s := After(Start(node), es).state;
      var ch := s.history[i];
      && s.node == Version(node, s.history, |s.history|)
      && ch.before == Version(node, s.history, i)
      && ch.base == (if Own(s.history, i) then s.history[i - 1].base else ch.before)
      && (ch.cause.By? ==> Permitted(ch.cause.call.op, ch.base, ch.mark, ch.after))
  {
    hide Run, StampsInv, MarksInv, Intended;
    Reached(node, es);
    RunExtends(Start(node), es);
    var s := After(Start(node), es).state;
    assert Linked(s.origin, s.history, i) && Legit(s.history[i]);
  }

  /** The record only grows: no later event rewrites what happened, and a change of the path is always recorded. */
  lemma {:induction false} RunExtends(c: Cell, es: seq<Event>)
    requires Run(c, es)
    ensures After(c, es).state.origin == c.state.origin && c.state.history <= After(c, es).state.history
    decreases |es|
  {
    hide Enabled, Next;
    if es != [] {
      NextExtends(c, es[0]);
      RunExtends(Next(c, es[0]), es[1..]);
    }
  }

  lemma NextExtends(c: Cell, e: Event)
    requires Enabled(c, e)
    ensures var d := Next(c, e);
      && d.state.origin == c.state.origin && c.state.history <= d.state.history
      && (d.state.node != c.state.node ==> |d.state.history| == |c.state.history| + 1)
  {
    hide AfterStep;
    if e.Step? {
      StepAppends(Mint(c.state, e.x.stamp), c.proc.call, c.proc.pc, e.x);
    }
  }

  /** The path shows exactly what this text call intended, and the call had the right to put it there. */
  ghost predicate Published(s: State, call: Call) {
    && LastOwn(s, call) && s.node.Regular?
    && Permitted(call.op, Base(s, call), s.history[|s.history| - 1].mark, s.node)
    && (call.op.WriteOp? ==> s.node.bytes == call.op.content)
  }

  lemma MarkKnows(s: State, call: Call, pc: Pc)
    requires PcInv(s, call, pc) && pc.AtMark?
    ensures IsText(call.op) && Based(s, call, pc.base, pc.out) && Base(s, call) == pc.base
    ensures LastOwn(s, call) && s.node.Regular? && s.node.bytes == pc.out
  {
    hide Based, LastOwn, Seen, SeenBytes, Staged, Capped, Intended;
  }

  lemma MarkedIsPublished(s: State, call: Call, pc: Pc)
    requires Held(Move(s, pc), call) && pc.AtMark?
    ensures IsText(call.op) && Published(s, call)
  {
    hide PcInv, StampsInv, MarksInv, TempsFor, OutcomeMany, Outcome;
    MarkKnows(s, call, pc);
    assert Linked(s.origin, s.history, |s.history| - 1) && Legit(s.history[|s.history| - 1]);
  }

  /** A text call that reports success has left the path showing exactly its intended content. */
  lemma SuccessIsExact(s: State, call: Call, pc: Pc, x: Choice)
    requires Held(Move(s, pc), call) && Ready(s, call, pc)
    requires AfterStep(s, call, pc, x).pc == Done(WriteDone)
    ensures IsText(call.op) && Published(s, call) && Published(AfterStep(s, call, pc, x).state, call)
  {
    hide Held, PcInv, Permitted;
    assert pc.AtMark?;
    MarkedIsPublished(s, call, pc);
  }

  /** Points at which a text call has a claim or a temp file to give up. */
  predicate Committed(pc: Pc) {
    pc.AtClaim? || pc.AtTemp? || pc.AtTempDrop? || pc.AtUnclaim?
  }

  /**
   A text call that fails before it has anything to give up has left the path alone, whatever the failure; and one that
   is refused - never read, stale, not there, a directory, a failed edit - changes nothing by answering so, and has
   changed nothing before unless it is a claim meeting its own earlier one (ProtocolFailures says when that is).
   */
  lemma RefusalChangesNothing(s: State, call: Call, pc: Pc, x: Choice)
    requires Held(Move(s, pc), call) && IsText(call.op) && Ready(s, call, pc)
    ensures var m := AfterStep(s, call, pc, x);
      m.pc.Done? && m.pc.reply.Failed? ==>
        && (!Committed(pc) ==> m.state == s && !LastOwn(s, call))
        && (!m.pc.reply.why.FsError? ==>
              m.state == s && (LastOwn(s, call) ==> pc.AtClaim? && m.pc.reply.why.NeverRead? && Base(s, call) == Missing))
  {
    hide Core, TempsFor, Intended, Based, Landing;
  }

  // Uploads.

  /** No upload alters or removes anything but a missing name and what that same upload put there. */
  lemma UploadsNeverOverwrite(node: Node, es: seq<Event>, i: nat)
    requires RealNode(node) && Run(Start(node), es)
    requires i < |After(Start(node), es).state.history|
    ensures var h := After(Start(node), es).state.history;
      h[i].cause.By? && h[i].cause.call.op.UploadOp?
      ==> h[i].before == Missing || (i > 0 && h[i - 1].cause == h[i].cause && h[i].before == h[i - 1].after)
  {
    hide Run;
    NoLostUpdate(node, es, i);
  }

  /** `created` comes only after a moment when the path showed exactly the image, put there by this call on a missing name. */
  lemma CreatedIsExact(s: State, call: Call, pc: Pc, x: Choice)
    requires Held(Move(s, pc), call) && call.op.UploadOp? && Ready(s, call, pc)
    ensures var m := AfterStep(s, call, pc, x);
      && (m.pc.AtPublished? ==>
            && m.state.node.Regular? && m.state.node.bytes == call.op.image
            && LastOwn(m.state, call) && Base(m.state, call) == Missing)
      && (m.pc.Done? && m.pc.reply.Created? ==> pc.AtPublished? && call.token !in m.state.marks)
  {
    hide StampsInv, MarksInv, HistoryInv, TempsFor, Intended, Based, Landing, Seen, SeenBytes;
    if pc.AtLink? || pc.AtCopy? {
      if s.node == Missing || LastOwn(s, call) {
        UploadBase(s, call);
      }
    }
  }

  /** `skipped` means the path showed exactly the image; it is left alone, and the temp file is always left behind. */
  lemma SkippedIsExact(s: State, call: Call, pc: Pc, x: Choice)
    requires Held(Move(s, pc), call) && call.op.UploadOp? && Ready(s, call, pc)
    requires AfterStep(s, call, pc, x).pc == Done(Skipped)
    ensures s.node.Regular? && s.node.bytes == call.op.image && AfterStep(s, call, pc, x).state.node == s.node
    ensures pc.AtAfter? && AfterStep(s, call, pc, x).state.leaked == s.leaked[pc.tmp := SkippedUpload]
    ensures pc.tmp in s.temps && AfterStep(s, call, pc, x).state.temps == s.temps && s.temps[pc.tmp].bytes == call.op.image
  {
    hide StampsInv, MarksInv, HistoryInv, TempsFor, Intended, Based, Landing;
    assert pc.AtAfter?;
  }

  // Replies, over whole runs.

  predicate ShowsBytes(n: Node, bytes: Bytes) {
    n.Regular? && n.bytes == bytes
  }

  /** A change by this call once left the path showing these bytes. */
  ghost predicate Showed(s: State, call: Call, bytes: Bytes) {
    exists i :: 0 <= i < |s.history| && s.history[i].cause == By(call) && ShowsBytes(s.history[i].after, bytes)
  }

  /** A change by this call once left the path showing its whole intended content, over a version it had the right to replace. */
  ghost predicate Wrote(s: State, call: Call) {
    exists i :: 0 <= i < |s.history| && s.history[i].cause == By(call) && Completes(call.op, s.history[i])
  }

  /** The change shows the complete result: of the edits on the exact bytes replaced, or of the write. */
  predicate Completes(op: Op, ch: Change) {
    && ch.after.Regular? && Permitted(op, ch.base, ch.mark, ch.after)
    && Intended(op, if ch.base.Regular? then ch.base.bytes else []) == Ok(ch.after.bytes)
  }

  /** Some version of the path, whoever left it, had these bytes. */
  ghost predicate EverHeld(s: State, bytes: Bytes) {
    exists i :: 0 <= i <= |s.history| && ShowsBytes(Version(s.origin, s.history, i), bytes)
  }

  /** What a reply says did happen. */
  ghost predicate ReplyHolds(c: Cell) {
    c.proc.Running? ==>
      match c.proc.pc
      case AtPublished(_, _) => c.proc.call.op.UploadOp? && Showed(c.state, c.proc.call, c.proc.call.op.image)
      case Done(Created(_, _)) => c.proc.call.op.UploadOp? && Showed(c.state, c.proc.call, c.proc.call.op.image)
      case Done(Skipped) => c.proc.call.op.UploadOp? && EverHeld(c.state, c.proc.call.op.image)
      case Done(WriteDone) => Wrote(c.state, c.proc.call)
      case _ => true
  }

  lemma ShowedStays(s: State, d: State, call: Call, bytes: Bytes)
    requires s.history <= d.history && s.origin == d.origin
    ensures Showed(s, call, bytes) ==> Showed(d, call, bytes)
    ensures EverHeld(s, bytes) ==> EverHeld(d, bytes)
    ensures Wrote(s, call) ==> Wrote(d, call)
  {
    hide Completes;
    if Wrote(s, call) {
      var i :| 0 <= i < |s.history| && s.history[i].cause == By(call) && Completes(call.op, s.history[i]);
      assert d.history[i] == s.history[i];
    }
    if Showed(s, call, bytes) {
      var i :| 0 <= i < |s.history| && s.history[i].cause == By(call) && ShowsBytes(s.history[i].after, bytes);
      assert d.history[i] == s.history[i];
    }
    if EverHeld(s, bytes) {
      var i :| 0 <= i <= |s.history| && ShowsBytes(Version(s.origin, s.history, i), bytes);
      assert Version(d.origin, d.history, i) == Version(s.origin, s.history, i);
    }
  }

  lemma LastIsShown(s: State, call: Call)
    requires HistoryInv(s) && s.node.Regular?
    ensures EverHeld(s, s.node.bytes) && (LastOwn(s, call) ==> Showed(s, call, s.node.bytes))
  {
    assert Version(s.origin, s.history, |s.history|) == s.node;
    if LastOwn(s, call) {
      assert s.history[|s.history| - 1].after == s.node;
    }
  }

  lemma PermittedCompletes(op: Op, ch: Change)
    requires IsText(op) && ch.after.Regular? && Permitted(op, ch.base, ch.mark, ch.after)
    requires op.WriteOp? ==> ch.after.bytes == op.content
    ensures Completes(op, ch)
  {
    hide Outcome, OutcomeMany;
  }

  lemma PublishedIsWritten(s: State, call: Call)
    requires HistoryInv(s) && Published(s, call) && IsText(call.op)
    ensures Wrote(s, call)
  {
    var i := |s.history| - 1;
    assert s.history[i].after == s.node;
    hide HistoryInv, Permitted, Intended, Completes;
    PermittedCompletes(call.op, s.history[i]);
  }

  lemma StepReplyHolds(s: State, call: Call, pc: Pc, x: Choice)
    requires Held(Move(s, pc), call) && Ready(s, call, pc)
    requires Held(AfterStep(s, call, pc, x), call)
    requires pc.AtPublished? ==> call.op.UploadOp? && Showed(s, call, call.op.image)
    ensures var m := AfterStep(s, call, pc, x); ReplyHolds(Cell(m.state, Running(call, m.pc), 0))
  {
    hide TempsFor, StampsInv, MarksInv, PcInv, AfterStep, HistoryInv;
    var m := AfterStep(s, call, pc, x);
    StepAppends(s, call, pc, x);
    if m.pc == Done(WriteDone) {
      SuccessIsExact(s, call, pc, x);
      PublishedIsWritten(m.state, call);
    } else if m.pc.AtPublished? || (m.pc.Done? && (m.pc.reply.Created? || m.pc.reply == Skipped)) {
      UploadEnds(s, call, pc, x);
      CreatedIsExact(s, call, pc, x);
      if m.pc.AtPublished? {
        LastIsShown(m.state, call);
      } else if m.pc.reply.Created? {
        ShowedStays(s, m.state, call, call.op.image);
      } else {
        SkippedIsExact(s, call, pc, x);
        LastIsShown(m.state, call);
      }
    }
  }

  lemma UploadEnds(s: State, call: Call, pc: Pc, x: Choice)
    requires Held(Move(s, pc), call) && Ready(s, call, pc)
    ensures var m := AfterStep(s, call, pc, x);
      m.pc.AtPublished? || (m.pc.Done? && (m.pc.reply.Created? || m.pc.reply == Skipped)) ==> call.op.UploadOp?
  {
    hide TempsFor, Core, Intended, Based, Landing;
  }

  lemma NextReplyHolds(c: Cell, e: Event)
    requires Inv(c) && ReplyHolds(c) && Enabled(c, e)
    ensures ReplyHolds(Next(c, e))
  {
    hide Core, PcInv, TempsFor, AfterStep, Showed, EverHeld, Wrote, CallsInv;
    var d := Next(c, e);
    match e
    case Acquire(_, _, _, _) =>
    case Step(x) =>
      var s := Mint(c.state, x.stamp);
      MintKeeps(c.state, c.proc.call, c.proc.pc, x.stamp);
      StepKeeps(c.state, c.proc.call, c.proc.pc, x);
      if c.proc.pc.AtPublished? {
        ShowedStays(c.state, s, c.proc.call, c.proc.call.op.image);
      }
      StepReplyHolds(s, c.proc.call, c.proc.pc, x);
    case Release =>
    case ExternalWrite(node) =>
      if c.proc.Running? {
        var op := c.proc.call.op;
        ShowedStays(c.state, d.state, c.proc.call, if op.UploadOp? then op.image else []);
      }
  }

  lemma {:induction false} RunReplyHolds(c: Cell, es: seq<Event>)
    requires Inv(c) && ReplyHolds(c) && Run(c, es)
    ensures ReplyHolds(After(c, es))
    decreases |es|
  {
    hide Inv, ReplyHolds, Enabled, Next;
    if es != [] {
      NextKeeps(c, es[0]);
      NextReplyHolds(c, es[0]);
      RunReplyHolds(Next(c, es[0]), es[1..]);
    }
  }

  /**
   Replies tell the truth of every run: a created upload or a successful write did put its whole content on the path
   itself, and a skipped upload's path did hold exactly the image.
   */
  lemma RepliesAreTrue(node: Node, es: seq<Event>)
    requires RealNode(node) && Run(Start(node), es)
    ensures ReplyHolds(After(Start(node), es))
  {
    hide Inv, Run;
    StartInv(node);
    RunReplyHolds(Start(node), es);
  }

  // Temp files.

  /** The temp files in the directory that no handler is going to use or remove. */
  function Abandoned(c: Cell): set<TempName> {
    c.state.temps.Keys - if c.proc.Running? then Active(c.proc.pc) else {}
  }

  /** What the record of leaks says is so in the directory. */
  lemma LeakedAreAbandoned(c: Cell)
    requires Inv(c)
    ensures c.state.leaked.Keys == Abandoned(c)
  {
    hide Core, PcInv, CallsInv;
  }

  /** The events that leave a temp file behind for good. */
  predicate Strays(c: Cell, e: Event)
    requires Enabled(c, e)
  {
    e.Step? &&
    match c.proc.pc
    case AtTemp(_, _) => e.x.answer.FailsApplied?
    case AtTempDrop(_, _, tmp) => tmp in c.state.temps && (e.x.answer.FailsClean? || e.x.answer.Refused?)
    case AtPublished(tmp, _) => tmp in c.state.temps && (e.x.answer.FailsClean? || e.x.answer.Refused?)
    case AtCleanup(tmp, _) => tmp in c.state.temps && (e.x.answer.FailsClean? || e.x.answer.Refused?)
    case AtAfter(_, _, _) => Next(c, e).proc.pc == Done(Skipped)
    case _ => false
  }

  /**
   Exactly these abandon a temp file: a create that failed after taking effect, a removal that failed, a skipped upload.
   What is abandoned already stays as it is.
   */
  lemma StraysAreExact(c: Cell, e: Event)
    requires Inv(c) && Enabled(c, e)
    ensures Next(c, e).state.leaked != c.state.leaked <==> Strays(c, e)
    ensures Abandoned(c) <= Abandoned(Next(c, e))
    ensures Abandoned(Next(c, e)) != Abandoned(c) <==> Strays(c, e)
    ensures forall n :: n in Abandoned(c) ==> n in Next(c, e).state.temps && Next(c, e).state.temps[n] == c.state.temps[n]
  {
    hide Inv, Enabled, Next, Strays, Abandoned;
    LeaksAreExact(c, e);
    LeaksStay(c, e);
    NextKeeps(c, e);
    LeakedAreAbandoned(c);
    LeakedAreAbandoned(Next(c, e));
  }

  /** A leak is recorded once, under a name of its own, and its file is never touched again. */
  lemma LeaksStay(c: Cell, e: Event)
    requires Inv(c) && Enabled(c, e)
    ensures KeepsLeaks(c.state, Next(c, e).state)
  {
    hide Core, PcInv, CallsInv;
    if e.Step? {
      StepLeaksStay(Mint(c.state, e.x.stamp), c.proc.call, c.proc.pc, e.x);
    }
  }

  /** From one state to the next, leaks only come to be, and their files stay. */
  predicate KeepsLeaks(s: State, d: State) {
    && s.leaked.Keys <= d.leaked.Keys
    && (d.leaked.Keys == s.leaked.Keys ==> d.leaked == s.leaked)
    && forall n :: n in s.leaked ==> n in s.temps && n in d.temps && d.temps[n] == s.temps[n]
  }

  /** Only these points touch the temp files. */
  predicate Filing(pc: Pc) {
    || pc.AtTemp? || pc.AtTempWrite? || pc.AtRename? || pc.AtTempDrop?
    || pc.AtPublished? || pc.AtCleanup? || pc.AtAfter?
  }

  lemma StepLeaksStay(s: State, call: Call, pc: Pc, x: Choice)
    requires TempsFor(s, pc) && Ready(s, call, pc) && (pc.AtTemp? ==> x.tmp !in s.temps)
    ensures KeepsLeaks(s, AfterStep(s, call, pc, x).state)
  {
    hide TempsFor, KeepsLeaks, AfterStep;
    if !Filing(pc) {
      TempsUntouched(s, call, pc, x);
      SameLeaks(s, AfterStep(s, call, pc, x).state, pc);
    } else if pc.AtPublished? || pc.AtCleanup? || pc.AtAfter? {
      UploadLeaksStay(s, call, pc, x);
    } else {
      TextLeaksStay(s, call, pc, x);
    }
  }

  lemma SameLeaks(s: State, d: State, pc: Pc)
    requires TempsFor(s, pc) && d.temps == s.temps && d.leaked == s.leaked
    ensures KeepsLeaks(s, d)
  {
  }

  lemma TempsUntouched(s: State, call: Call, pc: Pc, x: Choice)
    requires Ready(s, call, pc) && !Filing(pc)
    ensures var d := AfterStep(s, call, pc, x).state; d.temps == s.temps && d.leaked == s.leaked
  {
    hide Intended, Base, LastOwn, Gate, Capped, MarkOf;
  }

  lemma TextLeaksStay(s: State, call: Call, pc: Pc, x: Choice)
    requires TempsFor(s, pc) && Ready(s, call, pc) && (pc.AtTemp? ==> x.tmp !in s.temps)
    requires pc.AtTemp? || pc.AtTempWrite? || pc.AtRename? || pc.AtTempDrop?
    ensures KeepsLeaks(s, AfterStep(s, call, pc, x).state)
  {
    hide Base, LastOwn, MarkOf;
  }

  lemma UploadLeaksStay(s: State, call: Call, pc: Pc, x: Choice)
    requires TempsFor(s, pc) && Ready(s, call, pc) && (pc.AtPublished? || pc.AtCleanup? || pc.AtAfter?)
    ensures KeepsLeaks(s, AfterStep(s, call, pc, x).state)
  {
  }

  lemma LeaksAreExact(c: Cell, e: Event)
    requires Inv(c) && Enabled(c, e)
    ensures Next(c, e).state.leaked != c.state.leaked <==> Strays(c, e)
  {
    hide Core, Intended, Based, Landing, CallsInv;
    if c.proc.Running? && e.Step? {
      MintKeeps(c.state, c.proc.call, c.proc.pc, e.x.stamp);
      StepStrays(Mint(c.state, e.x.stamp), c.proc.call, c.proc.pc, e.x);
    }
  }

  lemma StepStrays(s: State, call: Call, pc: Pc, x: Choice)
    requires TempsFor(s, pc) && PcInv(s, call, pc) && Ready(s, call, pc) && (pc.AtTemp? ==> x.tmp !in s.temps)
    ensures var m := AfterStep(s, call, pc, x);
      m.state.leaked != s.leaked <==>
        match pc
        case AtTemp(_, _) => x.answer.FailsApplied?
        case AtTempDrop(_, _, tmp) => tmp in s.temps && (x.answer.FailsClean? || x.answer.Refused?)
        case AtPublished(tmp, _) => tmp in s.temps && (x.answer.FailsClean? || x.answer.Refused?)
        case AtCleanup(tmp, _) => tmp in s.temps && (x.answer.FailsClean? || x.answer.Refused?)
        case AtAfter(_, _, _) => m.pc == Done(Skipped)
        case _ => false
  {
    hide Core, Intended, Based, Landing, Seen, SeenBytes, Unmarked, Base, LastOwn, Gate, Capped, MarkOf;
    if !Filing(pc) {
      TempsUntouched(s, call, pc, x);
      hide AfterStep;
    }
  }

  ghost predicate Neat(c: Cell, es: seq<Event>)
    requires Run(c, es)
    decreases |es|
  {
    es == [] || (!Strays(c, es[0]) && Neat(Next(c, es[0]), es[1..]))
  }

  /** While no such event happens, the only temp file is the running call's own, and none is left when no call runs. */
  lemma NoStrayTemps(node: Node, es: seq<Event>)
    requires RealNode(node) && Run(Start(node), es) && Neat(Start(node), es)
    ensures var c := After(Start(node), es);
      if c.proc.Running? then c.state.temps.Keys <= Active(c.proc.pc) else c.state.temps == map[]
  {
    hide Core, PcInv, Run, Neat, CallsInv;
    Reached(node, es);
    StartInv(node);
    NeatLeaksNothing(Start(node), es);
  }

  /** An abandoned file stays in the directory, as it is, whatever happens later. */
  lemma {:induction false} AbandonedForGood(c: Cell, es: seq<Event>, n: TempName)
    requires Inv(c) && Run(c, es) && n in Abandoned(c)
    ensures var d := After(c, es); n in Abandoned(d) && n in d.state.temps && d.state.temps[n] == c.state.temps[n]
    decreases |es|
  {
    hide Inv, Enabled, Next, Strays;
    if es != [] {
      StraysAreExact(c, es[0]);
      NextKeeps(c, es[0]);
      AbandonedForGood(Next(c, es[0]), es[1..], n);
    }
  }

  lemma {:induction false} AbandonedCountsStrays(c: Cell, es: seq<Event>)
    requires Inv(c) && Run(c, es)
    ensures Abandoned(c) <= Abandoned(After(c, es))
    ensures Abandoned(After(c, es)) == Abandoned(c) <==> Neat(c, es)
    decreases |es|
  {
    hide Inv, Enabled, Next, Strays, Abandoned;
    if es != [] {
      StraysAreExact(c, es[0]);
      NextKeeps(c, es[0]);
      AbandonedCountsStrays(Next(c, es[0]), es[1..]);
    }
  }

  /** When no call runs, the directory is clean if and only if no such event has happened in the whole run. */
  lemma CleanIffNeat(node: Node, es: seq<Event>)
    requires RealNode(node) && Run(Start(node), es)
    ensures var c := After(Start(node), es);
      && (Abandoned(c) == {} <==> Neat(Start(node), es))
      && (c.proc.Idle? ==> (c.state.temps == map[] <==> Neat(Start(node), es)))
  {
    hide Run, Neat, After, Inv;
    StartInv(node);
    AbandonedCountsStrays(Start(node), es);
    var c := After(Start(node), es);
    assert c.proc.Idle? ==> Abandoned(c) == c.state.temps.Keys;
    assert c.state.temps.Keys == {} <==> c.state.temps == map[];
  }

  lemma {:induction false} NeatLeaksNothing(c: Cell, es: seq<Event>)
    requires Inv(c) && Run(c, es) && Neat(c, es)
    ensures After(c, es).state.leaked == c.state.leaked
    decreases |es|
  {
    hide Inv, Enabled, Next, Strays;
    if es != [] {
      StraysAreExact(c, es[0]);
      NextKeeps(c, es[0]);
      NeatLeaksNothing(Next(c, es[0]), es[1..]);
    }
  }
}
