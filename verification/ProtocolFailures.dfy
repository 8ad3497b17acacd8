/**
 When a call that fails leaves the path as it found it: exactly when no file system call of its own took effect behind
 an error, or was undone, overwritten or completed since.
 */
module ProtocolFailures {
  import opened Protocol
  import opened ProtocolInvariant
  import opened ProtocolTheorems

  /** The path shows, by this call's own last change, something else than it showed when the call began to change it. */
  predicate Changed(s: State, call: Call) {
    LastOwn(s, call) && s.node != Base(s, call)
  }

  /** Points at which the call's own change is on its way, or has been reported. */
  predicate Underway(pc: Pc) {
    || (Replacing(pc) && pc.base == Missing) || pc.AtMark? || pc.AtUnclaim?
    || pc.AtCopy? || pc.AtCopyDrop? || pc.AtPublished?
    || (pc.Done? && (pc.reply.WriteDone? || pc.reply.Created?))
  }

  /** A change the handler does not know it has made, or has given up undoing. */
  predicate Tainted(s: State, call: Call, pc: Pc) {
    Changed(s, call) && !Underway(pc)
  }

  /** The events that bring one about: an error behind which the change was made, or a last removal that failed. */
  predicate Taints(s: State, pc: Pc, x: Choice) {
    match pc
    case AtClaim(_) => s.node == Missing && x.answer.FailsApplied?
    case AtRename(base, _, _) => base != Missing && x.answer.FailsApplied?
    case AtUnclaim(_) => s.node != Missing && !x.retry && (x.answer.FailsClean? || x.answer.Refused?)
    case AtLink(_) => s.node == Missing && x.answer.FailsApplied?
    case AtDegrade(_) => s.node == Missing && x.answer.FailsApplied?
    case AtCopyDrop(_) => s.node != Missing && (x.answer.FailsClean? || x.answer.Refused?)
    case _ => false
  }

  /** A step changes whether the path is changed only by what it then shows. */
  lemma ChangedStep(s: State, call: Call, pc: Pc, x: Choice)
    requires Ready(s, call, pc)
    ensures var d := AfterStep(s, call, pc, x).state;
      && Base(d, call) == Base(s, call)
      && ((d.history == s.history && d.node == s.node && Changed(d, call) == Changed(s, call))
          || (LastOwn(d, call) && Changed(d, call) == (d.node != Base(s, call))))
  {
    hide AfterStep;
    StepAppends(s, call, pc, x);
  }

  lemma RenameTaintStep(s: State, call: Call, pc: Pc, x: Choice)
    requires Held(Move(s, pc), call) && pc.AtRename?
    ensures pc.tmp in s.temps
    ensures var m := AfterRename(s, call, pc, x);
      Tainted(m.state, call, m.pc) <==> Taints(s, pc, x) || (Tainted(s, call, pc) && !m.pc.AtMark?)
  {
    hide StampsInv, MarksInv, HistoryInv, TempsFor, Intended, Capped, Seen, SeenBytes, Staged;
  }

  lemma TextTaintStep(s: State, call: Call, pc: Pc, x: Choice)
    requires Held(Move(s, pc), call) && Ready(s, call, pc) && !Staging(pc) && !pc.AtPublished? && !pc.AtCleanup?
    ensures var m := AfterStep(s, call, pc, x);
      Tainted(m.state, call, m.pc) <==> Taints(s, pc, x) || (Tainted(s, call, pc) && !m.pc.AtMark?)
  {
    hide Core, TempsFor, Intended, Based, Capped, Seen, SeenBytes, Staged, AfterRename;
    ChangedStep(s, call, pc, x);
    if pc.AtRename? {
      RenameTaintStep(s, call, pc, x);
    }
  }

  /** Points of an upload at which the path may show its own unfinished or unacknowledged copy. */
  predicate Copying(pc: Pc) {
    pc.AtDegrade? || pc.AtCopy? || pc.AtCopyDrop? || pc.AtPublished? || pc.AtCleanup?
  }

  lemma CopyTaintStep(s: State, call: Call, pc: Pc, x: Choice)
    requires Held(Move(s, pc), call) && Ready(s, call, pc) && Copying(pc)
    ensures var m := AfterStep(s, call, pc, x);
      Tainted(m.state, call, m.pc) <==> Taints(s, pc, x) || (Tainted(s, call, pc) && !m.pc.AtMark?)
  {
    hide StampsInv, MarksInv, HistoryInv, TempsFor, Intended, Based, Landing, Capped, Seen, SeenBytes;
    ChangedStep(s, call, pc, x);
    if Staging(pc) && (s.node == Missing || LastOwn(s, call)) {
      UploadBase(s, call);
    }
  }

  lemma UploadTaintStep(s: State, call: Call, pc: Pc, x: Choice)
    requires Held(Move(s, pc), call) && Ready(s, call, pc) && Staging(pc) && !Copying(pc)
    ensures var m := AfterStep(s, call, pc, x);
      Tainted(m.state, call, m.pc) <==> Taints(s, pc, x) || (Tainted(s, call, pc) && !m.pc.AtMark?)
  {
    hide StampsInv, MarksInv, HistoryInv, TempsFor, Intended, Based, Landing, Capped, Seen, SeenBytes;
    ChangedStep(s, call, pc, x);
    if s.node == Missing {
      UploadBase(s, call);
    }
  }

  lemma TaintStep(s: State, call: Call, pc: Pc, x: Choice)
    requires Held(Move(s, pc), call) && Ready(s, call, pc)
    ensures var m := AfterStep(s, call, pc, x);
      Tainted(m.state, call, m.pc) <==> Taints(s, pc, x) || (Tainted(s, call, pc) && !m.pc.AtMark?)
  {
    hide Held, AfterStep, Tainted, Taints, Ready;
    if Copying(pc) {
      CopyTaintStep(s, call, pc, x);
    } else if Staging(pc) {
      UploadTaintStep(s, call, pc, x);
    } else {
      TextTaintStep(s, call, pc, x);
    }
  }

  // Over whole runs.

  predicate Stained(c: Cell) {
    c.proc.Running? && Tainted(c.state, c.proc.call, c.proc.pc)
  }

  predicate Stains(c: Cell, e: Event)
    requires Enabled(c, e)
  {
    e.Step? && Taints(c.state, c.proc.pc, e.x)
  }

  /** What an event makes of a stain: another program's change, a completed rename and the call's end take it away. */
  predicate Carries(c: Cell, e: Event, was: bool)
    requires Enabled(c, e)
  {
    Stains(c, e) || (e.Step? && was && !Next(c, e).proc.pc.AtMark?)
  }

  lemma StainNext(c: Cell, e: Event)
    requires Inv(c) && Enabled(c, e)
    ensures Stained(Next(c, e)) <==> Carries(c, e, Stained(c))
  {
    hide Core, TempsFor, PcInv, AfterStep, Underway, Taints;
    match e
    case Acquire(token, op, _, _) => NewCallOwnsNothing(c, token, op);
    case Step(x) =>
      MintKeeps(c.state, c.proc.call, c.proc.pc, x.stamp);
      StepKeeps(c.state, c.proc.call, c.proc.pc, x);
      MintStains(c.state, c.proc.call, c.proc.pc, x);
      TaintStep(Mint(c.state, x.stamp), c.proc.call, c.proc.pc, x);
    case Release =>
    case ExternalWrite(_) =>
  }

  lemma MintStains(s: State, call: Call, pc: Pc, x: Choice)
    ensures Tainted(Mint(s, x.stamp), call, pc) == Tainted(s, call, pc)
    ensures Taints(Mint(s, x.stamp), pc, x) == Taints(s, pc, x)
  {
  }

  /** The stain after a run, read off its events alone. */
  ghost predicate Tracked(c: Cell, es: seq<Event>, was: bool)
    requires Run(c, es)
    decreases |es|
  {
    if es == [] then was else Tracked(Next(c, es[0]), es[1..], Carries(c, es[0], was))
  }

  lemma {:induction false} TrackedIsStained(c: Cell, es: seq<Event>)
    requires Inv(c) && Run(c, es)
    ensures Tracked(c, es, Stained(c)) <==> Stained(After(c, es))
    decreases |es|
  {
    hide Inv, Enabled, Next, Stained, Carries;
    if es != [] {
      StainNext(c, es[0]);
      NextKeeps(c, es[0]);
      TrackedIsStained(Next(c, es[0]), es[1..]);
    }
  }

  /**
   A failed call leaves the path changed by its own hand if and only if one of its calls took effect behind an error, or
   its last removal failed, and no other program's change has come on top since.
   */
  lemma FailedCallsRestoreExactly(node: Node, es: seq<Event>)
    requires RealNode(node) && Run(Start(node), es)
    ensures var c := After(Start(node), es);
      c.proc.Running? && c.proc.pc.Done? && c.proc.pc.reply.Failed?
      ==> (Changed(c.state, c.proc.call) <==> Tracked(Start(node), es, false))
  {
    hide Inv, Run, Tracked, Changed;
    StartInv(node);
    TrackedIsStained(Start(node), es);
  }

  ghost predicate Unstained(c: Cell, es: seq<Event>)
    requires Run(c, es)
    decreases |es|
  {
    es == [] || (!Stains(c, es[0]) && Unstained(Next(c, es[0]), es[1..]))
  }

  lemma {:induction false} UnstainedIsNotTracked(c: Cell, es: seq<Event>)
    requires Run(c, es) && Unstained(c, es)
    ensures !Tracked(c, es, false)
    decreases |es|
  {
    hide Enabled, Next, Stains;
    if es != [] {
      UnstainedIsNotTracked(Next(c, es[0]), es[1..]);
    }
  }

  /** Over a run with no such event every call that fails leaves the path as it found it, or as another program left it. */
  lemma FailedCallsRestore(node: Node, es: seq<Event>)
    requires RealNode(node) && Run(Start(node), es) && Unstained(Start(node), es)
    ensures var c := After(Start(node), es);
      c.proc.Running? && c.proc.pc.Done? && c.proc.pc.reply.Failed? ==> !Changed(c.state, c.proc.call)
  {
    hide Run, Tracked, Changed, Unstained;
    FailedCallsRestoreExactly(node, es);
    UnstainedIsNotTracked(Start(node), es);
  }

  lemma StepStays(c: Cell, e: Event)
    requires c.proc.Running? && Enabled(c, e) && e.Step?
    ensures var d := Next(c, e);
      && d.proc.Running? && d.proc.call == c.proc.call && !c.proc.pc.Done?
      && (c.proc.pc.AtMark? ==> d.proc.pc.AtMark? || d.proc.pc == Done(WriteDone))
  {
    hide Intended, AfterStat, AfterSnapshot;
  }

  lemma {:induction false} MarkEndsWell(c: Cell, es: seq<Event>)
    requires Run(c, es) && c.proc.Running? && (c.proc.pc.AtMark? || c.proc.pc == Done(WriteDone))
    requires forall i :: 0 <= i < |es| ==> es[i].Step?
    ensures var d := After(c, es);
      d.proc.Running? && d.proc.call == c.proc.call && (d.proc.pc.AtMark? || d.proc.pc == Done(WriteDone))
    decreases |es|
  {
    hide Enabled, Next;
    if es != [] {
      assert es[0].Step?;
      StepStays(c, es[0]);
      MarkEndsWell(Next(c, es[0]), es[1..]);
    }
  }

  /** Left alone by other programs, a stain stays until the call goes on to complete its rename and report success. */
  lemma {:induction false} StainsStay(c: Cell, es: seq<Event>)
    requires Inv(c) && Run(c, es) && Stained(c) && forall i :: 0 <= i < |es| ==> es[i].Step?
    ensures var d := After(c, es);
      && d.proc.Running? && d.proc.call == c.proc.call
      && (Stained(d) || d.proc.pc.AtMark? || d.proc.pc == Done(WriteDone))
    decreases |es|
  {
    hide Inv, Enabled, Next, Tainted, Stains;
    if es != [] {
      assert es[0].Step?;
      StainNext(c, es[0]);
      NextKeeps(c, es[0]);
      StepStays(c, es[0]);
      if Next(c, es[0]).proc.pc.AtMark? {
        MarkEndsWell(Next(c, es[0]), es[1..]);
      } else {
        StainsStay(Next(c, es[0]), es[1..]);
      }
    }
  }

  /** Each such event shows: left alone by other programs, the call it happens to either succeeds or fails with the path changed. */
  lemma StainsShow(c: Cell, e: Event, es: seq<Event>)
    requires Inv(c) && Enabled(c, e) && Stains(c, e) && Run(Next(c, e), es) && forall i :: 0 <= i < |es| ==> es[i].Step?
    ensures var d := After(Next(c, e), es);
      && d.proc.Running? && d.proc.call == c.proc.call
      && (d.proc.pc.Done? && d.proc.pc.reply.Failed? ==> Changed(d.state, d.proc.call))
  {
    assert e.Step? && c.proc.Running?;
    hide Inv, Enabled, Next, Stains, Changed;
    StainNext(c, e);
    NextKeeps(c, e);
    StepStays(c, e);
    StainsStay(Next(c, e), es);
  }
}
