/**
 What the soundness of markers takes by itself: other programs may write at any time but one, between the rename that
 publishes a file and the stat its marker is taken from.
 */
module ProtocolMarkers {
  import opened Protocol
  import opened ProtocolInvariant
  import opened ProtocolTheorems

  /** Other programs write whenever no handler is about to stat what it has just published. */
  predicate OpenEnabled(c: Cell, e: Event) {
    if e.ExternalWrite?
    then (c.proc.Running? ==> !c.proc.pc.AtMark?) && (e.node != Missing ==> FreshStamp(c.state, e.node.mtime))
    else Enabled(c, e)
  }

  function OpenNext(c: Cell, e: Event): Cell
    requires OpenEnabled(c, e)
  {
    if e.ExternalWrite? then c.(state := ExternalChange(c.state, e.node)) else Next(c, e)
  }

  ghost predicate OpenRun(c: Cell, es: seq<Event>)
    decreases |es|
  {
    es == [] || (OpenEnabled(c, es[0]) && OpenRun(OpenNext(c, es[0]), es[1..]))
  }

  ghost function OpenAfter(c: Cell, es: seq<Event>): Cell
    requires OpenRun(c, es)
    decreases |es|
  {
    if es == [] then c else OpenAfter(OpenNext(c, es[0]), es[1..])
  }

  /** The runs of the other theorems are among these. */
  lemma {:induction false} RunsAreOpen(c: Cell, es: seq<Event>)
    requires Run(c, es)
    ensures OpenRun(c, es) && OpenAfter(c, es) == After(c, es)
    decreases |es|
  {
    if es != [] {
      RunsAreOpen(Next(c, es[0]), es[1..]);
    }
  }

  /** All that the markers rest on: what was read, and that a file about to be shown bears a stamp no marker mentions. */
  predicate Knows(s: State, call: Call, pc: Pc) {
    && StampsInv(s) && MarksInv(s)
    && (pc.AtRead? || pc.Snapped? ==> Seen(s, pc.st))
    && (pc.Snapped? ==> SeenBytes(s, pc.st, pc.data))
    && (pc.AtTempWrite? || pc.AtRename? || Staging(pc) ==> pc.tmp in s.temps)
    && (pc.AtRename? ==> s.temps[pc.tmp].bytes == pc.out && Unmarked(s, s.temps[pc.tmp].mtime))
    && (pc.AtMark? ==> s.node.Regular? && s.node.bytes == pc.out)
    && (Staging(pc) ==> call.op.UploadOp? && Unmarked(s, s.temps[pc.tmp].mtime))
  }

  lemma MintKnows(s: State, call: Call, pc: Pc, m: Stamp)
    requires Knows(s, call, pc) && FreshStamp(s, m)
    ensures Knows(Mint(s, m), call, pc) && Unmarked(Mint(s, m), m)
  {
    FreshIsUnmarked(s, m);
    NewStampKeepsMarks(s, Mint(s, m));
  }

  lemma ShowKnows(s: State, call: Call, node: Node)
    requires StampsInv(s) && MarksInv(s) && (node != Missing ==> Unmarked(s, node.mtime))
    ensures StampsInv(Show(s, call, node)) && MarksInv(Show(s, call, node))
  {
    NewStampKeepsMarks(s, Show(s, call, node));
  }

  lemma TokenKnows(s: State, t: Token, m: Mark)
    requires StampsInv(s) && MarksInv(s) && (m.marker.mtime == ZERO || SeenBytes(s, m.marker, m.bytes))
    ensures MarksInv(s.(marks := s.marks[t := m]))
  {
    var d := s.(marks := s.marks[t := m]);
    forall k | k in d.marks ensures MarkSound(d, k) {
      if k != t {
        assert MarkSound(s, k);
      }
    }
  }

  lemma ReadKnows(s: State, call: Call, pc: Pc, x: Choice)
    requires Knows(s, call, pc) && (pc.AtStat? || pc.AtRead? || pc.Snapped? || pc.AtRestat?)
    requires pc.AtRead? && s.node.Regular? && Untouched(s.node, pc.st) ==> x.data == s.node.bytes
    ensures var m := AfterStep(s, call, pc, x); Knows(m.state, call, m.pc)
  {
    hide Intended;
    if pc.Snapped? {
      TokenKnows(s, call.token, Mark(pc.st, pc.data));
    }
  }

  lemma ClaimKnows(s: State, call: Call, pc: Pc, x: Choice)
    requires Knows(s, call, pc) && Unmarked(s, x.stamp) && (pc.AtClaim? || pc.AtUnclaim?)
    ensures var m := AfterStep(s, call, pc, x); Knows(m.state, call, m.pc)
  {
    hide MarksInv, Show;
    ShowKnows(s, call, Regular([], x.stamp));
    ShowKnows(s, call, Missing);
  }

  lemma TempKnows(s: State, call: Call, pc: Pc, x: Choice)
    requires Knows(s, call, pc) && Unmarked(s, x.stamp) && (pc.AtTemp? || pc.AtTempWrite? || pc.AtTempDrop?)
    ensures var m := AfterStep(s, call, pc, x); Knows(m.state, call, m.pc)
  {
    hide MarksInv;
    NewStampKeepsMarks(s, AfterStep(s, call, pc, x).state);
  }

  lemma RenameKnows(s: State, call: Call, pc: Pc, x: Choice)
    requires Knows(s, call, pc) && pc.AtRename?
    ensures var m := AfterStep(s, call, pc, x); Knows(m.state, call, m.pc)
  {
    hide MarksInv;
    var mid := s.(temps := s.temps - {pc.tmp});
    NewStampKeepsMarks(s, mid);
    ShowKnows(mid, call, Regular(s.temps[pc.tmp].bytes, s.temps[pc.tmp].mtime));
    hide Show;
  }

  lemma PublishedKnows(s: State, call: Call, pc: Pc, x: Choice)
    requires Knows(s, call, pc) && pc.AtMark?
    ensures var m := AfterStep(s, call, pc, x); Knows(m.state, call, m.pc)
  {
    var marker := if x.answer.Succeeds? then MarkerOf(s.node) else Marker(|pc.out|, ZERO);
    TokenKnows(s, call.token, Mark(marker, pc.out));
    hide MarksInv;
  }

  lemma CompareKnows(s: State, call: Call, pc: Pc, x: Choice)
    requires Knows(s, call, pc) && (pc.AtLstat? || pc.AtRaced? || pc.AtCompare? || pc.AtAfter? || pc.AtTempCheck?)
    ensures Ready(s, call, pc)
    ensures var m := AfterStep(s, call, pc, x); Knows(m.state, call, m.pc)
  {
    NewStampKeepsMarks(s, AfterStep(s, call, pc, x).state);
    hide MarksInv;
  }

  lemma LinkKnows(s: State, call: Call, pc: Pc, x: Choice)
    requires Knows(s, call, pc) && Unmarked(s, x.stamp) && (pc.AtLink? || pc.AtDegrade?)
    ensures Ready(s, call, pc)
    ensures var m := AfterStep(s, call, pc, x); Knows(m.state, call, m.pc)
  {
    hide MarksInv;
    ShowKnows(s, call, Regular(s.temps[pc.tmp].bytes, s.temps[pc.tmp].mtime));
    ShowKnows(s, call, Regular([], x.stamp));
  }

  lemma CopyDropKnows(s: State, call: Call, pc: Pc, x: Choice)
    requires Knows(s, call, pc) && pc.AtCopyDrop?
    ensures var m := AfterStep(s, call, pc, x); Knows(m.state, call, m.pc)
  {
    hide MarksInv;
    ShowKnows(s, call, Missing);
  }

  lemma CopyKnows(s: State, call: Call, pc: Pc, x: Choice)
    requires Knows(s, call, pc) && Unmarked(s, x.stamp) && pc.AtCopy?
    ensures Ready(s, call, pc)
    ensures var m := AfterStep(s, call, pc, x); Knows(m.state, call, m.pc)
  {
    hide MarksInv;
    var data := s.temps[pc.tmp].bytes;
    if x.n <= |data| {
      ShowKnows(s, call, Regular(data[..x.n], x.stamp));
    }
  }

  lemma EndKnows(s: State, call: Call, pc: Pc, x: Choice)
    requires Knows(s, call, pc) && (pc.AtPublished? || pc.AtCleanup?)
    ensures var m := AfterStep(s, call, pc, x); Knows(m.state, call, m.pc)
  {
    var m := AfterStep(s, call, pc, x);
    forall t | t in m.state.marks ensures MarkSound(m.state, t) {
      assert MarkSound(s, t);
    }
  }

  lemma StepKnows(s: State, call: Call, pc: Pc, x: Choice)
    requires Knows(s, call, pc) && Ready(s, call, pc) && CanStep(s, pc, x)
    ensures var m := AfterStep(Mint(s, x.stamp), call, pc, x); Knows(m.state, call, m.pc)
  {
    var t := Mint(s, x.stamp);
    MintKnows(s, call, pc, x.stamp);
    hide Knows, AfterStep, Unmarked;
    match pc
    case AtStat => ReadKnows(t, call, pc, x);
    case AtRead(_) => ReadKnows(t, call, pc, x);
    case Snapped(_, _) => ReadKnows(t, call, pc, x);
    case AtRestat(_, _, _) => ReadKnows(t, call, pc, x);
    case AtClaim(_) => ClaimKnows(t, call, pc, x);
    case AtUnclaim(_) => ClaimKnows(t, call, pc, x);
    case AtTemp(_, _) => TempKnows(t, call, pc, x);
    case AtTempWrite(_, _, _) => TempKnows(t, call, pc, x);
    case AtTempDrop(_, _, _) => TempKnows(t, call, pc, x);
    case AtRename(_, _, _) => RenameKnows(t, call, pc, x);
    case AtMark(_, _) => PublishedKnows(t, call, pc, x);
    case AtLink(_) => LinkKnows(t, call, pc, x);
    case AtDegrade(_) => LinkKnows(t, call, pc, x);
    case AtCopyDrop(_) => CopyDropKnows(t, call, pc, x);
    case AtCopy(_, _) => CopyKnows(t, call, pc, x);
    case AtPublished(_, _) => EndKnows(t, call, pc, x);
    case AtCleanup(_, _) => EndKnows(t, call, pc, x);
    case _ => CompareKnows(t, call, pc, x);
  }

  /** Between calls the markers are sound; during one, the handler knows what it needs to keep them so. */
  predicate Sound(c: Cell) {
    if c.proc.Running? then Knows(c.state, c.proc.call, c.proc.pc) else StampsInv(c.state) && MarksInv(c.state)
  }

  lemma OutsideKnows(c: Cell, node: Node)
    requires Sound(c) && OpenEnabled(c, ExternalWrite(node))
    ensures Sound(OpenNext(c, ExternalWrite(node)))
  {
    var d := ExternalChange(c.state, node);
    if node != Missing {
      FreshIsUnmarked(c.state, node.mtime);
    }
    NewStampKeepsMarks(c.state, d);
    hide MarksInv;
  }

  lemma AcquireKnows(c: Cell, e: Event)
    requires Sound(c) && e.Acquire? && OpenEnabled(c, e)
    ensures Sound(OpenNext(c, e))
  {
    FreshIsUnmarked(c.state, e.stamp);
    NewStampKeepsMarks(c.state, OpenNext(c, e).state);
    hide MarksInv;
  }

  lemma OpenNextKeeps(c: Cell, e: Event)
    requires Sound(c) && OpenEnabled(c, e)
    ensures Sound(OpenNext(c, e))
  {
    match e
    case Acquire(_, _, _, _) => AcquireKnows(c, e);
    case ExternalWrite(node) => OutsideKnows(c, node);
    case Step(x) =>
      StepKnows(c.state, c.proc.call, c.proc.pc, x);
      hide Knows, AfterStep;
    case Release =>
  }

  lemma {:induction false} OpenRunKeeps(c: Cell, es: seq<Event>)
    requires Sound(c) && OpenRun(c, es)
    ensures Sound(OpenAfter(c, es))
    decreases |es|
  {
    hide Sound, OpenEnabled, OpenNext;
    if es != [] {
      OpenNextKeeps(c, es[0]);
      OpenRunKeeps(OpenNext(c, es[0]), es[1..]);
    }
  }

  /**
   A token's marker that matches the path means that its call obtained exactly the bytes now shown, on every run in
   which other programs stay away between a rename and the stat after it. They may write anywhere else: before the
   rename, during a degraded copy, while a claim is being taken back.
   */
  lemma MarkersNeedOneWindow(node: Node, es: seq<Event>, t: Token)
    requires RealNode(node) && OpenRun(Start(node), es)
    ensures var s := OpenAfter(Start(node), es).state;
      t in s.marks && Fits(s.marks[t].marker, s.node)
      ==> s.marks[t].marker.mtime != ZERO && s.node == Regular(s.marks[t].bytes, s.marks[t].marker.mtime)
  {
    hide OpenRun, OpenAfter;
    assert Sound(Start(node));
    OpenRunKeeps(Start(node), es);
    var c := OpenAfter(Start(node), es);
    assert t in c.state.marks ==> MarkSound(c.state, t);
  }
}
