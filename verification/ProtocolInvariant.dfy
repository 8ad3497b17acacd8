/** The invariant of the one-path machine, kept by every step, and what it means over whole runs. */
module ProtocolInvariant {
  import opened Wrappers
  import opened ByteSearch
  import opened Protocol

  // History: a chain of versions, each change permitted.

  /** The version change i replaces was left by the same call. */
  predicate Own(h: seq<Change>, i: nat)
    requires i < |h|
  {
    i > 0 && h[i].cause.By? && h[i - 1].cause == h[i].cause
  }

  /**
   A change a call may make to the path, `base` being what the path showed when its stretch of changes began. An upload
   begins on a missing name and leaves its image, a part of its copy, or nothing again. A text call leaves, over a file
   whose exact bytes its token had obtained and held the marker of, only what its edits make of those bytes; on a
   missing name, a write leaves its empty claim, its complete content, or nothing again.
   */
  predicate Permitted(op: Op, base: Node, mark: Option<Mark>, after: Node) {
    match op
    case ReadOp => false
    case UploadOp(image) => base == Missing && (after == Missing || (after.Regular? && after.bytes <= image))
    case _ =>
      if base == Missing
      then op.WriteOp? && (after == Missing || (after.Regular? && (after.bytes == [] || after.bytes == op.content)))
      else
        && base.Regular? && mark == Some(Mark(MarkerOf(base), base.bytes))
        && after.Regular? && Intended(op, base.bytes) == Ok(after.bytes)
  }

  predicate Legit(ch: Change) {
    ch.cause.By? ==> Permitted(ch.cause.call.op, ch.base, ch.mark, ch.after)
  }

  /** What the path showed before change i of a history, or after the whole of it. */
  function Version(origin: Node, h: seq<Change>, i: nat): Node
    requires i <= |h|
  {
    if i == 0 then origin else h[i - 1].after
  }

  /** Change i starts from the version before it, and belongs to the stretch of the call that left that version, if any. */
  predicate Linked(origin: Node, h: seq<Change>, i: nat)
    requires i < |h|
  {
    && h[i].before == Version(origin, h, i)
    && h[i].base == (if Own(h, i) then h[i - 1].base else h[i].before)
  }

  predicate HistoryInv(s: State) {
    && s.node == Version(s.origin, s.history, |s.history|)
    && forall i :: 0 <= i < |s.history| ==> Linked(s.origin, s.history, i) && Legit(s.history[i])
  }

  // Stamps, marks and temp files.

  predicate StampsInv(s: State) {
    && ZERO !in s.minted
    && (s.node != Missing ==> s.node.mtime in s.minted)
    && (forall t :: t in s.temps ==> s.temps[t].mtime in s.minted)
  }

  /** Whenever a token's marker matches the path, its call obtained exactly the bytes the path now shows. */
  predicate MarkSound(s: State, t: Token)
    requires t in s.marks
  {
    && (s.marks[t].marker.mtime == ZERO || s.marks[t].marker.mtime in s.minted)
    && (Fits(s.marks[t].marker, s.node) ==> s.node.Regular? && s.marks[t].bytes == s.node.bytes)
  }

  predicate MarksInv(s: State) {
    forall t :: t in s.marks ==> MarkSound(s, t)
  }

  /** A stamp no marker mentions. */
  predicate Unmarked(s: State, m: Stamp) {
    m in s.minted && forall t :: t in s.marks ==> s.marks[t].marker.mtime != m
  }

  function Active(pc: Pc): set<TempName> {
    match pc
    case AtTempWrite(_, _, tmp) => {tmp}
    case AtRename(_, _, tmp) => {tmp}
    case AtTempDrop(_, _, tmp) => {tmp}
    case AtLstat(tmp) => {tmp}
    case AtCompare(tmp, _) => {tmp}
    case AtAfter(tmp, _, _) => {tmp}
    case AtTempCheck(tmp) => {tmp}
    case AtLink(tmp) => {tmp}
    case AtRaced(tmp) => {tmp}
    case AtDegrade(tmp) => {tmp}
    case AtCopy(tmp, _) => {tmp}
    case AtCopyDrop(tmp) => {tmp}
    case AtPublished(tmp, _) => {tmp}
    case AtCleanup(tmp, _) => {tmp}
    case _ => {}
  }

  /** The temp files that exist are the running call's own and the recorded leaks. */
  predicate TempsFor(s: State, pc: Pc) {
    && s.leaked.Keys <= s.temps.Keys <= s.leaked.Keys + Active(pc)
    && Active(pc) !! s.leaked.Keys
  }

  /** What holds of the path itself, whoever is running. */
  predicate Core(s: State) {
    StampsInv(s) && MarksInv(s) && HistoryInv(s)
  }

  // What each program point knows.

  predicate Seen(s: State, st: Marker) {
    st.mtime in s.minted && (Untouched(s.node, st) ==> s.node.Regular? && |s.node.bytes| == st.size)
  }

  predicate SeenBytes(s: State, st: Marker, data: Bytes) {
    Seen(s, st) && (Untouched(s.node, st) ==> s.node.bytes == data)
  }

  /** What a text call in its window replaces, and the right it has to. */
  predicate Based(s: State, call: Call, base: Node, out: Bytes) {
    if base == Missing then call.op == WriteOp(out)
    else
      && base.Regular? && Intended(call.op, base.bytes) == Ok(out)
      && call.token in s.marks && s.marks[call.token] == Mark(MarkerOf(base), base.bytes)
  }

  /** Inside the window the path shows the version to replace, the call's own claim, or the complete new content. */
  predicate Landing(s: State, call: Call, base: Node, out: Bytes) {
    && Base(s, call) == base
    && (LastOwn(s, call) ==> s.node != base && s.node.Regular? && (s.node.bytes == out || (base == Missing && s.node.bytes == [])))
    && (base == Missing ==> LastOwn(s, call))
  }

  predicate Staged(s: State, call: Call, tmp: TempName) {
    && call.op.UploadOp? && |call.op.image| <= MAX_IMAGE_BYTES
    && tmp in s.temps && s.temps[tmp].bytes == call.op.image && Unmarked(s, s.temps[tmp].mtime)
  }

  predicate IsText(op: Op) {
    op.EditOp? || op.MultiEditOp? || op.WriteOp?
  }

  /** Points that know what they replace and by what. */
  predicate Replacing(pc: Pc) {
    pc.AtTemp? || pc.AtTempWrite? || pc.AtRename? || pc.AtTempDrop? || pc.AtMark?
  }

  /** Points of an upload whose temp file must still hold the whole image. */
  predicate Staging(pc: Pc) {
    || pc.AtLstat? || pc.AtRaced? || pc.AtCompare? || pc.AtAfter? || pc.AtTempCheck? || pc.AtLink? || pc.AtDegrade?
    || pc.AtCopy? || pc.AtCopyDrop?
  }

  predicate PcInv(s: State, call: Call, pc: Pc) {
    // Before a text call has touched the path.
    && (pc.AtStat? ==> !call.op.UploadOp? && !LastOwn(s, call))
    && (pc.AtRead? || pc.Snapped? ==> !call.op.UploadOp? && !call.op.WriteOp? && !LastOwn(s, call))
    && (pc.AtRead? || pc.Snapped? || pc.AtRestat? || pc.AtCompare? || pc.AtAfter? ==> Seen(s, pc.st))
    && (pc.Snapped? || pc.AtRestat? ==> SeenBytes(s, pc.st, pc.data))
    && (pc.AtRestat? ==>
          && IsText(call.op) && !LastOwn(s, call) && Intended(call.op, pc.data) == Ok(pc.out)
          && call.token in s.marks && s.marks[call.token].marker == pc.st)
    && (pc.AtClaim? ==> call.op == WriteOp(pc.out) && (LastOwn(s, call) ==> s.node.Regular? && Base(s, call) == Missing))
    // Its window.
    && (Replacing(pc) ==> IsText(call.op) && Based(s, call, pc.base, pc.out) && Landing(s, call, pc.base, pc.out))
    && (pc.AtTempWrite? || pc.AtRename? ==> pc.tmp in s.temps)
    && (pc.AtRename? ==> s.temps[pc.tmp].bytes == pc.out && Unmarked(s, s.temps[pc.tmp].mtime))
    && (pc.AtMark? ==> LastOwn(s, call) && s.node.Regular? && s.node.bytes == pc.out)
    && (pc.AtUnclaim? ==>
          call.op == WriteOp(pc.out) && Base(s, call) == Missing && (s.node == Missing || Landing(s, call, Missing, pc.out)))
    // An upload.
    && (Staging(pc) ==> Staged(s, call, pc.tmp))
    && (pc.AtAfter? ==> |pc.data| <= MAX_IMAGE_BYTES && (Untouched(s.node, pc.st) ==> pc.data == Capped(s.node.bytes)))
    && (pc.AtCopy? ==>
          LastOwn(s, call) && pc.n <= |call.op.image| && s.node.Regular? && s.node.bytes == call.op.image[..pc.n])
    && (pc.AtCopyDrop? ==>
          s.node == Missing || (LastOwn(s, call) && s.node.Regular? && s.node.bytes <= call.op.image))
    && (pc.AtPublished? || pc.AtCleanup? ==> call.op.UploadOp?)
  }

  /** What holds whenever the lock is held, with the handler at this point. */
  predicate Held(m: Move, call: Call) {
    Core(m.state) && TempsFor(m.state, m.pc) && PcInv(m.state, call, m.pc)
  }

  /** No change is by a call still to come, so one call's stretch is never mistaken for another's. */
  predicate CallsInv(c: Cell) {
    && (forall i :: 0 <= i < |c.state.history| && c.state.history[i].cause.By? ==> c.state.history[i].cause.call.id < c.calls)
    && (c.proc.Running? ==> c.proc.call.id < c.calls)
  }

  predicate Inv(c: Cell) {
    && CallsInv(c)
    && if c.proc.Running? then Held(Move(c.state, c.proc.pc), c.proc.call)
       else Core(c.state) && c.state.temps.Keys == c.state.leaked.Keys
  }

  lemma InvHeld(c: Cell)
    requires Inv(c) && c.proc.Running?
    ensures Held(Move(c.state, c.proc.pc), c.proc.call)
  {
  }

  lemma ReadyInside(c: Cell)
    requires Inv(c) && c.proc.Running? && !c.proc.pc.Done?
    ensures Ready(c.state, c.proc.call, c.proc.pc)
  {
    hide Core, TempsFor, CallsInv, Intended;
  }

  /** However many stamps or names are taken, another one is free. */
  lemma {:induction false} Above(taken: set<nat>) returns (n: nat)
    ensures n > 0 && forall t :: t in taken ==> t < n
    decreases |taken|
  {
    n := 1;
    if taken != {} {
      var t :| t in taken;
      n := Above(taken - {t});
      assert forall u :: u in taken ==> u == t || u in taken - {t};
      n := if t < n then n else t + 1;
    }
  }

  // What changes of the state keep.

  lemma StartInv(node: Node)
    requires node != Missing ==> node.mtime != ZERO
    ensures Inv(Start(node))
  {
    hide Intended;
  }

  /** Appending a permitted change keeps the history. */
  lemma HistoryGrows(s: State, ch: Change)
    requires HistoryInv(s) && Legit(ch) && Linked(s.origin, s.history + [ch], |s.history|)
    ensures HistoryInv(s.(node := ch.after, history := s.history + [ch]))
  {
    hide Legit;
    var h := s.history + [ch];
    forall i | 0 <= i < |h| ensures Linked(s.origin, h, i) && Legit(h[i]) {
      if i < |s.history| {
        assert Linked(s.origin, s.history, i) && h[i] == s.history[i];
        assert Version(s.origin, h, i) == Version(s.origin, s.history, i);
      }
    }
  }

  /** A change of the path to something whose stamp no marker mentions leaves every mark sound. */
  lemma NewStampKeepsMarks(s: State, d: State)
    requires StampsInv(s) && MarksInv(s) && d.marks == s.marks && s.minted <= d.minted
    requires d.node == s.node || d.node == Missing
             || (forall t :: t in s.marks ==> s.marks[t].marker.mtime != d.node.mtime)
    ensures MarksInv(d)
  {
    forall t | t in d.marks ensures MarkSound(d, t) {
      assert MarkSound(s, t);
    }
  }

  lemma FreshIsUnmarked(s: State, m: Stamp)
    requires StampsInv(s) && MarksInv(s) && FreshStamp(s, m)
    ensures Unmarked(Mint(s, m), m)
  {
    forall t | t in s.marks ensures s.marks[t].marker.mtime != m {
      assert MarkSound(s, t);
    }
  }

  lemma MintKeepsCore(s: State, m: Stamp)
    requires Core(s) && FreshStamp(s, m)
    ensures Core(Mint(s, m)) && Unmarked(Mint(s, m), m)
  {
    FreshIsUnmarked(s, m);
    NewStampKeepsMarks(s, Mint(s, m));
  }

  lemma MintKeeps(s: State, call: Call, pc: Pc, m: Stamp)
    requires Held(Move(s, pc), call) && FreshStamp(s, m)
    ensures Held(Move(Mint(s, m), pc), call) && Unmarked(Mint(s, m), m)
  {
    hide HistoryInv, MarksInv, Intended;
    MintKeepsCore(s, m);
  }

  lemma ShowKeepsCore(s: State, call: Call, node: Node)
    requires Core(s) && Legit(Change(By(call), Base(s, call), s.node, node, MarkOf(s, call.token)))
    requires node != Missing ==> Unmarked(s, node.mtime)
    ensures Core(Show(s, call, node)) && LastOwn(Show(s, call, node), call)
  {
    var d := Show(s, call, node);
    HistoryGrows(s, d.history[|s.history|]);
    NewStampKeepsMarks(s, d);
  }

  /** A token may be given a marker of a stat whose bytes it obtained, or one no file can match. */
  lemma MarkKeepsCore(s: State, t: Token, m: Mark)
    requires Core(s) && (m.marker.mtime == ZERO || SeenBytes(s, m.marker, m.bytes))
    ensures Core(s.(marks := s.marks[t := m]))
  {
    var d := s.(marks := s.marks[t := m]);
    forall k | k in d.marks ensures MarkSound(d, k) {
      if k != t {
        assert MarkSound(s, k);
      }
    }
  }

  /** Which temp files and leaks there are says nothing of the path, as long as every temp's stamp was minted. */
  lemma TempsKeepCore(s: State, d: State)
    requires Core(s) && d == s.(temps := d.temps, leaked := d.leaked)
    requires forall t :: t in d.temps ==> d.temps[t].mtime in s.minted
    ensures Core(d)
  {
    NewStampKeepsMarks(s, d);
  }

  lemma ExternalKeepsHistory(s: State, node: Node)
    requires HistoryInv(s)
    ensures HistoryInv(ExternalChange(s, node))
  {
    HistoryGrows(s, Change(External, s.node, s.node, node, None));
  }

  lemma ExternalKeepsCore(s: State, node: Node)
    requires Core(s) && (node != Missing ==> FreshStamp(s, node.mtime))
    ensures Core(ExternalChange(s, node))
  {
    hide HistoryInv;
    ExternalKeepsHistory(s, node);
    if node != Missing {
      FreshIsUnmarked(s, node.mtime);
    }
    NewStampKeepsMarks(s, ExternalChange(s, node));
  }

  lemma ExternalKeeps(s: State, call: Call, pc: Pc, node: Node)
    requires Held(Move(s, pc), call) && !InWindow(pc) && (node != Missing ==> FreshStamp(s, node.mtime))
    ensures Held(Move(ExternalChange(s, node), pc), call)
  {
    hide HistoryInv, MarksInv, Intended;
    ExternalKeepsCore(s, node);
  }

  // What each program point's step keeps.

  lemma KeepStat(s: State, call: Call, x: Choice)
    requires Held(Move(s, AtStat), call)
    ensures Held(AfterStat(s, call, x), call)
  {
    hide HistoryInv;
    assert s.node.Regular? && call.token in s.marks ==> MarkSound(s, call.token);
  }

  lemma KeepRead(s: State, call: Call, st: Marker, x: Choice)
    requires Held(Move(s, AtRead(st)), call)
    requires s.node.Regular? && Untouched(s.node, st) ==> x.data == s.node.bytes
    ensures Held(AfterRead(s, call, st, x), call)
  {
    hide HistoryInv, Intended;
  }

  lemma KeepSnapshot(s: State, call: Call, st: Marker, data: Bytes)
    requires Held(Move(s, Snapped(st, data)), call)
    ensures Held(AfterSnapshot(s, call, st, data), call)
  {
    hide HistoryInv, Intended;
    if call.op.ReadOp? {
      MarkKeepsCore(s, call.token, Mark(st, data));
    }
  }

  lemma KeepRestat(s: State, call: Call, pc: Pc, x: Choice)
    requires pc.AtRestat? && Held(Move(s, pc), call)
    ensures Held(AfterRestat(s, call, pc, x), call)
  {
    hide HistoryInv, Intended;
    assert MarkSound(s, call.token);
  }

  lemma KeepClaim(s: State, call: Call, out: Bytes, x: Choice)
    requires Held(Move(s, AtClaim(out)), call) && Unmarked(s, x.stamp)
    ensures Held(AfterClaim(s, call, out, x), call)
  {
    hide HistoryInv, Intended;
    if s.node == Missing {
      ShowKeepsCore(s, call, Regular([], x.stamp));
    }
  }

  /** A new temp file, whatever becomes of it, says nothing of the path. */
  lemma TempAddKeepsCore(s: State, tmp: TempName, temp: Temp, leaked: map<TempName, LeakCause>)
    requires Core(s) && temp.mtime in s.minted
    ensures Core(s.(temps := s.temps[tmp := temp], leaked := leaked))
  {
    hide HistoryInv, MarksInv;
    TempsKeepCore(s, s.(temps := s.temps[tmp := temp], leaked := leaked));
  }

  /** What a text call knows of its window does not depend on temp files. */
  lemma SameWindow(s: State, d: State, call: Call, base: Node, out: Bytes)
    requires d.node == s.node && d.history == s.history && d.marks == s.marks
    ensures Based(d, call, base, out) == Based(s, call, base, out)
    ensures Landing(d, call, base, out) == Landing(s, call, base, out) && Base(d, call) == Base(s, call)
  {
  }

  lemma ClaimWindow(s: State, call: Call, out: Bytes)
    requires Based(s, call, Missing, out) && Landing(s, call, Missing, out)
    ensures call.op == WriteOp(out) && Base(s, call) == Missing
  {
  }

  lemma KeepTemp(s: State, call: Call, pc: Pc, x: Choice)
    requires pc.AtTemp? && Held(Move(s, pc), call) && x.stamp in s.minted && x.tmp !in s.temps
    ensures Held(AfterTemp(s, call, pc, x), call)
  {
    hide Core, Intended, Seen, SeenBytes, Staged, Unmarked, Capped, IsText, Based, Landing, Base, LastOwn;
    SameWindow(s, AfterTemp(s, call, pc, x).state, call, pc.base, pc.out);
    if pc.base == Missing {
      ClaimWindow(s, call, pc.out);
    }
    if x.answer.Succeeds? {
      TempAddKeepsCore(s, x.tmp, Temp([], x.stamp), s.leaked);
    } else if x.answer.FailsApplied? {
      TempAddKeepsCore(s, x.tmp, Temp([], x.stamp), s.leaked[x.tmp := CreateFailedAfterEffect]);
    }
  }

  lemma KeepTempWrite(s: State, call: Call, pc: Pc, x: Choice)
    requires pc.AtTempWrite? && Held(Move(s, pc), call) && Unmarked(s, x.stamp)
    ensures Held(AfterTempWrite(s, call, pc, x), call)
  {
    hide HistoryInv, MarksInv, Intended, Seen, SeenBytes, Capped;
    if x.answer.Succeeds? {
      TempsKeepCore(s, AfterTempWrite(s, call, pc, x).state);
    }
  }

  /** Publishing the temp file is a permitted change: the commit, the same bytes again, or filling the claim. */
  lemma CommitIsLegit(s: State, call: Call, base: Node, out: Bytes, node: Node)
    requires IsText(call.op) && Based(s, call, base, out) && Landing(s, call, base, out)
    requires node.Regular? && node.bytes == out
    ensures Legit(Change(By(call), Base(s, call), s.node, node, MarkOf(s, call.token)))
  {
  }

  lemma KeepRename(s: State, call: Call, pc: Pc, x: Choice)
    requires pc.AtRename? && Held(Move(s, pc), call)
    ensures Held(AfterRename(s, call, pc, x), call)
  {
    hide HistoryInv, MarksInv, Intended, Seen, SeenBytes, Staged, Capped;
    if x.answer.Succeeds? || x.answer.FailsApplied? {
      var mid := s.(temps := s.temps - {pc.tmp});
      var node := Regular(s.temps[pc.tmp].bytes, s.temps[pc.tmp].mtime);
      TempsKeepCore(s, mid);
      CommitIsLegit(mid, call, pc.base, pc.out, node);
      ShowKeepsCore(mid, call, node);
    }
  }

  lemma KeepTempDrop(s: State, call: Call, pc: Pc, x: Choice)
    requires pc.AtTempDrop? && Held(Move(s, pc), call)
    ensures Held(AfterTempDrop(s, call, pc, x), call)
  {
    hide HistoryInv, MarksInv, Intended, Seen, SeenBytes, Capped;
    TempsKeepCore(s, Drop(s, pc.tmp, x));
  }

  lemma KeepUnclaim(s: State, call: Call, out: Bytes, x: Choice)
    requires Held(Move(s, AtUnclaim(out)), call)
    ensures Held(AfterUnclaim(s, call, out, x), call)
  {
    hide HistoryInv, MarksInv, Intended;
    if s.node != Missing {
      ShowKeepsCore(s, call, Missing);
    }
  }

  lemma KeepMark(s: State, call: Call, pc: Pc, x: Choice)
    requires pc.AtMark? && Held(Move(s, pc), call)
    ensures Held(AfterMark(s, call, pc, x), call)
  {
    hide HistoryInv, Intended;
    var marker := if x.answer.Succeeds? && s.node != Missing then MarkerOf(s.node) else Marker(|pc.out|, ZERO);
    MarkKeepsCore(s, call.token, Mark(marker, pc.out));
  }

  lemma KeepLstat(s: State, call: Call, tmp: TempName, raced: bool, x: Choice)
    requires Held(Move(s, if raced then AtRaced(tmp) else AtLstat(tmp)), call)
    ensures Held(AfterLstat(s, call, tmp, raced, x), call)
  {
    hide HistoryInv, Intended;
  }

  lemma KeepCompare(s: State, call: Call, pc: Pc, x: Choice)
    requires pc.AtCompare? && Held(Move(s, pc), call)
    requires s.node.Regular? && Untouched(s.node, pc.st) ==> x.data == Capped(s.node.bytes)
    ensures Held(AfterCompare(s, call, pc, x), call)
  {
    hide HistoryInv, Intended;
  }

  lemma KeepAfter(s: State, call: Call, pc: Pc, x: Choice)
    requires pc.AtAfter? && Held(Move(s, pc), call)
    ensures Held(AfterAfter(s, call, pc, x), call)
  {
    hide HistoryInv, Intended;
    var d := AfterAfter(s, call, pc, x).state;
    TempsKeepCore(s, d);
  }

  lemma KeepTempCheck(s: State, call: Call, tmp: TempName, x: Choice)
    requires Held(Move(s, AtTempCheck(tmp)), call)
    ensures Held(AfterTempCheck(s, call, tmp, x), call)
  {
    hide HistoryInv, Intended;
  }

  /** A stretch of changes by an upload began on a missing name. */
  lemma UploadBase(s: State, call: Call)
    requires HistoryInv(s) && call.op.UploadOp? && (s.node == Missing || LastOwn(s, call))
    ensures Base(s, call) == Missing
  {
    if LastOwn(s, call) {
      assert Linked(s.origin, s.history, |s.history| - 1) && Legit(s.history[|s.history| - 1]);
    }
  }

  lemma KeepLink(s: State, call: Call, tmp: TempName, x: Choice)
    requires Held(Move(s, AtLink(tmp)), call)
    ensures Held(AfterLink(s, call, tmp, x), call)
  {
    hide HistoryInv, MarksInv, Intended;
    if s.node == Missing {
      UploadBase(s, call);
      ShowKeepsCore(s, call, Regular(s.temps[tmp].bytes, s.temps[tmp].mtime));
    }
  }

  lemma KeepDegrade(s: State, call: Call, tmp: TempName, x: Choice)
    requires Held(Move(s, AtDegrade(tmp)), call) && Unmarked(s, x.stamp)
    ensures Held(AfterDegrade(s, call, tmp, x), call)
  {
    hide HistoryInv, MarksInv, Intended;
    if s.node == Missing {
      UploadBase(s, call);
      ShowKeepsCore(s, call, Regular([], x.stamp));
    }
  }

  lemma KeepCopy(s: State, call: Call, pc: Pc, x: Choice)
    requires pc.AtCopy? && Held(Move(s, pc), call) && Unmarked(s, x.stamp)
    ensures Held(AfterCopy(s, call, pc, x), call)
  {
    hide HistoryInv, MarksInv, Intended;
    var data := s.temps[pc.tmp].bytes;
    if pc.n < x.n <= |data| {
      assert data[..pc.n] < data[..x.n] by {
        assert data[..x.n][..pc.n] == data[..pc.n];
      }
      UploadBase(s, call);
      ShowKeepsCore(s, call, Regular(data[..x.n], x.stamp));
    }
  }

  lemma KeepCopyDrop(s: State, call: Call, tmp: TempName, x: Choice)
    requires Held(Move(s, AtCopyDrop(tmp)), call)
    ensures Held(AfterCopyDrop(s, call, tmp, x), call)
  {
    hide HistoryInv, MarksInv, Intended;
    if s.node != Missing {
      UploadBase(s, call);
      ShowKeepsCore(s, call, Missing);
    }
  }

  lemma ForgetKeepsCore(s: State, t: Token)
    requires Core(s)
    ensures Core(s.(marks := s.marks - {t}))
  {
    var d := s.(marks := s.marks - {t});
    forall k | k in d.marks ensures MarkSound(d, k) {
      assert MarkSound(s, k);
    }
  }

  lemma KeepPublished(s: State, call: Call, pc: Pc, x: Choice)
    requires pc.AtPublished? && Held(Move(s, pc), call)
    ensures Held(AfterPublished(s, call, pc, x), call)
  {
    hide HistoryInv, Intended;
    TempsKeepCore(s, Drop(s, pc.tmp, x));
    ForgetKeepsCore(Drop(s, pc.tmp, x), call.token);
  }

  lemma KeepCleanup(s: State, call: Call, tmp: TempName, why: Failure, x: Choice)
    requires Held(Move(s, AtCleanup(tmp, why)), call)
    ensures Held(Move(Drop(s, tmp, x), Done(Failed(why))), call)
  {
    hide HistoryInv, MarksInv, Intended, Seen, SeenBytes, Capped;
    TempsKeepCore(s, Drop(s, tmp, x));
  }

  // Every event keeps the invariant.

  lemma StepKeeps(s: State, call: Call, pc: Pc, x: Choice)
    requires Held(Move(s, pc), call) && !pc.Done? && CanStep(s, pc, x)
    ensures Ready(Mint(s, x.stamp), call, pc) && Held(AfterStep(Mint(s, x.stamp), call, pc, x), call)
  {
    hide HistoryInv, MarksInv, Intended, TempsFor, StampsInv, Drop, AfterStat, AfterRead, AfterSnapshot, AfterRestat,
      AfterClaim, AfterTemp, AfterTempWrite, AfterRename, AfterTempDrop, AfterUnclaim, AfterMark, AfterLstat,
      AfterCompare, AfterAfter, AfterTempCheck, AfterLink, AfterDegrade, AfterCopy, AfterCopyDrop, AfterPublished;
    var t := Mint(s, x.stamp);
    MintKeeps(s, call, pc, x.stamp);
    match pc
    case AtStat => KeepStat(t, call, x);
    case AtRead(st) => KeepRead(t, call, st, x);
    case Snapped(st, data) => KeepSnapshot(t, call, st, data);
    case AtRestat(_, _, _) => KeepRestat(t, call, pc, x);
    case AtClaim(out) => KeepClaim(t, call, out, x);
    case AtTemp(_, _) => KeepTemp(t, call, pc, x);
    case AtTempWrite(_, _, _) => KeepTempWrite(t, call, pc, x);
    case AtRename(_, _, _) => KeepRename(t, call, pc, x);
    case AtTempDrop(_, _, _) => KeepTempDrop(t, call, pc, x);
    case AtUnclaim(out) => KeepUnclaim(t, call, out, x);
    case AtMark(_, _) => KeepMark(t, call, pc, x);
    case AtLstat(tmp) => KeepLstat(t, call, tmp, false, x);
    case AtRaced(tmp) => KeepLstat(t, call, tmp, true, x);
    case AtCompare(_, _) => KeepCompare(t, call, pc, x);
    case AtAfter(_, _, _) => KeepAfter(t, call, pc, x);
    case AtTempCheck(tmp) => KeepTempCheck(t, call, tmp, x);
    case AtLink(tmp) => KeepLink(t, call, tmp, x);
    case AtDegrade(tmp) => KeepDegrade(t, call, tmp, x);
    case AtCopy(_, _) => KeepCopy(t, call, pc, x);
    case AtCopyDrop(tmp) => KeepCopyDrop(t, call, tmp, x);
    case AtPublished(_, _) => KeepPublished(t, call, pc, x);
    case AtCleanup(tmp, why) => KeepCleanup(t, call, tmp, why, x);
  }

  lemma EnterKeeps(s: State, call: Call, stamp: Stamp, tmp: TempName)
    requires !LastOwn(s, call) && Core(s) && s.temps.Keys == s.leaked.Keys && FreshStamp(s, stamp)
    requires call.op.UploadOp? ==> tmp !in s.temps && |call.op.image| <= MAX_IMAGE_BYTES
    ensures Held(Enter(s, call.op, stamp, tmp), call)
  {
    hide HistoryInv, MarksInv, Intended;
    MintKeepsCore(s, stamp);
    TempsKeepCore(Mint(s, stamp), Enter(s, call.op, stamp, tmp).state);
  }

  /** The state d is s, as far as the path and its record go, or s with one more change by this call. */
  predicate Appends(s: State, call: Call, d: State) {
    && d.origin == s.origin && d.minted == s.minted
    && ((d.history == s.history && d.node == s.node) ||
        d.history == s.history + [Change(By(call), Base(s, call), s.node, d.node, MarkOf(s, call.token))])
  }

  lemma RenameAppends(s: State, call: Call, pc: Pc, x: Choice)
    requires pc.AtRename? && pc.tmp in s.temps
    ensures Appends(s, call, AfterRename(s, call, pc, x).state)
  {
  }

  /** A step changes the path only by appending the change to its record. */
  lemma StepAppends(s: State, call: Call, pc: Pc, x: Choice)
    requires Ready(s, call, pc)
    ensures Appends(s, call, AfterStep(s, call, pc, x).state)
  {
    hide Intended, Capped, MarkerOf, Gate, Base, MarkOf, AfterRename;
    if pc.AtRename? {
      RenameAppends(s, call, pc, x);
    }
  }

  lemma NewCallOwnsNothing(c: Cell, token: Token, op: Op)
    requires CallsInv(c)
    ensures !LastOwn(c.state, Call(c.calls, token, op))
  {
  }

  lemma CallsKeep(c: Cell, e: Event)
    requires CallsInv(c) && Enabled(c, e)
    ensures CallsInv(Next(c, e))
  {
    hide AfterStep;
    if e.Step? {
      StepAppends(Mint(c.state, e.x.stamp), c.proc.call, c.proc.pc, e.x);
    }
  }

  /** Every event keeps the invariant: the one lemma the theorems over whole runs rest on. */
  lemma NextKeeps(c: Cell, e: Event)
    requires Inv(c) && Enabled(c, e)
    ensures Inv(Next(c, e))
  {
    hide Core, PcInv, Enter, AfterStep, CallsInv;
    CallsKeep(c, e);
    match e
    case Acquire(token, op, stamp, tmp) =>
      NewCallOwnsNothing(c, token, op);
      EnterKeeps(c.state, Call(c.calls, token, op), stamp, tmp);
    case Step(x) => StepKeeps(c.state, c.proc.call, c.proc.pc, x);
    case Release =>
    case ExternalWrite(node) =>
      if c.proc.Running? {
        ExternalKeeps(c.state, c.proc.call, c.proc.pc, node);
      } else {
        ExternalKeepsCore(c.state, node);
      }
  }
}
