/**
 Everything that can happen to one resolved path: handlers that hold its process-wide lock, one file system call at a
 time, any of which may fail with or without having taken effect; other programs; and the temp files beside it.

 A `Cell` is the state of one path. `proc` is the handler holding the path's lock (the lock is what keeps it single).
 `history`, `leaked`, `minted` and the bytes kept beside each marker are bookkeeping that no step's decision reads.
 */
module Protocol {
  import opened Wrappers
  import opened ByteSearch
  import opened EditEngine

  type Token = nat
  type Stamp = nat
  type TempName = nat

  /** Go's zero time: never the mtime of a file. */
  const ZERO: Stamp := 0

  const MAX_IMAGE_BYTES: nat := 20 * 1024 * 1024

  datatype Node = Missing | Regular(bytes: Bytes, mtime: Stamp) | Directory(size: nat, mtime: Stamp)

  datatype Marker = Marker(size: nat, mtime: Stamp)

  /** A token's marker, with the bytes the call that set it obtained. */
  datatype Mark = Mark(marker: Marker, bytes: Bytes)

  datatype Temp = Temp(bytes: Bytes, mtime: Stamp)

  datatype Op =
    | ReadOp
    | EditOp(edit: Edit)
    | MultiEditOp(edits: seq<Edit>)
    | WriteOp(content: Bytes)
    | UploadOp(image: Bytes)

  datatype Failure =
    | NotExist | IsDir | NeverRead | Stale | EditFails(error: EditError) | FsError
    | ExistsConflict | TargetChanged | TempLost

  datatype Reply =
    | ReadDone(bytes: Bytes)
    | WriteDone
    | Created(degraded: bool, tempLeft: bool)
    | Skipped
    | Failed(why: Failure)

  /** The next file system call of the handler, with the values it has in hand. */
  datatype Pc =
    | AtStat
    | AtRead(st: Marker)
    | Snapped(st: Marker, data: Bytes)
    | AtRestat(st: Marker, data: Bytes, out: Bytes)
    | AtClaim(out: Bytes)
    | AtTemp(base: Node, out: Bytes)
    | AtTempWrite(base: Node, out: Bytes, tmp: TempName)
    | AtRename(base: Node, out: Bytes, tmp: TempName)
    | AtTempDrop(base: Node, out: Bytes, tmp: TempName)
    | AtUnclaim(out: Bytes)
    | AtMark(base: Node, out: Bytes)
    | AtLstat(tmp: TempName)
    | AtCompare(tmp: TempName, st: Marker)
    | AtAfter(tmp: TempName, st: Marker, data: Bytes)
    | AtTempCheck(tmp: TempName)
    | AtLink(tmp: TempName)
    | AtRaced(tmp: TempName)
    | AtDegrade(tmp: TempName)
    | AtCopy(tmp: TempName, n: nat)
    | AtCopyDrop(tmp: TempName)
    | AtPublished(tmp: TempName, degraded: bool)
    | AtCleanup(tmp: TempName, why: Failure)
    | Done(reply: Reply)

  datatype Call = Call(id: nat, token: Token, op: Op)

  datatype Proc = Idle | Running(call: Call, pc: Pc)

  datatype Cause = External | By(call: Call)

  /**
   One change of what the path shows, with the mark its author held. `base` is what the path showed when the author's
   unbroken stretch of changes began: what the call as a whole replaces.
   */
  datatype Change = Change(cause: Cause, base: Node, before: Node, after: Node, mark: Option<Mark>)

  datatype LeakCause = CreateFailedAfterEffect | RemovalFailed | SkippedUpload

  /** What the path shows, the temp files beside it and each token's marker, with the record kept of all three. */
  datatype State = State(node: Node, temps: map<TempName, Temp>, marks: map<Token, Mark>, minted: set<Stamp>,
                         origin: Node, history: seq<Change>, leaked: map<TempName, LeakCause>)

  /** Where one step leaves the state and its handler. */
  datatype Move = Move(state: State, pc: Pc)

  datatype Cell = Cell(state: State, proc: Proc, calls: nat)

  /** How a file system call ends. A failed call may still have taken effect; a link may be refused for good. */
  datatype Answer = Succeeds | FailsClean | FailsApplied | Refused

  /**
   What the surroundings decide at one step: the call's answer, whether an error is retried, the bytes a read
   returns, the stamp the file system mints, the random temp name, and how far a copy gets.
   */
  datatype Choice = Choice(answer: Answer, retry: bool, data: Bytes, stamp: Stamp, tmp: TempName, n: nat)

  datatype Event =
    | Acquire(token: Token, op: Op, stamp: Stamp, tmp: TempName)
    | Step(x: Choice)
    | Release
    | ExternalWrite(node: Node)

  // Reading the state.

  function MarkerOf(n: Node): Marker
    requires n != Missing
  {
    match n
    case Regular(bytes, mtime) => Marker(|bytes|, mtime)
    case Directory(size, mtime) => Marker(size, mtime)
  }

  predicate Fits(m: Marker, n: Node) {
    n != Missing && MarkerOf(n) == m
  }

  /** The path still shows what bore this stamp. */
  predicate Untouched(n: Node, st: Marker) {
    n != Missing && n.mtime == st.mtime
  }

  /** What an upload's bounded comparison read returns of a file. */
  function Capped(bytes: Bytes): Bytes {
    if |bytes| > MAX_IMAGE_BYTES + 1 then bytes[..MAX_IMAGE_BYTES + 1] else bytes
  }

  /** The content a text call means to leave in place of `before`. */
  function Intended(op: Op, before: Bytes): Result<Bytes, EditError> {
    match op
    case EditOp(e) => (match Outcome(before, e) case Ok(a) => Ok(a.content) case Err(why) => Err(why))
    case MultiEditOp(edits) => OutcomeMany(before, edits, 1)
    case WriteOp(content) => Ok(content)
    case _ => Err(ENoop)
  }

  /** The stretches no check covers: from the last stat to the marker, and while a degraded copy is partial. */
  predicate InWindow(pc: Pc) {
    pc.AtTemp? || pc.AtTempWrite? || pc.AtRename? || pc.AtTempDrop? || pc.AtUnclaim? || pc.AtMark?
    || pc.AtCopy? || pc.AtCopyDrop?
  }

  /** The marker check every modifying text call makes. */
  function Gate(s: State, call: Call, st: Marker): Option<Failure> {
    if call.token !in s.marks then Some(NeverRead)
    else if s.marks[call.token].marker != st then Some(Stale)
    else None
  }

  // Building the next state.

  /** The last change of the path was made by this call. */
  predicate LastOwn(s: State, call: Call) {
    s.history != [] && s.history[|s.history| - 1].cause == By(call)
  }

  function Base(s: State, call: Call): Node {
    if LastOwn(s, call) then s.history[|s.history| - 1].base else s.node
  }

  function MarkOf(s: State, t: Token): Option<Mark> {
    if t in s.marks then Some(s.marks[t]) else None
  }

  function Show(s: State, call: Call, node: Node): State {
    s.(node := node, history := s.history + [Change(By(call), Base(s, call), s.node, node, MarkOf(s, call.token))])
  }

  function Drop(s: State, tmp: TempName, x: Choice): State {
    if tmp !in s.temps then s
    else if x.answer.FailsClean? || x.answer.Refused? then s.(leaked := s.leaked[tmp := RemovalFailed])
    else s.(temps := s.temps - {tmp})
  }

  /** A failed text write: an empty claim is taken back first. */
  function GiveUp(s: State, call: Call, base: Node, out: Bytes): Move {
    if base == Missing then Move(s, AtUnclaim(out)) else Move(s, Done(Failed(FsError)))
  }

  // One step of each program point. An error other than `Succeeds` is retried from the start of its closure or reported.

  function AfterStat(s: State, call: Call, x: Choice): Move {
    if !x.answer.Succeeds? then if x.retry then Move(s, AtStat) else Move(s, Done(Failed(FsError))) else
    match s.node
    case Directory(_, _) => Move(s, Done(Failed(IsDir)))
    case Missing => if call.op.WriteOp? then Move(s, AtClaim(call.op.content)) else Move(s, Done(Failed(NotExist)))
    case Regular(bytes, mtime) =>
      var st := Marker(|bytes|, mtime);
      if !call.op.WriteOp? then Move(s, AtRead(st)) else
      match Gate(s, call, st)
      case Some(why) => Move(s, Done(Failed(why)))
      case None => Move(s, AtRestat(st, s.marks[call.token].bytes, call.op.content))
  }

  function AfterRead(s: State, call: Call, st: Marker, x: Choice): Move {
    if x.answer.Succeeds? then Move(s, Snapped(st, x.data))
    else if x.retry then Move(s, AtStat)
    else Move(s, Done(Failed(FsError)))
  }

  /** read records its marker; the edits check theirs and compute the new content. */
  function AfterSnapshot(s: State, call: Call, st: Marker, data: Bytes): Move {
    if call.op.ReadOp? then Move(s.(marks := s.marks[call.token := Mark(st, data)]), Done(ReadDone(data))) else
    match Gate(s, call, st)
    case Some(why) => Move(s, Done(Failed(why)))
    case None =>
      match Intended(call.op, data)
      case Err(why) => Move(s, Done(Failed(EditFails(why))))
      case Ok(out) => Move(s, AtRestat(st, data, out))
  }

  function AfterRestat(s: State, call: Call, pc: Pc, x: Choice): Move
    requires pc.AtRestat?
  {
    if !x.answer.Succeeds? then if x.retry then Move(s, pc) else Move(s, Done(Failed(FsError)))
    else if s.node == Missing then Move(s, Done(Failed(NotExist)))
    else if MarkerOf(s.node) != pc.st then Move(s, Done(Failed(Stale)))
    else Move(s, AtTemp(s.node, pc.out))
  }

  function AfterClaim(s: State, call: Call, out: Bytes, x: Choice): Move {
    var made := if s.node == Missing then Show(s, call, Regular([], x.stamp)) else s;
    match x.answer
    case Succeeds => if s.node == Missing then Move(made, AtTemp(Missing, out)) else Move(s, Done(Failed(NeverRead)))
    case FailsApplied => if x.retry then Move(made, AtClaim(out)) else Move(made, Done(Failed(FsError)))
    case _ => if x.retry then Move(s, AtClaim(out)) else Move(s, Done(Failed(FsError)))
  }

  function AfterTemp(s: State, call: Call, pc: Pc, x: Choice): Move
    requires pc.AtTemp?
  {
    var made := s.(temps := s.temps[x.tmp := Temp([], x.stamp)]);
    match x.answer
    case Succeeds => Move(made, AtTempWrite(pc.base, pc.out, x.tmp))
    case FailsApplied =>
      var lost := made.(leaked := made.leaked[x.tmp := CreateFailedAfterEffect]);
      if x.retry then Move(lost, pc) else GiveUp(lost, call, pc.base, pc.out)
    case _ => if x.retry then Move(s, pc) else GiveUp(s, call, pc.base, pc.out)
  }

  function AfterTempWrite(s: State, call: Call, pc: Pc, x: Choice): Move
    requires pc.AtTempWrite?
  {
    if x.answer.Succeeds?
    then Move(s.(temps := s.temps[pc.tmp := Temp(pc.out, x.stamp)]), AtRename(pc.base, pc.out, pc.tmp))
    else Move(s, AtTempDrop(pc.base, pc.out, pc.tmp))
  }

  function AfterRename(s: State, call: Call, pc: Pc, x: Choice): Move
    requires pc.AtRename? && pc.tmp in s.temps
  {
    var temp := s.temps[pc.tmp];
    var moved := Show(s.(temps := s.temps - {pc.tmp}), call, Regular(temp.bytes, temp.mtime));
    match x.answer
    case Succeeds => Move(moved, AtMark(pc.base, pc.out))
    case FailsApplied => Move(moved, AtTempDrop(pc.base, pc.out, pc.tmp))
    case _ => Move(s, AtTempDrop(pc.base, pc.out, pc.tmp))
  }

  function AfterTempDrop(s: State, call: Call, pc: Pc, x: Choice): Move
    requires pc.AtTempDrop?
  {
    var d := Drop(s, pc.tmp, x);
    if x.retry then Move(d, AtTemp(pc.base, pc.out)) else GiveUp(d, call, pc.base, pc.out)
  }

  function AfterUnclaim(s: State, call: Call, out: Bytes, x: Choice): Move {
    var gone := if s.node == Missing then s else Show(s, call, Missing);
    match x.answer
    case Succeeds => Move(gone, Done(Failed(FsError)))
    case FailsApplied => if x.retry then Move(gone, AtUnclaim(out)) else Move(gone, Done(Failed(FsError)))
    case _ => if x.retry then Move(s, AtUnclaim(out)) else Move(s, Done(Failed(FsError)))
  }

  /** A failed post-write stat records a marker with the zero mtime, which no file bears. */
  function AfterMark(s: State, call: Call, pc: Pc, x: Choice): Move
    requires pc.AtMark?
  {
    if !x.answer.Succeeds? && x.retry then Move(s, pc) else
    var marker := if x.answer.Succeeds? && s.node != Missing then MarkerOf(s.node) else Marker(|pc.out|, ZERO);
    Move(s.(marks := s.marks[call.token := Mark(marker, pc.out)]), Done(WriteDone))
  }

  /** An upload attempt that fails is run again from its first lstat or given up. */
  function Again(s: State, call: Call, tmp: TempName, x: Choice): Move {
    if x.retry then Move(s, AtLstat(tmp)) else Move(s, AtCleanup(tmp, FsError))
  }

  function AfterLstat(s: State, call: Call, tmp: TempName, raced: bool, x: Choice): Move {
    if !x.answer.Succeeds? then Again(s, call, tmp, x) else
    match s.node
    case Missing => if raced then Move(s, AtCleanup(tmp, NotExist)) else Move(s, AtTempCheck(tmp))
    case Directory(_, _) => Move(s, AtCleanup(tmp, IsDir))
    case Regular(bytes, mtime) => Move(s, AtCompare(tmp, Marker(|bytes|, mtime)))
  }

  function AfterCompare(s: State, call: Call, pc: Pc, x: Choice): Move
    requires pc.AtCompare?
  {
    if !x.answer.Succeeds? then Again(s, call, pc.tmp, x)
    else if |x.data| > MAX_IMAGE_BYTES then Move(s, AtCleanup(pc.tmp, ExistsConflict))
    else Move(s, AtAfter(pc.tmp, pc.st, x.data))
  }

  function AfterAfter(s: State, call: Call, pc: Pc, x: Choice): Move
    requires pc.AtAfter? && call.op.UploadOp?
  {
    if !x.answer.Succeeds? then Again(s, call, pc.tmp, x)
    else if s.node == Missing then Move(s, AtCleanup(pc.tmp, NotExist))
    else if MarkerOf(s.node) != pc.st || |pc.data| != pc.st.size then Move(s, AtCleanup(pc.tmp, TargetChanged))
    else if pc.data != call.op.image then Move(s, AtCleanup(pc.tmp, ExistsConflict))
    else
      var kept := if pc.tmp in s.temps then s.(leaked := s.leaked[pc.tmp := SkippedUpload]) else s;
      Move(kept, Done(Skipped))
  }

  function AfterTempCheck(s: State, call: Call, tmp: TempName, x: Choice): Move
    requires call.op.UploadOp?
  {
    if x.answer.Succeeds? && tmp in s.temps && |s.temps[tmp].bytes| == |call.op.image|
    then Move(s, AtLink(tmp))
    else Move(s, AtCleanup(tmp, TempLost))
  }

  /** Link never replaces: it lands on a missing name or reports that the name exists. */
  function AfterLink(s: State, call: Call, tmp: TempName, x: Choice): Move
    requires tmp in s.temps
  {
    var linked := if s.node == Missing then Show(s, call, Regular(s.temps[tmp].bytes, s.temps[tmp].mtime)) else s;
    match x.answer
    case Succeeds => if s.node == Missing then Move(linked, AtPublished(tmp, false)) else Move(s, AtRaced(tmp))
    case FailsApplied => Again(linked, call, tmp, x)
    case FailsClean => Again(s, call, tmp, x)
    case Refused => Move(s, AtDegrade(tmp))
  }

  function AfterDegrade(s: State, call: Call, tmp: TempName, x: Choice): Move {
    var made := if s.node == Missing then Show(s, call, Regular([], x.stamp)) else s;
    match x.answer
    case Succeeds => if s.node == Missing then Move(made, AtCopy(tmp, 0)) else Move(s, AtRaced(tmp))
    case FailsApplied => Again(made, call, tmp, x)
    case _ => Again(s, call, tmp, x)
  }

  function AfterCopy(s: State, call: Call, pc: Pc, x: Choice): Move
    requires pc.AtCopy? && pc.tmp in s.temps && call.op.UploadOp?
  {
    var data := s.temps[pc.tmp].bytes;
    var more := if pc.n < x.n <= |data| then Show(s, call, Regular(data[..x.n], x.stamp)) else s;
    match x.answer
    case Succeeds =>
      if pc.n < x.n <= |data| then Move(more, AtCopy(pc.tmp, x.n))
      else if pc.n < |data| then Move(s, pc)
      else if pc.n == |call.op.image| then Move(s, AtPublished(pc.tmp, true))
      else Move(s, AtCopyDrop(pc.tmp))
    case FailsApplied => Move(more, AtCopyDrop(pc.tmp))
    case _ => Move(s, AtCopyDrop(pc.tmp))
  }

  function AfterCopyDrop(s: State, call: Call, tmp: TempName, x: Choice): Move {
    var gone := if s.node == Missing then s else Show(s, call, Missing);
    Again(if x.answer.Succeeds? || x.answer.FailsApplied? then gone else s, call, tmp, x)
  }

  /** The commit is done: the temp name goes, and the token must read the file before it may edit it. */
  function AfterPublished(s: State, call: Call, pc: Pc, x: Choice): Move
    requires pc.AtPublished?
  {
    var d := Drop(s, pc.tmp, x);
    Move(d.(marks := d.marks - {call.token}), Done(Created(pc.degraded, !x.answer.Succeeds?)))
  }

  function AfterStep(s: State, call: Call, pc: Pc, x: Choice): Move
    requires Ready(s, call, pc)
  {
    match pc
    case AtStat => AfterStat(s, call, x)
    case AtRead(st) => AfterRead(s, call, st, x)
    case Snapped(st, data) => AfterSnapshot(s, call, st, data)
    case AtRestat(_, _, _) => AfterRestat(s, call, pc, x)
    case AtClaim(out) => AfterClaim(s, call, out, x)
    case AtTemp(_, _) => AfterTemp(s, call, pc, x)
    case AtTempWrite(_, _, _) => AfterTempWrite(s, call, pc, x)
    case AtRename(_, _, _) => AfterRename(s, call, pc, x)
    case AtTempDrop(_, _, _) => AfterTempDrop(s, call, pc, x)
    case AtUnclaim(out) => AfterUnclaim(s, call, out, x)
    case AtMark(_, _) => AfterMark(s, call, pc, x)
    case AtLstat(tmp) => AfterLstat(s, call, tmp, false, x)
    case AtRaced(tmp) => AfterLstat(s, call, tmp, true, x)
    case AtCompare(_, _) => AfterCompare(s, call, pc, x)
    case AtAfter(_, _, _) => AfterAfter(s, call, pc, x)
    case AtTempCheck(tmp) => AfterTempCheck(s, call, tmp, x)
    case AtLink(tmp) => AfterLink(s, call, tmp, x)
    case AtDegrade(tmp) => AfterDegrade(s, call, tmp, x)
    case AtCopy(_, _) => AfterCopy(s, call, pc, x)
    case AtCopyDrop(tmp) => AfterCopyDrop(s, call, tmp, x)
    case AtPublished(_, _) => AfterPublished(s, call, pc, x)
    case AtCleanup(tmp, why) => Move(Drop(s, tmp, x), Done(Failed(why)))
  }

  // What can happen when.

  /** A stamp no file here has borne; temp names are as unlikely to repeat. */
  predicate FreshStamp(s: State, m: Stamp) {
    m != ZERO && m !in s.minted
  }

  /** The handler has a call to make, and the temp file it is about to use is there. */
  predicate Ready(s: State, call: Call, pc: Pc) {
    && !pc.Done?
    && (pc.AtRename? || pc.AtLink? || pc.AtCopy? ==> pc.tmp in s.temps)
    && (pc.AtAfter? || pc.AtTempCheck? || pc.AtCopy? ==> call.op.UploadOp?)
  }

  /**
   Which choices are possible. A read that ends while the file still bears the stamp it was found with returns that
   file's bytes; after any change in between it may return anything.
   */
  predicate CanStep(s: State, pc: Pc, x: Choice) {
    && FreshStamp(s, x.stamp)
    && (pc.AtRead? && s.node.Regular? && Untouched(s.node, pc.st) ==> x.data == s.node.bytes)
    && (pc.AtCompare? && s.node.Regular? && Untouched(s.node, pc.st) ==> x.data == Capped(s.node.bytes))
    && (pc.AtTemp? ==> x.tmp !in s.temps)
  }

  /** A lock is granted to one handler at a time; an upload brings the complete temp file it has downloaded. */
  predicate CanAcquire(c: Cell, op: Op, stamp: Stamp, tmp: TempName) {
    && c.proc.Idle? && FreshStamp(c.state, stamp)
    && (op.UploadOp? ==> tmp !in c.state.temps && |op.image| <= MAX_IMAGE_BYTES)
    && (op.MultiEditOp? ==> op.edits != [])
  }

  /** Other programs change the path at any time outside the windows, always with a stamp of their own. */
  predicate CanWriteOutside(c: Cell, node: Node) {
    && (c.proc.Running? ==> !InWindow(c.proc.pc))
    && (node != Missing ==> FreshStamp(c.state, node.mtime))
  }

  predicate Enabled(c: Cell, e: Event) {
    match e
    case Acquire(_, op, stamp, tmp) => CanAcquire(c, op, stamp, tmp)
    case Step(x) => c.proc.Running? && Ready(c.state, c.proc.call, c.proc.pc) && CanStep(c.state, c.proc.pc, x)
    case Release => c.proc.Running? && c.proc.pc.Done?
    case ExternalWrite(node) => CanWriteOutside(c, node)
  }

  function Mint(s: State, m: Stamp): State {
    s.(minted := s.minted + {m})
  }

  function ExternalChange(s: State, node: Node): State {
    s.(node := node, minted := if node == Missing then s.minted else s.minted + {node.mtime},
       history := s.history + [Change(External, s.node, s.node, node, None)])
  }

  /** An upload enters with its download complete in a temp file. */
  function Enter(s: State, op: Op, stamp: Stamp, tmp: TempName): Move {
    if op.UploadOp? then Move(Mint(s, stamp).(temps := s.temps[tmp := Temp(op.image, stamp)]), AtLstat(tmp))
    else Move(Mint(s, stamp), AtStat)
  }

  function Next(c: Cell, e: Event): Cell
    requires Enabled(c, e)
  {
    match e
    case Acquire(token, op, stamp, tmp) =>
      var m := Enter(c.state, op, stamp, tmp);
      Cell(m.state, Running(Call(c.calls, token, op), m.pc), c.calls + 1)
    case Step(x) =>
      var m := AfterStep(Mint(c.state, x.stamp), c.proc.call, c.proc.pc, x);
      Cell(m.state, Running(c.proc.call, m.pc), c.calls)
    case Release => c.(proc := Idle)
    case ExternalWrite(node) => c.(state := ExternalChange(c.state, node))
  }

  function Start(node: Node): Cell {
    Cell(State(node, map[], map[], if node == Missing then {} else {node.mtime}, node, [], map[]), Idle, 0)
  }
}
