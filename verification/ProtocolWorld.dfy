/**
 All paths at once. The temp files of every path lie in one shared directory, and the markers of all paths in one table;
 a handler's calls go to those. `cells` is the bookkeeping of which of both belongs to which path: the theorems say that
 it stays true, so that an interleaving over many paths is, on each path, a run of the one-path machine.
 */
module ProtocolWorld {
  import opened ByteSearch
  import opened Protocol
  import opened ProtocolInvariant
  import opened ProtocolTheorems

  datatype World = World(dir: map<TempName, Temp>, table: map<(Token, string), Mark>, cells: map<string, Cell>)

  datatype Happening = Happening(path: string, event: Event)

  /** Everybody's marker for one path. */
  function Row(table: map<(Token, string), Mark>, path: string): map<Token, Mark> {
    map k | k in table && k.1 == path :: k.0 := table[k]
  }

  function SetRow(table: map<(Token, string), Mark>, path: string, row: map<Token, Mark>): map<(Token, string), Mark> {
    (map k | k in table && k.1 != path :: table[k]) + (map t | t in row :: (t, path) := row[t])
  }

  /** What a handler on this path sees: the whole directory, and the path's row of the marker table. */
  function Sight(w: World, path: string): Cell
    requires path in w.cells
  {
    var c := w.cells[path];
    c.(state := c.state.(temps := w.dir, marks := Row(w.table, path)))
  }

  /** The names a handler has made or is still going to use. */
  function Names(c: Cell): set<TempName> {
    c.state.temps.Keys + if c.proc.Running? then Active(c.proc.pc) else {}
  }

  /** The temp name an event makes up. */
  function NewNames(c: Cell, e: Event): set<TempName> {
    match e
    case Acquire(_, op, _, tmp) => if op.UploadOp? then {tmp} else {}
    case Step(x) => if c.proc.Running? && c.proc.pc.AtTemp? then {x.tmp} else {}
    case _ => {}
  }

  /** The event is possible for the handler as it sees the world, and no other handler has just made up the same name. */
  predicate Possible(w: World, h: Happening) {
    && h.path in w.cells && Enabled(Sight(w, h.path), h.event)
    && forall q :: q in w.cells && q != h.path ==> NewNames(w.cells[h.path], h.event) !! Names(w.cells[q])
  }

  /** The event happens to the shared directory and table; what it adds to the directory is this path's. */
  function Moved(w: World, h: Happening): World
    requires Possible(w, h)
  {
    var c := Next(Sight(w, h.path), h.event);
    var others := w.dir.Keys - w.cells[h.path].state.temps.Keys;
    World(c.state.temps, SetRow(w.table, h.path, c.state.marks),
          w.cells[h.path := c.(state := c.state.(temps := c.state.temps - others))])
  }

  /** Every temp file recorded for the path exists, and it uses no name of a file that is not its own. */
  predicate FilesAgree(dir: map<TempName, Temp>, c: Cell) {
    && (forall n :: n in c.state.temps ==> n in dir && dir[n] == c.state.temps[n])
    && (forall n :: n in dir && n in Names(c) ==> n in c.state.temps)
  }

  /** Which temp files are whose; no two paths use one name. */
  ghost predicate NamesAgree(dir: map<TempName, Temp>, cells: map<string, Cell>) {
    && (forall p :: p in cells ==> FilesAgree(dir, cells[p]))
    && (forall p, q :: p in cells && q in cells && p != q ==> Names(cells[p]) !! Names(cells[q]))
  }

  ghost predicate RowsAgree(table: map<(Token, string), Mark>, cells: map<string, Cell>) {
    forall p :: p in cells ==> Row(table, p) == cells[p].state.marks
  }

  /** The bookkeeping is true. */
  ghost predicate Agrees(w: World) {
    NamesAgree(w.dir, w.cells) && RowsAgree(w.table, w.cells)
  }

  // One call, with files in the directory that are not its own.

  function Beside(s: State, extra: map<TempName, Temp>): State {
    s.(temps := s.temps + extra)
  }

  function MoveBeside(m: Move, extra: map<TempName, Temp>): Move {
    Move(Beside(m.state, extra), m.pc)
  }

  predicate Apart(s: State, pc: Pc, x: Choice, extra: map<TempName, Temp>) {
    s.temps.Keys + Active(pc) + (if pc.AtTemp? then {x.tmp} else {}) !! extra.Keys
  }

  lemma DropBeside(s: State, tmp: TempName, x: Choice, extra: map<TempName, Temp>)
    requires tmp !in extra && s.temps.Keys !! extra.Keys
    ensures Drop(Beside(s, extra), tmp, x) == Beside(Drop(s, tmp, x), extra)
  {
    assert (s.temps + extra) - {tmp} == (s.temps - {tmp}) + extra;
  }

  lemma ShowBeside(s: State, call: Call, node: Node, extra: map<TempName, Temp>)
    ensures Show(Beside(s, extra), call, node) == Beside(Show(s, call, node), extra)
  {
  }

  lemma ClaimBeside(s: State, call: Call, out: Bytes, x: Choice, extra: map<TempName, Temp>)
    ensures AfterClaim(Beside(s, extra), call, out, x) == MoveBeside(AfterClaim(s, call, out, x), extra)
  {
    ShowBeside(s, call, Regular([], x.stamp), extra);
    hide Show;
  }

  lemma UnclaimBeside(s: State, call: Call, out: Bytes, x: Choice, extra: map<TempName, Temp>)
    ensures AfterUnclaim(Beside(s, extra), call, out, x) == MoveBeside(AfterUnclaim(s, call, out, x), extra)
  {
    ShowBeside(s, call, Missing, extra);
    hide Show;
  }

  lemma TempBeside(s: State, call: Call, pc: Pc, x: Choice, extra: map<TempName, Temp>)
    requires Apart(s, pc, x, extra) && pc.AtTemp?
    ensures AfterTemp(Beside(s, extra), call, pc, x) == MoveBeside(AfterTemp(s, call, pc, x), extra)
  {
    assert (s.temps + extra)[x.tmp := Temp([], x.stamp)] == s.temps[x.tmp := Temp([], x.stamp)] + extra;
  }

  lemma WriteBeside(s: State, call: Call, pc: Pc, x: Choice, extra: map<TempName, Temp>)
    requires Apart(s, pc, x, extra) && pc.AtTempWrite?
    ensures AfterTempWrite(Beside(s, extra), call, pc, x) == MoveBeside(AfterTempWrite(s, call, pc, x), extra)
  {
    assert (s.temps + extra)[pc.tmp := Temp(pc.out, x.stamp)] == s.temps[pc.tmp := Temp(pc.out, x.stamp)] + extra;
  }

  lemma RenameBeside(s: State, call: Call, pc: Pc, x: Choice, extra: map<TempName, Temp>)
    requires Ready(s, call, pc) && Apart(s, pc, x, extra) && pc.AtRename?
    ensures AfterRename(Beside(s, extra), call, pc, x) == MoveBeside(AfterRename(s, call, pc, x), extra)
  {
    assert (s.temps + extra) - {pc.tmp} == (s.temps - {pc.tmp}) + extra;
    ShowBeside(s.(temps := s.temps - {pc.tmp}), call, Regular(s.temps[pc.tmp].bytes, s.temps[pc.tmp].mtime), extra);
    hide Show;
  }

  lemma AfterBeside(s: State, call: Call, pc: Pc, x: Choice, extra: map<TempName, Temp>)
    requires Ready(s, call, pc) && Apart(s, pc, x, extra) && pc.AtAfter?
    ensures AfterAfter(Beside(s, extra), call, pc, x) == MoveBeside(AfterAfter(s, call, pc, x), extra)
  {
  }

  lemma CheckBeside(s: State, call: Call, tmp: TempName, x: Choice, extra: map<TempName, Temp>)
    requires call.op.UploadOp? && tmp !in extra
    ensures AfterTempCheck(Beside(s, extra), call, tmp, x) == MoveBeside(AfterTempCheck(s, call, tmp, x), extra)
  {
  }

  lemma LinkBeside(s: State, call: Call, tmp: TempName, x: Choice, extra: map<TempName, Temp>)
    requires tmp in s.temps && tmp !in extra
    ensures AfterLink(Beside(s, extra), call, tmp, x) == MoveBeside(AfterLink(s, call, tmp, x), extra)
  {
    ShowBeside(s, call, Regular(s.temps[tmp].bytes, s.temps[tmp].mtime), extra);
    hide Show;
  }

  lemma DegradeBeside(s: State, call: Call, tmp: TempName, x: Choice, extra: map<TempName, Temp>)
    ensures AfterDegrade(Beside(s, extra), call, tmp, x) == MoveBeside(AfterDegrade(s, call, tmp, x), extra)
  {
    ShowBeside(s, call, Regular([], x.stamp), extra);
    hide Show;
  }

  lemma CopyBeside(s: State, call: Call, pc: Pc, x: Choice, extra: map<TempName, Temp>)
    requires Ready(s, call, pc) && Apart(s, pc, x, extra) && pc.AtCopy?
    ensures AfterCopy(Beside(s, extra), call, pc, x) == MoveBeside(AfterCopy(s, call, pc, x), extra)
  {
    if pc.n < x.n <= |s.temps[pc.tmp].bytes| {
      ShowBeside(s, call, Regular(s.temps[pc.tmp].bytes[..x.n], x.stamp), extra);
    }
    hide Show;
  }

  lemma CopyDropBeside(s: State, call: Call, tmp: TempName, x: Choice, extra: map<TempName, Temp>)
    ensures AfterCopyDrop(Beside(s, extra), call, tmp, x) == MoveBeside(AfterCopyDrop(s, call, tmp, x), extra)
  {
    ShowBeside(s, call, Missing, extra);
    hide Show;
  }

  lemma LookBeside(s: State, call: Call, pc: Pc, x: Choice, extra: map<TempName, Temp>)
    requires Ready(s, call, pc) && Apart(s, pc, x, extra)
    requires pc.AtStat? || pc.AtRead? || pc.Snapped? || pc.AtRestat? || pc.AtMark?
    ensures Ready(Beside(s, extra), call, pc)
    ensures AfterStep(Beside(s, extra), call, pc, x) == MoveBeside(AfterStep(s, call, pc, x), extra)
  {
    hide AfterClaim, AfterTemp, AfterTempWrite, AfterRename, AfterUnclaim, AfterAfter, AfterTempCheck,
      AfterLink, AfterDegrade, AfterCopy, AfterCopyDrop, Drop, Intended, Capped;
  }

  lemma TextBeside(s: State, call: Call, pc: Pc, x: Choice, extra: map<TempName, Temp>)
    requires Ready(s, call, pc) && Apart(s, pc, x, extra)
    requires pc.AtClaim? || pc.AtTemp? || pc.AtTempWrite? || pc.AtRename? || pc.AtTempDrop? || pc.AtUnclaim?
    ensures Ready(Beside(s, extra), call, pc)
    ensures AfterStep(Beside(s, extra), call, pc, x) == MoveBeside(AfterStep(s, call, pc, x), extra)
  {
    hide AfterClaim, AfterTemp, AfterTempWrite, AfterRename, AfterUnclaim, AfterAfter, AfterTempCheck,
      AfterLink, AfterDegrade, AfterCopy, AfterCopyDrop, Drop, Intended, Capped;
    match pc
    case AtClaim(out) => ClaimBeside(s, call, out, x, extra);
    case AtTemp(_, _) => TempBeside(s, call, pc, x, extra);
    case AtTempWrite(_, _, _) => WriteBeside(s, call, pc, x, extra);
    case AtRename(_, _, _) => RenameBeside(s, call, pc, x, extra);
    case AtTempDrop(_, _, tmp) => DropBeside(s, tmp, x, extra);
    case AtUnclaim(out) => UnclaimBeside(s, call, out, x, extra);
    case _ =>
  }

  lemma CompareBeside(s: State, call: Call, pc: Pc, x: Choice, extra: map<TempName, Temp>)
    requires Ready(s, call, pc) && Apart(s, pc, x, extra)
    requires pc.AtLstat? || pc.AtRaced? || pc.AtCompare?
    ensures Ready(Beside(s, extra), call, pc)
    ensures AfterStep(Beside(s, extra), call, pc, x) == MoveBeside(AfterStep(s, call, pc, x), extra)
  {
    hide AfterClaim, AfterTemp, AfterTempWrite, AfterRename, AfterUnclaim, AfterAfter, AfterTempCheck,
      AfterLink, AfterDegrade, AfterCopy, AfterCopyDrop, Drop, Intended, Capped;
  }

  lemma PublishBeside(s: State, call: Call, pc: Pc, x: Choice, extra: map<TempName, Temp>)
    requires Ready(s, call, pc) && Apart(s, pc, x, extra)
    requires pc.AtAfter? || pc.AtTempCheck? || pc.AtLink? || pc.AtDegrade?
    ensures Ready(Beside(s, extra), call, pc)
    ensures AfterStep(Beside(s, extra), call, pc, x) == MoveBeside(AfterStep(s, call, pc, x), extra)
  {
    hide AfterClaim, AfterTemp, AfterTempWrite, AfterRename, AfterUnclaim, AfterAfter, AfterTempCheck,
      AfterLink, AfterDegrade, AfterCopy, AfterCopyDrop, Drop, Intended, Capped;
    match pc
    case AtAfter(_, _, _) => AfterBeside(s, call, pc, x, extra);
    case AtTempCheck(tmp) => CheckBeside(s, call, tmp, x, extra);
    case AtLink(tmp) => LinkBeside(s, call, tmp, x, extra);
    case AtDegrade(tmp) => DegradeBeside(s, call, tmp, x, extra);
    case _ =>
  }

  lemma FinishBeside(s: State, call: Call, pc: Pc, x: Choice, extra: map<TempName, Temp>)
    requires Ready(s, call, pc) && Apart(s, pc, x, extra)
    requires pc.AtCopy? || pc.AtCopyDrop? || pc.AtPublished? || pc.AtCleanup?
    ensures Ready(Beside(s, extra), call, pc)
    ensures AfterStep(Beside(s, extra), call, pc, x) == MoveBeside(AfterStep(s, call, pc, x), extra)
  {
    hide AfterClaim, AfterTemp, AfterTempWrite, AfterRename, AfterUnclaim, AfterAfter, AfterTempCheck,
      AfterLink, AfterDegrade, AfterCopy, AfterCopyDrop, Drop, Intended, Capped;
    match pc
    case AtCopy(_, _) => CopyBeside(s, call, pc, x, extra);
    case AtCopyDrop(tmp) => CopyDropBeside(s, call, tmp, x, extra);
    case AtPublished(tmp, _) => DropBeside(s, tmp, x, extra);
    case AtCleanup(tmp, _) => DropBeside(s, tmp, x, extra);
    case _ =>
  }

  /** Every call does the same with other files beside its own, and leaves those as they are. */
  lemma StepBeside(s: State, call: Call, pc: Pc, x: Choice, extra: map<TempName, Temp>)
    requires Ready(s, call, pc) && Apart(s, pc, x, extra)
    ensures Ready(Beside(s, extra), call, pc)
    ensures AfterStep(Beside(s, extra), call, pc, x) == MoveBeside(AfterStep(s, call, pc, x), extra)
  {
    hide Apart, Ready, AfterStep;
    assert !pc.Done? by { NotDone(s, call, pc); }
    if pc.AtAfter? || pc.AtTempCheck? || pc.AtLink? || pc.AtDegrade? {
      PublishBeside(s, call, pc, x, extra);
    } else if pc.AtCopy? || pc.AtCopyDrop? || pc.AtPublished? || pc.AtCleanup? {
      FinishBeside(s, call, pc, x, extra);
    } else if pc.AtLstat? || pc.AtRaced? || pc.AtCompare? {
      CompareBeside(s, call, pc, x, extra);
    } else if pc.AtStat? || pc.AtRead? || pc.Snapped? || pc.AtRestat? || pc.AtMark? {
      LookBeside(s, call, pc, x, extra);
    } else {
      TextBeside(s, call, pc, x, extra);
    }
  }

  lemma NotDone(s: State, call: Call, pc: Pc)
    requires Ready(s, call, pc)
    ensures !pc.Done?
  {
  }

  predicate Uploading(pc: Pc) {
    Staging(pc) || pc.AtPublished? || pc.AtCleanup?
  }

  lemma TextNames(s: State, call: Call, pc: Pc, x: Choice)
    requires Ready(s, call, pc) && !Uploading(pc)
    ensures var m := AfterStep(s, call, pc, x);
      m.state.temps.Keys + Active(m.pc) <= s.temps.Keys + Active(pc) + if pc.AtTemp? then {x.tmp} else {}
  {
    hide Intended, Gate, Base, LastOwn, MarkOf;
  }

  lemma UploadNames(s: State, call: Call, pc: Pc, x: Choice)
    requires Ready(s, call, pc) && Uploading(pc)
    ensures var m := AfterStep(s, call, pc, x);
      m.state.temps.Keys + Active(m.pc) <= s.temps.Keys + Active(pc)
  {
    hide Capped, Base, LastOwn, MarkOf;
  }

  /** A step uses only names it knew or has just made up. */
  lemma StepNames(s: State, call: Call, pc: Pc, x: Choice)
    requires Ready(s, call, pc)
    ensures var m := AfterStep(s, call, pc, x);
      m.state.temps.Keys + Active(m.pc) <= s.temps.Keys + Active(pc) + if pc.AtTemp? then {x.tmp} else {}
  {
    hide Ready, AfterStep;
    if Uploading(pc) {
      UploadNames(s, call, pc, x);
    } else {
      TextNames(s, call, pc, x);
    }
  }

  function CellBeside(c: Cell, extra: map<TempName, Temp>): Cell {
    c.(state := Beside(c.state, extra))
  }

  lemma AcquireBeside(c: Cell, e: Event, extra: map<TempName, Temp>)
    requires e.Acquire? && Enabled(CellBeside(c, extra), e) && (Names(c) + NewNames(c, e)) !! extra.Keys
    ensures Enabled(c, e) && Next(CellBeside(c, extra), e) == CellBeside(Next(c, e), extra)
    ensures Names(Next(c, e)) <= Names(c) + NewNames(c, e)
  {
    var temp := Temp(if e.op.UploadOp? then e.op.image else [], e.stamp);
    assert (c.state.temps + extra)[e.tmp := temp] == c.state.temps[e.tmp := temp] + extra || !e.op.UploadOp?;
  }

  lemma CallBeside(c: Cell, e: Event, extra: map<TempName, Temp>)
    requires e.Step? && Inv(c) && Enabled(CellBeside(c, extra), e) && (Names(c) + NewNames(c, e)) !! extra.Keys
    ensures Enabled(c, e) && Next(CellBeside(c, extra), e) == CellBeside(Next(c, e), extra)
    ensures Names(Next(c, e)) <= Names(c) + NewNames(c, e)
  {
    hide Inv, AfterStep;
    ReadyInside(c);
    var s := Mint(c.state, e.x.stamp);
    StepBeside(s, c.proc.call, c.proc.pc, e.x, extra);
    StepNames(s, c.proc.call, c.proc.pc, e.x);
    assert Mint(Beside(c.state, extra), e.x.stamp) == Beside(s, extra);
  }

  /** The same of every event of one path. */
  lemma NextBeside(c: Cell, e: Event, extra: map<TempName, Temp>)
    requires Inv(c) && Enabled(CellBeside(c, extra), e) && (Names(c) + NewNames(c, e)) !! extra.Keys
    ensures Enabled(c, e) && Next(CellBeside(c, extra), e) == CellBeside(Next(c, e), extra)
    ensures Names(Next(c, e)) <= Names(c) + NewNames(c, e)
  {
    hide Inv;
    if e.Acquire? {
      AcquireBeside(c, e, extra);
    } else if e.Step? {
      CallBeside(c, e, extra);
    }
  }

  // The world.

  lemma RowsApart(table: map<(Token, string), Mark>, path: string, row: map<Token, Mark>, q: string)
    ensures Row(SetRow(table, path, row), q) == if q == path then row else Row(table, q)
  {
    var t := SetRow(table, path, row);
    forall k: Token ensures k in Row(t, q) <==> k in if q == path then row else Row(table, q) {
      assert (k, q) in t <==> if q == path then k in row else (k, q) in table;
    }
    forall k | k in Row(t, q) ensures Row(t, q)[k] == (if q == path then row else Row(table, q))[k] {
      assert t[(k, q)] == Row(t, q)[k];
    }
  }

  /** The files of the directory that are not this path's. */
  function Others(w: World, path: string): map<TempName, Temp>
    requires path in w.cells
  {
    w.dir - w.cells[path].state.temps.Keys
  }

  lemma SightIsBeside(w: World, path: string)
    requires Agrees(w) && path in w.cells
    ensures Sight(w, path) == CellBeside(w.cells[path], Others(w, path))
    ensures Names(w.cells[path]) !! Others(w, path).Keys
  {
    var own := w.cells[path].state.temps;
    assert w.dir == own + Others(w, path) by {
      assert forall n :: n in own ==> n in w.dir && w.dir[n] == own[n];
    }
    assert Row(w.table, path) == w.cells[path].state.marks;
    forall n | n in Names(w.cells[path]) ensures n !in Others(w, path) {
    }
  }

  lemma NewNamesAreNew(w: World, h: Happening)
    requires Possible(w, h)
    ensures NewNames(w.cells[h.path], h.event) !! w.dir.Keys
  {
  }

  /**
   One event in the world is that event on its path, on no other; the directory keeps every file that is not the path's
   own; and the bookkeeping stays true.
   */
  lemma MovedIsNext(w: World, h: Happening)
    requires Agrees(w) && Possible(w, h) && Inv(w.cells[h.path])
    ensures Enabled(w.cells[h.path], h.event)
    ensures var c := Next(w.cells[h.path], h.event);
      && Moved(w, h).cells == w.cells[h.path := c]
      && Moved(w, h).dir == c.state.temps + Others(w, h.path)
      && Moved(w, h).table == SetRow(w.table, h.path, c.state.marks)
      && c.state.temps.Keys !! Others(w, h.path).Keys
      && Names(c) <= Names(w.cells[h.path]) + NewNames(w.cells[h.path], h.event)
  {
    hide Inv, Enabled, Next, Agrees, Row, SetRow, Names, NewNames;
    var c, extra := w.cells[h.path], Others(w, h.path);
    SightIsBeside(w, h.path);
    NewNamesAreNew(w, h);
    NextBeside(c, h.event, extra);
    var d := Next(c, h.event);
    assert d.state.temps.Keys <= Names(d) by { OwnNames(d); }
    assert d.state.temps.Keys !! extra.Keys;
    assert (d.state.temps + extra) - extra.Keys == d.state.temps;
    assert extra.Keys == w.dir.Keys - c.state.temps.Keys;
  }

  lemma OwnNames(c: Cell)
    ensures c.state.temps.Keys <= Names(c)
  {
  }

  /** What a path's event may do to the names in use leaves the names of the others alone. */
  lemma NamesStayApart(w: World, h: Happening, c: Cell)
    requires NamesAgree(w.dir, w.cells) && h.path in w.cells
    requires forall q :: q in w.cells && q != h.path ==> NewNames(w.cells[h.path], h.event) !! Names(w.cells[q])
    requires Names(c) <= Names(w.cells[h.path]) + NewNames(w.cells[h.path], h.event)
    requires c.state.temps.Keys !! Others(w, h.path).Keys && Names(c) !! Others(w, h.path).Keys
    ensures NamesAgree(c.state.temps + Others(w, h.path), w.cells[h.path := c])
  {
    hide NewNames;
    var dir := c.state.temps + Others(w, h.path);
    forall q | q in w.cells && q != h.path
      ensures Names(c) !! Names(w.cells[q])
      ensures FilesAgree(dir, w.cells[q])
    {
      assert Names(w.cells[h.path]) !! Names(w.cells[q]) && FilesAgree(w.dir, w.cells[q]);
      OtherFilesAgree(w, h.path, c, q);
    }
    assert FilesAgree(dir, c);
    CellsAgree(dir, w.cells, h.path, c);
  }

  lemma CellsAgree(dir: map<TempName, Temp>, cells: map<string, Cell>, path: string, c: Cell)
    requires forall p, q :: p in cells && q in cells && p != q ==> Names(cells[p]) !! Names(cells[q])
    requires forall q :: q in cells && q != path ==> Names(c) !! Names(cells[q]) && FilesAgree(dir, cells[q])
    requires FilesAgree(dir, c)
    ensures NamesAgree(dir, cells[path := c])
  {
    hide FilesAgree, Names;
  }

  lemma OtherFilesAgree(w: World, path: string, c: Cell, q: string)
    requires path in w.cells && q in w.cells && FilesAgree(w.dir, w.cells[q])
    requires Names(w.cells[path]) !! Names(w.cells[q]) && Names(c) !! Names(w.cells[q])
    requires c.state.temps.Keys !! Others(w, path).Keys
    ensures FilesAgree(c.state.temps + Others(w, path), w.cells[q])
  {
    OwnNames(w.cells[path]);
    OwnNames(c);
    OwnNames(w.cells[q]);
  }

  lemma RowsStayApart(w: World, path: string, c: Cell)
    requires RowsAgree(w.table, w.cells) && path in w.cells
    ensures RowsAgree(SetRow(w.table, path, c.state.marks), w.cells[path := c])
  {
    hide Row, SetRow;
    var cells := w.cells[path := c];
    forall p | p in cells ensures Row(SetRow(w.table, path, c.state.marks), p) == cells[p].state.marks {
      RowsApart(w.table, path, c.state.marks, p);
    }
  }

  lemma MovedAgrees(w: World, h: Happening)
    requires Agrees(w) && Possible(w, h) && Inv(w.cells[h.path])
    ensures Agrees(Moved(w, h))
  {
    hide Inv, Enabled, Next, Row, SetRow, NewNames, Moved, NamesAgree, RowsAgree, Names, Others;
    MovedIsNext(w, h);
    SightIsBeside(w, h.path);
    NewNamesAreNew(w, h);
    OthersAreThere(w, h.path);
    var c := Next(w.cells[h.path], h.event);
    NamesStayApart(w, h, c);
    RowsStayApart(w, h.path, c);
  }

  lemma OthersAreThere(w: World, path: string)
    requires path in w.cells
    ensures Others(w, path).Keys <= w.dir.Keys
  {
  }

  // Whole interleavings.

  ghost predicate Runs(w: World, hs: seq<Happening>)
    decreases |hs|
  {
    hs == [] || (Possible(w, hs[0]) && Runs(Moved(w, hs[0]), hs[1..]))
  }

  ghost function Final(w: World, hs: seq<Happening>): World
    requires Runs(w, hs)
    decreases |hs|
  {
    if hs == [] then w else Final(Moved(w, hs[0]), hs[1..])
  }

  /** The events of one path, in order. */
  function On(hs: seq<Happening>, path: string): seq<Event> {
    if hs == [] then []
    else if hs[0].path == path then [hs[0].event] + On(hs[1..], path)
    else On(hs[1..], path)
  }

  ghost predicate AllInv(w: World) {
    forall p :: p in w.cells ==> Inv(w.cells[p])
  }

  lemma MovedKeeps(w: World, h: Happening)
    requires Agrees(w) && AllInv(w) && Possible(w, h)
    ensures Agrees(Moved(w, h)) && AllInv(Moved(w, h)) && Moved(w, h).cells.Keys == w.cells.Keys
    ensures Enabled(w.cells[h.path], h.event)
    ensures forall p :: p in w.cells ==>
      Moved(w, h).cells[p] == if p == h.path then Next(w.cells[p], h.event) else w.cells[p]
  {
    hide Inv, Enabled, Next, Agrees, Moved, Names, Others, Possible;
    assert h.path in w.cells by { PossibleHere(w, h); }
    MovedAgrees(w, h);
    MovedIsNext(w, h);
    NextKeeps(w.cells[h.path], h.event);
  }

  lemma PossibleHere(w: World, h: Happening)
    requires Possible(w, h)
    ensures h.path in w.cells
  {
  }

  /** A server begins with whatever files the directory holds, and no marker. */
  lemma WorldStarts(dir: map<TempName, Temp>, nodes: map<string, Node>)
    requires forall p :: p in nodes ==> RealNode(nodes[p])
    ensures var w := World(dir, map[], map p | p in nodes :: Start(nodes[p]));
      Agrees(w) && AllInv(w)
  {
    hide Inv;
    forall p | p in nodes ensures Inv(Start(nodes[p])) {
      StartInv(nodes[p]);
    }
  }

  /**
   In any interleaving over any number of paths that share the directory and the marker table, each path goes through
   a run of the one-path machine: the directory holds exactly that run's temp files for it, the table its markers.
   */
  lemma {:induction false} PathsAreIndependent(w: World, hs: seq<Happening>, path: string)
    requires Agrees(w) && AllInv(w) && Runs(w, hs) && path in w.cells
    ensures Agrees(Final(w, hs)) && AllInv(Final(w, hs)) && Final(w, hs).cells.Keys == w.cells.Keys
    ensures Run(w.cells[path], On(hs, path))
    ensures Final(w, hs).cells[path] == After(w.cells[path], On(hs, path))
    decreases |hs|
  {
    hide Inv, Enabled, Next, Agrees, AllInv, Moved, Possible;
    if hs != [] {
      MovedKeeps(w, hs[0]);
      PathsAreIndependent(Moved(w, hs[0]), hs[1..], path);
      if hs[0].path == path {
        assert On(hs, path)[1..] == On(hs[1..], path);
      }
    }
  }

  /** So everything proved of one path's runs holds of every path of every interleaving, in what is really there. */
  lemma EveryPathIsSafe(w: World, hs: seq<Happening>)
    requires Agrees(w) && AllInv(w) && Runs(w, hs)
    ensures var v := Final(w, hs);
      forall p :: p in w.cells ==>
        && p in v.cells && Inv(v.cells[p]) && Row(v.table, p) == v.cells[p].state.marks
        && forall n :: n in v.cells[p].state.temps ==> n in v.dir && v.dir[n] == v.cells[p].state.temps[n]
  {
    hide Inv, Runs, Final, Row;
    forall p | p in w.cells ensures Agrees(Final(w, hs)) && AllInv(Final(w, hs)) && p in Final(w, hs).cells {
      PathsAreIndependent(w, hs, p);
    }
  }

  /** A file in the directory that is nobody's temp file. */
  ghost predicate Bystander(w: World, n: TempName) {
    n in w.dir && forall p :: p in w.cells ==> n !in w.cells[p].state.temps
  }

  /** No call of any handler ever touches a file that is not its own path's. */
  lemma {:induction false} BystandersStay(w: World, hs: seq<Happening>, n: TempName)
    requires Agrees(w) && AllInv(w) && Runs(w, hs) && Bystander(w, n)
    ensures Bystander(Final(w, hs), n) && Final(w, hs).dir[n] == w.dir[n]
    decreases |hs|
  {
    hide Inv, Enabled, Next, Agrees, AllInv, Moved, Possible;
    if hs != [] {
      MovedKeeps(w, hs[0]);
      BystanderStep(w, hs[0], n);
      BystandersStay(Moved(w, hs[0]), hs[1..], n);
    }
  }

  lemma BystanderStep(w: World, h: Happening, n: TempName)
    requires Agrees(w) && AllInv(w) && Possible(w, h) && Bystander(w, n)
    ensures Bystander(Moved(w, h), n) && Moved(w, h).dir[n] == w.dir[n]
  {
    hide Inv, Enabled, Next, Agrees, Moved, Names, Possible, SetRow;
    PossibleHere(w, h);
    MovedIsNext(w, h);
    assert n in Others(w, h.path);
  }
}
