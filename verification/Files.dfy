/**
 The file system calls handlers make on one path and the temp files beside it. Each call is one atomic effect on
 `node` and `temps` that may fail with or without happening; other programs change the path before it unless the caller
 is in a window. `first`, `trace` and `cell` record the run of the one-path machine that the calls made so far are.
 */
module Files {
  import opened Wrappers
  import opened ByteSearch
  import opened Protocol
  import opened ProtocolInvariant
  import opened ProtocolTheorems

  /** What other programs may have done between two calls of the running handler. */
  predicate Disturbed(s: State, t: State, pc: Pc) {
    && t.temps == s.temps && t.marks == s.marks && t.leaked == s.leaked
    && (InWindow(pc) ==> t.node == s.node && t.history == s.history)
  }

  /** From cell c, other programs brought the state to s, and the handler's next call went as x says, giving d. */
  ghost predicate Stepped(c: Cell, s: State, x: Choice, d: Cell) {
    && c.proc.Running? && Disturbed(c.state, s, c.proc.pc)
    && Ready(Mint(s, x.stamp), c.proc.call, c.proc.pc) && CanStep(s, c.proc.pc, x)
    && var m := AfterStep(Mint(s, x.stamp), c.proc.call, c.proc.pc, x);
    d == Cell(m.state, Running(c.proc.call, m.pc), c.calls)
  }

  lemma StepTaken(c: Cell, x: Choice)
    requires Inv(c) && c.proc.Running? && !c.proc.pc.Done? && CanStep(c.state, c.proc.pc, x)
    ensures Enabled(c, Step(x)) && Stepped(c, c.state, x, Next(c, Step(x)))
    ensures Next(c, Step(x)).state.minted == c.state.minted + {x.stamp}
  {
    hide Inv, AfterStep;
    ReadyInside(c);
    StepAppends(Mint(c.state, x.stamp), c.proc.call, c.proc.pc, x);
  }

  lemma SteppedLater(c: Cell, mid: Cell, x: Choice, d: Cell)
    requires Stepped(mid, mid.state, x, d) && mid.proc == c.proc && mid.calls == c.calls
    requires Disturbed(c.state, mid.state, mid.proc.pc)
    ensures Stepped(c, mid.state, x, d)
  {
    hide AfterStep, Ready, CanStep;
  }

  /** What the running handler's next call does to the path and the temp files. */
  ghost predicate Effect(c: Cell, x: Choice, node: Node, temps: map<TempName, Temp>)
    requires Inv(c) && c.proc.Running? && !c.proc.pc.Done? && CanStep(c.state, c.proc.pc, x)
  {
    ReadyInside(c);
    var m := AfterStep(Mint(c.state, x.stamp), c.proc.call, c.proc.pc, x);
    m.state.node == node && m.state.temps == temps
  }

  lemma EffectShown(c: Cell, x: Choice, n: Node, t: map<TempName, Temp>)
    requires Inv(c) && c.proc.Running? && !c.proc.pc.Done? && CanStep(c.state, c.proc.pc, x) && Effect(c, x, n, t)
    ensures Enabled(c, Step(x)) && Next(c, Step(x)).state.node == n && Next(c, Step(x)).state.temps == t
  {
    hide Inv, AfterStep;
    ReadyInside(c);
  }

  predicate Looking(pc: Pc) {
    pc.AtStat? || pc.AtRestat? || pc.AtMark? || pc.AtLstat? || pc.AtRaced? || pc.AtAfter? || pc.AtTempCheck? || pc.Snapped?
  }

  lemma LookEffect(c: Cell, x: Choice)
    requires Inv(c) && c.proc.Running? && Looking(c.proc.pc) && CanStep(c.state, c.proc.pc, x)
    ensures Effect(c, x, c.state.node, c.state.temps)
  {
    hide Inv, Intended;
  }

  function Applies(a: Answer): bool {
    a.Succeeds? || a.FailsApplied?
  }

  lemma ReadAllEffect(c: Cell, x: Choice, st: Marker, capped: bool)
    requires Inv(c) && c.proc.Running? && CanStep(c.state, c.proc.pc, x)
    requires (c.proc.pc.AtRead? && c.proc.pc.st == st && !capped) || (c.proc.pc.AtCompare? && c.proc.pc.st == st && capped)
    ensures Effect(c, x, c.state.node, c.state.temps)
  {
    hide Inv, Intended;
  }

  lemma CreateNewEffect(c: Cell, x: Choice)
    requires Inv(c) && c.proc.Running? && CanStep(c.state, c.proc.pc, x)
    requires c.proc.pc.AtClaim? || c.proc.pc.AtDegrade?
    ensures Effect(c, x,
      if c.state.node == Missing && Applies(x.answer) then Regular([], x.stamp) else c.state.node, c.state.temps)
  {
    hide Inv, Intended;
  }

  lemma CreateTempEffect(c: Cell, x: Choice)
    requires Inv(c) && c.proc.Running? && (c.proc.pc.AtTemp?) && CanStep(c.state, c.proc.pc, x)
    ensures Effect(c, x, c.state.node, if Applies(x.answer) then c.state.temps[x.tmp := Temp([], x.stamp)] else c.state.temps)
  {
    hide Inv, Intended;
  }

  lemma WriteTempEffect(c: Cell, x: Choice, tmp: TempName, out: Bytes)
    requires Inv(c) && c.proc.Running? && CanStep(c.state, c.proc.pc, x)
    requires c.proc.pc.AtTempWrite? && c.proc.pc.tmp == tmp && c.proc.pc.out == out
    ensures Effect(c, x, c.state.node, if x.answer.Succeeds? then c.state.temps[tmp := Temp(out, x.stamp)] else c.state.temps)
  {
    hide Inv, Intended;
  }

  lemma RenameEffect(c: Cell, x: Choice, tmp: TempName)
    requires Inv(c) && c.proc.Running? && CanStep(c.state, c.proc.pc, x)
    requires c.proc.pc.AtRename? && c.proc.pc.tmp == tmp && tmp in c.state.temps
    ensures Effect(c, x,
      if Applies(x.answer) then Regular(c.state.temps[tmp].bytes, c.state.temps[tmp].mtime) else c.state.node,
      if Applies(x.answer) then c.state.temps - {tmp} else c.state.temps)
  {
    hide Inv, Intended;
  }

  lemma RemoveTempEffect(c: Cell, x: Choice, tmp: TempName)
    requires Inv(c) && c.proc.Running? && CanStep(c.state, c.proc.pc, x)
    requires (c.proc.pc.AtTempDrop? || c.proc.pc.AtPublished? || c.proc.pc.AtCleanup?) && c.proc.pc.tmp == tmp
    ensures Effect(c, x, c.state.node, if Applies(x.answer) then c.state.temps - {tmp} else c.state.temps)
  {
    hide Inv, Intended;
  }

  lemma RemoveTargetEffect(c: Cell, x: Choice)
    requires Inv(c) && c.proc.Running? && CanStep(c.state, c.proc.pc, x)
    requires c.proc.pc.AtUnclaim? || c.proc.pc.AtCopyDrop?
    ensures Effect(c, x, if Applies(x.answer) then Missing else c.state.node, c.state.temps)
  {
    hide Inv, Intended;
  }

  lemma LinkEffect(c: Cell, x: Choice, tmp: TempName)
    requires Inv(c) && c.proc.Running? && CanStep(c.state, c.proc.pc, x)
    requires c.proc.pc.AtLink? && c.proc.pc.tmp == tmp && tmp in c.state.temps
    ensures Effect(c, x,
      if c.state.node == Missing && Applies(x.answer) then Regular(c.state.temps[tmp].bytes, c.state.temps[tmp].mtime)
      else c.state.node,
      c.state.temps)
  {
    hide Inv, Intended;
  }

  lemma CopyPieceEffect(c: Cell, x: Choice, tmp: TempName, n: nat)
    requires Inv(c) && c.proc.Running? && CanStep(c.state, c.proc.pc, x)
    requires c.proc.pc == AtCopy(tmp, n) && tmp in c.state.temps
    ensures var data := c.state.temps[tmp].bytes;
      Effect(c, x,
        if Applies(x.answer) && n < x.n <= |data| then Regular(data[..x.n], x.stamp) else c.state.node, c.state.temps)
  {
    hide Inv, Intended;
  }

  class Files {
    var node: Node
    var temps: map<TempName, Temp>
    var minted: set<Stamp>
    ghost const first: Node
    ghost var trace: seq<Event>
    ghost var cell: Cell

    /** The cell is where the recorded run leads. */
    ghost predicate Recorded()
      reads this
    {
      RealNode(first) && Run(Start(first), trace) && After(Start(first), trace) == cell && Inv(cell)
    }

    ghost predicate Valid()
      reads this
    {
      Recorded() && node == cell.state.node && temps == cell.state.temps && minted == cell.state.minted
    }

    constructor (n: Node)
      requires RealNode(n)
      ensures Valid() && first == n && cell == Start(n)
    {
      node, temps, minted := n, map[], if n == Missing then {} else {n.mtime};
      first, trace, cell := n, [], Start(n);
      StartInv(n);
    }

    ghost method Happen(e: Event)
      requires Recorded() && Enabled(cell, e)
      modifies this`trace, this`cell
      ensures Recorded() && cell == Next(old(cell), e) && trace == old(trace) + [e]
    {
      hide Inv, Enabled, Next, Run;
      RunSnoc(Start(first), trace, e);
      NextKeeps(cell, e);
      trace, cell := trace + [e], Next(cell, e);
    }

    method Mtime() returns (s: Stamp)
      ensures s != ZERO && s !in minted
    {
      ghost var n := Above(minted);
      assert n !in minted;
      s :| s != ZERO && s !in minted;
    }

    /** Whatever another program may leave: always with a stamp of its own. */
    method Anything() returns (n: Node)
      ensures n != Missing ==> n.mtime != ZERO && n.mtime !in minted
    {
      var there, plain := *, *;
      if !there {
        return Missing;
      }
      var mtime := Mtime();
      if plain {
        var bytes: Bytes := *;
        return Regular(bytes, mtime);
      }
      var size: nat := *;
      return Directory(size, mtime);
    }

    /** Any number of changes by other programs. */
    method Interfere(quiet: bool)
      requires Valid() && cell.proc.Running? && (InWindow(cell.proc.pc) ==> quiet)
      modifies this
      ensures Valid() && old(trace) <= trace
      ensures cell.proc == old(cell.proc) && cell.calls == old(cell.calls)
      ensures Disturbed(old(cell.state), cell.state, cell.proc.pc)
    {
      hide Inv, Run;
      var k: nat := *;
      while k > 0 && !quiet
        invariant Valid() && old(trace) <= trace
        invariant cell.proc == old(cell.proc) && cell.calls == old(cell.calls)
        invariant Disturbed(old(cell.state), cell.state, cell.proc.pc)
      {
        var n := Anything();
        Happen(ExternalWrite(n));
        node := n;
        if n != Missing {
          minted := minted + {n.mtime};
        }
        k := k - 1;
      }
    }

    method Choose(mayRetry: bool) returns (x: Choice)
      requires Valid()
      ensures FreshStamp(cell.state, x.stamp) && x.tmp !in temps && (x.retry ==> mayRetry)
    {
      var stamp := Mtime();
      ghost var free := Above(temps.Keys);
      assert free !in temps;
      var tmp: TempName :| tmp !in temps;
      var answer: Answer := *;
      var retry: bool := *;
      var data: Bytes := *;
      var n: nat := *;
      return Choice(answer, mayRetry && retry, data, stamp, tmp, n);
    }

    /** The surroundings move, and settle how the next call will go. */
    method Prepare(quiet: bool, mayRetry: bool) returns (x: Choice, ghost s: State)
      requires Valid() && cell.proc.Running? && (InWindow(cell.proc.pc) ==> quiet)
      modifies this
      ensures Valid() && old(trace) <= trace
      ensures s == cell.state && cell.proc == old(cell.proc) && cell.calls == old(cell.calls)
      ensures Disturbed(old(cell.state), s, cell.proc.pc)
      ensures FreshStamp(s, x.stamp) && x.tmp !in temps && (x.retry ==> mayRetry)
    {
      Interfere(quiet);
      x := Choose(mayRetry);
      s := cell.state;
    }

    /** The call x is made: the path and the temp files become these, and the run goes one step further. */
    method Commit(x: Choice, n: Node, t: map<TempName, Temp>, ghost before: Cell)
      requires Valid() && cell.proc.Running? && !cell.proc.pc.Done? && CanStep(cell.state, cell.proc.pc, x)
      requires Effect(cell, x, n, t)
      requires cell.proc == before.proc && cell.calls == before.calls
      requires Disturbed(before.state, cell.state, cell.proc.pc)
      modifies this
      ensures Valid() && trace == old(trace) + [Step(x)]
      ensures Stepped(before, old(cell.state), x, cell)
    {
      hide Inv, Enabled, Next, Run, CanStep, Disturbed;
      StepTaken(cell, x);
      EffectShown(cell, x, n, t);
      SteppedLater(before, cell, x, Next(cell, Step(x)));
      Happen(Step(x));
      node, temps, minted := n, t, minted + {x.stamp};
    }

    /** A stat or lstat of the path, which it may find missing. */
    method Look(quiet: bool, mayRetry: bool) returns (x: Choice, info: Node, ghost s: State)
      requires Valid() && cell.proc.Running? && Looking(cell.proc.pc) && (InWindow(cell.proc.pc) ==> quiet)
      modifies this
      ensures Valid() && old(trace) <= trace
      ensures Stepped(old(cell), s, x, cell) && (x.retry ==> mayRetry)
      ensures info == s.node
    {
      hide Inv, Run, AfterStep, Enabled, Stepped, Effect, FreshStamp;
      x, s := Prepare(quiet, mayRetry);
      LookEffect(cell, x);
      info := node;
      Commit(x, node, temps, old(cell));
    }

    /** Reads the file found with stamp st. If the path changed since, there is no telling what the bytes are. */
    method ReadAll(st: Marker, capped: bool, mayRetry: bool) returns (x: Choice, ghost s: State)
      requires Valid() && cell.proc.Running?
      requires (cell.proc.pc.AtRead? && cell.proc.pc.st == st && !capped) || (cell.proc.pc.AtCompare? && cell.proc.pc.st == st && capped)
      modifies this
      ensures Valid() && old(trace) <= trace
      ensures Stepped(old(cell), s, x, cell) && (x.retry ==> mayRetry)
    {
      hide Inv, Run, AfterStep, Enabled, Stepped, Effect, FreshStamp;
      x, s := Prepare(false, mayRetry);
      if node.Regular? && Untouched(node, st) {
        x := x.(data := if capped then Capped(node.bytes) else node.bytes);
      }
      ReadAllEffect(cell, x, st, capped);
      Commit(x, node, temps, old(cell));
    }

    /** Creates the path exclusively: it must not exist. */
    method CreateNew(mayRetry: bool) returns (x: Choice, existed: bool, ghost s: State)
      requires Valid() && cell.proc.Running? && (cell.proc.pc.AtClaim? || cell.proc.pc.AtDegrade?)
      modifies this
      ensures Valid() && old(trace) <= trace
      ensures Stepped(old(cell), s, x, cell) && (x.retry ==> mayRetry)
      ensures existed <==> s.node != Missing
    {
      hide Inv, Run, AfterStep, Enabled, Stepped, Effect, FreshStamp;
      x, s := Prepare(false, mayRetry);
      existed := node != Missing;
      CreateNewEffect(cell, x);
      Commit(x, if node == Missing && Applies(x.answer) then Regular([], x.stamp) else node, temps, old(cell));
    }

    /** Creates a temp file under a random free name. */
    method CreateTemp(mayRetry: bool) returns (x: Choice, ghost s: State)
      requires Valid() && cell.proc.Running? && (cell.proc.pc.AtTemp?)
      modifies this
      ensures Valid() && old(trace) <= trace
      ensures Stepped(old(cell), s, x, cell) && (x.retry ==> mayRetry)
    {
      hide Inv, Run, AfterStep, Enabled, Stepped, Effect, FreshStamp;
      x, s := Prepare(true, mayRetry);
      CreateTempEffect(cell, x);
      Commit(x, node, if Applies(x.answer) then temps[x.tmp := Temp([], x.stamp)] else temps, old(cell));
    }

    /** Writes the whole temp file and closes it. */
    method WriteTemp(tmp: TempName, out: Bytes, mayRetry: bool) returns (x: Choice, ghost s: State)
      requires Valid() && cell.proc.Running?
      requires cell.proc.pc.AtTempWrite? && cell.proc.pc.tmp == tmp && cell.proc.pc.out == out
      modifies this
      ensures Valid() && old(trace) <= trace
      ensures Stepped(old(cell), s, x, cell) && (x.retry ==> mayRetry)
    {
      hide Inv, Run, AfterStep, Enabled, Stepped, Effect, FreshStamp;
      x, s := Prepare(true, mayRetry);
      WriteTempEffect(cell, x, tmp, out);
      Commit(x, node, if x.answer.Succeeds? then temps[tmp := Temp(out, x.stamp)] else temps, old(cell));
    }

    /** Moves the temp file over the path: its bytes and its own mtime replace whatever is there. */
    method Rename(tmp: TempName, mayRetry: bool) returns (x: Choice, ghost s: State)
      requires Valid() && cell.proc.Running? && (cell.proc.pc.AtRename? && cell.proc.pc.tmp == tmp)
      modifies this
      ensures Valid() && old(trace) <= trace
      ensures Stepped(old(cell), s, x, cell) && (x.retry ==> mayRetry)
    {
      hide Inv, Run, AfterStep, Enabled, Stepped, Effect, FreshStamp;
      x, s := Prepare(true, mayRetry);
      ReadyInside(cell);
      RenameEffect(cell, x, tmp);
      if Applies(x.answer) {
        Commit(x, Regular(temps[tmp].bytes, temps[tmp].mtime), temps - {tmp}, old(cell));
      } else {
        Commit(x, node, temps, old(cell));
      }
    }

    /** Removes the temp file, if it is still there. */
    method RemoveTemp(tmp: TempName, quiet: bool, mayRetry: bool) returns (x: Choice, ghost s: State)
      requires Valid() && cell.proc.Running?
      requires (cell.proc.pc.AtTempDrop? || cell.proc.pc.AtPublished? || cell.proc.pc.AtCleanup?) && cell.proc.pc.tmp == tmp
      requires InWindow(cell.proc.pc) ==> quiet
      modifies this
      ensures Valid() && old(trace) <= trace
      ensures Stepped(old(cell), s, x, cell) && (x.retry ==> mayRetry)
    {
      hide Inv, Run, AfterStep, Enabled, Stepped, Effect, FreshStamp;
      x, s := Prepare(quiet, mayRetry);
      RemoveTempEffect(cell, x, tmp);
      Commit(x, node, if Applies(x.answer) then temps - {tmp} else temps, old(cell));
    }

    /** Removes what the path shows. */
    method RemoveTarget(mayRetry: bool) returns (x: Choice, ghost s: State)
      requires Valid() && cell.proc.Running? && (cell.proc.pc.AtUnclaim? || cell.proc.pc.AtCopyDrop?)
      modifies this
      ensures Valid() && old(trace) <= trace
      ensures Stepped(old(cell), s, x, cell) && (x.retry ==> mayRetry)
    {
      hide Inv, Run, AfterStep, Enabled, Stepped, Effect, FreshStamp;
      x, s := Prepare(true, mayRetry);
      RemoveTargetEffect(cell, x);
      Commit(x, if Applies(x.answer) then Missing else node, temps, old(cell));
    }

    /** Gives the temp file the path as a second name, unless the path exists. */
    method Link(tmp: TempName, mayRetry: bool) returns (x: Choice, existed: bool, ghost s: State)
      requires Valid() && cell.proc.Running? && (cell.proc.pc.AtLink? && cell.proc.pc.tmp == tmp)
      modifies this
      ensures Valid() && old(trace) <= trace
      ensures Stepped(old(cell), s, x, cell) && (x.retry ==> mayRetry)
      ensures existed <==> s.node != Missing
    {
      hide Inv, Run, AfterStep, Enabled, Stepped, Effect, FreshStamp;
      x, s := Prepare(false, mayRetry);
      existed := node != Missing;
      ReadyInside(cell);
      LinkEffect(cell, x, tmp);
      if node == Missing && Applies(x.answer) {
        Commit(x, Regular(temps[tmp].bytes, temps[tmp].mtime), temps, old(cell));
      } else {
        Commit(x, node, temps, old(cell));
      }
    }

    /** Copies one more piece of the temp file to the path, or finds its end. */
    method CopyPiece(tmp: TempName, done: nat, mayRetry: bool) returns (x: Choice, eof: bool, ghost s: State)
      requires Valid() && cell.proc.Running? && cell.proc.pc == AtCopy(tmp, done)
      modifies this
      ensures Valid() && old(trace) <= trace
      ensures Stepped(old(cell), s, x, cell) && (x.retry ==> mayRetry)
      ensures tmp in s.temps && (eof <==> |s.temps[tmp].bytes| <= done) && (!eof ==> done < x.n <= |s.temps[tmp].bytes|)
    {
      hide Inv, Run, AfterStep, Enabled, Stepped, Effect, FreshStamp;
      x, s := Prepare(true, mayRetry);
      ReadyInside(cell);
      var data := temps[tmp].bytes;
      eof := |data| <= done;
      if done < |data| && !(done < x.n <= |data|) {
        x := x.(n := done + 1);
      }
      CopyPieceEffect(cell, x, tmp, done);
      if Applies(x.answer) && done < x.n <= |data| {
        Commit(x, Regular(data[..x.n], x.stamp), temps, old(cell));
      } else {
        Commit(x, node, temps, old(cell));
      }
    }

    /** An lstat of the temp file. */
    method LookTemp(tmp: TempName, mayRetry: bool) returns (x: Choice, info: Option<Temp>, ghost s: State)
      requires Valid() && cell.proc.Running? && cell.proc.pc == AtTempCheck(tmp)
      modifies this
      ensures Valid() && old(trace) <= trace
      ensures Stepped(old(cell), s, x, cell) && (x.retry ==> mayRetry)
      ensures info == if tmp in s.temps then Some(s.temps[tmp]) else None
    {
      hide Inv, Run, AfterStep, Enabled, Stepped, Effect, FreshStamp;
      x, s := Prepare(false, mayRetry);
      LookEffect(cell, x);
      info := if tmp in temps then Some(temps[tmp]) else None;
      Commit(x, node, temps, old(cell));
    }

    /** No file system call: the handler compares, computes or records what it has in hand. */
    method Think() returns (x: Choice, ghost s: State)
      requires Valid() && cell.proc.Running? && cell.proc.pc.Snapped?
      modifies this
      ensures Valid() && old(trace) <= trace && Stepped(old(cell), s, x, cell)
    {
      hide Inv, Run, AfterStep, Enabled, Stepped, Effect, FreshStamp;
      x, s := Prepare(false, false);
      LookEffect(cell, x);
      Commit(x, node, temps, old(cell));
    }

    /** The path's lock is granted: a text call starts at its first stat. */
    method Begin(token: Token, op: Op) returns (ghost call: Call)
      requires Valid() && cell.proc.Idle? && !op.UploadOp? && (op.MultiEditOp? ==> op.edits != [])
      modifies this
      ensures Valid() && old(trace) <= trace
      ensures call == Call(old(cell.calls), token, op) && cell.proc == Running(call, AtStat)
      ensures cell.state.marks == old(cell.state.marks)
    {
      hide Inv, Run;
      var stamp := Mtime();
      call := Call(cell.calls, token, op);
      Happen(Acquire(token, op, stamp, 0));
      minted := minted + {stamp};
    }

    /** The path's lock is granted to an upload that brings its complete download in a temp file. */
    method BeginUpload(token: Token, image: Bytes) returns (ghost call: Call, tmp: TempName)
      requires Valid() && cell.proc.Idle? && |image| <= MAX_IMAGE_BYTES
      modifies this
      ensures Valid() && old(trace) <= trace
      ensures call == Call(old(cell.calls), token, UploadOp(image)) && cell.proc == Running(call, AtLstat(tmp))
      ensures cell.state.marks == old(cell.state.marks)
    {
      hide Inv, Run;
      var stamp := Mtime();
      ghost var free := Above(temps.Keys);
      assert free !in temps;
      tmp :| tmp !in temps;
      call := Call(cell.calls, token, UploadOp(image));
      Happen(Acquire(token, UploadOp(image), stamp, tmp));
      minted, temps := minted + {stamp}, temps[tmp := Temp(image, stamp)];
    }

    method End()
      requires Valid() && cell.proc.Running? && cell.proc.pc.Done?
      modifies this
      ensures Valid() && old(trace) <= trace
      ensures cell == old(cell).(proc := Idle)
    {
      hide Inv, Run;
      Happen(Release);
    }
  }

  /**
   What the machine's theorems say of the handlers: whatever calls have been made through these files, the versions
   they left form a chain of permitted changes, and every marker that matches the path describes what it shows.
   */
  lemma HandlersAreSafe(f: Files, i: nat, t: Token)
    requires f.Valid()
    ensures var s := f.cell.state;
      i < |s.history| ==>
        && s.history[i].before == Version(f.first, s.history, i) && f.node == Version(f.first, s.history, |s.history|)
        && (s.history[i].cause.By? ==>
              Permitted(s.history[i].cause.call.op, s.history[i].base, s.history[i].mark, s.history[i].after))
    ensures var s := f.cell.state;
      t in s.marks && Fits(s.marks[t].marker, f.node) ==> f.node == Regular(s.marks[t].bytes, s.marks[t].marker.mtime)
    ensures ReplyHolds(f.cell)
  {
    hide Inv, Run, Permitted, ReplyHolds;
    if i < |f.cell.state.history| {
      NoLostUpdate(f.first, f.trace, i);
    }
    MarkersAreSound(f.first, f.trace, t);
    RepliesAreTrue(f.first, f.trace);
  }
}
