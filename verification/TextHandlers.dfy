/**
 The read, edit, multi_edit and write handlers, call by call as internal/tools makes them. Each is proved to make, for
 every behaviour of the file system and of other programs, exactly the calls of a run of the one-path machine, and to
 answer what the machine answers; so every theorem about runs is a theorem about these handlers.
 */
module TextHandlers {
  import opened Wrappers
  import opened ByteSearch
  import opened EditEngine
  import opened Protocol
  import opened ProtocolInvariant
  import opened ProtocolTheorems
  import opened Files
  import P = ProtocolProgress
  import S = Session

  /** The most times a closure runs again: three before any call has succeeded, once after. */
  const MAX_RETRIES: nat := 3

  datatype Snap = Snap(st: Marker, data: Bytes)

  lemma PublishedStays(c: Cell, s: State, x: Choice, d: Cell)
    requires Stepped(c, s, x, d) && c.proc.pc.AtMark? && Published(c.state, c.proc.call)
    ensures Published(d.state, c.proc.call)
  {
    hide Permitted;
  }

  /** One token's connection, for the calls it makes on one resolved path. */
  class Conn {
    const token: Token
    const path: string
    const files: Files
    const sess: S.Session

    constructor (token: Token, path: string, files: Files, sess: S.Session)
      ensures this.token == token && this.path == path && this.files == files && this.sess == sess
    {
      this.token, this.path, this.files, this.sess := token, path, files, sess;
    }

    /** The session's marker for the path is the machine's marker for the token. */
    ghost predicate Agrees()
      reads this, files, sess
    {
      && (path in sess.markers <==> token in files.cell.state.marks)
      && (path in sess.markers ==> sess.markers[path] == files.cell.state.marks[token].marker)
    }

    ghost predicate Valid()
      reads this, files, sess
    {
      files.Valid() && sess.Valid() && Agrees()
    }

    /** The stat and the read that read and the edits begin with: the stat comes first, and both are retried together. */
    method Snapshot(ghost call: Call) returns (r: Result<Snap, Failure>)
      requires files.Valid() && files.cell.proc == Running(call, AtStat) && !call.op.UploadOp? && !call.op.WriteOp?
      modifies files
      ensures files.Valid() && old(files.trace) <= files.trace
      ensures files.cell.state.marks == old(files.cell.state.marks)
      ensures files.cell.proc == Running(call, match r case Ok(snap) => Snapped(snap.st, snap.data) case Err(why) => Done(Failed(why)))
    {
      hide Inv, Run;
      var left := MAX_RETRIES;
      while true
        invariant files.Valid() && old(files.trace) <= files.trace
        invariant files.cell.state.marks == old(files.cell.state.marks) && files.cell.proc == Running(call, AtStat)
        decreases left
      {
        var x, info, s := files.Look(false, left > 0);
        if x.answer.Succeeds? {
          if info.Missing? { return Err(NotExist); }
          if info.Directory? { return Err(IsDir); }
          var st := Marker(|info.bytes|, info.mtime);
          x, s := files.ReadAll(st, false, left > 0);
          if x.answer.Succeeds? { return Ok(Snap(st, x.data)); }
        }
        if !x.retry { return Err(FsError); }
        left := left - 1;
      }
    }

    method Read() returns (reply: Reply)
      requires Valid() && files.cell.proc.Idle?
      modifies files, sess
      ensures Valid() && old(files.trace) <= files.trace
      ensures files.cell.proc == Running(Call(old(files.cell.calls), token, ReadOp), Done(reply))
    {
      hide Inv, Run;
      ghost var call := files.Begin(token, ReadOp);
      var r := Snapshot(call);
      if r.Err? { return Failed(r.error); }
      var x, s := files.Think();
      sess.MarkRead(path, r.value.st.size, r.value.st.mtime);
      return ReadDone(r.value.data);
    }

    /** Stats the path again, retried on its own. */
    method StatFile(ghost call: Call, ghost pc: Pc) returns (info: Node, ok: bool)
      requires files.Valid() && pc.AtRestat? && files.cell.proc == Running(call, pc)
      modifies files
      ensures files.Valid() && old(files.trace) <= files.trace
      ensures files.cell.state.marks == old(files.cell.state.marks) && (ok ==> info == files.cell.state.node)
      ensures files.cell.proc == Running(call, if !ok then Done(Failed(FsError))
                                               else if info == Missing then Done(Failed(NotExist))
                                               else if MarkerOf(info) != pc.st then Done(Failed(Stale))
                                               else AtTemp(info, pc.out))
    {
      hide Inv, Run;
      var left := MAX_RETRIES;
      while true
        invariant files.Valid() && old(files.trace) <= files.trace
        invariant files.cell.state.marks == old(files.cell.state.marks) && files.cell.proc == Running(call, pc)
        decreases left
      {
        var x, now, s := files.Look(false, left > 0);
        if x.answer.Succeeds? { return now, true; }
        if !x.retry { return now, false; }
        left := left - 1;
      }
    }

    method FillAndRename(ghost call: Call, ghost base: Node, out: Bytes, tmp: TempName) returns (keep: bool)
      requires files.Valid() && files.cell.proc == Running(call, AtTempWrite(base, out, tmp))
      modifies files
      ensures files.Valid() && old(files.trace) <= files.trace
      ensures files.cell.state.marks == old(files.cell.state.marks)
      ensures files.cell.proc == Running(call, if keep then AtMark(base, out) else AtTempDrop(base, out, tmp))
    {
      hide Inv, Run;
      var x, s := files.WriteTemp(tmp, out, false);
      if !x.answer.Succeeds? { return false; }
      x, s := files.Rename(tmp, false);
      return x.answer.Succeeds?;
    }

    /** One attempt: a temp file beside the path, renamed over it; a failure removes the temp file, best effort. */
    method TryWrite(ghost call: Call, ghost base: Node, out: Bytes, mayRetry: bool) returns (ok: bool, again: bool)
      requires files.Valid() && files.cell.proc == Running(call, AtTemp(base, out))
      modifies files
      ensures files.Valid() && old(files.trace) <= files.trace
      ensures files.cell.state.marks == old(files.cell.state.marks)
      ensures again ==> mayRetry && !ok
      ensures files.cell.proc == Running(call, if ok then AtMark(base, out) else if again then AtTemp(base, out)
                                               else if base == Missing then AtUnclaim(out) else Done(Failed(FsError)))
    {
      hide Inv, Run, InWindow;
      var x, s := files.CreateTemp(mayRetry);
      if !x.answer.Succeeds? { return false, x.retry; }
      var tmp := x.tmp;
      var keep := FillAndRename(call, base, out, tmp);
      if keep { return true, false; }
      x, s := files.RemoveTemp(tmp, true, mayRetry);
      return false, x.retry;
    }

    method AtomicWrite(ghost call: Call, ghost base: Node, out: Bytes) returns (ok: bool)
      requires files.Valid() && files.cell.proc == Running(call, AtTemp(base, out))
      modifies files
      ensures files.Valid() && old(files.trace) <= files.trace
      ensures files.cell.state.marks == old(files.cell.state.marks)
      ensures files.cell.proc == Running(call, if ok then AtMark(base, out)
                                               else if base == Missing then AtUnclaim(out) else Done(Failed(FsError)))
    {
      hide Inv, Run;
      var left := MAX_RETRIES;
      while true
        invariant files.Valid() && old(files.trace) <= files.trace
        invariant files.cell.state.marks == old(files.cell.state.marks) && files.cell.proc == Running(call, AtTemp(base, out))
        decreases left
      {
        var done, again := TryWrite(call, base, out, left > 0);
        if !again { return done; }
        left := left - 1;
      }
    }

    /** Records what a fresh stat says; if it fails, a marker no file can match, so that the next write must read first. */
    method MarkKnown(ghost call: Call, ghost base: Node, out: Bytes)
      requires Valid() && call.token == token && files.cell.proc == Running(call, AtMark(base, out))
      modifies files, sess
      ensures Valid() && old(files.trace) <= files.trace
      ensures files.cell.proc == Running(call, Done(WriteDone)) && Published(files.cell.state, call)
    {
      hide Inv, Run, Held, Published;
      InvHeld(files.cell);
      MarkedIsPublished(files.cell.state, call, AtMark(base, out));
      var left := MAX_RETRIES;
      while true
        invariant Valid() && old(files.trace) <= files.trace
        invariant files.cell.proc == Running(call, AtMark(base, out)) && Published(files.cell.state, call)
        decreases left
      {
        ghost var c := files.cell;
        var x, info, s := files.Look(true, left > 0);
        PublishedStays(c, s, x, files.cell);
        if x.answer.Succeeds? && info != Missing {
          var m := MarkerOf(info);
          sess.MarkRead(path, m.size, m.mtime);
          return;
        }
        if x.answer.Succeeds? || !x.retry {
          sess.MarkRead(path, |out|, ZERO);
          return;
        }
        left := left - 1;
      }
    }

    /** The edits' new content, all or nothing. */
    method Apply(content: Bytes, op: Op) returns (r: Result<Bytes, EditError>)
      requires op.EditOp? || op.MultiEditOp?
      ensures r == Intended(op, content)
    {
      match op
      case EditOp(e) =>
        var a := ApplyOnce(content, e);
        if a.Err? { return Err(a.error); }
        return Ok(a.value.content);
      case MultiEditOp(edits) =>
        r := ApplyMany(content, edits);
    }

    /** The marker check, and only behind it the edits. */
    method CheckAndApply(ghost call: Call, op: Op, snap: Snap) returns (out: Result<Bytes, Failure>)
      requires Valid() && call.token == token && call.op == op && (op.EditOp? || op.MultiEditOp?)
      requires files.cell.proc == Running(call, Snapped(snap.st, snap.data))
      modifies files
      ensures Valid() && old(files.trace) <= files.trace
      ensures files.cell.proc == Running(call, match out
        case Ok(bytes) => AtRestat(snap.st, snap.data, bytes)
        case Err(why) => Done(Failed(why)))
    {
      hide Inv, Run, Intended;
      var status := sess.Compare(path, snap.st.size, snap.st.mtime);
      if status != S.StatusMatch {
        var x, s := files.Think();
        return Err(if status == S.StatusUnknown then NeverRead else Stale);
      }
      var applied := Apply(snap.data, op);
      var x, s := files.Think();
      if applied.Err? { return Err(EditFails(applied.error)); }
      return Ok(applied.value);
    }

    /** edit and multi_edit, which differ only in the edits applied. */
    method EditFlow(op: Op) returns (reply: Reply)
      requires Valid() && files.cell.proc.Idle? && (op.EditOp? || (op.MultiEditOp? && op.edits != []))
      modifies files, sess
      ensures Valid() && old(files.trace) <= files.trace
      ensures files.cell.proc == Running(Call(old(files.cell.calls), token, op), Done(reply))
      ensures reply == WriteDone ==> Published(files.cell.state, Call(old(files.cell.calls), token, op))
    {
      hide Inv, Run, Intended, Published;
      ghost var call := files.Begin(token, op);
      var r := Snapshot(call);
      if r.Err? { return Failed(r.error); }
      var snap := r.value;

      var out := CheckAndApply(call, op, snap);
      if out.Err? { return Failed(out.error); }

      ghost var pc := AtRestat(snap.st, snap.data, out.value);
      assert files.cell.proc == Running(call, pc);
      var info, ok := StatFile(call, pc);
      if !ok { return Failed(FsError); }
      if info == Missing { return Failed(NotExist); }
      if MarkerOf(info) != snap.st { return Failed(Stale); }

      ghost var base := info;
      ok := AtomicWrite(call, base, out.value);
      if !ok { return Failed(FsError); }
      MarkKnown(call, base, out.value);
      return WriteDone;
    }

    /** write's first stat: a directory and an error end the call, a missing file is to be claimed. */
    method WriteStat(ghost call: Call) returns (info: Node, ok: bool)
      requires files.Valid() && call.op.WriteOp? && files.cell.proc == Running(call, AtStat)
      modifies files
      ensures files.Valid() && old(files.trace) <= files.trace
      ensures files.cell.state.marks == old(files.cell.state.marks)
      ensures files.cell.proc == Running(call,
        if !ok then Done(Failed(FsError))
        else if info.Missing? then AtClaim(call.op.content)
        else if info.Directory? then Done(Failed(IsDir))
        else match Gate(files.cell.state, call, MarkerOf(info))
             case Some(why) => Done(Failed(why))
             case None => AtRestat(MarkerOf(info), files.cell.state.marks[call.token].bytes, call.op.content))
    {
      hide Inv, Run;
      var left := MAX_RETRIES;
      while true
        invariant files.Valid() && old(files.trace) <= files.trace
        invariant files.cell.state.marks == old(files.cell.state.marks) && files.cell.proc == Running(call, AtStat)
        decreases left
      {
        var x, now, s := files.Look(false, left > 0);
        if x.answer.Succeeds? { return now, true; }
        if !x.retry { return now, false; }
        left := left - 1;
      }
    }

    /** Claims the missing name exclusively. */
    method Claim(ghost call: Call, out: Bytes) returns (failure: Option<Failure>)
      requires files.Valid() && files.cell.proc == Running(call, AtClaim(out))
      modifies files
      ensures files.Valid() && old(files.trace) <= files.trace
      ensures files.cell.state.marks == old(files.cell.state.marks)
      ensures files.cell.proc == Running(call, match failure case None => AtTemp(Missing, out) case Some(why) => Done(Failed(why)))
    {
      hide Inv, Run;
      var left := MAX_RETRIES;
      while true
        invariant files.Valid() && old(files.trace) <= files.trace
        invariant files.cell.state.marks == old(files.cell.state.marks) && files.cell.proc == Running(call, AtClaim(out))
        decreases left
      {
        var x, existed, s := files.CreateNew(left > 0);
        if x.answer.Succeeds? { return if existed then Some(NeverRead) else None; }
        if !x.retry { return Some(FsError); }
        left := left - 1;
      }
    }

    /** Takes the empty claim back, best effort. */
    method Unclaim(ghost call: Call, ghost out: Bytes)
      requires files.Valid() && files.cell.proc == Running(call, AtUnclaim(out))
      modifies files
      ensures files.Valid() && old(files.trace) <= files.trace
      ensures files.cell.state.marks == old(files.cell.state.marks)
      ensures files.cell.proc == Running(call, Done(Failed(FsError)))
    {
      hide Inv, Run;
      var left := MAX_RETRIES;
      while true
        invariant files.Valid() && old(files.trace) <= files.trace
        invariant files.cell.state.marks == old(files.cell.state.marks) && files.cell.proc == Running(call, AtUnclaim(out))
        decreases left
      {
        var x, s := files.RemoveTarget(left > 0);
        if x.answer.Succeeds? || !x.retry { return; }
        left := left - 1;
      }
    }

    /** Whether the file an existing target shows is the one this token knows, and still is just before the write. */
    method Known(ghost call: Call, info: Node) returns (failure: Option<Failure>, now: Node)
      requires Valid() && call.token == token && call.op.WriteOp? && info.Regular?
      requires files.cell.proc == Running(call,
        match Gate(files.cell.state, call, MarkerOf(info))
        case Some(why) => Done(Failed(why))
        case None => AtRestat(MarkerOf(info), files.cell.state.marks[call.token].bytes, call.op.content))
      modifies files
      ensures Valid() && old(files.trace) <= files.trace
      ensures files.cell.proc == Running(call, match failure case None => AtTemp(now, call.op.content) case Some(why) => Done(Failed(why)))
      ensures failure == None ==> now != Missing
    {
      hide Inv, Run;
      var m := MarkerOf(info);
      var status := sess.Compare(path, m.size, m.mtime);
      match status {
        case StatusUnknown => return Some(NeverRead), info;
        case StatusStale => return Some(Stale), info;
        case StatusMatch =>
      }
      ghost var pc := files.cell.proc.pc;
      var ok;
      now, ok := StatFile(call, pc);
      if !ok { return Some(FsError), now; }
      if now == Missing { return Some(NotExist), now; }
      if MarkerOf(now) != m { return Some(Stale), now; }
      return None, now;
    }

    method Write(content: Bytes) returns (reply: Reply)
      requires Valid() && files.cell.proc.Idle?
      modifies files, sess
      ensures Valid() && old(files.trace) <= files.trace
      ensures files.cell.proc == Running(Call(old(files.cell.calls), token, WriteOp(content)), Done(reply))
      ensures reply == WriteDone ==> Published(files.cell.state, Call(old(files.cell.calls), token, WriteOp(content)))
    {
      hide Inv, Run, Published;
      ghost var call := files.Begin(token, WriteOp(content));
      var info, ok := WriteStat(call);
      if !ok { return Failed(FsError); }
      if info.Directory? { return Failed(IsDir); }

      var claimed := false;
      var failure;
      ghost var base := Missing;
      if info.Missing? {
        failure := Claim(call, content);
        claimed := true;
      } else {
        var now;
        failure, now := Known(call, info);
        base := now;
      }
      if failure.Some? { return Failed(failure.value); }

      ok := AtomicWrite(call, base, content);
      if !ok {
        if claimed {
          Unclaim(call, content);
        }
        return Failed(FsError);
      }
      MarkKnown(call, base, content);
      return WriteDone;
    }
  }

  /**
   What the handlers answer, on the files they work on: if since the lock was granted every call succeeded, if need be
   after retries, and nobody else wrote the path, then the file and the reply are the ones due.
   */
  lemma HandlersGetThrough(f: Files, past: seq<Event>, e: Event, es: seq<Event>)
    requires f.Valid() && f.trace == past + ([e] + es) && f.cell.proc.Running? && f.cell.proc.pc.Done?
    requires e.Acquire? && Run(Start(f.first), past) && After(Start(f.first), past).proc.Idle?
    requires Enabled(After(Start(f.first), past), e)
    requires Run(Next(After(Start(f.first), past), e), es) && P.Quiet(Next(After(Start(f.first), past), e), es)
    ensures var c := After(Start(f.first), past);
      var call := Call(c.calls, e.token, e.op);
      && f.node == f.cell.state.node
      && if e.op.UploadOp? then P.UploadEnds(c.state.node, c.state.marks, call, f.cell.state, f.cell.proc.pc.reply)
         else P.TextEnds(c.state.node, c.state.marks, call, f.cell.state, f.cell.proc.pc.reply)
  {
    hide Inv, Run, After, Enabled, Next, P.Quiet, P.TextEnds, P.UploadEnds;
    P.RecordedCallIsExact(f.first, past, e, es);
  }
}
