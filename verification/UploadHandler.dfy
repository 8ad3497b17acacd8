/**
 The publish stage of an upload (internal/tools/publish.go), from the granted lock to the reply, call by call, and
 proved like the text handlers to make exactly a run of the one-path machine.
 */
module UploadHandler {
  import opened Wrappers
  import opened ByteSearch
  import opened Protocol
  import opened ProtocolInvariant
  import opened ProtocolTheorems
  import opened Files
  import T = TextHandlers

  /** How one attempt at the decision ends. */
  datatype Attempt = Answered(reply: Reply) | Again | GaveUp(why: Failure)

  /** Where an attempt leaves the handler. */
  function Ends(a: Attempt, tmp: TempName): Pc {
    match a
    case Answered(reply) => Done(reply)
    case Again => AtLstat(tmp)
    case GaveUp(why) => AtCleanup(tmp, why)
  }

  function Failing(x: Choice): Attempt {
    if x.retry then Again else GaveUp(FsError)
  }

  datatype Publish = Raced | Over(attempt: Attempt)

  /** What a publish attempt leaves: its reply is one of the two good ones, and `created` alone drops the token's marker. */
  ghost predicate Settled(marks: map<Token, Mark>, call: Call, tmp: TempName, r: Publish, mayRetry: bool, c: Cell) {
    match r
    case Raced => c.proc == Running(call, AtRaced(tmp)) && c.state.marks == marks
    case Over(a) =>
      && c.proc == Running(call, Ends(a, tmp)) && (a.Again? ==> mayRetry)
      && (a.Answered? ==> a.reply == Skipped || a.reply.Created?)
      && c.state.marks == if a.Answered? && a.reply.Created? then marks - {call.token} else marks
  }

  lemma CopyKnows(c: Cell)
    requires Inv(c) && c.proc.Running? && c.proc.pc.AtCopy?
    ensures c.proc.pc.tmp in c.state.temps && c.state.temps[c.proc.pc.tmp].bytes == c.proc.call.op.image
    ensures c.proc.pc.n <= |c.proc.call.op.image|
  {
  }

  class Publisher {
    const files: Files

    constructor (files: Files)
      ensures this.files == files
    {
      this.files := files;
    }

    /** Compares an existing file with the image, between two stats that must agree. */
    method CompareExisting(ghost call: Call, tmp: TempName, before: Marker, image: Bytes, mayRetry: bool) returns (a: Attempt)
      requires files.Valid() && call.op == UploadOp(image) && files.cell.proc == Running(call, AtCompare(tmp, before))
      modifies files
      ensures files.Valid() && old(files.trace) <= files.trace
      ensures files.cell.state.marks == old(files.cell.state.marks) && (a.Again? ==> mayRetry)
      ensures files.cell.proc == Running(call, Ends(a, tmp)) && (a.Answered? ==> a.reply == Skipped)
    {
      hide Inv, Run, Capped;
      var x, s := files.ReadAll(before, true, mayRetry);
      if !x.answer.Succeeds? { return Failing(x); }
      var data := x.data;
      if |data| > MAX_IMAGE_BYTES { return GaveUp(ExistsConflict); }
      var after;
      x, after, s := files.Look(false, mayRetry);
      if !x.answer.Succeeds? { return Failing(x); }
      if after.Missing? { return GaveUp(NotExist); }
      if MarkerOf(after) != before { return GaveUp(TargetChanged); }
      if |data| != before.size { return GaveUp(TargetChanged); }
      if data != image { return GaveUp(ExistsConflict); }
      return Answered(Skipped);
    }

    /** What an lstat that found something leads to. */
    method Compare(ghost call: Call, tmp: TempName, info: Node, image: Bytes, mayRetry: bool) returns (a: Attempt)
      requires files.Valid() && call.op == UploadOp(image) && info != Missing
      requires files.cell.proc == Running(call, if info.Directory? then AtCleanup(tmp, IsDir) else AtCompare(tmp, MarkerOf(info)))
      modifies files
      ensures files.Valid() && old(files.trace) <= files.trace
      ensures files.cell.state.marks == old(files.cell.state.marks) && (a.Again? ==> mayRetry)
      ensures files.cell.proc == Running(call, Ends(a, tmp)) && (a.Answered? ==> a.reply == Skipped)
    {
      if info.Directory? { return GaveUp(IsDir); }
      a := CompareExisting(call, tmp, MarkerOf(info), image, mayRetry);
    }

    /** Removes an unfinished copy, best effort, and fails the attempt. */
    method DropCopy(ghost call: Call, tmp: TempName, mayRetry: bool) returns (a: Attempt)
      requires files.Valid() && files.cell.proc == Running(call, AtCopyDrop(tmp))
      modifies files
      ensures files.Valid() && old(files.trace) <= files.trace
      ensures files.cell.state.marks == old(files.cell.state.marks) && (a.Again? ==> mayRetry)
      ensures files.cell.proc == Running(call, Ends(a, tmp)) && !a.Answered?
    {
      hide Inv, Run;
      var x, s := files.RemoveTarget(mayRetry);
      return Failing(x);
    }

    /** Copies piece by piece to the end of the temp file, and checks how many bytes that was. */
    method CopyAll(ghost call: Call, tmp: TempName, image: Bytes) returns (complete: bool)
      requires files.Valid() && call.op == UploadOp(image) && files.cell.proc == Running(call, AtCopy(tmp, 0))
      modifies files
      ensures files.Valid() && old(files.trace) <= files.trace
      ensures files.cell.state.marks == old(files.cell.state.marks)
      ensures files.cell.proc == Running(call, if complete then AtPublished(tmp, true) else AtCopyDrop(tmp))
    {
      hide Inv, Run, Capped;
      var n: nat := 0;
      while true
        invariant files.Valid() && old(files.trace) <= files.trace
        invariant files.cell.state.marks == old(files.cell.state.marks)
        invariant n <= |image| && files.cell.proc == Running(call, AtCopy(tmp, n))
        decreases |image| - n
      {
        CopyKnows(files.cell);
        var x, eof, s := files.CopyPiece(tmp, n, false);
        if !x.answer.Succeeds? { return false; }
        if eof { return n == |image|; }
        n := x.n;
      }
    }

    /** Copies the temp file into a file this call creates exclusively; a failed copy is removed, best effort. */
    method DegradedPublish(ghost call: Call, tmp: TempName, image: Bytes, mayRetry: bool) returns (r: Result<bool, Attempt>)
      requires files.Valid() && call.op == UploadOp(image) && files.cell.proc == Running(call, AtDegrade(tmp))
      modifies files
      ensures files.Valid() && old(files.trace) <= files.trace
      ensures files.cell.state.marks == old(files.cell.state.marks) && (r.Err? ==> !r.error.Answered? && (r.error.Again? ==> mayRetry))
      ensures files.cell.proc == Running(call, match r case Ok(raced) => if raced then AtRaced(tmp) else AtPublished(tmp, true)
                                                      case Err(a) => Ends(a, tmp))
    {
      hide Inv, Run, Capped;
      var x, existed, s := files.CreateNew(mayRetry);
      if !x.answer.Succeeds? { return Err(Failing(x)); }
      if existed { return Ok(true); }
      var complete := CopyAll(call, tmp, image);
      if !complete {
        var a := DropCopy(call, tmp, mayRetry);
        return Err(a);
      }
      return Ok(false);
    }

    method PublishByCopy(ghost call: Call, tmp: TempName, image: Bytes, mayRetry: bool) returns (r: Publish)
      requires files.Valid() && call.op == UploadOp(image) && files.cell.proc == Running(call, AtDegrade(tmp))
      modifies files
      ensures files.Valid() && old(files.trace) <= files.trace
      ensures Settled(old(files.cell.state.marks), call, tmp, r, mayRetry, files.cell)
    {
      hide Inv, Run;
      var d := DegradedPublish(call, tmp, image, mayRetry);
      if d.Err? { return Over(d.error); }
      if d.value { return Raced; }
      r := DropPublished(call, tmp, true, mayRetry);
    }

    /** The publish itself never replaces: a link, or where links are refused, an exclusive copy. */
    method PublishNoReplace(ghost call: Call, tmp: TempName, image: Bytes, mayRetry: bool) returns (r: Publish)
      requires files.Valid() && call.op == UploadOp(image) && files.cell.proc == Running(call, AtTempCheck(tmp))
      modifies files
      ensures files.Valid() && old(files.trace) <= files.trace
      ensures Settled(old(files.cell.state.marks), call, tmp, r, mayRetry, files.cell)
    {
      hide Inv, Run, Intended, Capped, LastOwn, AfterStat, AfterRead, AfterSnapshot, AfterRestat, AfterClaim,
        AfterTemp, AfterTempWrite, AfterRename, AfterTempDrop, AfterUnclaim, AfterMark, AfterLstat,
        AfterCompare, AfterAfter, AfterDegrade, AfterCopy, AfterCopyDrop, AfterPublished;
      var x, info, s := files.LookTemp(tmp, mayRetry);
      if !x.answer.Succeeds? || info.None? || |info.value.bytes| != |image| {
        return Over(GaveUp(TempLost));
      }
      var existed;
      x, existed, s := files.Link(tmp, mayRetry);
      match x.answer {
        case Succeeds =>
          if existed { return Raced; }
          r := DropPublished(call, tmp, false, mayRetry);
        case Refused =>
          r := PublishByCopy(call, tmp, image, mayRetry);
        case _ =>
          return Over(Failing(x));
      }
    }

    /** The commit is done; a temp file that cannot be removed is only a notice. */
    method DropPublished(ghost call: Call, tmp: TempName, degraded: bool, mayRetry: bool) returns (r: Publish)
      requires files.Valid() && files.cell.proc == Running(call, AtPublished(tmp, degraded))
      modifies files
      ensures files.Valid() && old(files.trace) <= files.trace
      ensures Settled(old(files.cell.state.marks), call, tmp, r, mayRetry, files.cell) && r.Over?
    {
      hide Inv, Run;
      var x, s := files.RemoveTemp(tmp, false, false);
      return Over(Answered(Created(degraded, !x.answer.Succeeds?)));
    }

    /** A name that was free has been taken meanwhile: look again at whatever took it. */
    method CompareRaced(ghost call: Call, tmp: TempName, image: Bytes, mayRetry: bool) returns (a: Attempt)
      requires files.Valid() && call.op == UploadOp(image) && files.cell.proc == Running(call, AtRaced(tmp))
      modifies files
      ensures files.Valid() && old(files.trace) <= files.trace
      ensures files.cell.state.marks == old(files.cell.state.marks) && (a.Again? ==> mayRetry)
      ensures files.cell.proc == Running(call, Ends(a, tmp)) && (a.Answered? ==> a.reply == Skipped)
    {
      hide Inv, Run, Intended, Capped, LastOwn, AfterStat, AfterRead, AfterSnapshot, AfterRestat, AfterClaim, AfterTemp,
        AfterTempWrite, AfterRename, AfterTempDrop, AfterUnclaim, AfterMark, AfterCompare, AfterAfter, AfterTempCheck,
        AfterLink, AfterDegrade, AfterCopy, AfterCopyDrop, AfterPublished;
      var x, info, s := files.Look(false, mayRetry);
      if !x.answer.Succeeds? { return Failing(x); }
      if info == Missing { return GaveUp(NotExist); }
      a := Compare(call, tmp, info, image, mayRetry);
    }

    /** One attempt of the whole decision, against the path as it now is. */
    method TryPublish(ghost call: Call, tmp: TempName, image: Bytes, mayRetry: bool) returns (a: Attempt)
      requires files.Valid() && call.op == UploadOp(image) && files.cell.proc == Running(call, AtLstat(tmp))
      modifies files
      ensures files.Valid() && old(files.trace) <= files.trace
      ensures Settled(old(files.cell.state.marks), call, tmp, Over(a), mayRetry, files.cell)
    {
      hide Inv, Run, Intended, Capped, LastOwn, AfterStat, AfterRead, AfterSnapshot, AfterRestat, AfterClaim,
        AfterTemp, AfterTempWrite, AfterRename, AfterTempDrop, AfterUnclaim, AfterMark, AfterCompare,
        AfterAfter, AfterTempCheck, AfterLink, AfterDegrade, AfterCopy, AfterCopyDrop, AfterPublished;
      var x, info, s := files.Look(false, mayRetry);
      if !x.answer.Succeeds? { return Failing(x); }
      if info != Missing {
        a := Compare(call, tmp, info, image, mayRetry);
        return;
      }
      var r := PublishNoReplace(call, tmp, image, mayRetry);
      if r.Over? { return r.attempt; }
      a := CompareRaced(call, tmp, image, mayRetry);
    }

    method PublishItem(ghost call: Call, tmp: TempName, image: Bytes) returns (a: Attempt)
      requires files.Valid() && call.op == UploadOp(image) && files.cell.proc == Running(call, AtLstat(tmp))
      modifies files
      ensures files.Valid() && old(files.trace) <= files.trace
      ensures Settled(old(files.cell.state.marks), call, tmp, Over(a), false, files.cell)
    {
      hide Inv, Run;
      var left := T.MAX_RETRIES;
      while true
        invariant files.Valid() && old(files.trace) <= files.trace
        invariant files.cell.state.marks == old(files.cell.state.marks) && files.cell.proc == Running(call, AtLstat(tmp))
        decreases left
      {
        a := TryPublish(call, tmp, image, left > 0);
        if !a.Again? { return; }
        left := left - 1;
      }
    }

    /** The locked stage of one upload item: publish, clean up after a failure, forget the marker of a created file. */
    method UploadItem(conn: T.Conn, image: Bytes) returns (reply: Reply)
      requires conn.files == files && conn.Valid() && files.cell.proc.Idle? && |image| <= MAX_IMAGE_BYTES
      modifies files, conn.sess
      ensures conn.Valid() && old(files.trace) <= files.trace
      ensures files.cell.proc == Running(Call(old(files.cell.calls), conn.token, UploadOp(image)), Done(reply))
      ensures reply.Created? ==> conn.path !in conn.sess.markers
    {
      hide Inv, Run;
      var tmp;
      ghost var call;
      call, tmp := files.BeginUpload(conn.token, image);
      var a := PublishItem(call, tmp, image);
      match a
      case GaveUp(why) =>
        var x, s := files.RemoveTemp(tmp, false, false);
        return Failed(why);
      case Answered(r) =>
        if r.Created? {
          conn.sess.Forget(conn.path);
        }
        return r;
    }
  }
}
