/** The batch part of upload (internal/tools/upload.go): shape checks, duplicate targets, the worker pool, the summary. */
module UploadBatch {
  import opened Wrappers

  const MAX_BATCH_ITEMS: nat := 32
  const MAX_URL_BYTES: nat := 8192
  const MAX_CONCURRENT: nat := 4

  datatype Item = Item(url: string, path: string)

  datatype Status = Unset | Created | Skipped | Failed

  datatype Why = Nothing | BadPath | DuplicateTarget(target: string) | ItemError

  datatype Row = Row(index: nat, status: Status, why: Why)

  datatype Output = Output(results: seq<Row>, created: nat, skipped: nat, failed: nat, isError: bool)

  datatype Refusal = NoItems | TooManyItems | BadItem(index: nat) | Busy

  predicate Malformed(it: Item) {
    it.url == "" || |it.url| > MAX_URL_BYTES || it.path == ""
  }

  /** What the call refuses before anything starts; the first malformed item is the one named. */
  predicate Refuses(files: seq<Item>, full: bool, why: Refusal) {
    match why
    case NoItems => files == []
    case TooManyItems => |files| > MAX_BATCH_ITEMS
    case BadItem(n) =>
      && 0 < |files| <= MAX_BATCH_ITEMS && 1 <= n <= |files|
      && Malformed(files[n - 1]) && forall i :: 0 <= i < n - 1 ==> !Malformed(files[i])
    case Busy => 0 < |files| <= MAX_BATCH_ITEMS && (forall i :: 0 <= i < |files| ==> !Malformed(files[i])) && full
  }

  type Validator = string -> Option<string>

  /** The items before `n` whose path resolves to this target. */
  function Sharing(files: seq<Item>, validate: Validator, target: string, n: nat): seq<nat>
    requires n <= |files|
  {
    if n == 0 then []
    else if validate(files[n - 1].path) == Some(target) then Sharing(files, validate, target, n - 1) + [n - 1]
    else Sharing(files, validate, target, n - 1)
  }

  lemma {:induction false} SharingIsExact(files: seq<Item>, validate: Validator, target: string, n: nat)
    requires n <= |files|
    ensures var s := Sharing(files, validate, target, n);
      && (forall i :: i in s <==> 0 <= i < n && validate(files[i].path) == Some(target))
      && (forall j, k :: 0 <= j < k < |s| ==> s[j] < s[k])
  {
    if n > 0 {
      var rest := Sharing(files, validate, target, n - 1);
      SharingIsExact(files, validate, target, n - 1);
      assert forall i :: i in rest + [n - 1] <==> i in rest || i == n - 1;
      assert forall j :: 0 <= j < |rest| ==> rest[j] in rest;
    }
  }

  /** Another item of the batch has the same target. */
  predicate Shared(files: seq<Item>, validate: Validator, i: nat)
    requires i < |files|
  {
    exists j :: 0 <= j < |files| && j != i && validate(files[j].path) == validate(files[i].path)
  }

  /** The items that reach a worker. */
  predicate Runs(files: seq<Item>, validate: Validator, i: nat)
    requires i < |files|
  {
    validate(files[i].path).Some? && !Shared(files, validate, i)
  }

  function Count(rows: seq<Row>, st: Status): nat {
    if rows == [] then 0 else Count(rows[..|rows| - 1], st) + if rows[|rows| - 1].status == st then 1 else 0
  }

  lemma {:induction false} CountAll(rows: seq<Row>)
    requires forall i :: 0 <= i < |rows| ==> rows[i].status != Unset
    ensures Count(rows, Created) + Count(rows, Skipped) + Count(rows, Failed) == |rows|
    ensures Count(rows, Failed) > 0 <==> exists i :: 0 <= i < |rows| && rows[i].status == Failed
  {
    if rows != [] {
      var init := rows[..|rows| - 1];
      CountAll(init);
      if exists i :: 0 <= i < |rows| && rows[i].status == Failed {
        var i :| 0 <= i < |rows| && rows[i].status == Failed;
        assert i < |init| ==> init[i] == rows[i];
      }
    }
  }

  /** A row the pipeline gave for the item with this number, counted from 1. */
  predicate Answered(row: Row, index: nat) {
    row.index == index && row.status != Unset && !row.why.BadPath? && !row.why.DuplicateTarget?
  }

  /**
   What the items' pipelines answer, by number, from download slot to reply: each runs at most once in a call, so
   whatever happens on the way is one row for each. UploadHandler and the download decide which; every row is possible.
   */
  type Pipeline = nat -> Row

  /** Every pipeline answers for its own item. */
  ghost predicate Answers(pipeline: Pipeline) {
    forall n :: Answered(pipeline(n), n)
  }

  /** The row an item has before any worker starts. */
  function Before(files: seq<Item>, validate: Validator, i: nat): Row
    requires i < |files|
  {
    match validate(files[i].path)
    case None => Row(i + 1, Failed, BadPath)
    case Some(t) => if Shared(files, validate, i) then Row(i + 1, Failed, DuplicateTarget(t)) else Row(0, Unset, Nothing)
  }

  /** The first n items, grouped by target. */
  ghost predicate Grouped(files: seq<Item>, validate: Validator, n: nat, byTarget: map<string, seq<nat>>)
    requires n <= |files|
  {
    && (forall t :: t in byTarget <==> Sharing(files, validate, t, n) != [])
    && (forall t :: t in byTarget ==> byTarget[t] == Sharing(files, validate, t, n))
  }

  lemma GroupGrows(files: seq<Item>, validate: Validator, n: nat, byTarget: map<string, seq<nat>>)
    requires n < |files| && Grouped(files, validate, n, byTarget)
    ensures match validate(files[n].path)
      case None => Grouped(files, validate, n + 1, byTarget)
      case Some(t) => Grouped(files, validate, n + 1, byTarget[t := (if t in byTarget then byTarget[t] else []) + [n]])
  {
    assert forall t :: Sharing(files, validate, t, n + 1)
                       == if validate(files[n].path) == Some(t) then Sharing(files, validate, t, n) + [n]
                          else Sharing(files, validate, t, n);
  }

  /** The rows and targets once the first n paths have been validated. */
  ghost predicate Looked(files: seq<Item>, validate: Validator, n: nat, rows: seq<Row>, targets: seq<string>) {
    && |rows| == |targets| == |files|
    && forall k :: 0 <= k < |files| ==>
         && rows[k] == (if k < n && validate(files[k].path).None? then Row(k + 1, Failed, BadPath) else Row(0, Unset, Nothing))
         && targets[k] == if k < n && validate(files[k].path).Some? then validate(files[k].path).value else ""
  }

  lemma LooksOn(files: seq<Item>, validate: Validator, n: nat, rows: seq<Row>, targets: seq<string>)
    requires n < |files| && Looked(files, validate, n, rows, targets)
    ensures match validate(files[n].path)
      case None => Looked(files, validate, n + 1, rows[n := Row(n + 1, Failed, BadPath)], targets)
      case Some(t) => Looked(files, validate, n + 1, rows, targets[n := t])
  {
  }

  /** Resolves every path, and groups the items by target. */
  method ResolveAll(files: seq<Item>, validate: Validator, results: array<Row>, resolved: array<string>)
    returns (byTarget: map<string, seq<nat>>)
    requires Looked(files, validate, 0, results[..], resolved[..])
    modifies results, resolved
    ensures Looked(files, validate, |files|, results[..], resolved[..]) && Grouped(files, validate, |files|, byTarget)
  {
    byTarget := map[];
    assert Grouped(files, validate, 0, byTarget) && results.Length == resolved.Length == |files|;
    hide Grouped, Looked;
    for i := 0 to |files|
      invariant results.Length == resolved.Length == |files|
      invariant Looked(files, validate, i, results[..], resolved[..]) && Grouped(files, validate, i, byTarget)
    {
      ghost var rows, targets := results[..], resolved[..];
      GroupGrows(files, validate, i, byTarget);
      LooksOn(files, validate, i, rows, targets);
      var r := validate(files[i].path);
      if r.None? {
        results[i] := Row(i + 1, Failed, BadPath);
        assert results[..] == rows[i := Row(i + 1, Failed, BadPath)] && resolved[..] == targets;
        continue;
      }
      resolved[i] := r.value;
      assert results[..] == rows && resolved[..] == targets[i := r.value];
      byTarget := byTarget[r.value := (if r.value in byTarget then byTarget[r.value] else []) + [i]];
    }
  }

  /** Validates every path and fails the ones that do not resolve or share a target. */
  method Prepare(files: seq<Item>, validate: Validator, results: array<Row>, resolved: array<string>)
    requires results.Length == resolved.Length == |files| && results != resolved as object
    requires forall i :: 0 <= i < |files| ==> results[i] == Row(0, Unset, Nothing) && resolved[i] == ""
    modifies results, resolved
    ensures forall i :: 0 <= i < |files| ==> results[i] == Before(files, validate, i)
    ensures forall i :: 0 <= i < |files| ==> resolved[i] == if Runs(files, validate, i) then validate(files[i].path).value else ""
  {
    hide Sharing, Shared;
    assert Looked(files, validate, 0, results[..], resolved[..]);
    var byTarget := ResolveAll(files, validate, results, resolved);
    assert forall k :: 0 <= k < |files| ==> results[..][k] == results[k] && resolved[..][k] == resolved[k];
    MarkDuplicates(files, validate, byTarget, results, resolved);
  }

  /** Fails every item of one shared target. */
  method FailAll(target: string, idxs: seq<nat>, results: array<Row>, resolved: array<string>)
    requires results.Length == resolved.Length && forall k :: 0 <= k < |idxs| ==> idxs[k] < results.Length
    modifies results, resolved
    ensures forall i :: 0 <= i < results.Length ==>
      if i in idxs then results[i] == Row(i + 1, Failed, DuplicateTarget(target)) && resolved[i] == ""
      else results[i] == old(results[i]) && resolved[i] == old(resolved[i])
  {
    for k := 0 to |idxs|
      invariant forall i :: 0 <= i < results.Length ==>
        if i in idxs[..k] then results[i] == Row(i + 1, Failed, DuplicateTarget(target)) && resolved[i] == ""
        else results[i] == old(results[i]) && resolved[i] == old(resolved[i])
    {
      assert idxs[..k + 1] == idxs[..k] + [idxs[k]];
      results[idxs[k]] := Row(idxs[k] + 1, Failed, DuplicateTarget(target));
      resolved[idxs[k]] := "";
    }
    assert idxs[..|idxs|] == idxs;
  }

  /** Item i shares a target that is not among those still to be looked at. */
  predicate Settled(files: seq<Item>, validate: Validator, todo: set<string>, i: nat)
    requires i < |files|
  {
    validate(files[i].path).Some? && validate(files[i].path).value !in todo && Shared(files, validate, i)
  }

  lemma SettledStep(files: seq<Item>, validate: Validator, todo: set<string>, target: string, i: nat)
    requires i < |files| && target in todo
    ensures var idxs := Sharing(files, validate, target, |files|);
      Settled(files, validate, todo - {target}, i) <==> Settled(files, validate, todo, i) || (i in idxs && |idxs| > 1)
    ensures i in Sharing(files, validate, target, |files|) ==> validate(files[i].path) == Some(target)
  {
    SharingIsExact(files, validate, target, |files|);
    LongMeansShared(files, validate, target);
  }

  method MarkDuplicates(files: seq<Item>, validate: Validator, byTarget: map<string, seq<nat>>, results: array<Row>,
                        resolved: array<string>)
    requires results.Length == resolved.Length == |files|
    requires Grouped(files, validate, |files|, byTarget)
    modifies results, resolved
    ensures forall i :: 0 <= i < |files| ==>
      if Settled(files, validate, {}, i)
      then results[i] == Row(i + 1, Failed, DuplicateTarget(validate(files[i].path).value)) && resolved[i] == ""
      else results[i] == old(results[i]) && resolved[i] == old(resolved[i])
  {
    hide Shared, Sharing;
    var todo := byTarget.Keys;
    forall i | 0 <= i < |files| ensures !Settled(files, validate, todo, i) {
      if validate(files[i].path).Some? {
        SharingIsExact(files, validate, validate(files[i].path).value, |files|);
      }
    }
    while todo != {}
      invariant todo <= byTarget.Keys
      invariant forall i :: 0 <= i < |files| ==>
        if Settled(files, validate, todo, i)
        then results[i] == Row(i + 1, Failed, DuplicateTarget(validate(files[i].path).value)) && resolved[i] == ""
        else results[i] == old(results[i]) && resolved[i] == old(resolved[i])
      decreases |todo|
    {
      var target :| target in todo;
      var idxs := byTarget[target];
      forall i | 0 <= i < |files|
        ensures Settled(files, validate, todo - {target}, i) <==> Settled(files, validate, todo, i) || (i in idxs && |idxs| > 1)
        ensures i in idxs ==> validate(files[i].path) == Some(target)
      {
        SettledStep(files, validate, todo, target, i);
      }
      if |idxs| > 1 {
        SharingIsExact(files, validate, target, |files|);
        forall k | 0 <= k < |idxs| ensures idxs[k] < |files| {
          assert idxs[k] in Sharing(files, validate, target, |files|);
        }
        FailAll(target, idxs, results, resolved);
      }
      todo := todo - {target};
    }
  }

  lemma LongMeansShared(files: seq<Item>, validate: Validator, target: string)
    ensures var idxs := Sharing(files, validate, target, |files|);
      forall i :: i in idxs ==> 0 <= i < |files| && (|idxs| > 1 <==> Shared(files, validate, i))
  {
    var idxs := Sharing(files, validate, target, |files|);
    SharingIsExact(files, validate, target, |files|);
    forall i | i in idxs ensures |idxs| > 1 <==> Shared(files, validate, i) {
      if |idxs| > 1 {
        var j := if idxs[0] == i then idxs[1] else idxs[0];
        assert j in idxs;
      }
      if Shared(files, validate, i) {
        var j :| 0 <= j < |files| && j != i && validate(files[j].path) == validate(files[i].path);
        assert j in idxs && i in idxs;
      }
    }
  }

  /** The items already answered are exactly those handed out and finished; every other row is as it was. */
  ghost predicate Kept(was: seq<Row>, rows: seq<Row>, resolved: seq<string>, pipeline: Pipeline, next: nat, busy: set<nat>) {
    && |rows| == |was| == |resolved| && next <= |rows|
    && (forall i :: i in busy ==> i < next && resolved[i] != "")
    && (forall i :: 0 <= i < |rows| ==>
          if i < next && resolved[i] != "" && i !in busy then rows[i] == pipeline(i + 1) else rows[i] == was[i])
  }

  lemma KeptStarts(was: seq<Row>, resolved: seq<string>, pipeline: Pipeline)
    requires |was| == |resolved|
    ensures Kept(was, was, resolved, pipeline, 0, {})
  {
  }

  lemma KeptEnds(was: seq<Row>, rows: seq<Row>, resolved: seq<string>, pipeline: Pipeline)
    requires Kept(was, rows, resolved, pipeline, |resolved|, {})
    ensures |rows| == |was| == |resolved|
    ensures forall i :: 0 <= i < |rows| ==> if resolved[i] != "" then rows[i] == pipeline(i + 1) else rows[i] == was[i]
  {
  }

  lemma FinishKeeps(was: seq<Row>, rows: seq<Row>, resolved: seq<string>, pipeline: Pipeline, next: nat, busy: set<nat>, i: nat)
    requires Kept(was, rows, resolved, pipeline, next, busy) && i in busy
    ensures Kept(was, rows[i := pipeline(i + 1)], resolved, pipeline, next, busy - {i})
  {
  }

  lemma HandKeeps(was: seq<Row>, rows: seq<Row>, resolved: seq<string>, pipeline: Pipeline, next: nat, busy: set<nat>)
    requires Kept(was, rows, resolved, pipeline, next, busy) && next < |rows|
    ensures rows[next] == was[next] && next !in busy
    ensures Kept(was, rows, resolved, pipeline, next + 1, if resolved[next] != "" then busy + {next} else busy)
  {
  }

  /**
   The worker pool, under every schedule: a feeder hands the items that have a target and no answer yet, in order, to
   at most `workers` at a time; each worker writes its item's row when it is done, in whatever order that happens.
   `runs` logs the items handed out, `peak` how many were at work at once. Each row is exactly what the item's own pipeline answered.
   */
  method RunWorkers(workers: nat, results: array<Row>, resolved: seq<string>, pipeline: Pipeline)
    returns (ghost runs: seq<nat>, ghost peak: nat)
    requires results.Length == |resolved| && workers > 0
    requires forall i :: 0 <= i < results.Length && resolved[i] != "" ==> results[i].status == Unset
    modifies results
    ensures forall i :: 0 <= i < results.Length ==>
      if resolved[i] != "" then results[i] == pipeline(i + 1) else results[i] == old(results[i])
    ensures runs == Dispatched(resolved, |resolved|) && peak <= workers
  {
    assert Dispatched(resolved, 0) == [];
    hide Kept, Dispatched;
    runs, peak := [], 0;
    ghost var was := results[..];
    var next := 0;
    var busy: set<nat> := {};
    KeptStarts(was, resolved, pipeline);
    while next < results.Length || busy != {}
      invariant next <= results.Length && |busy| <= workers && peak <= workers && runs == Dispatched(resolved, next)
      invariant Kept(was, results[..], resolved, pipeline, next, busy)
      decreases 2 * (results.Length - next) + |busy|
    {
      ghost var rows := results[..];
      var finish := *;
      if next == results.Length || |busy| == workers || (busy != {} && finish) {
        var i :| i in busy;
        BusyInRange(was, rows, resolved, pipeline, next, busy);
        FinishKeeps(was, rows, resolved, pipeline, next, busy, i);
        var row := pipeline(i + 1);
        results[i] := row;
        assert results[..] == rows[i := row];
        busy := busy - {i};
      } else {
        HandKeeps(was, rows, resolved, pipeline, next, busy);
        DispatchStep(resolved, next);
        if resolved[next] != "" && results[next].status == Unset {
          busy := busy + {next};
          peak := Larger(peak, |busy|);
          runs := runs + [next];
        }
        next := next + 1;
      }
    }
    KeptEnds(was, results[..], resolved, pipeline);
  }

  function Larger(a: nat, b: nat): (c: nat)
    ensures c >= a && c >= b && (c == a || c == b)
  {
    if a > b then a else b
  }

  lemma BusyInRange(was: seq<Row>, rows: seq<Row>, resolved: seq<string>, pipeline: Pipeline, next: nat, busy: set<nat>)
    requires Kept(was, rows, resolved, pipeline, next, busy)
    ensures |rows| == |was| == |resolved| && forall i :: i in busy ==> i < |rows|
  {
  }

  /** The items with a target among the first n, in order. */
  function Dispatched(resolved: seq<string>, n: nat): seq<nat>
    requires n <= |resolved|
  {
    if n == 0 then []
    else if resolved[n - 1] != "" then Dispatched(resolved, n - 1) + [n - 1]
    else Dispatched(resolved, n - 1)
  }

  lemma DispatchStep(resolved: seq<string>, n: nat)
    requires n < |resolved|
    ensures Dispatched(resolved, n + 1) == Dispatched(resolved, n) + if resolved[n] != "" then [n] else []
  {
  }

  lemma {:induction false} DispatchedIsExact(resolved: seq<string>, n: nat)
    requires n <= |resolved|
    ensures var d := Dispatched(resolved, n);
      && (forall i :: i in d <==> 0 <= i < n && resolved[i] != "")
      && (forall j, k :: 0 <= j < k < |d| ==> d[j] < d[k])
  {
    if n > 0 {
      var rest := Dispatched(resolved, n - 1);
      DispatchedIsExact(resolved, n - 1);
      assert forall i :: i in rest + [n - 1] <==> i in rest || i == n - 1;
      assert forall j :: 0 <= j < |rest| ==> rest[j] in rest;
    }
  }

  /** Counts the rows; a row that is neither created nor skipped counts as failed. */
  method Summarize(results: seq<Row>) returns (out: Output)
    requires forall i :: 0 <= i < |results| ==> results[i].status != Unset
    ensures out.results == results
    ensures out.created == Count(results, Created) && out.skipped == Count(results, Skipped) && out.failed == Count(results, Failed)
    ensures out.created + out.skipped + out.failed == |results|
    ensures out.isError <==> exists i :: 0 <= i < |results| && results[i].status == Failed
  {
    var created, skipped, failed := 0, 0, 0;
    for i := 0 to |results|
      invariant created == Count(results[..i], Created)
      invariant skipped == Count(results[..i], Skipped)
      invariant failed == Count(results[..i], Failed)
    {
      assert results[..i + 1][..i] == results[..i];
      match results[i].status
      case Created => created := created + 1;
      case Skipped => skipped := skipped + 1;
      case _ => failed := failed + 1;
    }
    assert results[..|results|] == results;
    CountAll(results);
    return Output(results, created, skipped, failed, failed > 0);
  }

  /** The first malformed item, if any. */
  method CheckItems(files: seq<Item>) returns (bad: Option<nat>)
    ensures bad.None? ==> forall i :: 0 <= i < |files| ==> !Malformed(files[i])
    ensures bad.Some? ==> 1 <= bad.value <= |files| && Malformed(files[bad.value - 1])
                          && forall i :: 0 <= i < bad.value - 1 ==> !Malformed(files[i])
  {
    for i := 0 to |files|
      invariant forall k :: 0 <= k < i ==> !Malformed(files[k])
    {
      if files[i].url == "" { return Some(i + 1); }
      if |files[i].url| > MAX_URL_BYTES { return Some(i + 1); }
      if files[i].path == "" { return Some(i + 1); }
    }
    return None;
  }

  /** Every item is answered once, under its own number, by its own pipeline if it ran, and every count adds up. */
  ghost predicate Accounts(files: seq<Item>, validate: Validator, pipeline: Pipeline, out: Output) {
    && |out.results| == |files|
    && (forall i :: 0 <= i < |files| ==>
          out.results[i] == if Runs(files, validate, i) then pipeline(i + 1) else Before(files, validate, i))
    && (forall i :: 0 <= i < |files| ==> out.results[i].index == i + 1 && out.results[i].status != Unset)
    && out.created == Count(out.results, Created) && out.skipped == Count(out.results, Skipped) && out.failed == Count(out.results, Failed)
    && out.created + out.skipped + out.failed == |files|
    && (out.isError <==> exists i :: 0 <= i < |files| && out.results[i].status == Failed)
  }

  /** The items whose pipeline ran are those with a target of their own, each once, in order. */
  ghost predicate RunOnce(files: seq<Item>, validate: Validator, runs: seq<nat>) {
    && (forall i :: i in runs <==> 0 <= i < |files| && Runs(files, validate, i))
    && (forall j, k :: 0 <= j < k < |runs| ==> runs[j] < runs[k])
  }

  /**
   The whole call. `full` says that as many batches as may run already do. The guard answers no path with the empty
   string (PathGuard.ValidatedIsInside).
   */
  method Upload(files: seq<Item>, validate: Validator, pipeline: Pipeline, full: bool)
    returns (r: Result<Output, Refusal>, ghost runs: seq<nat>, ghost peak: nat)
    requires (forall p :: validate(p) != Some("")) && Answers(pipeline)
    ensures r.Err? ==> Refuses(files, full, r.error)
    ensures r.Ok? ==> (forall why :: !Refuses(files, full, why)) && Accounts(files, validate, pipeline, r.value)
    ensures if r.Ok? then RunOnce(files, validate, runs) else runs == []
    ensures peak <= 4
  {
    runs, peak := [], 0;
    if files == [] { return Err(NoItems), runs, peak; }
    if |files| > MAX_BATCH_ITEMS { return Err(TooManyItems), runs, peak; }
    var bad := CheckItems(files);
    if bad.Some? { return Err(BadItem(bad.value)), runs, peak; }
    if full { return Err(Busy), runs, peak; }
    var out;
    out, runs, peak := Process(files, validate, pipeline);
    return Ok(out), runs, peak;
  }

  method Process(files: seq<Item>, validate: Validator, pipeline: Pipeline)
    returns (out: Output, ghost runs: seq<nat>, ghost peak: nat)
    requires files != [] && (forall p :: validate(p) != Some("")) && Answers(pipeline)
    ensures Accounts(files, validate, pipeline, out) && RunOnce(files, validate, runs) && peak <= MAX_CONCURRENT
  {
    hide Accounts, RunOnce, Ready, Dispatched, Answered, Count;
    var results := new Row[|files|](_ => Row(0, Unset, Nothing));
    var resolved := new string[|files|](_ => "");
    Prepare(files, validate, results, resolved);
    ghost var was := results[..];
    PreparedIsReady(files, validate, was, resolved[..]);
    ReadyIsUnset(files, validate, was, resolved[..]);
    var workers := if |files| < MAX_CONCURRENT then |files| else MAX_CONCURRENT;
    runs, peak := RunWorkers(workers, results, resolved[..], pipeline);
    EveryRowIsAnswered(files, validate, pipeline, was, resolved[..], results[..]);
    out := Summarize(results[..]);
    Tally(files, validate, pipeline, resolved[..], was, out, runs);
  }

  /** What the workers start from: the items with a target are those that are to run. */
  ghost predicate Ready(files: seq<Item>, validate: Validator, was: seq<Row>, resolved: seq<string>) {
    && |was| == |resolved| == |files|
    && forall i :: 0 <= i < |files| ==> was[i] == Before(files, validate, i) && (resolved[i] != "" <==> Runs(files, validate, i))
  }

  lemma PreparedIsReady(files: seq<Item>, validate: Validator, was: seq<Row>, resolved: seq<string>)
    requires |was| == |resolved| == |files| && forall p :: validate(p) != Some("")
    requires forall i :: 0 <= i < |files| ==> was[i] == Before(files, validate, i)
    requires forall i :: 0 <= i < |files| ==> resolved[i] == if Runs(files, validate, i) then validate(files[i].path).value else ""
    ensures Ready(files, validate, was, resolved)
  {
    hide Before;
    forall i | 0 <= i < |files| ensures resolved[i] != "" <==> Runs(files, validate, i) {
      assert validate(files[i].path) != Some("");
    }
  }

  lemma ReadyIsUnset(files: seq<Item>, validate: Validator, was: seq<Row>, resolved: seq<string>)
    requires Ready(files, validate, was, resolved)
    ensures |was| == |resolved| == |files| && forall i :: 0 <= i < |files| && resolved[i] != "" ==> was[i].status == Unset
  {
  }

  /** Once the workers are done every row carries its number and an answer. */
  lemma EveryRowIsAnswered(files: seq<Item>, validate: Validator, pipeline: Pipeline, was: seq<Row>, resolved: seq<string>,
                           rows: seq<Row>)
    requires Ready(files, validate, was, resolved) && |rows| == |files| && Answers(pipeline)
    requires forall i :: 0 <= i < |files| ==> if resolved[i] != "" then rows[i] == pipeline(i + 1) else rows[i] == was[i]
    ensures forall i :: 0 <= i < |files| ==>
      && rows[i] == (if Runs(files, validate, i) then pipeline(i + 1) else Before(files, validate, i))
      && rows[i].index == i + 1 && rows[i].status != Unset
  {
  }

  lemma Tally(files: seq<Item>, validate: Validator, pipeline: Pipeline, resolved: seq<string>, was: seq<Row>, out: Output, runs: seq<nat>)
    requires Ready(files, validate, was, resolved) && |out.results| == |files| && runs == Dispatched(resolved, |files|)
    requires forall i :: 0 <= i < |files| ==>
      && (out.results[i] == if Runs(files, validate, i) then pipeline(i + 1) else Before(files, validate, i))
      && out.results[i].index == i + 1 && out.results[i].status != Unset
    requires out.created == Count(out.results, Created) && out.skipped == Count(out.results, Skipped)
    requires out.failed == Count(out.results, Failed) && out.created + out.skipped + out.failed == |files|
    requires out.isError <==> exists i :: 0 <= i < |files| && out.results[i].status == Failed
    ensures Accounts(files, validate, pipeline, out) && RunOnce(files, validate, runs)
  {
    hide Runs, Before, Dispatched, Answered, Count;
    DispatchedIsExact(resolved, |files|);
  }

  /** Items that share a target all fail, whatever the schedule, and none of them reaches a worker. */
  lemma DuplicatesAllFail(files: seq<Item>, validate: Validator, pipeline: Pipeline, out: Output, runs: seq<nat>, i: nat, j: nat)
    requires Accounts(files, validate, pipeline, out) && RunOnce(files, validate, runs) && i < |files| && j < |files| && i != j
    requires validate(files[i].path).Some? && validate(files[i].path) == validate(files[j].path)
    ensures out.results[i].status == out.results[j].status == Failed && i !in runs && j !in runs && out.isError
  {
    assert Shared(files, validate, i) && Shared(files, validate, j);
  }

  function Which(rows: seq<Row>, st: Status): set<nat> {
    set i: nat | i < |rows| && rows[i].status == st
  }

  lemma WhichGrows(front: seq<Row>, row: Row, st: Status)
    ensures |front| !in Which(front, st)
    ensures Which(front + [row], st) == Which(front, st) + if row.status == st then {|front|} else {}
  {
    var rows, k := front + [row], |front|;
    forall i: nat ensures i in Which(rows, st) <==> i in Which(front, st) || (i == k && row.status == st) {
      assert i < k ==> rows[i] == front[i];
    }
  }

  lemma {:induction false} CountIsHowMany(rows: seq<Row>, st: Status)
    ensures Count(rows, st) == |Which(rows, st)|
  {
    if rows == [] {
      assert Which(rows, st) == {};
    } else {
      var front, row := rows[..|rows| - 1], rows[|rows| - 1];
      CountIsHowMany(front, st);
      WhichGrows(front, row, st);
      assert rows == front + [row];
      hide Which;
    }
  }

  /**
   What the caller is told. An item that ran is reported as its pipeline ended, one whose path does not resolve or whose
   target another item shares as failed for that reason, and the three numbers say how many rows are of each kind.
   */
  lemma ReportIsTrue(files: seq<Item>, validate: Validator, pipeline: Pipeline, out: Output)
    requires Accounts(files, validate, pipeline, out)
    ensures |out.results| == |files|
    ensures forall i :: 0 <= i < |files| ==>
      var target, row := validate(files[i].path), out.results[i];
      if target.None? then row == Row(i + 1, Failed, BadPath)
      else if exists j :: 0 <= j < |files| && j != i && validate(files[j].path) == target
      then row == Row(i + 1, Failed, DuplicateTarget(target.value))
      else row == pipeline(i + 1)
    ensures out.created == |set i: nat | i < |files| && out.results[i].status == Created|
    ensures out.skipped == |set i: nat | i < |files| && out.results[i].status == Skipped|
    ensures out.failed == |set i: nat | i < |files| && out.results[i].status == Failed|
    ensures out.isError <==> out.failed > 0
  {
    CountIsHowMany(out.results, Created);
    CountIsHowMany(out.results, Skipped);
    CountIsHowMany(out.results, Failed);
    CountAll(out.results);
  }
}
