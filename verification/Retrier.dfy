/** The retry policy around one-shot file system operations, cold and warm, with cancellable waits. */
module Retrier {
  import opened Wrappers

  datatype Errno =
    | ENOENT | ENOTDIR | EISDIR | ENAMETOOLONG
    | EIO | ETIMEDOUT | EHOSTDOWN | ENOTCONN | ESTALE | ECONNRESET | EAGAIN
    | OtherErrno

  datatype Error = Sys(errno: Errno) | Cancelled | Plain(code: nat)

  datatype Class = Definitive | Backend | Unknown

  const DEFINITIVE := {ENOENT, ENOTDIR, EISDIR, ENAMETOOLONG}

  const BACKEND := {EIO, ETIMEDOUT, EHOSTDOWN, ENOTCONN, ESTALE, ECONNRESET, EAGAIN}

  const COLD_BACKOFF_MS: seq<nat> := [500, 2000, 5000]

  const WARM_RETRY_DELAY_MS: nat := 800

  function Classify(e: Error): (c: Class)
    ensures c.Backend? ==> e.Sys? && e.errno !in DEFINITIVE
  {
    match e
    case Sys(errno) =>
      if errno in DEFINITIVE then Definitive else if errno in BACKEND then Backend else Unknown
    case _ => Unknown
  }

  /** What the surroundings answer on one turn: the context check, the hook, the wait and the operation itself. */
  datatype Turn = Turn(expired: bool, hook: Option<Error>, sleepCut: bool, op: Option<Error>)

  datatype Event =
    | Checked(expired: bool)
    | Hooked(attempt: nat, error: Option<Error>)
    | Slept(ms: nat, cut: bool)
    | Ran(result: Option<Error>)

  datatype Run = Run(error: Option<Error>, trace: seq<Event>)

  function Schedule(warm: bool): seq<nat> {
    if warm then [WARM_RETRY_DELAY_MS] else COLD_BACKOFF_MS
  }

  predicate GivesUp(op: Option<Error>) {
    op.None? || !Classify(op.value).Backend?
  }

  /** The retries from number k on, after the backend error `last`. */
  function Retries(script: nat -> Turn, schedule: seq<nat>, k: nat, last: Error): Run
    decreases |schedule| - k
  {
    if k >= |schedule| then Run(Some(last), []) else
    var t := script(k + 1);
    if t.expired then Run(Some(Cancelled), [Checked(true)])
    else if t.hook.Some? then Run(t.hook, [Checked(false), Hooked(k + 1, t.hook)])
    else if t.sleepCut then Run(Some(Cancelled), [Checked(false), Hooked(k + 1, None), Slept(schedule[k], true)])
    else
      var turn := [Checked(false), Hooked(k + 1, None), Slept(schedule[k], false), Ran(t.op)];
      if GivesUp(t.op) then Run(t.op, turn)
      else
        var rest := Retries(script, schedule, k + 1, t.op.value);
        Run(rest.error, turn + rest.trace)
  }

  function Policy(script: nat -> Turn, schedule: seq<nat>): Run {
    var t := script(0);
    if t.expired then Run(Some(Cancelled), [Checked(true)])
    else if GivesUp(t.op) then Run(t.op, [Checked(false), Ran(t.op)])
    else
      var rest := Retries(script, schedule, 0, t.op.value);
      Run(rest.error, [Checked(false), Ran(t.op)] + rest.trace)
  }

  /** The process-wide retrier; `succeeded` is the warm flag. */
  class Retrier {
    var succeeded: bool

    constructor ()
      ensures !succeeded
    {
      succeeded := false;
    }

    /** Other calls may turn the process warm at any moment. */
    method OtherCalls() returns (warmed: bool)
      modifies this
      ensures succeeded == (old(succeeded) || warmed)
    {
      warmed := *;
      if warmed {
        succeeded := true;
      }
    }

    /** `others` says that some other call succeeded meanwhile: the process is warm once any call has succeeded, not before. */
    method Do(script: nat -> Turn) returns (error: Option<Error>, warm: bool, trace: seq<Event>, ghost others: bool)
      modifies this
      ensures Run(error, trace) == Policy(script, Schedule(warm))
      ensures old(succeeded) ==> warm
      ensures warm ==> old(succeeded) || others
      ensures succeeded == (old(succeeded) || others || error.None?)
    {
      others := false;
      warm := succeeded;
      var t := script(0);
      trace := [Checked(t.expired)];
      if t.expired {
        return Some(Cancelled), warm, trace, others;
      }
      trace := trace + [Ran(t.op)];
      var warmed := OtherCalls();
      others := warmed;
      if t.op.None? {
        succeeded := true;
        return None, warm, trace, others;
      }
      if !Classify(t.op.value).Backend? {
        return t.op, warm, trace, others;
      }
      error, warm := t.op, succeeded;
      var backoff := Schedule(warm);
      ghost var whole := Policy(script, backoff);
      for k := 0 to |backoff|
        invariant error.Some? && succeeded == (old(succeeded) || others) && (warm ==> old(succeeded) || others)
        invariant whole == Run(Retries(script, backoff, k, error.value).error,
                               trace + Retries(script, backoff, k, error.value).trace)
      {
        RetryTurn(script, backoff, k, error.value, trace);
        hide Retries, Classify;
        t := script(k + 1);
        if t.expired {
          return Some(Cancelled), warm, trace + [Checked(true)], others;
        }
        if t.hook.Some? {
          return t.hook, warm, trace + [Checked(false), Hooked(k + 1, t.hook)], others;
        }
        if t.sleepCut {
          return Some(Cancelled), warm, trace + [Checked(false), Hooked(k + 1, None), Slept(backoff[k], true)], others;
        }
        trace := trace + [Checked(false), Hooked(k + 1, None), Slept(backoff[k], false), Ran(t.op)];
        warmed := OtherCalls();
        others := others || warmed;
        if t.op.None? {
          succeeded := true;
          return None, warm, trace, others;
        }
        if !Classify(t.op.value).Backend? {
          return t.op, warm, trace, others;
        }
        error := t.op;
      }
      assert trace + [] == trace;
    }
  }

  /** What a retry adds to the events so far. */
  lemma RetryTurn(script: nat -> Turn, schedule: seq<nat>, k: nat, last: Error, trace: seq<Event>)
    requires k < |schedule|
    ensures var t, r := script(k + 1), Retries(script, schedule, k, last);
      var turn := [Checked(false), Hooked(k + 1, None), Slept(schedule[k], false), Ran(t.op)];
      if t.expired then r.error == Some(Cancelled) && trace + r.trace == trace + [Checked(true)]
      else if t.hook.Some? then r.error == t.hook && trace + r.trace == trace + [Checked(false), Hooked(k + 1, t.hook)]
      else if t.sleepCut
      then r.error == Some(Cancelled)
           && trace + r.trace == trace + [Checked(false), Hooked(k + 1, None), Slept(schedule[k], true)]
      else if GivesUp(t.op) then r.error == t.op && trace + r.trace == trace + turn
      else r.error == Retries(script, schedule, k + 1, t.op.value).error
           && trace + r.trace == (trace + turn) + Retries(script, schedule, k + 1, t.op.value).trace
  {
    var t := script(k + 1);
    var turn := [Checked(false), Hooked(k + 1, None), Slept(schedule[k], false), Ran(t.op)];
    if !GivesUp(t.op) {
      Regroup(trace, turn, Retries(script, schedule, k + 1, t.op.value).trace);
    }
  }

  lemma Regroup<T>(a: seq<T>, b: seq<T>, c: seq<T>)
    ensures a + (b + c) == a + b + c
  {
  }

  // What the policy guarantees, whatever the surroundings answer.

  function Ops(trace: seq<Event>): nat {
    if trace == [] then 0 else Ops(trace[..|trace| - 1]) + if trace[|trace| - 1].Ran? then 1 else 0
  }

  function Waits(trace: seq<Event>): seq<nat> {
    if trace == [] then []
    else Waits(trace[..|trace| - 1]) + if trace[|trace| - 1].Slept? then [trace[|trace| - 1].ms] else []
  }

  /** The operation never runs again after such an event. */
  predicate Ends(e: Event) {
    match e
    case Checked(expired) => expired
    case Hooked(_, error) => error.Some?
    case Slept(_, cut) => cut
    case Ran(result) => GivesUp(result)
  }

  /** What the caller is told when the run stops with this event. */
  function Verdict(e: Event): Option<Error> {
    match e
    case Hooked(_, error) => error
    case Ran(result) => result
    case _ => Some(Cancelled)
  }

  lemma {:induction false} CountConcat(a: seq<Event>, b: seq<Event>)
    ensures Ops(a + b) == Ops(a) + Ops(b)
    ensures Waits(a + b) == Waits(a) + Waits(b)
    decreases |b|
  {
    if b == [] {
      assert a + b == a;
    } else {
      CountConcat(a, b[..|b| - 1]);
      assert (a + b)[..|a + b| - 1] == a + b[..|b| - 1];
    }
  }

  lemma CountOne(e: Event)
    ensures Ops([e]) == (if e.Ran? then 1 else 0) && Waits([e]) == if e.Slept? then [e.ms] else []
  {
    assert [e][..0] == [];
  }

  lemma CountTurn(k: nat, ms: nat, op: Option<Error>)
    ensures var turn := [Checked(false), Hooked(k, None), Slept(ms, false), Ran(op)];
            Ops(turn) == 1 && Waits(turn) == [ms]
  {
    var a, b, c, d := Checked(false), Hooked(k, None), Slept(ms, false), Ran(op);
    CountOne(a); CountOne(b); CountOne(c); CountOne(d);
    CountConcat([a], [b]);
    CountConcat([a, b], [c]);
    CountConcat([a, b, c], [d]);
    assert [a] + [b] == [a, b] && [a, b] + [c] == [a, b, c] && [a, b, c] + [d] == [a, b, c, d];
  }

  lemma CountCut(k: nat, hook: Option<Error>, ms: nat)
    ensures Ops([Checked(true)]) == 0 && Waits([Checked(true)]) == []
    ensures var cut := [Checked(false), Hooked(k, hook)]; Ops(cut) == 0 && Waits(cut) == []
    ensures var cut := [Checked(false), Hooked(k, None), Slept(ms, true)]; Ops(cut) == 0 && Waits(cut) == [ms]
  {
    var a, b, b', c := Checked(false), Hooked(k, hook), Hooked(k, None), Slept(ms, true);
    CountOne(Checked(true)); CountOne(a); CountOne(b); CountOne(b'); CountOne(c);
    CountConcat([a], [b]);
    CountConcat([a], [b']);
    CountConcat([a, b'], [c]);
    assert [a] + [b] == [a, b] && [a] + [b'] == [a, b'] && [a, b'] + [c] == [a, b', c];
  }

  /** The waits are the next ones of the schedule, in order. */
  predicate Spends(waits: seq<nat>, schedule: seq<nat>, k: nat) {
    k <= |schedule| && waits <= schedule[k..]
  }

  /** Bounds for a run that still has the waits schedule[k..] ahead of it. */
  ghost predicate Bounded(r: Run, schedule: seq<nat>, k: nat)
    requires k <= |schedule|
  {
    && Ops(r.trace) <= |schedule| - k
    && Spends(Waits(r.trace), schedule, k)
    && (forall i :: 0 <= i < |r.trace| - 1 ==> !Ends(r.trace[i]))
    && (r.trace != [] ==> r.error == Verdict(r.trace[|r.trace| - 1]))
    && (r.trace != [] && !Ends(r.trace[|r.trace| - 1]) ==> Ops(r.trace) == |schedule| - k && r.trace[|r.trace| - 1].Ran?)
  }

  lemma {:induction false} RetriesBounded(script: nat -> Turn, schedule: seq<nat>, k: nat, last: Error)
    requires k <= |schedule|
    ensures Bounded(Retries(script, schedule, k, last), schedule, k)
    ensures k < |schedule| ==> Retries(script, schedule, k, last).trace != []
    decreases |schedule| - k
  {
    if k < |schedule| {
      var t := script(k + 1);
      CountCut(k + 1, t.hook, schedule[k]);
      CountTurn(k + 1, schedule[k], t.op);
      if !t.expired && t.hook.None? && !t.sleepCut && !GivesUp(t.op) {
        var turn := [Checked(false), Hooked(k + 1, None), Slept(schedule[k], false), Ran(t.op)];
        var rest := Retries(script, schedule, k + 1, t.op.value);
        RetriesBounded(script, schedule, k + 1, t.op.value);
        TurnThenRest(turn, rest, schedule, k);
      }
    }
  }

  lemma TurnThenRestCounts(turn: seq<Event>, rest: seq<Event>, schedule: seq<nat>, k: nat)
    requires k < |schedule| && Ops(turn) == 1 && Waits(turn) == [schedule[k]] && Spends(Waits(rest), schedule, k + 1)
    ensures Ops(turn + rest) == 1 + Ops(rest) && Spends(Waits(turn + rest), schedule, k)
  {
    CountConcat(turn, rest);
    assert schedule[k..] == [schedule[k]] + schedule[k + 1..];
  }

  lemma TurnThenRest(turn: seq<Event>, rest: Run, schedule: seq<nat>, k: nat)
    requires k < |schedule| && turn != [] && Ops(turn) == 1 && Waits(turn) == [schedule[k]]
    requires Bounded(rest, schedule, k + 1) && forall i :: 0 <= i < |turn| ==> !Ends(turn[i])
    requires k + 1 < |schedule| ==> rest.trace != []
    requires rest.trace == [] ==> turn[|turn| - 1].Ran? && rest.error == turn[|turn| - 1].result
    ensures Bounded(Run(rest.error, turn + rest.trace), schedule, k)
  {
    hide Ops, Waits, Ends, Spends;
    TurnThenRestCounts(turn, rest.trace, schedule, k);
    var trace := turn + rest.trace;
    forall i | 0 <= i < |trace| - 1 ensures !Ends(trace[i]) {
      assert trace[i] == if i < |turn| then turn[i] else rest.trace[i - |turn|];
    }
    assert trace[|trace| - 1] == if rest.trace == [] then turn[|turn| - 1] else rest.trace[|rest.trace| - 1];
  }

  /**
   For every script: the operation runs at most four times cold and twice warm, the waits are a prefix of the
   schedule, nothing follows a success, a non-backend error, a hook error or a cancellation, the caller gets the last
   event's verdict, and a run that ends on a backend error has used up every retry.
   */
  lemma RetryBounds(script: nat -> Turn, warm: bool)
    ensures var r := Policy(script, Schedule(warm));
            && r.trace != [] && Ops(r.trace) <= (if warm then 2 else 4)
            && Waits(r.trace) <= (if warm then [800] else [500, 2000, 5000])
            && (forall i :: 0 <= i < |r.trace| - 1 ==> !Ends(r.trace[i]))
            && r.error == Verdict(r.trace[|r.trace| - 1])
            && (r.error.Some? && r.trace[|r.trace| - 1].Ran? && Classify(r.error.value).Backend?
                ==> Ops(r.trace) == if warm then 2 else 4)
  {
    hide Ops, Waits, Retries;
    var schedule, t := Schedule(warm), script(0);
    var first := [Checked(false), Ran(t.op)];
    CountOne(Checked(true)); CountOne(Checked(false)); CountOne(Ran(t.op));
    CountConcat([Checked(false)], [Ran(t.op)]);
    assert [Checked(false)] + [Ran(t.op)] == first;
    if !t.expired && !GivesUp(t.op) {
      var rest := Retries(script, schedule, 0, t.op.value);
      RetriesBounded(script, schedule, 0, t.op.value);
      CountConcat(first, rest.trace);
      var trace := first + rest.trace;
      assert Waits(trace) == Waits(rest.trace) && schedule[0..] == schedule;
      forall i | 0 <= i < |trace| - 1 ensures !Ends(trace[i]) {
        assert trace[i] == if i < 2 then first[i] else rest.trace[i - 2];
      }
    }
  }

  // Every event is the next thing to do, and says what the surroundings answer to it.

  /** After what an event comes: each turn checks the context, and every turn but the first hooks and waits, and then runs. */
  predicate ComesAfter(prev: Option<Event>, e: Event, turn: nat) {
    if prev.None? || prev.value.Ran? then e.Checked?
    else match prev.value
      case Checked(_) => if turn == 0 then e.Ran? else e.Hooked?
      case Hooked(_, _) => e.Slept?
      case _ => e.Ran?
  }

  /** What the surroundings answer on this turn. */
  predicate Says(script: nat -> Turn, schedule: seq<nat>, e: Event, turn: nat) {
    match e
    case Checked(expired) => expired == script(turn).expired
    case Hooked(attempt, error) => attempt == turn && error == script(turn).hook
    case Slept(ms, cut) => 1 <= turn <= |schedule| && ms == schedule[turn - 1] && cut == script(turn).sleepCut
    case Ran(result) => result == script(turn).op
  }

  /** Event i of the trace, on this turn. */
  predicate Echo(script: nat -> Turn, schedule: seq<nat>, trace: seq<Event>, i: nat, turn: nat)
    requires i < |trace|
  {
    ComesAfter(if i == 0 then None else Some(trace[i - 1]), trace[i], turn) && Says(script, schedule, trace[i], turn)
  }

  /** The turn of an event is the number of times the operation has run before it. */
  ghost predicate Echoes(script: nat -> Turn, schedule: seq<nat>, trace: seq<Event>, turn: nat) {
    forall i :: 0 <= i < |trace| ==> Echo(script, schedule, trace, i, turn + Ops(trace[..i]))
  }

  lemma {:induction false} NoneRan(trace: seq<Event>)
    requires forall i :: 0 <= i < |trace| ==> !trace[i].Ran?
    ensures Ops(trace) == 0
  {
    if trace != [] {
      NoneRan(trace[..|trace| - 1]);
    }
  }

  /** The operation runs at most at the end of these events. */
  predicate OneTurn(trace: seq<Event>) {
    forall i :: 0 <= i < |trace| - 1 ==> !trace[i].Ran?
  }

  lemma OneTurnEchoes(script: nat -> Turn, schedule: seq<nat>, trace: seq<Event>, turn: nat)
    requires OneTurn(trace) && forall i :: 0 <= i < |trace| ==> Echo(script, schedule, trace, i, turn)
    ensures Echoes(script, schedule, trace, turn)
  {
    hide Echo;
    forall i | 0 <= i < |trace| ensures Echo(script, schedule, trace, i, turn + Ops(trace[..i])) {
      NoneRan(trace[..i]);
    }
  }

  lemma OpsOfOneTurn(trace: seq<Event>)
    requires OneTurn(trace) && trace != [] && trace[|trace| - 1].Ran?
    ensures Ops(trace) == 1
  {
    NoneRan(trace[..|trace| - 1]);
  }

  lemma EchoesOn(script: nat -> Turn, schedule: seq<nat>, first: seq<Event>, rest: seq<Event>, turn: nat)
    requires OneTurn(first) && first != [] && first[|first| - 1].Ran?
    requires Echoes(script, schedule, first, turn) && Echoes(script, schedule, rest, turn + 1)
    ensures Echoes(script, schedule, first + rest, turn)
  {
    var trace, n := first + rest, |first|;
    hide Echo, OneTurn, Ops;
    forall i | 0 <= i < |trace| ensures Echo(script, schedule, trace, i, turn + Ops(trace[..i])) {
      if i < n {
        assert trace[..i] == first[..i];
        assert Echo(script, schedule, first, i, turn + Ops(first[..i]));
        SameEcho(script, schedule, first, trace, i, turn + Ops(first[..i]));
      } else {
        LaterEcho(script, schedule, first, rest, i - n, turn);
      }
    }
  }

  lemma SameEcho(script: nat -> Turn, schedule: seq<nat>, a: seq<Event>, b: seq<Event>, i: nat, turn: nat)
    requires a <= b && i < |a| && Echo(script, schedule, a, i, turn)
    ensures Echo(script, schedule, b, i, turn)
  {
    hide ComesAfter, Says;
  }

  lemma LaterEcho(script: nat -> Turn, schedule: seq<nat>, first: seq<Event>, rest: seq<Event>, j: nat, turn: nat)
    requires OneTurn(first) && first != [] && first[|first| - 1].Ran? && j < |rest|
    requires Echoes(script, schedule, rest, turn + 1)
    ensures Echo(script, schedule, first + rest, |first| + j, turn + Ops((first + rest)[..|first| + j]))
  {
    OpsOfOneTurn(first);
    hide ComesAfter, Says, Ops, OneTurn;
    var i := |first| + j;
    assert (first + rest)[..i] == first + rest[..j];
    CountConcat(first, rest[..j]);
    assert Echo(script, schedule, rest, j, turn + 1 + Ops(rest[..j]));
    if j == 0 {
      AfterARun(first[|first| - 1], rest[0], turn + 1 + Ops(rest[..0]));
    }
  }

  lemma AfterARun(prev: Event, e: Event, turn: nat)
    requires prev.Ran? && ComesAfter(None, e, turn)
    ensures ComesAfter(Some(prev), e, turn)
  {
  }

  lemma {:induction false} RetriesEcho(script: nat -> Turn, schedule: seq<nat>, k: nat, last: Error)
    requires k <= |schedule|
    ensures Echoes(script, schedule, Retries(script, schedule, k, last).trace, k + 1)
    decreases |schedule| - k
  {
    if k < |schedule| {
      var t, trace := script(k + 1), Retries(script, schedule, k, last).trace;
      TurnEchoes(script, schedule, k);
      if !t.expired && t.hook.None? && !t.sleepCut && !GivesUp(t.op) {
        RetriesEcho(script, schedule, k + 1, t.op.value);
        hide Echoes;
        var turn := [Checked(false), Hooked(k + 1, None), Slept(schedule[k], false), Ran(t.op)];
        EchoesOn(script, schedule, turn, Retries(script, schedule, k + 1, t.op.value).trace, k + 1);
      }
    }
  }

  /** The ways a single retry turn can go. */
  lemma TurnEchoes(script: nat -> Turn, schedule: seq<nat>, k: nat)
    requires k < |schedule|
    ensures var t := script(k + 1);
      if t.expired then Echoes(script, schedule, [Checked(true)], k + 1)
      else if t.hook.Some? then Echoes(script, schedule, [Checked(false), Hooked(k + 1, t.hook)], k + 1)
      else if t.sleepCut
      then Echoes(script, schedule, [Checked(false), Hooked(k + 1, None), Slept(schedule[k], true)], k + 1)
      else Echoes(script, schedule, [Checked(false), Hooked(k + 1, None), Slept(schedule[k], false), Ran(t.op)], k + 1)
  {
    hide Echoes;
    var t := script(k + 1);
    if t.expired {
      OneTurnEchoes(script, schedule, [Checked(true)], k + 1);
    } else if t.hook.Some? {
      OneTurnEchoes(script, schedule, [Checked(false), Hooked(k + 1, t.hook)], k + 1);
    } else if t.sleepCut {
      OneTurnEchoes(script, schedule, [Checked(false), Hooked(k + 1, None), Slept(schedule[k], true)], k + 1);
    } else {
      OneTurnEchoes(script, schedule, [Checked(false), Hooked(k + 1, None), Slept(schedule[k], false), Ran(t.op)], k + 1);
    }
  }

  /**
   The whole run, for every script: in every turn the context is checked first, then, from the second turn on, the hook
   runs with the number of the retry and the wait is the schedule's next, and then the operation runs; and each of these
   events records what the surroundings answered on that very turn.
   */
  lemma PolicyEchoesTheScript(script: nat -> Turn, warm: bool)
    ensures Echoes(script, Schedule(warm), Policy(script, Schedule(warm)).trace, 0)
  {
    var schedule, t := Schedule(warm), script(0);
    var first := [Checked(false), Ran(t.op)];
    hide Echoes;
    if t.expired {
      OneTurnEchoes(script, schedule, [Checked(true)], 0);
    } else {
      OneTurnEchoes(script, schedule, first, 0);
      if !GivesUp(t.op) {
        RetriesEcho(script, schedule, 0, t.op.value);
        EchoesOn(script, schedule, first, Retries(script, schedule, 0, t.op.value).trace, 0);
      }
    }
  }

  /** Which errors are worth a retry: transport and mount trouble, and nothing else. */
  lemma ClassesAreExact(e: Error)
    ensures Classify(e).Definitive?
            <==> e.Sys? && (e.errno.ENOENT? || e.errno.ENOTDIR? || e.errno.EISDIR? || e.errno.ENAMETOOLONG?)
    ensures Classify(e).Backend?
            <==> e.Sys? && !Classify(e).Definitive? && e.errno != OtherErrno
  {
  }
}
