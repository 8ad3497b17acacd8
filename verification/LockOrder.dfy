/**
 Who may wait for whom: the download slot, the process-wide path lock, the session's path lock, the Root lease with its
 pending writer, and the pool mutex. Nothing is stored about the locks; who holds what follows from where each thread is.
 */
module LockOrder {
  type Thread = nat

  /** Where a handler is with the locks it takes once. A text call starts at the path lock, an upload item at the slot. */
  datatype Outer =
    | WantSlot | Downloading | WantPath | WantSession | Inside | SessionFreed | Ending | Finished | Lockless

  /** Where it is with one use of the Root pool, begun and ended many times on the way. */
  datatype Inner =
    | Out | WantRead | Reading | ReaderWantsPool | ReaderInPool
    | WantWrite | Draining | Writing | WriterWantsPool | WriterInPool

  datatype Handler = Handler(token: nat, path: string, upload: bool, outer: Outer, inner: Inner)

  type Threads = map<Thread, Handler>

  /** How many images download at once. */
  const SLOTS: nat := 4

  // Who holds what.

  predicate HasSlot(h: Handler) {
    h.upload && !h.outer.WantSlot? && !h.outer.Finished?
  }

  predicate HasPath(h: Handler) {
    h.outer.WantSession? || h.outer.Inside? || h.outer.SessionFreed?
  }

  predicate HasSession(h: Handler) {
    h.outer.Inside?
  }

  predicate HasRead(h: Handler) {
    h.inner.Reading? || h.inner.ReaderWantsPool? || h.inner.ReaderInPool?
  }

  /** A writer that has announced itself keeps new readers and other writers out, even while old readers drain. */
  predicate HasGate(h: Handler) {
    h.inner.Draining? || h.inner.Writing? || h.inner.WriterWantsPool? || h.inner.WriterInPool?
  }

  predicate HasWrite(h: Handler) {
    HasGate(h) && !h.inner.Draining?
  }

  predicate HasPool(h: Handler) {
    h.inner.ReaderInPool? || h.inner.WriterInPool?
  }

  function SlotHolders(s: Threads): set<Thread> {
    set t | t in s && HasSlot(s[t])
  }

  /** The pool is used while downloading, inside the locks, when an upload cleans up, and by calls that take no path lock. */
  predicate MayUsePool(h: Handler) {
    h.outer.Downloading? || h.outer.Inside? || h.outer.Ending? || h.outer.Lockless?
  }

  predicate WellFormed(h: Handler) {
    && (h.inner != Out ==> MayUsePool(h))
    && (h.outer.WantSlot? || h.outer.Downloading? ==> h.upload)
    && (h.outer.Lockless? ==> !h.upload)
  }

  // Steps. A guard names what another thread must not hold; a step without one is never refused.

  /** Handler o keeps h from its next step; `full` says every download slot is taken. */
  predicate Blocks(h: Handler, o: Handler, full: bool) {
    if h.inner == Out then
      match h.outer
      case WantSlot => full && HasSlot(o)
      case WantPath => HasPath(o) && o.path == h.path
      case WantSession => HasSession(o) && o.path == h.path && o.token == h.token
      case _ => false
    else
      match h.inner
      case WantRead => HasGate(o)
      case WantWrite => HasGate(o)
      case Draining => HasRead(o)
      case ReaderWantsPool => HasPool(o)
      case WriterWantsPool => HasPool(o)
      case _ => false
  }

  predicate Full(s: Threads) {
    |SlotHolders(s)| >= SLOTS
  }

  /** Thread t waits for something thread u holds. */
  predicate WaitsFor(s: Threads, t: Thread, u: Thread) {
    t in s && u in s && Blocks(s[t], s[u], Full(s))
  }

  predicate Clear(s: Threads, t: Thread) {
    forall u :: u in s ==> !WaitsFor(s, t, u)
  }

  /** What a handler does next: it takes the locks one after another and gives them back in the opposite order. */
  predicate Follows(h: Handler, g: Handler) {
    && g.token == h.token && g.path == h.path && g.upload == h.upload
    && if h.inner == Out && g.inner == Out then
         match h.outer
         case WantSlot => g.outer == Downloading
         case Downloading => g.outer == WantPath || g.outer == Ending
         case WantPath => g.outer == WantSession
         case WantSession => g.outer == Inside
         case Inside => g.outer == SessionFreed
         case SessionFreed => g.outer == Ending
         case Ending => g.outer == Finished
         case _ => false
       else
         && g.outer == h.outer && MayUsePool(h)
         && match h.inner
            case Out => g.inner == WantRead || g.inner == WantWrite
            case WantRead => g.inner == Reading
            case Reading => g.inner == ReaderWantsPool || g.inner == Out
            case ReaderWantsPool => g.inner == ReaderInPool
            case ReaderInPool => g.inner == Reading
            case WantWrite => g.inner == Draining
            case Draining => g.inner == Writing
            case Writing => g.inner == WriterWantsPool || g.inner == Out
            case WriterWantsPool => g.inner == WriterInPool
            case WriterInPool => g.inner == Writing
  }

  /** A wait for the slot or the path lock may be given up at any time; an upload still cleans its temp file up. */
  predicate GivesUp(h: Handler, g: Handler) {
    && h.inner == Out && g == h.(outer := g.outer)
    && ((h.outer == WantSlot && g.outer == Finished) || (h.outer == WantPath && g.outer == Ending))
  }

  predicate Moves(s: Threads, t: Thread, g: Handler) {
    t in s && ((Follows(s[t], g) && Clear(s, t)) || GivesUp(s[t], g))
  }

  predicate Arrives(s: Threads, t: Thread, h: Handler) {
    && t !in s && h.inner == Out
    && (h.outer == (if h.upload then WantSlot else WantPath) || (h.outer == Lockless && !h.upload))
  }

  /**
   Nobody waits without need: only for the same path's lock, only for the same session's lock on it, only for a slot
   while all are taken; and at the lease readers never wait for one another.
   */
  lemma WaitsAreForTheSame(s: Threads, t: Thread, u: Thread)
    requires WaitsFor(s, t, u)
    ensures s[t].inner == Out && (s[t].outer == WantPath || s[t].outer == WantSession) ==> s[t].path == s[u].path && HasPath(s[u])
    ensures s[t].inner == Out && s[t].outer == WantSession ==> s[t].token == s[u].token && HasSession(s[u])
    ensures s[t].inner == Out && s[t].outer == WantSlot ==> |SlotHolders(s)| >= 4 && u in SlotHolders(s)
    ensures s[t].inner == WantRead ==> !HasRead(s[u])
    ensures s[t].inner != Out || s[t].outer == WantSlot || s[t].outer == WantPath || s[t].outer == WantSession
  {
    hide SlotHolders;
    assert HasSlot(s[u]) ==> u in SlotHolders(s) by { SlotHeld(s, u); }
  }

  lemma SlotHeld(s: Threads, u: Thread)
    requires u in s
    ensures u in SlotHolders(s) <==> HasSlot(s[u])
  {
  }

  // Mutual exclusion.

  /** What two threads never hold at once. */
  predicate Compatible(h: Handler, o: Handler) {
    && !(HasPath(h) && HasPath(o) && h.path == o.path)
    && !(HasGate(h) && HasGate(o))
    && !(HasWrite(h) && HasRead(o)) && !(HasRead(h) && HasWrite(o))
    && !(HasPool(h) && HasPool(o))
  }

  predicate Safe(s: Threads) {
    && (forall t :: t in s ==> WellFormed(s[t]))
    && |SlotHolders(s)| <= SLOTS
    && (forall t, u :: t in s && u in s && t != u ==> Compatible(s[t], s[u]))
  }

  lemma StepStaysCompatible(h: Handler, g: Handler, o: Handler, full: bool)
    requires WellFormed(h) && WellFormed(o) && Compatible(h, o)
    requires (Follows(h, g) && !Blocks(h, o, full)) || GivesUp(h, g)
    ensures WellFormed(g) && Compatible(g, o) && Compatible(o, g)
  {
  }

  lemma SlotsCounted(s: Threads, t: Thread, g: Handler)
    ensures SlotHolders(s[t := g]) == if HasSlot(g) then SlotHolders(s) + {t} else SlotHolders(s) - {t}
  {
  }

  lemma FullIsNotClear(s: Threads, t: Thread)
    requires t in s && s[t].outer == WantSlot && s[t].inner == Out && Full(s)
    ensures !Clear(s, t)
  {
    var u :| u in SlotHolders(s);
    assert WaitsFor(s, t, u);
  }

  lemma SlotStep(s: Threads, t: Thread, g: Handler)
    requires |SlotHolders(s)| <= SLOTS && Moves(s, t, g)
    ensures |SlotHolders(s[t := g])| <= SLOTS
  {
    hide Clear, SlotHolders;
    SlotsCounted(s, t, g);
    if HasSlot(g) && HasSlot(s[t]) {
      HolderStays(s, t);
    }
    if s[t].outer == WantSlot && s[t].inner == Out && Full(s) {
      FullIsNotClear(s, t);
    }
  }

  lemma HolderStays(s: Threads, t: Thread)
    requires t in s && HasSlot(s[t])
    ensures SlotHolders(s) + {t} == SlotHolders(s)
  {
  }

  lemma StepWellFormed(h: Handler, g: Handler)
    requires WellFormed(h) && (Follows(h, g) || GivesUp(h, g))
    ensures WellFormed(g)
  {
  }

  lemma MovesKeepSafe(s: Threads, t: Thread, g: Handler)
    requires Safe(s) && Moves(s, t, g)
    ensures Safe(s[t := g])
  {
    hide Compatible, Follows, Blocks, WellFormed, GivesUp, HasSlot, SlotHolders;
    SlotStep(s, t, g);
    StepWellFormed(s[t], g);
    forall u | u in s && u != t ensures Compatible(g, s[u]) && Compatible(s[u], g) {
      assert Clear(s, t) ==> !WaitsFor(s, t, u);
      StepStaysCompatible(s[t], g, s[u], Full(s));
    }
  }

  lemma NewcomerHoldsNothing(h: Handler, o: Handler)
    requires h.inner == Out && (h.outer == (if h.upload then WantSlot else WantPath) || (h.outer == Lockless && !h.upload))
    ensures WellFormed(h) && !HasSlot(h) && Compatible(h, o) && Compatible(o, h)
  {
  }

  lemma ArrivalKeepsSafe(s: Threads, t: Thread, h: Handler)
    requires Safe(s) && Arrives(s, t, h)
    ensures Safe(s[t := h])
  {
    hide Compatible, WellFormed, HasSlot;
    NewcomerHoldsNothing(h, h);
    SlotsCounted(s, t, h);
    assert SlotHolders(s) - {t} == SlotHolders(s);
    forall u | u in s && u != t ensures Compatible(h, s[u]) && Compatible(s[u], h) {
      NewcomerHoldsNothing(h, s[u]);
    }
  }

  // Runs.

  datatype Event = Arrival(t: Thread, h: Handler) | Move(t: Thread, g: Handler)

  predicate Happens(s: Threads, e: Event) {
    match e
    case Arrival(t, h) => Arrives(s, t, h)
    case Move(t, g) => Moves(s, t, g)
  }

  function After(s: Threads, e: Event): Threads {
    match e
    case Arrival(t, h) => s[t := h]
    case Move(t, g) => s[t := g]
  }

  ghost predicate Run(s: Threads, es: seq<Event>)
    decreases |es|
  {
    es == [] || (Happens(s, es[0]) && Run(After(s, es[0]), es[1..]))
  }

  ghost function Final(s: Threads, es: seq<Event>): Threads
    decreases |es|
  {
    if es == [] then s else Final(After(s, es[0]), es[1..])
  }

  lemma {:induction false} RunsAreSafe(s: Threads, es: seq<Event>)
    requires Safe(s) && Run(s, es)
    ensures Safe(Final(s, es))
    decreases |es|
  {
    hide Safe, Moves, Arrives;
    if es != [] {
      match es[0]
      case Arrival(t, h) => ArrivalKeepsSafe(s, t, h); RunsAreSafe(After(s, es[0]), es[1..]);
      case Move(t, g) => MovesKeepSafe(s, t, g); RunsAreSafe(After(s, es[0]), es[1..]);
    }
  }

  /**
   In every interleaving: one handler at most is inside a path's locked section, whatever its token; no more images
   download than there are slots; a Root is swapped only while nobody uses one; and whoever holds a path's process
   lock finds its session lock free.
   */
  lemma MutualExclusion(es: seq<Event>, t: Thread, u: Thread)
    requires Run(map[], es)
    ensures var s := Final(map[], es);
      && |SlotHolders(s)| <= SLOTS
      && (t in s && u in s && t != u ==>
            && !(s[t].outer == Inside && s[u].outer == Inside && s[t].path == s[u].path)
            && !(HasWrite(s[t]) && (HasRead(s[u]) || HasWrite(s[u])))
            && !(HasPool(s[t]) && HasPool(s[u])))
      && (t in s && s[t].outer == WantSession && s[t].inner == Out ==> Clear(s, t))
  {
    hide Run, Final;
    RunsAreSafe(map[], es);
  }

  // No deadlock.

  /** What a thread that may be made to wait waits for, in the order the locks are taken; 6 for one that waits for nothing. */
  function Level(h: Handler): nat {
    match h.inner
    case Out => (match h.outer case WantSlot => 0 case WantPath => 1 case WantSession => 2 case _ => 6)
    case WantRead => 3
    case WantWrite => 3
    case Draining => 4
    case ReaderWantsPool => 5
    case WriterWantsPool => 5
    case _ => 6
  }

  /** Whoever is waited for is itself waiting, if at all, for something further along. */
  lemma WaitsAscend(s: Threads, t: Thread, u: Thread)
    requires Safe(s) && WaitsFor(s, t, u)
    ensures Level(s[t]) < Level(s[u])
  {
    hide Compatible, Full;
    assert WellFormed(s[t]) && WellFormed(s[u]);
  }

  ghost predicate Chain(s: Threads, ts: seq<Thread>) {
    forall i :: 0 <= i < |ts| - 1 ==> WaitsFor(s, ts[i], ts[i + 1])
  }

  lemma {:induction false} ChainAscends(s: Threads, ts: seq<Thread>)
    requires Safe(s) && |ts| > 1 && Chain(s, ts)
    ensures ts[0] in s && ts[|ts| - 1] in s && Level(s[ts[0]]) < Level(s[ts[|ts| - 1]])
    decreases |ts|
  {
    hide Safe, WaitsFor, Level;
    assert WaitsFor(s, ts[0], ts[1]);
    InThreads(s, ts[0], ts[1]);
    WaitsAscend(s, ts[0], ts[1]);
    if |ts| > 2 {
      forall i | 0 <= i < |ts[1..]| - 1 ensures WaitsFor(s, ts[1..][i], ts[1..][i + 1]) {
        assert WaitsFor(s, ts[i + 1], ts[i + 2]);
      }
      ChainAscends(s, ts[1..]);
    }
  }

  lemma InThreads(s: Threads, t: Thread, u: Thread)
    requires WaitsFor(s, t, u)
    ensures t in s && u in s
  {
  }

  /** In no reachable state does a chain of waiting threads, however long, come back to its start. */
  lemma NoWaitCycle(es: seq<Event>, ts: seq<Thread>)
    requires Run(map[], es) && |ts| > 1 && Chain(Final(map[], es), ts)
    ensures ts[0] != ts[|ts| - 1]
  {
    hide Run, Final, Chain, Level;
    RunsAreSafe(map[], es);
    ChainAscends(Final(map[], es), ts);
  }

  /** The next thing an unfinished handler does when nothing keeps it from it. */
  function Onward(h: Handler): Handler {
    match h.inner
    case Out =>
      h.(outer := match h.outer
        case WantSlot => Downloading case Downloading => WantPath case WantPath => WantSession case WantSession => Inside
        case Inside => SessionFreed case SessionFreed => Ending case _ => Finished)
    case WantRead => h.(inner := Reading)
    case Reading => h.(inner := Out)
    case ReaderWantsPool => h.(inner := ReaderInPool)
    case ReaderInPool => h.(inner := Reading)
    case WantWrite => h.(inner := Draining)
    case Draining => h.(inner := Writing)
    case Writing => h.(inner := Out)
    case WriterWantsPool => h.(inner := WriterInPool)
    case WriterInPool => h.(inner := Writing)
  }

  predicate Busy(h: Handler) {
    !h.outer.Finished? && !(h.outer.Lockless? && h.inner == Out)
  }

  lemma OnwardFollows(h: Handler)
    requires WellFormed(h) && Busy(h)
    ensures Follows(h, Onward(h))
  {
  }

  /** From any busy thread, following who waits for whom leads to a busy thread that can take its next step. */
  lemma {:induction false} SomeoneMoves(s: Threads, t: Thread) returns (u: Thread)
    requires Safe(s) && t in s && Busy(s[t])
    ensures u in s && Busy(s[u]) && Moves(s, u, Onward(s[u]))
    decreases 6 - Level(s[t])
  {
    if Clear(s, t) {
      OnwardFollows(s[t]);
      u := t;
    } else {
      var v :| v in s && WaitsFor(s, t, v);
      WaitsAscend(s, t, v);
      HoldersAreBusy(s, t, v);
      u := SomeoneMoves(s, v);
    }
  }

  lemma HoldersAreBusy(s: Threads, t: Thread, u: Thread)
    requires Safe(s) && WaitsFor(s, t, u)
    ensures Busy(s[u])
  {
    hide Compatible, Full;
    assert WellFormed(s[u]);
  }

  /** No deadlock, even if no wait is ever given up: while any handler is unfinished, one of them can go on. */
  lemma NoDeadlock(es: seq<Event>, t: Thread) returns (u: Thread)
    requires Run(map[], es) && t in Final(map[], es) && Busy(Final(map[], es)[t])
    ensures var s := Final(map[], es); u in s && Busy(s[u]) && Moves(s, u, Onward(s[u]))
  {
    hide Run, Final, Busy, Moves;
    RunsAreSafe(map[], es);
    u := SomeoneMoves(Final(map[], es), t);
  }
}
