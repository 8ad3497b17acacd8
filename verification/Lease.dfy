/**
 The Root pool under concurrency: WithRoot operations hold the read lease, a reopen pass the write lease, and legacy
 Resolve no lease at all. Roots are numbered in the order they are opened.
 */
module Lease {
  import opened Wrappers

  type Thread = nat
  type Dir = string
  type RootId = nat

  /** The Root a reopen pass has in hand between opening it and caching it. */
  datatype Hand = Empty | Closed(dir: Dir) | Fresh(dir: Dir, root: RootId)

  /** A reopen pass, from its write lease on: the Roots taken out of the cache and not yet closed. */
  datatype Pass = NoPass | Reopening(todo: map<Dir, RootId>, hand: Hand)

  /**
   `users` are the WithRoot calls holding the read lease, with the Root each was given, once it has one. `home` is
   bookkeeping that no step reads: the directory each Root was opened on.
   */
  datatype Pool = Pool(cache: map<Dir, RootId>, opens: set<RootId>, made: nat, users: map<Thread, Option<RootId>>,
                       pass: Pass, home: map<RootId, Dir>)

  datatype Event =
    | ReadLock(t: Thread)
    | Given(t: Thread, dir: Dir, openable: bool)
    | ReadUnlock(t: Thread)
    | LegacyResolve(dir: Dir, openable: bool)
    | WriteLock
    | CloseOne(dir: Dir)
    | OpenAgain(openable: bool)
    | CacheAgain
    | WriteUnlock

  predicate Enabled(p: Pool, e: Event) {
    match e
    case ReadLock(t) => p.pass.NoPass? && t !in p.users
    case Given(t, _, _) => t in p.users && p.users[t].None?
    case ReadUnlock(t) => t in p.users
    case LegacyResolve(_, _) => true
    case WriteLock => p.pass.NoPass? && p.users == map[]
    case CloseOne(dir) => p.pass.Reopening? && p.pass.hand.Empty? && dir in p.pass.todo
    case OpenAgain(_) => p.pass.Reopening? && p.pass.hand.Closed?
    case CacheAgain => p.pass.Reopening? && p.pass.hand.Fresh?
    case WriteUnlock => p.pass.Reopening? && p.pass.hand.Empty? && p.pass.todo == map[]
  }

  /** A Root is opened on this directory. */
  function Opened(p: Pool, dir: Dir): Pool {
    p.(opens := p.opens + {p.made}, made := p.made + 1, home := p.home[p.made := dir])
  }

  /** The lazy open under the pool mutex: the cached Root, or a new one. */
  function Resolved(p: Pool, dir: Dir, openable: bool): (Pool, Option<RootId>) {
    if dir in p.cache then (p, Some(p.cache[dir]))
    else if !openable then (p, None)
    else (Opened(p, dir).(cache := p.cache[dir := p.made]), Some(p.made))
  }

  function Next(p: Pool, e: Event): Pool
    requires Enabled(p, e)
  {
    match e
    case ReadLock(t) => p.(users := p.users[t := None])
    case Given(t, dir, openable) =>
      var (q, root) := Resolved(p, dir, openable);
      q.(users := q.users[t := root])
    case ReadUnlock(t) => p.(users := p.users - {t})
    case LegacyResolve(dir, openable) => Resolved(p, dir, openable).0
    case WriteLock => p.(cache := map[], pass := Reopening(p.cache, Empty))
    case CloseOne(dir) =>
      p.(opens := p.opens - {p.pass.todo[dir]}, pass := Reopening(p.pass.todo - {dir}, Closed(dir)))
    case OpenAgain(openable) =>
      if !openable then p.(pass := Reopening(p.pass.todo, Empty))
      else Opened(p, p.pass.hand.dir).(pass := Reopening(p.pass.todo, Fresh(p.pass.hand.dir, p.made)))
    case CacheAgain =>
      p.(cache := p.cache[p.pass.hand.dir := p.pass.hand.root], pass := Reopening(p.pass.todo, Empty))
    case WriteUnlock => p.(pass := NoPass)
  }

  /** No Root is cached twice, and the Root in the pass's hand is not cached yet. */
  predicate Distinct(p: Pool) {
    && (forall d, e :: d in p.cache && e in p.cache && p.cache[d] == p.cache[e] ==> d == e)
    && (p.pass.Reopening? && p.pass.hand.Fresh? ==> forall d :: d in p.cache ==> p.cache[d] != p.pass.hand.root)
  }

  /** Every Root is cached, or about to be, under the directory it was opened on. */
  predicate AtHome(p: Pool) {
    && (forall r :: r in p.home ==> r < p.made)
    && (forall d :: d in p.cache ==> p.cache[d] in p.home && p.home[p.cache[d]] == d)
    && (p.pass.Reopening? && p.pass.hand.Fresh? ==>
          p.pass.hand.root in p.home && p.home[p.pass.hand.root] == p.pass.hand.dir)
  }

  /** What keeps closing apart from use: the Roots still to be closed are neither cached nor in anybody's hands. */
  predicate Secure(p: Pool) {
    && (forall r :: r in p.opens ==> r < p.made)
    && (forall d :: d in p.cache ==> p.cache[d] in p.opens)
    && (forall t :: t in p.users && p.users[t].Some? ==> p.users[t].value in p.opens)
    && (p.pass.Reopening? ==>
          && p.users == map[]
          && (forall d, e :: d in p.pass.todo && e in p.cache ==> p.pass.todo[d] != p.cache[e])
          && (forall d :: d in p.pass.todo ==> p.pass.todo[d] < p.made)
          && (p.pass.hand.Fresh? ==> p.pass.hand.root in p.opens && forall d :: d in p.pass.todo ==> p.pass.todo[d] != p.pass.hand.root))
  }

  predicate Inv(p: Pool) {
    Distinct(p) && AtHome(p) && Secure(p)
  }

  ghost predicate Run(p: Pool, es: seq<Event>)
    decreases |es|
  {
    es == [] || (Enabled(p, es[0]) && Run(Next(p, es[0]), es[1..]))
  }

  ghost function After(p: Pool, es: seq<Event>): Pool
    requires Run(p, es)
    decreases |es|
  {
    if es == [] then p else After(Next(p, es[0]), es[1..])
  }

  const START := Pool(map[], {}, 0, map[], NoPass, map[])

  lemma NextKeeps(p: Pool, e: Event)
    requires Inv(p) && Enabled(p, e)
    ensures Inv(Next(p, e))
  {
    DistinctStays(p, e);
    AtHomeStays(p, e);
    SecureStays(p, e);
  }

  lemma DistinctStays(p: Pool, e: Event)
    requires Distinct(p) && Secure(p) && Enabled(p, e)
    ensures Distinct(Next(p, e))
  {
  }

  lemma AtHomeStays(p: Pool, e: Event)
    requires AtHome(p) && Enabled(p, e)
    ensures AtHome(Next(p, e))
  {
  }

  lemma SecureStays(p: Pool, e: Event)
    requires Secure(p) && Enabled(p, e)
    ensures Secure(Next(p, e))
  {
  }

  lemma {:induction false} RunKeeps(p: Pool, es: seq<Event>)
    requires Inv(p) && Run(p, es)
    ensures Inv(After(p, es))
    decreases |es|
  {
    hide Inv, Enabled, Next;
    if es != [] {
      NextKeeps(p, es[0]);
      RunKeeps(Next(p, es[0]), es[1..]);
    }
  }

  /** In every interleaving, with reopens failing anywhere: a WithRoot call's Root is open, and so is every cached one. */
  lemma LeaseIsSafe(es: seq<Event>, t: Thread, d: Dir)
    requires Run(START, es)
    ensures var p := After(START, es);
      && (t in p.users && p.users[t].Some? ==> p.users[t].value in p.opens)
      && (d in p.cache ==> p.cache[d] in p.opens)
  {
    RunKeeps(START, es);
  }

  /**
   The Root a WithRoot call is given is an open one of the very directory it asked for; it is given none only if that
   directory has no cached Root and cannot be opened. A legacy Resolve leaves the same Root in the cache.
   */
  lemma GivenRootIsItsOwn(p: Pool, t: Thread, dir: Dir, openable: bool)
    requires Inv(p)
    ensures Enabled(p, Given(t, dir, openable)) ==>
      var q := Next(p, Given(t, dir, openable));
      && t in q.users && (q.users[t].None? <==> dir !in p.cache && !openable)
      && (q.users[t].Some? ==>
            q.users[t].value in q.opens && q.users[t].value in q.home && q.home[q.users[t].value] == dir
            && dir in q.cache && q.cache[dir] == q.users[t].value)
      && (dir in p.cache ==> q.cache == p.cache && q.opens == p.opens)
    ensures var q := Next(p, LegacyResolve(dir, openable));
      && (dir in q.cache <==> dir in p.cache || openable)
      && (dir in q.cache ==> q.cache[dir] in q.opens && q.cache[dir] in q.home && q.home[q.cache[dir]] == dir)
      && (dir in p.cache ==> q == p)
  {
  }

  /** A Root never moves: along every run it stays the Root of the directory it was opened on. */
  lemma {:induction false} HomesStay(p: Pool, es: seq<Event>)
    requires Inv(p) && Run(p, es)
    ensures forall r :: r in p.home ==> r in After(p, es).home && After(p, es).home[r] == p.home[r]
    decreases |es|
  {
    hide Run;
    if es != [] {
      RunTail(p, es);
      NextKeeps(p, es[0]);
      HomesStay(Next(p, es[0]), es[1..]);
    }
  }

  /** From the moment it has a Root until it returns, a WithRoot call keeps the same open Root whatever others do. */
  lemma {:induction false} RootOutlivesTheCall(p: Pool, es: seq<Event>, t: Thread)
    requires Inv(p) && Run(p, es) && t in p.users && p.users[t].Some?
    requires forall i :: 0 <= i < |es| ==> es[i] != ReadUnlock(t)
    ensures var q := After(p, es); t in q.users && q.users[t] == p.users[t] && p.users[t].value in q.opens
    decreases |es|
  {
    hide Run;
    if es != [] {
      RunTail(p, es);
      assert es[0] != ReadUnlock(t);
      NextKeeps(p, es[0]);
      RootOutlivesTheCall(Next(p, es[0]), es[1..], t);
    }
  }

  lemma RunTail(p: Pool, es: seq<Event>)
    requires Run(p, es) && es != []
    ensures Enabled(p, es[0]) && Run(Next(p, es[0]), es[1..]) && After(p, es) == After(Next(p, es[0]), es[1..])
  {
  }

  // What the legacy form does not promise.

  /** The pool after n events of a reopen pass that two legacy Resolves of one directory fall before and into. */
  function Passing(d: Dir, n: nat): Pool
    requires n <= 7
  {
    match n
    case 0 => START
    case 1 => Pool(map[d := 0], {0}, 1, map[], NoPass, map[0 := d])
    case 2 => Pool(map[], {0}, 1, map[], Reopening(map[d := 0], Empty), map[0 := d])
    case 3 => Pool(map[], {}, 1, map[], Reopening(map[], Closed(d)), map[0 := d])
    case 4 => Pool(map[d := 1], {1}, 2, map[], Reopening(map[], Closed(d)), map[0 := d, 1 := d])
    case 5 => Pool(map[d := 1], {1, 2}, 3, map[], Reopening(map[], Fresh(d, 2)), map[0 := d, 1 := d, 2 := d])
    case 6 => Pool(map[d := 2], {1, 2}, 3, map[], Reopening(map[], Empty), map[0 := d, 1 := d, 2 := d])
    case 7 => Pool(map[d := 2], {1, 2}, 3, map[], NoPass, map[0 := d, 1 := d, 2 := d])
  }

  function PassEvent(d: Dir, n: nat): Event
    requires n < 7
  {
    [LegacyResolve(d, true), WriteLock, CloseOne(d), LegacyResolve(d, true), OpenAgain(true), CacheAgain, WriteUnlock][n]
  }

  function PassEvents(d: Dir, n: nat): seq<Event>
    requires n <= 7
  {
    if n == 0 then [] else PassEvents(d, n - 1) + [PassEvent(d, n - 1)]
  }

  lemma PassStep(d: Dir, n: nat)
    requires n < 7
    ensures Enabled(Passing(d, n), PassEvent(d, n)) && Next(Passing(d, n), PassEvent(d, n)) == Passing(d, n + 1)
  {
  }

  lemma {:induction false} RunSnoc(p: Pool, es: seq<Event>, e: Event)
    requires Run(p, es) && Enabled(After(p, es), e)
    ensures Run(p, es + [e]) && After(p, es + [e]) == Next(After(p, es), e)
    decreases |es|
  {
    hide Enabled, Next;
    if es == [] {
      assert es + [e] == [e] && [e][1..] == [];
    } else {
      assert (es + [e])[0] == es[0] && (es + [e])[1..] == es[1..] + [e];
      RunSnoc(Next(p, es[0]), es[1..], e);
    }
  }

  lemma {:induction false} PassRuns(d: Dir, n: nat)
    requires n <= 7
    ensures Run(START, PassEvents(d, n)) && After(START, PassEvents(d, n)) == Passing(d, n)
  {
    hide Enabled, Next, PassEvent, Passing;
    if n == 0 {
      assert Passing(d, 0) == START by { PassBegins(d); }
    } else {
      PassRuns(d, n - 1);
      PassStep(d, n - 1);
      RunSnoc(START, PassEvents(d, n - 1), PassEvent(d, n - 1));
    }
  }

  lemma PassBegins(d: Dir)
    ensures Passing(d, 0) == START
  {
  }

  /**
   A legacy Resolve may be handed a Root that a reopen then closes under it, and one that resolves in the middle of a
   pass has its Root dropped from the cache, still open and closed by nobody: the pass caches its own over it.
   */
  lemma LegacyMayLoseItsRoot(d: Dir)
    ensures Run(START, PassEvents(d, 1)) && Run(START, PassEvents(d, 4)) && Run(START, PassEvents(d, 7))
    ensures PassEvent(d, 0) == PassEvent(d, 3) == LegacyResolve(d, true)
    ensures After(START, PassEvents(d, 1)).cache == map[d := 0] && After(START, PassEvents(d, 4)).cache == map[d := 1]
    ensures var end := After(START, PassEvents(d, 7));
      end.cache == map[d := 2] && end.opens == {1, 2} && end.pass.NoPass? && Orphan(end, 1)
  {
    PassRuns(d, 1);
    PassRuns(d, 4);
    PassRuns(d, 7);
    hide Run, After, PassEvents;
  }

  // When an open Root is lost, and when none is.

  predicate Holds(m: map<Dir, RootId>, r: RootId) {
    exists d :: d in m && m[d] == r
  }

  /** Somebody is going to use the Root again or close it: the cache, the reopen pass, or the pass's hand. */
  predicate Accounted(p: Pool, r: RootId) {
    || Holds(p.cache, r)
    || (p.pass.Reopening? && (Holds(p.pass.todo, r) || (p.pass.hand.Fresh? && p.pass.hand.root == r)))
  }

  /** An open Root that nothing will ever close. */
  predicate Orphan(p: Pool, r: RootId) {
    r in p.opens && !Accounted(p, r)
  }

  /** The pass caches its Root over one cached since it emptied the cache. */
  predicate Overwrites(p: Pool, e: Event) {
    e.CacheAgain? && p.pass.Reopening? && p.pass.hand.Fresh? && p.pass.hand.dir in p.cache
  }

  lemma HoldsPut(m: map<Dir, RootId>, d: Dir, v: RootId, r: RootId)
    ensures Holds(m[d := v], r) <==> v == r || exists e :: e in m && e != d && m[e] == r
  {
    if v == r {
      assert m[d := v][d] == r;
    } else if e :| e in m && e != d && m[e] == r {
      assert m[d := v][e] == r;
    }
  }

  lemma HoldsDrop(m: map<Dir, RootId>, d: Dir, r: RootId)
    requires d in m && m[d] != r
    ensures Holds(m - {d}, r) <==> Holds(m, r)
  {
    if e :| e in m && m[e] == r {
      assert (m - {d})[e] == r;
    }
  }

  /** Orphans never find an owner again, and an event makes one exactly when the pass caches over a cached Root: that Root. */
  lemma OrphansAreExact(p: Pool, e: Event, r: RootId)
    requires Inv(p) && Enabled(p, e)
    ensures Orphan(Next(p, e), r) <==> Orphan(p, r) || (Overwrites(p, e) && r == p.cache[p.pass.hand.dir])
  {
    match e
    case Given(_, dir, _) => HoldsPut(p.cache, dir, p.made, r);
    case LegacyResolve(dir, _) => HoldsPut(p.cache, dir, p.made, r);
    case CloseOne(dir) =>
      if p.pass.todo[dir] != r {
        HoldsDrop(p.pass.todo, dir, r);
      }
    case CacheAgain => HoldsPut(p.cache, p.pass.hand.dir, p.pass.hand.root, r);
    case _ =>
  }

  ghost predicate Overwritten(p: Pool, es: seq<Event>)
    requires Run(p, es)
    decreases |es|
  {
    es != [] && (Overwrites(p, es[0]) || Overwritten(Next(p, es[0]), es[1..]))
  }

  ghost predicate Lost(p: Pool) {
    exists r :: Orphan(p, r)
  }

  lemma {:induction false} LossFollowsOverwriting(p: Pool, es: seq<Event>)
    requires Inv(p) && Run(p, es)
    ensures Lost(After(p, es)) <==> Lost(p) || Overwritten(p, es)
    decreases |es|
  {
    hide Inv, Enabled, Next, Orphan;
    if es != [] {
      NextKeeps(p, es[0]);
      LossStep(p, es[0]);
      LossFollowsOverwriting(Next(p, es[0]), es[1..]);
    }
  }

  lemma LossStep(p: Pool, e: Event)
    requires Inv(p) && Enabled(p, e)
    ensures Lost(Next(p, e)) <==> Lost(p) || Overwrites(p, e)
  {
    hide Inv, Enabled, Next, Orphan;
    forall r ensures Orphan(Next(p, e), r) <==> Orphan(p, r) || (Overwrites(p, e) && r == p.cache[p.pass.hand.dir]) {
      OrphansAreExact(p, e, r);
    }
    if Overwrites(p, e) {
      assert Orphan(Next(p, e), p.cache[p.pass.hand.dir]);
    }
    if r :| Orphan(p, r) {
      assert Orphan(Next(p, e), r);
    }
  }

  /** A run leaves an open Root that nobody will close if and only if, somewhere in it, a pass caches over a cached Root. */
  lemma LossIsExact(es: seq<Event>)
    requires Run(START, es)
    ensures Lost(After(START, es)) <==> Overwritten(START, es)
  {
    hide Run, After, Overwritten;
    LossFollowsOverwriting(START, es);
  }

  /** No legacy Resolve falls into a reopen pass. */
  ghost predicate Leased(p: Pool, es: seq<Event>)
    requires Run(p, es)
    decreases |es|
  {
    es == [] || ((es[0].LegacyResolve? ==> p.pass.NoPass?) && Leased(Next(p, es[0]), es[1..]))
  }

  /** During a pass every directory is in one place only: cached again, still to do, or in hand. */
  predicate Apart(p: Pool) {
    p.pass.Reopening? ==>
      && p.cache.Keys !! p.pass.todo.Keys
      && (!p.pass.hand.Empty? ==> p.pass.hand.dir !in p.cache && p.pass.hand.dir !in p.pass.todo)
  }

  lemma {:induction false} LeasedNeverOverwrites(p: Pool, es: seq<Event>)
    requires Inv(p) && Apart(p) && Run(p, es) && Leased(p, es)
    ensures !Overwritten(p, es)
    decreases |es|
  {
    hide Inv, Enabled, Next;
    if es != [] {
      NextKeeps(p, es[0]);
      ApartStays(p, es[0]);
      LeasedNeverOverwrites(Next(p, es[0]), es[1..]);
    }
  }

  lemma ApartStays(p: Pool, e: Event)
    requires Inv(p) && Enabled(p, e) && Apart(p) && (e.LegacyResolve? ==> p.pass.NoPass?)
    ensures Apart(Next(p, e)) && !Overwrites(p, e)
  {
  }

  /** While no legacy Resolve falls into a reopen pass, every open Root stays cached or is on its way to be closed. */
  lemma LeasedPassesLoseNothing(es: seq<Event>, r: RootId)
    requires Run(START, es) && Leased(START, es)
    ensures !Orphan(After(START, es), r)
  {
    hide Run, After, Overwritten, Leased;
    LossIsExact(es);
    LeasedNeverOverwrites(START, es);
  }
}
