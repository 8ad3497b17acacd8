/** A token's read markers, and the per-path locks (internal/session). */
module Session {
  import opened Wrappers
  import opened Protocol

  datatype Status = StatusUnknown | StatusMatch | StatusStale

  /** What has been done to a session's markers, oldest first. */
  datatype Touch = Marked(path: string, marker: Marker) | Forgotten(path: string)

  function Markers(log: seq<Touch>): map<string, Marker> {
    if log == [] then map[] else
    var before := Markers(log[..|log| - 1]);
    match log[|log| - 1]
    case Marked(path, marker) => before[path := marker]
    case Forgotten(path) => before - {path}
  }

  /** The last thing done to this path's marker, if any. */
  function LastTouch(log: seq<Touch>, path: string): Option<Touch> {
    if log == [] then None
    else if log[|log| - 1].path == path then Some(log[|log| - 1])
    else LastTouch(log[..|log| - 1], path)
  }

  /** A path's marker is what its last touch left; what is done to other paths never shows. */
  lemma {:induction false} MarkersAreLastTouches(log: seq<Touch>, path: string)
    ensures path in Markers(log) <==> LastTouch(log, path).Some? && LastTouch(log, path).value.Marked?
    ensures path in Markers(log) ==> LastTouch(log, path) == Some(Marked(path, Markers(log)[path]))
  {
    if log != [] {
      MarkersAreLastTouches(log[..|log| - 1], path);
    }
  }

  class Session {
    var markers: map<string, Marker>
    ghost var log: seq<Touch>

    ghost predicate Valid()
      reads this
    {
      markers == Markers(log)
    }

    constructor ()
      ensures Valid() && markers == map[] && log == []
    {
      markers, log := map[], [];
    }

    method MarkRead(path: string, size: nat, mtime: Stamp)
      requires Valid()
      modifies this
      ensures Valid() && log == old(log) + [Marked(path, Marker(size, mtime))]
      ensures markers == old(markers)[path := Marker(size, mtime)]
    {
      markers := markers[path := Marker(size, mtime)];
      log := log + [Marked(path, Marker(size, mtime))];
      assert log[..|log| - 1] == old(log);
    }

    /** The marker the path was last marked with, unless it was never marked or has been forgotten since. */
    method Lookup(path: string) returns (m: Option<Marker>)
      requires Valid()
      ensures m.None? <==> LastTouch(log, path) == None || LastTouch(log, path) == Some(Forgotten(path))
      ensures m.Some? ==> LastTouch(log, path) == Some(Marked(path, m.value))
    {
      MarkersAreLastTouches(log, path);
      LastTouchIsOfPath(log, path);
      if path in markers {
        return Some(markers[path]);
      }
      return None;
    }

    /** Both fields must be equal; equality of times is of instants, so there is nothing else to compare. */
    method Compare(path: string, size: nat, mtime: Stamp) returns (s: Status)
      requires Valid()
      ensures s == StatusUnknown <==> path !in markers
      ensures s == StatusMatch <==> path in markers && markers[path] == Marker(size, mtime)
      ensures s == StatusMatch <==> LastTouch(log, path) == Some(Marked(path, Marker(size, mtime)))
      ensures s == StatusUnknown <==> LastTouch(log, path) == None || LastTouch(log, path) == Some(Forgotten(path))
    {
      MarkersAreLastTouches(log, path);
      LastTouchIsOfPath(log, path);
      if path !in markers {
        return StatusUnknown;
      }
      var m := markers[path];
      if m.size == size && m.mtime == mtime {
        return StatusMatch;
      }
      return StatusStale;
    }

    method Forget(path: string)
      requires Valid()
      modifies this
      ensures Valid() && log == old(log) + [Forgotten(path)]
      ensures markers == old(markers) - {path}
    {
      markers := markers - {path};
      log := log + [Forgotten(path)];
      assert log[..|log| - 1] == old(log);
    }
  }

  lemma {:induction false} LastTouchIsOfPath(log: seq<Touch>, path: string)
    ensures LastTouch(log, path).Some? ==> LastTouch(log, path).value.path == path
  {
    if log != [] {
      LastTouchIsOfPath(log[..|log| - 1], path);
    }
  }

  // The per-path locks.

  /** What happens to one semaphore: somebody's token goes in, and comes out again. */
  datatype Use = Taken(who: nat) | Freed(who: nat)

  /** One holder at a time: every token taken is freed by its holder before the next is taken. */
  predicate OneAtATime(log: seq<Use>) {
    log == [] ||
    var front, last := log[..|log| - 1], log[|log| - 1];
    && OneAtATime(front)
    && if |front| % 2 == 0 then last.Taken? else last.Freed? && front[|front| - 1] == Taken(last.who)
  }

  predicate NotBy(uses: seq<Use>, me: nat) {
    forall i :: 0 <= i < |uses| ==> uses[i].who != me
  }

  /** A binary semaphore: a channel of capacity one, full while the lock is held; `holder` says whose token is in it. */
  class Semaphore {
    var holder: Option<nat>
    ghost var log: seq<Use>

    ghost predicate Valid()
      reads this
    {
      OneAtATime(log) && holder == if |log| % 2 == 1 then Some(log[|log| - 1].who) else None
    }

    constructor ()
      ensures Valid() && log == []
    {
      holder, log := None, [];
    }

    method Take(me: nat)
      requires Valid() && holder.None?
      modifies this
      ensures Valid() && log == old(log) + [Taken(me)]
    {
      holder, log := Some(me), log + [Taken(me)];
      assert log[..|log| - 1] == old(log);
    }

    method Free()
      requires Valid() && holder.Some?
      modifies this
      ensures Valid() && log == old(log) + [Freed(old(holder).value)]
    {
      log := log + [Freed(holder.value)];
      holder := None;
      assert log[..|log| - 1] == old(log);
    }

    /** What others may do to it while one caller waits. */
    method Others(me: nat)
      requires Valid()
      modifies this
      ensures Valid() && old(log) <= log && NotBy(log[|old(log)|..], me)
    {
      var act, other := *, *;
      if act && holder.None? && other != me {
        Take(other);
      } else if act && holder.Some? && holder != Some(me) {
        Free();
      }
    }

    /** The two-way wait: the channel becomes free, or the context ends. */
    method TakeWithin(me: nat, patience: nat) returns (ok: bool, left: nat)
      requires Valid()
      modifies this
      ensures Valid() && old(log) <= log
      ensures var waited := log[|old(log)|..];
        if ok then waited != [] && waited[|waited| - 1] == Taken(me) && NotBy(waited[..|waited| - 1], me)
        else left == 0 && NotBy(waited, me)
      ensures patience > 0 && |old(log)| % 2 == 0 ==> ok && log == old(log) + [Taken(me)]
    {
      left := patience;
      while holder.Some? && left > 0
        invariant Valid() && old(log) <= log && NotBy(log[|old(log)|..], me) && left <= patience
        invariant patience > 0 && |old(log)| % 2 == 0 ==> left == patience && log == old(log)
        decreases left
      {
        ghost var was := log;
        Others(me);
        assert log[|old(log)|..] == was[|old(log)|..] + log[|was|..];
        left := left - 1;
      }
      var giveUp := *;
      if holder.Some? || (left == 0 && giveUp) {
        return false, left;
      }
      ghost var waited := log[|old(log)|..];
      Take(me);
      assert log[|old(log)|..] == waited + [Taken(me)];
      ok := true;
    }
  }

  class PathLocks {
    var locks: map<string, Semaphore>

    /** Two paths never share a semaphore. */
    ghost predicate Valid()
      reads this, locks.Values
    {
      && (forall p, q :: p in locks && q in locks && p != q ==> locks[p] != locks[q])
      && (forall p :: p in locks ==> locks[p].Valid())
    }

    /** All that has happened to a path's lock. */
    ghost function Log(path: string): seq<Use>
      reads this, locks.Values
    {
      if path in locks then locks[path].log else []
    }

    constructor ()
      ensures Valid() && locks == map[]
    {
      locks := map[];
    }

    /** Entries are made on first use and never replaced: everyone who asks for a path meets the same semaphore. */
    method Channel(path: string) returns (ch: Semaphore)
      requires Valid()
      modifies this
      ensures Valid() && locks == old(locks)[path := ch]
      ensures path in old(locks) ==> ch == old(locks)[path]
      ensures path !in old(locks) ==> fresh(ch) && ch.log == []
      ensures ch.Valid()
    {
      if path in locks {
        ch := locks[path];
      } else {
        ch := new Semaphore();
        locks := locks[path := ch];
      }
    }

    /**
     Waits for the path's lock for as long as the context lasts, given as how often others are still to be waited for.
     It returns with the lock, taken when nobody held it, or with the context at its end and nothing done.
     */
    method LockContext(path: string, me: nat, patience: nat) returns (ok: bool, left: nat)
      requires Valid()
      modifies this, locks.Values
      ensures Valid() && path in locks && locks == old(locks)[path := locks[path]]
      ensures if path in old(locks) then locks[path] == old(locks[path]) else fresh(locks[path])
      ensures old(Log(path)) <= Log(path)
      ensures var waited := Log(path)[|old(Log(path))|..];
        if ok then waited != [] && waited[|waited| - 1] == Taken(me) && NotBy(waited[..|waited| - 1], me)
        else left == 0 && NotBy(waited, me)
      ensures patience > 0 && |old(Log(path))| % 2 == 0 ==> ok && Log(path) == old(Log(path)) + [Taken(me)]
      ensures forall p :: p != path ==> Log(p) == old(Log(p))
    {
      hide OneAtATime, NotBy;
      var ch := Channel(path);
      assert ch.log == old(Log(path));
      ok, left := ch.TakeWithin(me, patience);
      assert forall p :: p in locks && p != path ==> locks[p] != ch;
    }

    method Release(path: string, ghost me: nat)
      requires Valid() && path in locks && locks[path].holder == Some(me)
      modifies locks.Values
      ensures Valid() && locks == old(locks) && Log(path) == old(Log(path)) + [Freed(me)]
      ensures forall p :: p != path ==> Log(p) == old(Log(p))
    {
      locks[path].Free();
    }
  }
}
