/** Routing a validated path to its Root, and the pool of lazily opened Roots (internal/cifsops/rootpool.go). */
module RootPool {
  import opened Wrappers
  import opened Paths
  import opened PathGuard

  // Routing.

  /** The longest directory the path lies within, or "" if there is none. */
  predicate IsOwner(dirs: seq<string>, path: string, best: string) {
    && (best == "" || (best in dirs && Within(best, path)))
    && forall i :: 0 <= i < |dirs| && Within(dirs[i], path) ==> |dirs[i]| <= |best|
  }

  method Owner(dirs: seq<string>, path: string) returns (best: string)
    ensures IsOwner(dirs, path, best)
  {
    best := "";
    for k := 0 to |dirs|
      invariant best == "" || (best in dirs && Within(best, path))
      invariant forall i :: 0 <= i < k && Within(dirs[i], path) ==> |dirs[i]| <= |best|
    {
      if !Within(dirs[k], path) { continue; }
      if |dirs[k]| > |best| {
        best := dirs[k];
      }
    }
  }

  function TrimPrefix(s: string, p: string): string {
    if p <= s then s[|p|..] else s
  }

  function RelName(dir: string, path: string): string {
    if path == dir then "." else
    var rel := TrimPrefix(path, if dir == "/" then "/" else dir + "/");
    if Clean(rel) != rel then Clean(rel) else rel
  }

  lemma PathLengths(ds: seq<string>, es: seq<string>)
    requires AllPlain(ds) && AllPlain(es) && ds <= es
    ensures |PathOf(ds)| <= |PathOf(es)| && (|PathOf(ds)| == |PathOf(es)| ==> ds == es)
  {
    var rest := es[|ds|..];
    assert es == ds + rest;
    SlashedConcat(ds, rest);
    if rest != [] {
      assert Plain(rest[0]) && |Slashed(rest)| >= 2;
    }
  }

  /** Plain names joined by slashes are already clean, and are those names. */
  lemma NameListIsClean(cs: seq<string>)
    requires AllPlain(cs) && cs != []
    ensures var rel := Names(cs); Parts(rel) == cs && !IsAbs(rel) && Clean(rel) == rel
  {
    var rel := Names(cs);
    assert Plain(cs[0]) && cs[0][0] in cs[0] && rel[0] == cs[0][0];
    PartsOfSlashed(cs);
    PartsCons('/', rel);
    assert Slashed(cs) == ['/'] + rel && Parts(rel) == ([""] + Parts(rel))[1..] == ([""] + cs)[1..] == cs;
    ReducePlain(cs, false, []);
    assert [] + cs == cs;
  }

  lemma PathSplits(ds: seq<string>, rest: seq<string>)
    requires AllPlain(ds) && AllPlain(rest) && rest != []
    ensures PathOf(ds + rest) == (if ds == [] then "/" else PathOf(ds) + "/") + Names(rest)
  {
    SlashedConcat(ds, rest);
    var t := Names(rest);
    hide Slashed, Names;
    if ds == [] {
      assert ds + rest == rest;
    } else {
      assert Slashed(ds) + ("/" + t) == Slashed(ds) + "/" + t;
    }
  }

  lemma Trimmed(p: string, rest: string)
    ensures TrimPrefix(p + rest, p) == rest
  {
    assert (p + rest)[..|p|] == p;
  }

  lemma RelNameStrips(ds: seq<string>, rest: seq<string>)
    requires AllPlain(ds) && AllPlain(rest) && rest != []
    ensures RelName(PathOf(ds), PathOf(ds + rest)) == Names(rest)
  {
    hide Plain, Clean, Slashed;
    assert AllPlain(ds + rest);
    PathLengths(ds, ds + rest);
    PathSplits(ds, rest);
    NameListIsClean(rest);
    NotRoot(ds);
    Trimmed(if ds == [] then "/" else PathOf(ds) + "/", Names(rest));
  }

  lemma NotRoot(ds: seq<string>)
    requires AllPlain(ds)
    ensures PathOf(ds) == "/" <==> ds == []
    ensures PathOf(ds) != ""
  {
    if ds != [] {
      assert Plain(ds[0]);
    }
  }

  /** The owner joined with the Root-relative name is the path again, and the name never leads out. */
  lemma RelNameRestores(ds: seq<string>, cs: seq<string>)
    requires AllPlain(ds) && AllPlain(cs) && ds <= cs
    ensures var rel := RelName(PathOf(ds), PathOf(cs));
      && JoinPath(PathOf(ds), rel) == PathOf(cs)
      && !IsAbs(rel) && (rel == "." || AllPlain(Parts(rel)))
  {
    hide Plain, Clean, Slashed, JoinPath, Parts;
    var rest := cs[|ds|..];
    assert cs == ds + rest && AllPlain(rest);
    JoinAppends(ds, rest);
    if rest == [] {
      assert ds == cs && "."[0] != '/';
    } else {
      RelNameStrips(ds, rest);
      NameListIsClean(rest);
    }
  }

  /** Of two stretches of leading names of one path, the one with the shorter text leads the other. */
  lemma ShorterLeads(es: seq<string>, ds: seq<string>, cs: seq<string>)
    requires AllPlain(ds) && AllPlain(es) && ds <= cs && es <= cs && |PathOf(es)| <= |PathOf(ds)|
    ensures es <= ds
  {
    if |es| <= |ds| {
      assert es == cs[..|es|] == ds[..|es|];
    } else {
      assert ds == cs[..|ds|] == es[..|ds|];
      PathLengths(ds, es);
    }
  }

  /**
   The guard and the pool agree on a clean path inside an allowed directory: it has an owner, every other directory that
   holds it holds the owner too, and the owner joined with the Root-relative name is the path again. That name is `.` or
   plain names only, so it never leaves the Root.
   */
  lemma GuardAndPoolAgree(dirs: seq<string>, path: string, best: string)
    requires CleanAbs(path) && Allowed(dirs, path) && CleanDirs(dirs)
    requires IsOwner(dirs, path, best)
    ensures best in dirs && Within(best, path)
    ensures forall i :: 0 <= i < |dirs| && Within(dirs[i], path) ==> Within(dirs[i], best)
    ensures JoinPath(best, RelName(best, path)) == path
    ensures !IsAbs(RelName(best, path)) && (RelName(best, path) == "." || AllPlain(Parts(RelName(best, path))))
  {
    hide Plain, Within, JoinPath, RelName, Slashed, PathOf, Parts;
    var cs :| AllPlain(cs) && path == PathOf(cs);
    var k :| 0 <= k < |dirs| && Within(dirs[k], path);
    var ks :| AllPlain(ks) && dirs[k] == PathOf(ks);
    NotRoot(ks);
    var b :| 0 <= b < |dirs| && dirs[b] == best;
    var ds :| AllPlain(ds) && best == PathOf(ds);
    WithinIsPrefix(ds, cs);
    RelNameRestores(ds, cs);
    forall i | 0 <= i < |dirs| && Within(dirs[i], path) ensures Within(dirs[i], best) {
      var es :| AllPlain(es) && dirs[i] == PathOf(es);
      WithinIsPrefix(es, cs);
      WithinIsPrefix(es, ds);
      ShorterLeads(es, ds, cs);
    }
  }

  /** So it is for every path Validate answers, whatever spelling came in and whatever the links resolve to. */
  lemma AnsweredPathsAreRouted(dirs: seq<string>, raw: string, expand: string -> string, realpath: string -> Resolved,
                               best: string)
    requires Resolves(realpath) && CleanDirs(dirs) && Validated(dirs, raw, expand, realpath).Ok?
    requires IsOwner(dirs, Validated(dirs, raw, expand, realpath).value, best)
    ensures var path := Validated(dirs, raw, expand, realpath).value;
      && best in dirs && Within(best, path)
      && (forall i :: 0 <= i < |dirs| && Within(dirs[i], path) ==> Within(dirs[i], best))
      && JoinPath(best, RelName(best, path)) == path
      && !IsAbs(RelName(best, path)) && (RelName(best, path) == "." || AllPlain(Parts(RelName(best, path))))
  {
    hide *;
    ValidatedIsInside(dirs, raw, expand, realpath);
    GuardAndPoolAgree(dirs, Validated(dirs, raw, expand, realpath).value, best);
  }

  // The pool.

  class Root {
    const dir: string
    var open: bool

    constructor (dir: string)
      ensures this.dir == dir && open
    {
      this.dir, open := dir, true;
    }
  }

  class RootPool {
    const dirs: seq<string>
    var roots: map<string, Root>

    /** Every cached Root is open, and is the Root of the directory it is cached under. */
    ghost predicate Valid()
      reads this, roots.Values
    {
      forall d :: d in roots ==> roots[d].open && roots[d].dir == d && d in dirs
    }

    constructor (dirs: seq<string>)
      ensures Valid() && this.dirs == dirs && roots == map[]
    {
      this.dirs, roots := dirs, map[];
    }

    /** Opens the owner's Root on first use, unless the directory cannot be opened, and caches it. */
    method Resolve(path: string, openable: bool) returns (root: Option<Root>, rel: string)
      requires Valid()
      modifies this
      ensures Valid() && (forall d :: d in old(roots) ==> d in roots && roots[d] == old(roots[d]))
      ensures root.Some? ==> root.value.open && IsOwner(dirs, path, root.value.dir) && root.value.dir != ""
                             && root.value.dir in roots && root.value == roots[root.value.dir]
                             && roots.Keys == old(roots.Keys) + {root.value.dir} && rel == RelName(root.value.dir, path)
                             && (root.value.dir in old(roots) || (openable && fresh(root.value)))
      ensures root.None? ==> roots == old(roots)
                             && (IsOwner(dirs, path, "") || (!openable && exists d :: IsOwner(dirs, path, d) && d !in roots))
    {
      var dir := Owner(dirs, path);
      if dir == "" { return None, ""; }
      if dir in roots {
        return Some(roots[dir]), RelName(dir, path);
      }
      if !openable { return None, ""; }
      var made := new Root(dir);
      roots := roots[dir := made];
      return Some(made), RelName(dir, path);
    }

    /** Closes one Root taken out of the cache and opens its directory again. */
    method Reopen(dir: string, was: Root, openable: bool)
      requires dir !in roots && forall d :: d in roots ==> roots[d] != was
      modifies this`roots, was`open
      ensures !was.open
      ensures !openable ==> roots == old(roots)
      ensures openable ==> dir in roots && roots == old(roots)[dir := roots[dir]]
      ensures openable ==> fresh(roots[dir]) && roots[dir].open && roots[dir].dir == dir
    {
      was.open := false;
      if openable {
        var root := new Root(dir);
        roots := roots[dir := root];
      }
    }

    /**
     Closes every cached Root and opens the directories again; one that cannot be opened is left uncached, so its next
     use opens it lazily, and one that was never opened stays so.
     */
    method ReopenAll(openable: string -> bool) returns (failed: set<string>)
      requires Valid()
      modifies this, roots.Values
      ensures Valid() && (forall d :: d in failed <==> d in old(roots) && !openable(d))
      ensures forall d :: d in roots <==> d in old(roots) && d !in failed
      ensures forall d :: d in roots ==> fresh(roots[d])
      ensures forall d :: d in old(roots) ==> !old(roots[d]).open
    {
      var before := roots;
      roots := map[];
      failed := {};
      var todo := before.Keys;
      while todo != {}
        invariant todo <= before.Keys && before == old(roots)
        invariant forall d :: d in failed <==> d in before && d !in todo && !openable(d)
        invariant forall d :: d in roots <==> d in before && d !in todo && openable(d)
        invariant forall d :: d in roots ==> fresh(roots[d]) && roots[d].open && roots[d].dir == d
        invariant forall d :: d in before && d !in todo ==> !before[d].open
        decreases |todo|
      {
        var dir :| dir in todo;
        assert before[dir] in before.Values;
        Reopen(dir, before[dir], openable(dir));
        if !openable(dir) {
          failed := failed + {dir};
        }
        todo := todo - {dir};
      }
    }
  }
}
