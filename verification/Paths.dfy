/** Lexical paths: components, path/filepath's Clean, Join, Dir and Base, and the prefix rule the guard and the pool share. */
module Paths {

  // Paths as components.

  /** A name that a clean path may contain. */
  predicate Plain(c: string) {
    c != "" && c != "." && c != ".." && '/' !in c
  }

  predicate AllPlain(cs: seq<string>) {
    forall i :: 0 <= i < |cs| ==> Plain(cs[i])
  }

  function Slashed(cs: seq<string>): string {
    if cs == [] then "" else "/" + cs[0] + Slashed(cs[1..])
  }

  /** The names joined by slashes, with none in front. */
  function Names(cs: seq<string>): (s: string)
    requires cs != []
    ensures Slashed(cs) == "/" + s
  {
    Slashed(cs)[1..]
  }

  function PathOf(cs: seq<string>): string {
    if cs == [] then "/" else Slashed(cs)
  }

  /** The paths a successful realpath returns. */
  ghost predicate CleanAbs(p: string) {
    exists cs :: AllPlain(cs) && p == PathOf(cs)
  }

  // path/filepath.

  function Parts(s: string): (parts: seq<string>)
    ensures parts != []
    ensures forall i :: 0 <= i < |parts| ==> '/' !in parts[i]
  {
    if s == "" then [""]
    else if s[0] == '/' then [""] + Parts(s[1..])
    else
      var rest := Parts(s[1..]);
      [[s[0]] + rest[0]] + rest[1..]
  }

  /** Drops empty and `.` names and resolves `..` against what is kept. */
  function Reduce(parts: seq<string>, rooted: bool, kept: seq<string>): seq<string>
    decreases |parts|
  {
    if parts == [] then kept
    else if parts[0] == "" || parts[0] == "." then Reduce(parts[1..], rooted, kept)
    else if parts[0] != ".." then Reduce(parts[1..], rooted, kept + [parts[0]])
    else if kept != [] && kept[|kept| - 1] != ".." then Reduce(parts[1..], rooted, kept[..|kept| - 1])
    else Reduce(parts[1..], rooted, if rooted then kept else kept + [".."])
  }

  predicate IsAbs(p: string) {
    "/" <= p
  }

  function Clean(p: string): string {
    var cs := Reduce(Parts(p), IsAbs(p), []);
    if IsAbs(p) then PathOf(cs) else if cs == [] then "." else Names(cs)
  }

  function JoinPath(a: string, b: string): string {
    Clean(a + "/" + b)
  }

  function LastSlash(p: string): (i: nat)
    requires '/' in p
    ensures i < |p| && p[i] == '/' && '/' !in p[i + 1..]
  {
    if p[|p| - 1] == '/' then |p| - 1 else
    var i := LastSlash(p[..|p| - 1]);
    assert p[i + 1..] == p[..|p| - 1][i + 1..] + [p[|p| - 1]];
    i
  }

  function Dir(p: string): string
    requires '/' in p
  {
    Clean(p[..LastSlash(p) + 1])
  }

  /** The last name of a clean absolute path, or "/" for the root itself. */
  function BaseName(p: string): string
    requires '/' in p
  {
    if p == "/" then "/" else p[LastSlash(p) + 1..]
  }

  // The prefix rule.

  predicate Within(dir: string, path: string) {
    if dir == "/" then path == "/" || "/" <= path else path == dir || dir + "/" <= path
  }

  lemma {:induction false} SlashedConcat(a: seq<string>, b: seq<string>)
    ensures Slashed(a + b) == Slashed(a) + Slashed(b)
  {
    if a == [] {
      assert a + b == b;
    } else {
      assert (a + b)[0] == a[0] && (a + b)[1..] == a[1..] + b;
      SlashedConcat(a[1..], b);
      assert "/" + a[0] + (Slashed(a[1..]) + Slashed(b)) == "/" + a[0] + Slashed(a[1..]) + Slashed(b);
    }
  }

  /** Two names ended by a slash agree up to it or not at all. */
  lemma {:induction false} NamesMatch(d: string, c: string, x: string, y: string)
    requires '/' !in d && '/' !in c && "/" <= x && "/" <= y
    ensures d + x <= c + y <==> d == c && x <= y
  {
    if d == "" || c == "" {
      assert d + x <= c + y ==> (d + x)[0] == (c + y)[0];
      if d == c {
        assert d + x == x && c + y == y;
      } else if d == "" {
        assert (d + x)[0] == '/' && (c + y)[0] == c[0];
      } else {
        assert (d + x)[0] == d[0] && (c + y)[0] == '/';
      }
    } else {
      NamesMatch(d[1..], c[1..], x, y);
      assert d + x == [d[0]] + (d[1..] + x) && c + y == [c[0]] + (c[1..] + y);
      assert d == [d[0]] + d[1..] && c == [c[0]] + c[1..];
      HeadThenTail(d[0], c[0], d[1..] + x, c[1..] + y);
    }
  }

  lemma HeadThenTail(a: char, b: char, s: string, t: string)
    ensures [a] + s <= [b] + t <==> a == b && s <= t
  {
    if [a] + s <= [b] + t {
      assert ([a] + s)[0] == ([b] + t)[0];
      assert s == ([a] + s)[1..] == ([b] + t)[..|s| + 1][1..] == t[..|s|];
    }
    if a == b && s <= t {
      assert ([b] + t)[..|s| + 1] == [b] + t[..|s|] == [a] + s;
    }
  }

  lemma {:induction false} TerminatedPrefix(ds: seq<string>, cs: seq<string>)
    requires AllPlain(ds) && AllPlain(cs)
    ensures "/" <= Slashed(cs) + "/"
    ensures Slashed(ds) + "/" <= Slashed(cs) + "/" <==> ds <= cs
  {
    assert (ds != [] ==> Plain(ds[0])) && (cs != [] ==> Plain(cs[0]));
    if ds == [] {
    } else if cs == [] {
      assert Slashed(cs) + "/" == "/" && |Slashed(ds)| >= 2;
    } else {
      hide AllPlain;
      TerminatedPrefix(ds[1..], cs[1..]);
      TerminatedPrefix(ds[1..], ds[1..]);
      var x, y := Slashed(ds[1..]) + "/", Slashed(cs[1..]) + "/";
      NamesMatch(ds[0], cs[0], x, y);
      HeadThenTail('/', '/', ds[0] + x, cs[0] + y);
      assert Slashed(ds) + "/" == ['/'] + (ds[0] + x) && Slashed(cs) + "/" == ['/'] + (cs[0] + y);
      assert ds == [ds[0]] + ds[1..] && cs == [cs[0]] + cs[1..];
    }
  }

  /** The byte comparison with its slash boundary is exactly "is a leading stretch of the same names". */
  lemma WithinIsPrefix(ds: seq<string>, cs: seq<string>)
    requires AllPlain(ds) && AllPlain(cs)
    ensures Within(PathOf(ds), PathOf(cs)) <==> ds <= cs
  {
    TerminatedPrefix(ds, cs);
    TerminatedPrefix(cs, cs);
    if ds != [] {
      var d, c := Slashed(ds), Slashed(cs);
      assert |d| >= 2 && d != "/";
      if cs == [] {
        assert PathOf(cs) == "/";
      } else {
        EndsAlike(d, c);
      }
    }
  }

  lemma EndsAlike(d: string, c: string)
    ensures d + "/" <= c + "/" <==> c == d || d + "/" <= c
  {
    if d + "/" <= c + "/" {
      if |d| == |c| {
        assert (c + "/")[..|d|] == c && (d + "/")[..|d|] == d;
      } else {
        assert (c + "/")[..|d| + 1] == c[..|d| + 1];
      }
    }
    if d + "/" <= c {
      assert (c + "/")[..|d| + 1] == c[..|d| + 1];
    }
  }

  // Clean and what is built on it.

  lemma PartsCons(x: char, s: string)
    ensures Parts([x] + s) == if x == '/' then [""] + Parts(s) else [[x] + Parts(s)[0]] + Parts(s)[1..]
  {
    assert ([x] + s)[1..] == s;
  }

  lemma Reheaded<T>(h: T, xs: seq<T>, ys: seq<T>)
    requires xs != []
    ensures (xs + ys)[0] == xs[0] && [h] + (xs + ys) == [h] + xs + ys && [h] + (xs + ys)[1..] == [h] + xs[1..] + ys
  {
  }

  lemma {:induction false} PartsConcat(a: string, b: string)
    ensures Parts(a + "/" + b) == Parts(a) + Parts(b)
  {
    if a == "" {
      PartsCons('/', b);
      assert "" + "/" + b == ['/'] + b && Parts("") == [""];
    } else {
      hide Parts;
      PartsConcat(a[1..], b);
      PartsCons(a[0], a[1..]);
      PartsCons(a[0], a[1..] + "/" + b);
      assert a + "/" + b == [a[0]] + (a[1..] + "/" + b) && a == [a[0]] + a[1..];
      Reheaded("", Parts(a[1..]), Parts(b));
      Reheaded([a[0]] + Parts(a[1..])[0], Parts(a[1..]), Parts(b));
    }
  }

  lemma {:induction false} PartsOfName(c: string)
    requires '/' !in c
    ensures Parts(c) == [c]
  {
    if c != "" {
      PartsOfName(c[1..]);
      assert c == [c[0]] + c[1..];
    }
  }

  lemma {:induction false} PartsOfSlashed(cs: seq<string>)
    requires AllPlain(cs)
    ensures Parts(Slashed(cs)) == [""] + cs
    decreases |cs|
  {
    hide Plain;
    if cs == [] {
    } else {
      var init, last := cs[..|cs| - 1], cs[|cs| - 1];
      assert cs == init + [last] && Plain(last);
      LastIsPlain(last);
      PartsOfSlashed(init);
      SlashedConcat(init, [last]);
      PartsConcat(Slashed(init), last);
      PartsOfName(last);
      assert Slashed([last]) == "/" + last;
      assert Slashed(init) + ("/" + last) == Slashed(init) + "/" + last;
      hide Parts, Slashed;
      assert [""] + init + [last] == [""] + cs;
    }
  }

  lemma LastIsPlain(c: string)
    requires Plain(c)
    ensures '/' !in c
  {
  }

  lemma {:induction false} ReduceConcat(a: seq<string>, b: seq<string>, rooted: bool, kept: seq<string>)
    ensures Reduce(a + b, rooted, kept) == Reduce(b, rooted, Reduce(a, rooted, kept))
    decreases |a|
  {
    if a == [] {
      assert a + b == b;
    } else {
      assert (a + b)[0] == a[0] && (a + b)[1..] == a[1..] + b;
      var next := if a[0] == "" || a[0] == "." then kept
        else if a[0] != ".." then kept + [a[0]]
        else if kept != [] && kept[|kept| - 1] != ".." then kept[..|kept| - 1]
        else if rooted then kept else kept + [".."];
      ReduceConcat(a[1..], b, rooted, next);
    }
  }

  lemma {:induction false} ReducePlain(cs: seq<string>, rooted: bool, kept: seq<string>)
    requires AllPlain(cs)
    ensures Reduce(cs, rooted, kept) == kept + cs
    decreases |cs|
  {
    if cs == [] {
      assert kept + cs == kept;
    } else {
      assert Plain(cs[0]);
      ReducePlain(cs[1..], rooted, kept + [cs[0]]);
      assert kept + [cs[0]] + cs[1..] == kept + cs;
    }
  }

  /** A rooted reduction never keeps a `..`. */
  lemma {:induction false} RootedIsPlain(parts: seq<string>, kept: seq<string>)
    requires AllPlain(kept) && forall i :: 0 <= i < |parts| ==> '/' !in parts[i]
    ensures AllPlain(Reduce(parts, true, kept))
    decreases |parts|
  {
    if parts != [] {
      var p := parts[0];
      if p == "" || p == "." {
        RootedIsPlain(parts[1..], kept);
      } else if p != ".." {
        RootedIsPlain(parts[1..], kept + [p]);
      } else if kept != [] {
        assert Plain(kept[|kept| - 1]);
        RootedIsPlain(parts[1..], kept[..|kept| - 1]);
      } else {
        RootedIsPlain(parts[1..], kept);
      }
    }
  }

  lemma PathIsAbs(cs: seq<string>)
    ensures IsAbs(PathOf(cs))
  {
  }

  /** Cleaning an absolute path gives a clean absolute path. */
  lemma CleanIsClean(p: string) returns (cs: seq<string>)
    requires IsAbs(p)
    ensures AllPlain(cs) && Clean(p) == PathOf(cs)
  {
    RootedIsPlain(Parts(p), []);
    cs := Reduce(Parts(p), true, []);
  }

  /** Joining names to a clean path appends them; `.` appends nothing, and a trailing slash goes. */
  lemma JoinAppends(cs: seq<string>, ds: seq<string>)
    requires AllPlain(cs) && AllPlain(ds)
    ensures ds != [] ==> JoinPath(PathOf(cs), Names(ds)) == PathOf(cs + ds)
    ensures JoinPath(PathOf(cs), ".") == PathOf(cs) == Clean(PathOf(cs) + "/")
  {
    hide Plain;
    var p := PathOf(cs);
    PartsOfPath(cs);
    ReduceRootedPath(cs);
    PartsConcat(p, ".");
    PartsConcat(p, "");
    assert p + "/" + "" == p + "/";
    ReduceConcat(Parts(p), ["."], true, []);
    ReduceConcat(Parts(p), [""], true, []);
    PartsOfName(".");
    if ds != [] {
      var rel := Names(ds);
      PartsConcat(p, rel);
      PartsOfSlashed(ds);
      assert Slashed(ds) == "/" + rel;
      assert Parts("/" + rel) == [""] + Parts(rel);
      assert Parts(rel) == ([""] + Parts(rel))[1..] == ([""] + ds)[1..] == ds;
      ReduceConcat(Parts(p), ds, true, []);
      ReducePlain(ds, true, cs);
    }
  }

  lemma PartsOfPath(cs: seq<string>)
    requires AllPlain(cs)
    ensures Parts(PathOf(cs)) == if cs == [] then ["", ""] else [""] + cs
  {
    if cs != [] {
      PartsOfSlashed(cs);
    }
  }

  lemma ReduceRootedPath(cs: seq<string>)
    requires AllPlain(cs)
    ensures Reduce(Parts(PathOf(cs)), true, []) == cs && Clean(PathOf(cs)) == PathOf(cs)
  {
    PartsOfPath(cs);
    PathIsAbs(cs);
    hide Parts, PathOf, Slashed;
    if cs == [] {
      assert ["", ""][1..] == [""];
    } else {
      assert ([""] + cs)[1..] == cs;
      ReducePlain(cs, true, []);
    }
  }

  lemma {:induction false} LastSlashIs(p: string, i: nat)
    requires i < |p| && p[i] == '/' && '/' !in p[i + 1..]
    ensures LastSlash(p) == i
    decreases |p|
  {
    if i < |p| - 1 {
      var q := p[..|p| - 1];
      assert p[i + 1..][|p| - 1 - (i + 1)] == p[|p| - 1];
      assert p[i + 1..] == q[i + 1..] + [p[|p| - 1]] && q[i] == '/';
      LastSlashIs(q, i);
    }
  }

  lemma ParentAndName(init: seq<string>, last: string)
    requires AllPlain(init) && Plain(last)
    ensures var p := PathOf(init + [last]);
      '/' in p && Dir(p) == PathOf(init) && BaseName(p) == last
  {
    var p := PathOf(init + [last]);
    SlashedConcat(init, [last]);
    assert Slashed([last]) == "/" + last && p == Slashed(init) + "/" + last;
    assert p[|Slashed(init)|] == '/' && p[|Slashed(init)| + 1..] == last;
    LastSlashIs(p, |Slashed(init)|);
    assert p[..|Slashed(init)| + 1] == Slashed(init) + "/";
    hide Clean, Slashed, Plain, AllPlain;
    ReduceRootedPath([]);
    JoinAppends(init, []);
  }

  /** Dir and BaseName split a clean path into its parent and its last name. */
  lemma DirAndBase(cs: seq<string>)
    requires AllPlain(cs)
    ensures '/' in PathOf(cs)
    ensures cs == [] ==> Dir("/") == "/" && BaseName("/") == "/"
    ensures cs != [] ==> Dir(PathOf(cs)) == PathOf(cs[..|cs| - 1]) && BaseName(PathOf(cs)) == cs[|cs| - 1]
  {
    assert PathOf(cs)[0] == '/';
    if cs == [] {
      ReduceRootedPath([]);
      LastSlashIs("/", 0);
      assert "/"[..1] == "/";
    } else {
      var init, last := cs[..|cs| - 1], cs[|cs| - 1];
      assert cs == init + [last] && Plain(last);
      ParentAndName(init, last);
    }
  }

  // What cleaning means, name by name.

  /** Where one more name leads from a directory given by its plain names. */
  function Walk(cs: seq<string>, name: string): seq<string> {
    if name == "" || name == "." then cs
    else if name == ".." then if cs == [] then [] else cs[..|cs| - 1]
    else cs + [name]
  }

  /**
   Cleaning follows a path name by name: an empty name and `.` stay, `..` goes to the parent and stays at the root, and
   any other name goes down. Every absolute path is "" or an absolute path, a slash and a name, so this is all of it.
   */
  lemma CleanWalks(p: string, name: string) returns (cs: seq<string>)
    requires (IsAbs(p) || p == "") && '/' !in name
    ensures AllPlain(cs) && Clean(if p == "" then "/" else p) == PathOf(cs)
    ensures Clean(p + "/" + name) == PathOf(Walk(cs, name)) && AllPlain(Walk(cs, name))
  {
    cs := Reduce(Parts(p), true, []);
    RootedIsPlain(Parts(p), []);
    PartsConcat(p, name);
    PartsOfName(name);
    ReduceConcat(Parts(p), [name], true, []);
    assert IsAbs(p + "/" + name);
    if p == "" {
      ReduceRootedPath([]);
      assert Parts("") == [""] && cs == [];
    }
    if cs != [] {
      assert Plain(cs[|cs| - 1]);
    }
    assert [name][1..] == [];
  }

  /** A name and the `..` after it cancel, and what follows goes on from the directory before. */
  lemma DotDotGoesUp(ds: seq<string>, c: string, es: seq<string>)
    requires AllPlain(ds) && Plain(c) && AllPlain(es) && es != []
    ensures Clean(PathOf(ds + [c]) + "/../" + Names(es)) == PathOf(ds + es)
  {
    var cs, rel := ds + [c], Names(es);
    var p := PathOf(cs);
    NamesAreParts(es);
    ReduceRootedPath(cs);
    PathIsAbs(cs);
    hide Clean, Reduce, Parts, Plain, PathOf, Slashed;
    Upwards(p, cs, rel, es);
    assert cs[..|cs| - 1] == ds;
    assert p + "/../" + rel == p + "/" + (".." + "/" + rel);
  }

  /** At the root `..` leads nowhere. */
  lemma RootHasNoParent(es: seq<string>)
    requires AllPlain(es) && es != []
    ensures Clean("/../" + Names(es)) == PathOf(es)
  {
    NamesAreParts(es);
    assert Reduce(Parts(""), true, []) == [];
    hide Clean, Reduce, Parts, Plain, PathOf, Slashed;
    Upwards("", [], Names(es), es);
    assert "/../" + Names(es) == "" + "/" + (".." + "/" + Names(es));
    assert [] + es == es;
  }

  lemma NamesAreParts(es: seq<string>)
    requires AllPlain(es) && es != []
    ensures Parts(Names(es)) == es
  {
    PartsOfSlashed(es);
    PartsCons('/', Names(es));
    assert ([""] + Parts(Names(es)))[1..] == Parts(Names(es)) && ([""] + es)[1..] == es;
  }

  /** From the directory of the names cs up and then down along es. */
  lemma Upwards(p: string, cs: seq<string>, rel: string, es: seq<string>)
    requires (IsAbs(p) || p == "") && AllPlain(cs) && Reduce(Parts(p), true, []) == cs
    requires AllPlain(es) && Parts(rel) == es
    ensures Clean(p + "/" + (".." + "/" + rel)) == PathOf((if cs == [] then [] else cs[..|cs| - 1]) + es)
  {
    PartsConcat(p, ".." + "/" + rel);
    PartsConcat("..", rel);
    PartsOfName("..");
    assert Parts(".." + "/" + rel) == [".."] + es;
    ReduceConcat(Parts(p), [".."] + es, true, []);
    if cs != [] {
      assert Plain(cs[|cs| - 1]);
    }
    var up := if cs == [] then [] else cs[..|cs| - 1];
    assert ([".."] + es)[1..] == es;
    ReducePlain(es, true, up);
    assert IsAbs(p + "/" + (".." + "/" + rel));
  }
}
