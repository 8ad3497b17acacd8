/** The path validation pipeline (internal/pathguard) over an abstract realpath. */
module PathGuard {
  import opened Wrappers
  import opened Paths

  datatype PathError = ENulByte | EWindowsPath | ERelative | ENotExist | EParentMissing | EOutside

  /** What resolving every symbolic link of a path gives. */
  datatype Resolved = Real(path: string) | NoEntry | Broken

  /** A realpath only ever returns clean absolute paths. */
  ghost predicate Resolves(realpath: string -> Resolved) {
    forall p :: realpath(p).Real? ==> CleanAbs(realpath(p).path)
  }

  predicate Letter(c: char) {
    'a' <= c <= 'z' || 'A' <= c <= 'Z'
  }

  predicate DriveShaped(p: string) {
    |p| >= 3 && Letter(p[0]) && p[1] == ':' && (p[2] == '/' || p[2] == '\\')
  }

  predicate Allowed(dirs: seq<string>, path: string) {
    exists i :: 0 <= i < |dirs| && Within(dirs[i], path)
  }

  /** Where the checks that look at the text alone send a path. */
  function Lexical(raw: string, expand: string -> string): (r: Result<string, PathError>)
    ensures r.Ok? ==> '/' in r.value
  {
    var p := expand(raw);
    CleanHasSlash(p);
    if '\0' in raw then Err(ENulByte)
    else if DriveShaped(p) then Err(EWindowsPath)
    else if !IsAbs(p) then Err(ERelative)
    else Ok(Clean(p))
  }

  /** An existing path is its realpath; a missing one is its parent's realpath and its last name, one level only. */
  function Placed(p: string, realpath: string -> Resolved): Result<(string, string), PathError>
    requires '/' in p
  {
    match realpath(p)
    case Real(r) => Ok((r, r))
    case Broken => Err(ENotExist)
    case NoEntry =>
      match realpath(Dir(p))
      case Real(r) => Ok((r, JoinPath(r, BaseName(p))))
      case _ => Err(EParentMissing)
  }

  /** What a path is taken to be, once the directory that vouches for it is an allowed one. */
  function Validated(dirs: seq<string>, raw: string, expand: string -> string, realpath: string -> Resolved): Result<string, PathError> {
    var lexical := Lexical(raw, expand);
    if lexical.Err? then Err(lexical.error) else
    var placed := Placed(lexical.value, realpath);
    if placed.Err? then Err(placed.error)
    else if Allowed(dirs, placed.value.0) then Ok(placed.value.1) else Err(EOutside)
  }

  class Guard {
    const dirs: seq<string>

    /** Distinct, and exactly the directories asked for. */
    ghost predicate Of(entries: seq<Option<string>>) {
      && (forall i, j :: 0 <= i < j < |dirs| ==> dirs[i] != dirs[j])
      && (forall d :: d in dirs <==> Some(d) in entries)
    }

    constructor (dirs: seq<string>)
      ensures this.dirs == dirs
    {
      this.dirs := dirs;
    }

    method AnyWithin(path: string) returns (ok: bool)
      ensures ok <==> Allowed(dirs, path)
    {
      for i := 0 to |dirs|
        invariant forall j :: 0 <= j < i ==> !Within(dirs[j], path)
      {
        if Within(dirs[i], path) { return true; }
      }
      return false;
    }

    /** The pipeline, step by step; the first failure answers. */
    method Validate(raw: string, expand: string -> string, realpath: string -> Resolved) returns (r: Result<string, PathError>)
      ensures r == Validated(dirs, raw, expand, realpath)
    {
      if '\0' in raw { return Err(ENulByte); }
      var p := expand(raw);
      if DriveShaped(p) { return Err(EWindowsPath); }
      if !IsAbs(p) { return Err(ERelative); }
      CleanHasSlash(p);
      p := Clean(p);
      var info := realpath(p);
      match info {
        case NoEntry =>
          r := ValidateNewPath(p, realpath);
        case Broken =>
          return Err(ENotExist);
        case Real(path) =>
          var ok := AnyWithin(path);
          if !ok { return Err(EOutside); }
          return Ok(path);
      }
    }

    /**
     A missing file: its parent is resolved and checked in its stead. What is answered lies inside an allowed directory,
     is an entry of the resolved parent, and keeps the name asked for.
     */
    method ValidateNewPath(p: string, realpath: string -> Resolved) returns (r: Result<string, PathError>)
      requires '/' in p
      ensures r == match realpath(Dir(p))
        case Real(parent) => if Allowed(dirs, parent) then Ok(JoinPath(parent, BaseName(p))) else Err(EOutside)
        case _ => Err(EParentMissing)
      ensures Resolves(realpath) && CleanAbs(p) && CleanDirs(dirs) && r.Ok?
        ==> CleanAbs(r.value) && Allowed(dirs, r.value) && (p != "/" ==> NamedIn(r.value, realpath(Dir(p)).path, BaseName(p)))
    {
      var info := realpath(Dir(p));
      if !info.Real? { return Err(EParentMissing); }
      var ok := AnyWithin(info.path);
      if !ok { return Err(EOutside); }
      NewNameIsInside(dirs, info.path, p);
      return Ok(JoinPath(info.path, BaseName(p)));
    }
  }

  /** The directory `dir` has an entry `name`, and this is its path. */
  predicate NamedIn(path: string, dir: string, name: string) {
    '/' in path && Dir(path) == dir && BaseName(path) == name
  }

  ghost predicate CleanDirs(dirs: seq<string>) {
    forall i :: 0 <= i < |dirs| ==> CleanAbs(dirs[i])
  }

  lemma CleanHasSlash(p: string)
    ensures IsAbs(p) ==> '/' in Clean(p)
  {
    if IsAbs(p) {
      var cs := CleanIsClean(p);
      DirAndBase(cs);
    }
  }

  /** Canonicalizes the allowed directories; an entry that does not resolve to a directory is an error, a repeat is dropped. */
  method New(entries: seq<Option<string>>) returns (g: Option<Guard>)
    ensures g.None? <==> entries == [] || None in entries
    ensures g.Some? ==> g.value.Of(entries)
  {
    if entries == [] { return None; }
    var seen: set<string> := {};
    var dirs: seq<string> := [];
    for i := 0 to |entries|
      invariant None !in entries[..i]
      invariant forall d :: d in seen <==> d in dirs
      invariant forall d :: d in dirs <==> Some(d) in entries[..i]
      invariant forall j, k :: 0 <= j < k < |dirs| ==> dirs[j] != dirs[k]
    {
      assert entries[..i + 1] == entries[..i] + [entries[i]];
      if entries[i].None? { return None; }
      var dir := entries[i].value;
      if dir !in seen {
        seen := seen + {dir};
        dirs := dirs + [dir];
      }
    }
    assert entries[..|entries|] == entries;
    var guard := new Guard(dirs);
    return Some(guard);
  }

  /**
   What the guard lets through: a clean absolute path inside an allowed directory, whatever spelling came in. For a
   missing file that holds because its parent resolved inside and one plain name is appended.
   */
  lemma ValidatedIsInside(dirs: seq<string>, raw: string, expand: string -> string, realpath: string -> Resolved)
    requires Resolves(realpath) && CleanDirs(dirs)
    ensures var r := Validated(dirs, raw, expand, realpath); r.Ok? ==> CleanAbs(r.value) && Allowed(dirs, r.value)
  {
    if Lexical(raw, expand).Ok? {
      var cs := CleanIsClean(expand(raw));
      hide Clean, JoinPath, BaseName, Dir, Plain, Within, DriveShaped;
      var p := PathOf(cs);
      DirAndBase(cs);
      if realpath(p).NoEntry? && realpath(Dir(p)).Real? {
        assert CleanAbs(p);
        NewNameIsInside(dirs, realpath(Dir(p)).path, p);
      }
    }
  }

  /** A path the guard has answered is answered again as itself, as long as it still resolves to itself. */
  lemma ValidatedIsStable(dirs: seq<string>, raw: string, expand: string -> string, realpath: string -> Resolved)
    requires Resolves(realpath) && CleanDirs(dirs)
    requires Validated(dirs, raw, expand, realpath).Ok?
    requires var path := Validated(dirs, raw, expand, realpath).value;
      '\0' !in path && expand(path) == path && realpath(path) == Real(path)
    ensures var r := Validated(dirs, raw, expand, realpath); Validated(dirs, r.value, expand, realpath) == r
  {
    ValidatedIsInside(dirs, raw, expand, realpath);
    var path := Validated(dirs, raw, expand, realpath).value;
    var cs :| AllPlain(cs) && path == PathOf(cs);
    PathIsAbs(cs);
    ReduceRootedPath(cs);
    hide Validated, Clean, PathOf, Allowed;
    AnswersItself(dirs, path, expand, realpath);
  }

  lemma AnswersItself(dirs: seq<string>, path: string, expand: string -> string, realpath: string -> Resolved)
    requires '\0' !in path && expand(path) == path && realpath(path) == Real(path)
    requires IsAbs(path) && Clean(path) == path && Allowed(dirs, path)
    ensures Validated(dirs, path, expand, realpath) == Ok(path)
  {
    hide Clean, Allowed;
  }

  /** A spelling the guard looks up at all: no NUL byte, and absolute once expanded. */
  predicate Legal(raw: string, expand: string -> string) {
    '\0' !in raw && "/" <= expand(raw)
  }

  /**
   The whole table of answers. `cs` are the names the spelling walks to (Paths.CleanWalks); what is resolved is their
   path, and, for a missing entry, its parent's.
   */
  lemma ValidationIsExact(dirs: seq<string>, raw: string, expand: string -> string, realpath: string -> Resolved)
    returns (cs: seq<string>)
    requires Resolves(realpath)
    ensures Legal(raw, expand) ==> AllPlain(cs) && Clean(expand(raw)) == PathOf(cs)
    ensures var r, p := Validated(dirs, raw, expand, realpath), expand(raw);
      var found, parent := realpath(PathOf(cs)), realpath(PathOf(if cs == [] then [] else cs[..|cs| - 1]));
      var voucher := if found.NoEntry? then parent else found;
      && (r == Err(ENulByte) <==> '\0' in raw)
      && (r == Err(EWindowsPath) <==>
            '\0' !in raw && |p| >= 3 && Letter(p[0]) && p[1] == ':' && (p[2] == '/' || p[2] == '\\'))
      && (r == Err(ERelative) <==> '\0' !in raw && !DriveShaped(p) && !("/" <= p))
      && (r == Err(ENotExist) <==> Legal(raw, expand) && found.Broken?)
      && (r == Err(EParentMissing) <==> Legal(raw, expand) && found.NoEntry? && !parent.Real?)
      && (r == Err(EOutside) <==> Legal(raw, expand) && voucher.Real? && !Allowed(dirs, voucher.path))
      && (r.Ok? <==> Legal(raw, expand) && voucher.Real? && Allowed(dirs, voucher.path))
      && (r.Ok? && found.Real? ==> r.value == found.path)
      && (r.Ok? && found.NoEntry? && cs != [] ==> NamedIn(r.value, parent.path, cs[|cs| - 1]))
  {
    cs := [];
    if Legal(raw, expand) {
      cs := CleanIsClean(expand(raw));
      PlacedIsExact(cs, realpath);
    }
    hide Placed, Clean, PathOf, Allowed, NamedIn, Plain;
  }

  lemma PlacedIsExact(cs: seq<string>, realpath: string -> Resolved)
    requires Resolves(realpath) && AllPlain(cs)
    ensures '/' in PathOf(cs)
    ensures var placed, found := Placed(PathOf(cs), realpath), realpath(PathOf(cs));
      var parent := realpath(PathOf(if cs == [] then [] else cs[..|cs| - 1]));
      match found
      case Real(path) => placed == Ok((path, path))
      case Broken => placed == Err(ENotExist)
      case NoEntry =>
        if !parent.Real? then placed == Err(EParentMissing)
        else placed.Ok? && placed.value.0 == parent.path && (cs != [] ==> NamedIn(placed.value.1, parent.path, cs[|cs| - 1]))
  {
    DirAndBase(cs);
    assert CleanAbs(PathOf(cs));
    if cs != [] {
      NotTheRoot(cs);
      var parent := realpath(PathOf(cs[..|cs| - 1]));
      if parent.Real? {
        NewNameIsInside([], parent.path, PathOf(cs));
      }
    }
    hide JoinPath, NamedIn, Plain, Allowed;
  }

  lemma NotTheRoot(cs: seq<string>)
    requires AllPlain(cs) && cs != []
    ensures PathOf(cs) != "/"
  {
    assert Plain(cs[0]) && |Slashed(cs)| > 1;
  }

  /** So a `..` in a spelling is gone before anything is resolved: what is looked up is the path without it. */
  lemma DotDotIsLexical(dirs: seq<string>, raw: string, plain: string, expand: string -> string, realpath: string -> Resolved,
                        ds: seq<string>, c: string, es: seq<string>)
    requires AllPlain(ds) && Plain(c) && AllPlain(es) && es != [] && '\0' !in raw && '\0' !in plain
    requires expand(raw) == PathOf(ds + [c]) + "/../" + Names(es) && expand(plain) == PathOf(ds + es)
    ensures Validated(dirs, raw, expand, realpath) == Validated(dirs, plain, expand, realpath)
  {
    DotDotGoesUp(ds, c, es);
    ReduceRootedPath(ds + es);
    PathIsAbs(ds + [c]);
    PathIsAbs(ds + es);
    assert IsAbs(expand(raw)) && IsAbs(expand(plain));
    hide Placed, Allowed, Clean, PathOf;
  }

  /** Appending the last name of a clean path to a clean parent stays inside whatever holds the parent. */
  lemma NewNameIsInside(dirs: seq<string>, parent: string, p: string)
    ensures CleanAbs(p) ==> '/' in p
    ensures CleanAbs(parent) && CleanAbs(p) && CleanDirs(dirs) ==>
      var joined := JoinPath(parent, BaseName(p));
      && CleanAbs(joined) && (Allowed(dirs, parent) ==> Allowed(dirs, joined))
      && (p != "/" ==> NamedIn(joined, parent, BaseName(p)))
  {
    if cs :| AllPlain(cs) && p == PathOf(cs) {
      DirAndBase(cs);
      if CleanAbs(parent) && CleanDirs(dirs) {
        var ps :| AllPlain(ps) && parent == PathOf(ps);
        if cs == [] {
          JoinRoot(ps);
        } else {
          ChildPath(dirs, ps, cs[|cs| - 1]);
        }
      }
    }
  }

  lemma ChildPath(dirs: seq<string>, ps: seq<string>, name: string)
    requires AllPlain(ps) && Plain(name) && CleanDirs(dirs)
    ensures var joined := JoinPath(PathOf(ps), name);
      && CleanAbs(joined) && (Allowed(dirs, PathOf(ps)) ==> Allowed(dirs, joined))
      && NamedIn(joined, PathOf(ps), name)
  {
    assert Slashed([name]) == "/" + name;
    JoinAppends(ps, [name]);
    assert AllPlain(ps + [name]);
    ChildIsAllowed(dirs, ps, name);
    ParentAndName(ps, name);
  }

  lemma JoinRoot(ps: seq<string>)
    requires AllPlain(ps)
    ensures JoinPath(PathOf(ps), "/") == PathOf(ps)
  {
    PartsConcat(PathOf(ps), "/");
    assert Parts("/") == ["", ""] && ["", ""][1..] == [""];
    ReduceConcat(Parts(PathOf(ps)), ["", ""], true, []);
    ReduceRootedPath(ps);
  }

  lemma ChildIsAllowed(dirs: seq<string>, ps: seq<string>, name: string)
    requires AllPlain(ps) && AllPlain(ps + [name]) && CleanDirs(dirs)
    ensures Allowed(dirs, PathOf(ps)) ==> Allowed(dirs, PathOf(ps + [name]))
  {
    if Allowed(dirs, PathOf(ps)) {
      var i :| 0 <= i < |dirs| && Within(dirs[i], PathOf(ps));
      var ds :| AllPlain(ds) && dirs[i] == PathOf(ds);
      WithinIsPrefix(ds, ps);
      WithinIsPrefix(ds, ps + [name]);
      assert (ps + [name])[..|ds|] == ps[..|ds|];
    }
  }
}
