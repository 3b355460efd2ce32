/** The injected effects: the command runner (an oracle that answers each invocation and
    records it) and the promise-based file system (directories, files, and paths on which
    every operation is denied). Paths are plain strings joined with `/`. */
module Effects {
  import opened Wrappers
  import opened Errors

  // ---------------------------------------------------------------- paths

  /** `path.join(a, b)` for a root and one path segment. */
  function Join(a: string, b: string): (r: string)
    ensures |r| == |a| + 1 + |b| && r[|a|] == '/'
  {
    a + "/" + b
  }

  /** The position of the last `/`, if any. */
  function LastSlash(p: string): (r: Option<nat>)
    ensures r.Some? ==> r.value < |p| && p[r.value] == '/' && forall j :: r.value < j < |p| ==> p[j] != '/'
    ensures r.None? ==> forall j :: 0 <= j < |p| ==> p[j] != '/'
  {
    if p == [] then None
    else if p[|p| - 1] == '/' then Some(|p| - 1)
    else LastSlash(p[..|p| - 1])
  }

  /** `path.dirname` for a path without a trailing `/`. */
  function Dirname(p: string): (r: string)
    ensures LastSlash(p).Some? && LastSlash(p).value > 0 ==> r == p[..LastSlash(p).value]
    ensures LastSlash(p) == Some(0) ==> r == "/"
    ensures LastSlash(p).None? ==> r == "."
  {
    var i := LastSlash(p);
    if i.None? then "." else if i.value == 0 then "/" else p[..i.value]
  }

  /** The parent of `root/segment` is `root`. */
  lemma DirnameOfJoin(root: string, segment: string)
    requires root != [] && forall j :: 0 <= j < |segment| ==> segment[j] != '/'
    ensures Dirname(Join(root, segment)) == root
  {
    var p := Join(root, segment);
    assert forall j :: |root| < j < |p| ==> p[j] == segment[j - |root| - 1];
    var i := LastSlash(p);
    assert i.Some? by { assert p[|root|] == '/'; }
    assert i.value == |root|;
    assert p[..|root|] == root;
  }

  /** The proper ancestors that `mkdir -p` creates for an absolute or relative path. */
  function Ancestors(p: string): (r: set<string>)
    ensures forall a :: a in r ==> |a| < |p| && a == p[..|a|] && |a| > 0 && p[|a|] == '/'
  {
    set i | 0 < i < |p| && p[i] == '/' :: p[..i]
  }

  // ---------------------------------------------------------------- the command runner

  /** One call `commandRunner(command, args, options)`: `cwd` and the `COMPOSE_PROJECT_NAME`
      entry of `options.env` are the only options the core passes. */
  datatype Invocation = Invocation(command: string, args: seq<string>, cwd: Option<string>, projectName: Option<string>)

  function Plain(command: string, args: seq<string>): Invocation {
    Invocation(command, args, None, None)
  }

  /** What a runner call settles to: the `stdout` it resolves with, or the error it rejects with. */
  type Reply = Result<string, AppError>

  class CommandRunner {
    /** The outcome of each invocation; the runner's answers do not depend on earlier calls. */
    const respond: Invocation -> Reply
    /** Every invocation so far, in order. */
    var calls: seq<Invocation>

    constructor(respond: Invocation -> Reply)
      ensures this.respond == respond && calls == []
    {
      this.respond := respond;
      calls := [];
    }

    method Run(invocation: Invocation) returns (reply: Reply)
      modifies this
      ensures reply == respond(invocation)
      ensures calls == old(calls) + [invocation]
    {
      reply := respond(invocation);
      calls := calls + [invocation];
    }
  }

  // ---------------------------------------------------------------- the file system

  function Fail(code: string, path: string): Result<(), AppError> {
    Err(SystemError(code, path))
  }

  class FileSystem {
    var dirs: set<string>
    var files: map<string, string>
    /** Paths on which every operation fails with `EACCES`. */
    const denied: set<string>

    constructor(dirs: set<string>, files: map<string, string>, denied: set<string>)
      ensures this.dirs == dirs && this.files == files && this.denied == denied
    {
      this.dirs := dirs;
      this.files := files;
      this.denied := denied;
    }

    predicate Exists(path: string)
      reads this
    {
      path in dirs || path in files
    }

    /** The entries directly inside a directory. */
    function Children(path: string): (r: set<string>)
      reads this
      ensures forall c :: c in r <==> (c in dirs || c in files) && c != path && Dirname(c) == path
    {
      set c | c in dirs + files.Keys && c != path && Dirname(c) == path
    }

    /** Whether `mkdir -p` of the path succeeds: it is not denied, and neither it nor any of
        its ancestors is a file. */
    predicate MkdirSucceeds(path: string)
      reads this
    {
      path !in denied && path !in files && forall a :: a in Ancestors(path) ==> a !in files
    }

    /** `fs.access`. */
    method Access(path: string) returns (r: Result<(), AppError>)
      ensures path in denied ==> r == Fail("EACCES", path)
      ensures path !in denied ==> r == (if Exists(path) then Ok(()) else Fail("ENOENT", path))
    {
      if path in denied {
        return Fail("EACCES", path);
      }
      r := if Exists(path) then Ok(()) else Fail("ENOENT", path);
    }

    /** `fs.readdir`: the directory's entries. */
    method Readdir(path: string) returns (r: Result<set<string>, AppError>)
      ensures path in denied ==> r == Err(SystemError("EACCES", path))
      ensures path !in denied && path in files ==> r == Err(SystemError("ENOTDIR", path))
      ensures path !in denied && path !in files && path !in dirs ==> r == Err(SystemError("ENOENT", path))
      ensures path !in denied && path !in files && path in dirs ==> r == Ok(Children(path))
    {
      if path in denied {
        return Err(SystemError("EACCES", path));
      }
      if path in files {
        return Err(SystemError("ENOTDIR", path));
      }
      if path !in dirs {
        return Err(SystemError("ENOENT", path));
      }
      r := Ok(Children(path));
    }

    /** `fs.mkdir(path, { recursive: true })`: creates the directory and its missing ancestors;
        an existing directory is not an error. */
    method Mkdir(path: string) returns (r: Result<(), AppError>)
      modifies this
      ensures files == old(files)
      ensures path in denied ==> r == Fail("EACCES", path) && dirs == old(dirs)
      ensures path !in denied && path in files ==> r == Fail("EEXIST", path) && dirs == old(dirs)
      ensures (path !in denied && path !in files && exists a :: a in Ancestors(path) && a in files)
                ==> r == Fail("ENOTDIR", path) && dirs == old(dirs)
      ensures r.Ok? <==> old(MkdirSucceeds(path))
      ensures r.Err? ==> dirs == old(dirs)
      ensures r.Ok? ==> dirs == old(dirs) + {path} + Ancestors(path)
    {
      if path in denied {
        return Fail("EACCES", path);
      }
      if path in files {
        return Fail("EEXIST", path);
      }
      var ancestors := Ancestors(path);
      if exists a :: a in ancestors && a in files {
        return Fail("ENOTDIR", path);
      }
      dirs := dirs + {path} + ancestors;
      r := Ok(());
    }

    /** `fs.writeFile`: creates or replaces a file in an existing directory. */
    method WriteFile(path: string, content: string) returns (r: Result<(), AppError>)
      modifies this
      ensures dirs == old(dirs)
      ensures path in denied ==> r == Fail("EACCES", path)
      ensures path !in denied && path in dirs ==> r == Fail("EISDIR", path)
      ensures path !in denied && path !in dirs && Dirname(path) in files ==> r == Fail("ENOTDIR", path)
      ensures path !in denied && path !in dirs && Dirname(path) !in files && Dirname(path) !in dirs ==> r == Fail("ENOENT", path)
      ensures r.Ok? <==> path !in denied && path !in dirs && Dirname(path) !in files && Dirname(path) in dirs
      ensures r.Ok? ==> files == old(files)[path := content]
      ensures r.Err? ==> files == old(files)
    {
      if path in denied {
        return Fail("EACCES", path);
      }
      if path in dirs {
        return Fail("EISDIR", path);
      }
      if Dirname(path) in files {
        return Fail("ENOTDIR", path);
      }
      if Dirname(path) !in dirs {
        return Fail("ENOENT", path);
      }
      files := files[path := content];
      r := Ok(());
    }

    /** The directory a successful `git clone` leaves behind (its contents are not modelled). */
    method CloneInto(path: string)
      modifies this
      ensures dirs == old(dirs) + {path} && files == old(files)
    {
      dirs := dirs + {path};
    }
  }
}
