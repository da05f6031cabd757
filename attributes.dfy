/**
 * The kernel attribute files the drivers read and write, as a map from path to text.
 * `fs::read_to_string`, `fs::write` and `Path::exists` are the only ways the core touches it.
 */
module Attributes {
  import StdIo

  const NoSuchFile := StdIo.Error(StdIo.NotFound, "No such file or directory (os error 2)")
  const AccessDenied := StdIo.Error(StdIo.PermissionDenied, "Permission denied (os error 13)")

  /** `fs::read_to_string`: the text of an existing file; a missing path is a `NotFound` I/O error. */
  function Read(files: map<string, string>, path: string): (r: StdIo.Result<string>)
    ensures r.Ok? <==> path in files
    ensures r.Ok? ==> r.value == files[path]
    ensures r.Err? ==> r.error.kind == StdIo.NotFound
  {
    if path in files then StdIo.Ok(files[path]) else StdIo.Err(NoSuchFile)
  }

  /**
   * Whether `fs::write` succeeds: only paths the process may write accept it. A refused
   * write reports `PermissionDenied` for a file that exists and `NotFound` for one that does not.
   */
  function WriteStatus(files: map<string, string>, writable: set<string>, path: string): (r: StdIo.Result<()>)
    ensures r.Ok? <==> path in writable
    ensures r.Err? ==> (r.error.kind == StdIo.PermissionDenied <==> path in files)
  {
    if path in writable then StdIo.Ok(())
    else if path in files then StdIo.Err(AccessDenied)
    else StdIo.Err(NoSuchFile)
  }

  /** `f1` and `f2` hold the same files, except possibly the one at `path`. */
  ghost predicate AgreeExcept(f1: map<string, string>, f2: map<string, string>, path: string) {
    forall p | p != path :: (p in f1 <==> p in f2) && (p in f1 ==> f1[p] == f2[p])
  }

  /** The files after `fs::write`: a successful write replaces that one entry; a refused one changes nothing. */
  function Written(files: map<string, string>, writable: set<string>, path: string, contents: string)
    : (r: map<string, string>)
    ensures path in writable ==> path in r && r[path] == contents
    ensures path !in writable ==> r == files
    ensures AgreeExcept(r, files, path)
  {
    if path in writable then files[path := contents] else files
  }

  /**
   * Reading after writing: a successful write is what the next read of that path sees,
   * a refused one leaves every read as it was, and reads of other paths never change.
   */
  lemma {:induction false} ReadAfterWrite(files: map<string, string>, writable: set<string>,
                                          path: string, contents: string, other: string)
    ensures var after := Written(files, writable, path, contents);
            && (WriteStatus(files, writable, path).Ok? ==> Read(after, path) == StdIo.Ok(contents))
            && (WriteStatus(files, writable, path).Err? ==> Read(after, path) == Read(files, path))
            && (other != path ==> Read(after, other) == Read(files, other))
  {
  }

  /** The attribute files as the running system sees them. */
  class FileSystem {
    var files: map<string, string>
    const writable: set<string>

    constructor (files: map<string, string>, writable: set<string>)
      ensures this.files == files && this.writable == writable
    {
      this.files := files;
      this.writable := writable;
    }

    /** `Path::exists`. */
    predicate Exists(path: string)
      reads this
    {
      path in files
    }

    method ReadToString(path: string) returns (r: StdIo.Result<string>)
      ensures r == Read(files, path)
    {
      if path in files {
        r := StdIo.Ok(files[path]);
      } else {
        r := StdIo.Err(NoSuchFile);
      }
    }

    method Write(path: string, contents: string) returns (r: StdIo.Result<()>)
      modifies this
      ensures r == WriteStatus(old(files), writable, path)
      ensures files == Written(old(files), writable, path, contents)
    {
      if path in writable {
        files := files[path := contents];
        r := StdIo.Ok(());
      } else if path in files {
        r := StdIo.Err(AccessDenied);
      } else {
        r := StdIo.Err(NoSuchFile);
      }
    }
  }
}
