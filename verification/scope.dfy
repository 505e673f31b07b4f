/** The process's working directory and `temporarily_cd_to`, the context
    manager that changes it for the duration of a `with` block and restores
    it on the way out, whether the block finished or raised. */
module Scope {
  import opened Outcomes

  class Process {
    /** `os.getcwd()`. */
    var cwd: string
    /** The working directories recorded by the `temporarily_cd_to` blocks
        that are currently open, innermost last. */
    var saved: seq<string>
    /** The directories `os.chdir` can enter. */
    const dirs: set<string>

    constructor (cwd: string, dirs: set<string>)
      ensures this.cwd == cwd && this.saved == [] && this.dirs == dirs
    {
      this.cwd := cwd;
      this.saved := [];
      this.dirs := dirs;
    }

    /** `os.chdir(d)`. */
    method Chdir(d: string) returns (err: Option<Error>)
      modifies this`cwd
      ensures d in dirs ==> err == None && cwd == d
      ensures d !in dirs ==> err == Some(CannotChdir(d)) && cwd == old(cwd)
    {
      if d in dirs {
        cwd := d;
        err := None;
      } else {
        err := Some(CannotChdir(d));
      }
    }

    /** Entering `with temporarily_cd_to(d)`: the current directory is
        recorded, then changed. When the change fails nothing is recorded and
        the block never runs. */
    method EnterScope(d: string) returns (err: Option<Error>)
      modifies this
      ensures d in dirs ==> err == None && cwd == d && saved == old(saved) + [old(cwd)]
      ensures d !in dirs ==> err == Some(CannotChdir(d)) && cwd == old(cwd) && saved == old(saved)
    {
      var original := cwd;
      err := Chdir(d);
      if err == None {
        saved := saved + [original];
      }
    }

    /** Leaving the block, normally or by an exception: the recorded
        directory is entered again. */
    method ExitScope()
      requires saved != []
      modifies this
      ensures cwd == old(saved[|saved| - 1])
      ensures saved == old(saved[..|saved| - 1])
    {
      cwd := saved[|saved| - 1];
      saved := saved[..|saved| - 1];
    }

    /** A whole `with temporarily_cd_to(d):` block. Its body changes
        directory to each of `body` in turn, stopping at the first change that
        fails, and then raises `bodyError` if that is present. Whatever the
        body does, the block leaves the working directory as it found it. */
    method TemporarilyCdTo(d: string, body: seq<string>, bodyError: Option<Error>) returns (err: Option<Error>)
      modifies this
      ensures cwd == old(cwd) && saved == old(saved)
      ensures d !in dirs ==> err == Some(CannotChdir(d))
      ensures d in dirs && (forall i :: 0 <= i < |body| ==> body[i] in dirs) ==> err == bodyError
      ensures d in dirs && (exists i :: 0 <= i < |body| && body[i] !in dirs) ==>
        exists i :: 0 <= i < |body| && body[i] !in dirs && err == Some(CannotChdir(body[i]))
          && forall j :: 0 <= j < i ==> body[j] in dirs
    {
      err := EnterScope(d);
      if err.Some? {
        return;
      }
      var i := 0;
      while i < |body| && err.None?
        invariant 0 <= i <= |body|
        invariant saved == old(saved) + [old(cwd)]
        invariant err.None? ==> forall j :: 0 <= j < i ==> body[j] in dirs
        invariant err.Some? ==> forall j :: 0 <= j < i - 1 ==> body[j] in dirs
        invariant err.Some? ==> 0 < i && body[i - 1] !in dirs && err == Some(CannotChdir(body[i - 1]))
        decreases |body| - i
      {
        err := Chdir(body[i]);
        i := i + 1;
      }
      if err.None? {
        err := bodyError;
      }
      ExitScope();
    }
  }
}
