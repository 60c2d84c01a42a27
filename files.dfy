/** The journal directory: the files the journal reads and writes, by path.
    A file exists when its path is a key; reads and writes take and give the
    whole content, as `os.ReadFile` and `os.WriteFile` do. Permissions, other
    I/O failures and directory creation are not modelled. */
module Files {
  import opened Results
  import opened Text

  class Directory {
    var files: map<string, string>

    constructor (initial: map<string, string>)
      ensures files == initial
    {
      files := initial;
    }

    /** `os.ReadFile`: None when the file does not exist. */
    method ReadFile(path: string) returns (content: Option<string>)
      ensures content == Content(files, path)
    {
      content := if path in files then Some(files[path]) else None;
    }

    /** `os.WriteFile`: creates or replaces the file. */
    method WriteFile(path: string, content: string)
      modifies this
      ensures files == old(files)[path := content]
    {
      files := files[path := content];
    }
  }

  /** What reading `path` finds in `files`: its content, or None when it does not exist. */
  function Content(files: map<string, string>, path: string): Option<string> {
    if path in files then Some(files[path]) else None
  }

  /** The text of the error `os.ReadFile` returns for a missing file. */
  function NotFound(path: string): string {
    "open " + path + ": no such file or directory"
  }

  /** `filepath.IsAbs` on Unix. */
  predicate IsAbs(path: string) {
    HasPrefix(path, "/")
  }

  /** `filepath.Join(dir, name)`: one separator between the two, and none
      added after a directory that already ends with one. */
  function PathJoin(dir: string, name: string): string {
    if dir == "" then name
    else if dir[|dir| - 1] == '/' then dir + name
    else dir + "/" + name
  }

  /** Index just past the last '/' of `s`, or 0. */
  function AfterLastSlash(s: string): (k: nat)
    ensures k <= |s| && '/' !in s[k..]
    ensures k > 0 ==> s[k - 1] == '/'
  {
    if s == [] then 0
    else if s[|s| - 1] == '/' then |s|
    else AfterLastSlash(s[..|s| - 1])
  }

  /** `filepath.Base` for paths that do not end in a separator. */
  function Base(path: string): string {
    if path == "" then "." else path[AfterLastSlash(path)..]
  }

  /** Text without separators after the last separator does not move it. */
  lemma {:induction false} AfterLastSlashAppend(a: string, b: string)
    requires '/' !in b
    ensures AfterLastSlash(a + b) == AfterLastSlash(a)
    decreases |b|
  {
    if b != [] {
      assert (a + b)[..|a + b| - 1] == a + b[..|b| - 1];
      assert b[|b| - 1] in b;
      AfterLastSlashAppend(a, b[..|b| - 1]);
    } else {
      assert a + b == a;
    }
  }

  /** The base name of a joined path is the file name, when that name has no separator. */
  lemma BaseOfJoin(dir: string, name: string)
    requires name != "" && '/' !in name
    ensures Base(PathJoin(dir, name)) == name
  {
    if dir == "" {
      AfterLastSlashAppend("", name);
      assert "" + name == name;
    } else if dir[|dir| - 1] == '/' {
      AfterLastSlashAppend(dir, name);
    } else {
      AfterLastSlashAppend(dir + "/", name);
      assert PathJoin(dir, name) == (dir + "/") + name;
    }
  }
}
