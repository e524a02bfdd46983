/** The filesystem as the tailer and the rotator see it: a map from path text
    to entries, `pathlib`-style path arithmetic, and the primitive steps the
    rotator takes (`mkdir`, `shutil.move`, `touch`, opening a file for
    writing, `os.remove`). Every step that can fail takes an injected fault,
    standing for the permission, quota and I/O errors the real system may
    raise; failures that follow from the state itself (a missing source, a
    directory where a file is expected) are decided by the state. */
module FileSystems {
  import opened Wrappers

  type Bytes = seq<char>

  /** A regular file (contents and modification time) or a directory. */
  datatype Entry = File(data: Bytes, mtime: int) | Dir(mtime: int)

  type Entries = map<string, Entry>

  /** `Path(p).exists() and Path(p).is_file()`. */
  predicate IsFile(m: Entries, p: string) {
    p in m && m[p].File?
  }

  predicate IsDir(m: Entries, p: string) {
    p in m && m[p].Dir?
  }

  // ---------------------------------------------------------------- paths

  /** Index of the last '/' in `p`, or -1. */
  function LastSlash(p: string): (i: int)
    ensures -1 <= i < |p|
    ensures i >= 0 ==> p[i] == '/'
    ensures forall j :: i < j < |p| ==> p[j] != '/'
  {
    if p == [] then -1 else if p[|p| - 1] == '/' then |p| - 1 else LastSlash(p[..|p| - 1])
  }

  /** `str(Path(p).parent)`, with "" standing for the current directory ".". */
  function Parent(p: string): string {
    var i := LastSlash(p);
    if i < 0 then "" else if i == 0 then "/" else p[..i]
  }

  /** `Path(p).name`: the last path component. */
  function Name(p: string): (n: string)
    ensures forall j :: 0 <= j < |n| ==> n[j] != '/'
  {
    p[LastSlash(p) + 1..]
  }

  /** `str(Path(dir) / name)`. */
  function Join(dir: string, name: string): string {
    if dir == "" then name else if dir[|dir| - 1] == '/' then dir + name else dir + "/" + name
  }

  /** A directory path as `pathlib` prints it: no trailing '/' except the root. */
  predicate NormalDir(d: string) {
    d == "" || d == "/" || d[|d| - 1] != '/'
  }

  predicate IsComponent(n: string) {
    n != [] && forall j :: 0 <= j < |n| ==> n[j] != '/'
  }

  /** Joining a component onto a directory can be taken apart again. */
  lemma JoinSplits(d: string, n: string)
    requires NormalDir(d) && IsComponent(n)
    ensures Parent(Join(d, n)) == d && Name(Join(d, n)) == n
  {
    var p := Join(d, n);
    if d == "" {
      assert LastSlash(p) == -1;
    } else if d == "/" {
      assert p == "/" + n && p[0] == '/';
      assert LastSlash(p) == 0;
      assert p[1..] == n;
    } else {
      assert p == d + "/" + n && p[|d|] == '/';
      assert LastSlash(p) == |d|;
      assert p[..|d|] == d && p[|d| + 1..] == n;
    }
  }

  // ---------------------------------------------------------------- errors

  function NoSuchFile(p: string): string {
    "[Errno 2] No such file or directory: '" + p + "'"
  }

  function IsADirectory(p: string): string {
    "[Errno 21] Is a directory: '" + p + "'"
  }

  function FileExists(p: string): string {
    "[Errno 17] File exists: '" + p + "'"
  }

  function DestinationExists(p: string): string {
    "Destination path '" + p + "' already exists"
  }

  // ---------------------------------------------------------------- steps

  /** `os.stat(p).st_size`, failing with `fault` or when nothing is at `p`.
      A directory's size is not modelled (it reads 0). */
  function StatSize(m: Entries, p: string, fault: Option<string>): (r: Outcome<nat>)
    ensures r.Returned? <==> fault.None? && p in m
    ensures r.Raised? && fault.None? ==> r.error == NoSuchFile(p)
    ensures r.Returned? && IsFile(m, p) ==> r.value == |m[p].data|
  {
    if fault.Some? then Raised(fault.value)
    else if p !in m then Raised(NoSuchFile(p))
    else match m[p]
      case File(d, _) => Returned(|d|)
      case Dir(_) => Returned(0)
  }

  /** Why `open(p)` for reading fails on a path that is not a regular file. */
  function OpenError(m: Entries, p: string): string {
    if p in m then IsADirectory(p) else NoSuchFile(p)
  }

  /** `Path(p).mkdir(parents=True, exist_ok=True)`: an existing directory is
      accepted, an existing file is an error. */
  function MkdirError(m: Entries, p: string, fault: Option<string>): Option<string> {
    if IsDir(m, p) then None else if p in m then Some(FileExists(p)) else fault
  }

  function AfterMkdir(m: Entries, p: string, now: int): Entries {
    if p in m then m else m[p := Dir(now)]
  }

  /** Where `shutil.move(src, dst)` puts the file: into `dst` when `dst` is a
      directory, otherwise at `dst` itself (replacing a file there). */
  function MoveTarget(m: Entries, src: string, dst: string): string {
    if IsDir(m, dst) then Join(dst, Name(src)) else dst
  }

  function MoveError(m: Entries, src: string, dst: string, fault: Option<string>): Option<string> {
    if fault.Some? then fault
    else if src !in m then Some(NoSuchFile(src))
    else if IsDir(m, dst) && Join(dst, Name(src)) in m then Some(DestinationExists(Join(dst, Name(src))))
    else None
  }

  /** A rename keeps the entry, modification time included. */
  function AfterMove(m: Entries, src: string, dst: string): Entries
    requires src in m
  {
    (m - {src})[MoveTarget(m, src, dst) := m[src]]
  }

  /** `Path(p).touch(exist_ok=True)`: bumps the modification time of an
      existing entry, or creates an empty file. */
  function AfterTouch(m: Entries, p: string, now: int): Entries {
    if p !in m then m[p := File([], now)]
    else match m[p]
      case File(d, _) => m[p := File(d, now)]
      case Dir(_) => m[p := Dir(now)]
  }

  /** `open(p, "wb")`: fails on a directory, otherwise creates or truncates. */
  function CreateError(m: Entries, p: string, fault: Option<string>): Option<string> {
    if IsDir(m, p) then Some(IsADirectory(p)) else fault
  }

  /** `os.remove(p)` / `Path(p).unlink()`: directories are refused. */
  function RemoveError(m: Entries, p: string, fault: Option<string>): (r: Option<string>)
    ensures r.None? <==> IsFile(m, p) && fault.None?
    ensures IsFile(m, p) ==> r == fault
  {
    if p !in m then Some(NoSuchFile(p)) else if m[p].Dir? then Some(IsADirectory(p)) else fault
  }

  /** The file system the process shares with other writers. */
  class FileSystem {
    var entries: Entries

    constructor (entries: Entries)
      ensures this.entries == entries
    {
      this.entries := entries;
    }

    method Mkdir(p: string, now: int, fault: Option<string>) returns (err: Option<string>)
      modifies this
      ensures err == MkdirError(old(entries), p, fault)
      ensures entries == if err.None? then AfterMkdir(old(entries), p, now) else old(entries)
    {
      err := MkdirError(entries, p, fault);
      if err.None? {
        entries := AfterMkdir(entries, p, now);
      }
    }

    /** `shutil.move` as a rename: a failure leaves the entries as they were. */
    method Move(src: string, dst: string, fault: Option<string>) returns (err: Option<string>)
      modifies this
      ensures err == MoveError(old(entries), src, dst, fault)
      ensures err.None? ==> src in old(entries) && entries == AfterMove(old(entries), src, dst)
      ensures err.Some? ==> entries == old(entries)
    {
      err := MoveError(entries, src, dst, fault);
      if err.None? {
        entries := AfterMove(entries, src, dst);
      }
    }

    method Touch(p: string, now: int, fault: Option<string>) returns (err: Option<string>)
      modifies this
      ensures err == fault
      ensures entries == if err.None? then AfterTouch(old(entries), p, now) else old(entries)
    {
      err := fault;
      if err.None? {
        entries := AfterTouch(entries, p, now);
      }
    }

    /** Opens `p` for writing and writes `data` into it. */
    method Create(p: string, data: Bytes, now: int, fault: Option<string>) returns (err: Option<string>)
      modifies this
      ensures err == CreateError(old(entries), p, fault)
      ensures entries == if err.None? then old(entries)[p := File(data, now)] else old(entries)
    {
      err := CreateError(entries, p, fault);
      if err.None? {
        entries := entries[p := File(data, now)];
      }
    }

    method Remove(p: string, fault: Option<string>) returns (err: Option<string>)
      modifies this
      ensures err == RemoveError(old(entries), p, fault)
      ensures entries == if err.None? then old(entries) - {p} else old(entries)
    {
      err := RemoveError(entries, p, fault);
      if err.None? {
        entries := entries - {p};
      }
    }
  }
}
