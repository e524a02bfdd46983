/** `LogRotateService`: size-triggered rotation of one log file. The file is
    moved into the `ops_toolkit_archives` folder next to it under a
    time-stamped name, an empty file takes its place, the archive is gzipped,
    and only the newest `keep_archives` archives of that log are kept.

    Each step can fail on its own. The result of a run is described by
    `Rotate`, a function of the settings, the file system before the run,
    the log path, the injected environment (time stamp, clock, gzip
    transform, faults) and the order in which the archive folder is listed. */
module LogRotation {
  import opened Wrappers
  import opened Text
  import opened StableSort
  import opened FileSystems

  /** What `rotate_if_needed` reports. */
  datatype RotateResult = RotateResult(rotated: bool, archivedPath: Option<string>, message: string)

  /** The three settings of a rotator. */
  datatype RotatePolicy = RotatePolicy(maxBytes: int, keepArchives: int, archiveSuffix: string)

  const DefaultMaxBytes: int := 10 * 1024 * 1024
  const DefaultKeepArchives: int := 5
  const DefaultSuffix: string := ".gz"
  const ArchiveDirName: string := "ops_toolkit_archives"

  /** How the gzip step goes: opening the output fails, the copy fails after
      writing `partial`, or the copy succeeds and removing the plain archive
      fails. */
  datatype CompressFault =
    | CompressOk
    | CreateFailed(error: string)
    | CopyFailed(error: string, partial: Bytes)
    | UnlinkFailed(error: string)

  /** Everything a run depends on besides the file system: the
      `%Y%m%d-%H%M%S` stamp, the clock (used as modification time), the gzip
      transform, a fault per step, whether listing or stat-ing the archive
      folder fails, and the archives `os.remove` is refused. */
  datatype RotateEnv = RotateEnv(
    stamp: string,
    now: int,
    gzip: Bytes -> Bytes,
    statFault: Option<string>,
    mkdirFault: Option<string>,
    moveFault: Option<string>,
    touchFault: Option<string>,
    compress: CompressFault,
    listFault: bool,
    unremovable: set<string>)

  function PermissionDenied(p: string): string {
    "[Errno 13] Permission denied: '" + p + "'"
  }

  // ---------------------------------------------------------------- naming

  /** `p.parent / "ops_toolkit_archives"`. */
  function ArchiveDir(p: string): string {
    Join(Parent(p), ArchiveDirName)
  }

  /** `archive_dir / f"{p.name}.{ts}"`. */
  function PlainArchive(p: string, stamp: string): string {
    Join(ArchiveDir(p), Name(p) + "." + stamp)
  }

  /** The plain archive's path with the archive suffix appended. */
  function GzArchive(p: string, stamp: string, suffix: string): string {
    PlainArchive(p, stamp) + suffix
  }

  // ------------------------------------------------------------- retention

  /** The glob `f"{base}.*{suffix}"` on one file name (the base and the
      suffix taken literally). */
  predicate Glob(name: string, base: string, suffix: string) {
    && |name| >= |base| + 1 + |suffix|
    && name[..|base| + 1] == base + "."
    && name[|name| - |suffix|..] == suffix
  }

  /** What `archive_dir.glob(...)` yields: the entries directly inside `dir`
      whose name matches, directories included. */
  function Candidates(m: Entries, dir: string, base: string, suffix: string): set<string> {
    set q | q in m.Keys && q == Join(dir, Name(q)) && Glob(Name(q), base, suffix)
  }

  /** `x.stat().st_mtime` as a sort key. */
  function MtimeKey(m: Entries): string -> int {
    q => if q in m then m[q].mtime else 0
  }

  /** `listing` is the candidates, each once, in some directory order. */
  predicate IsListing(listing: seq<string>, cands: set<string>) {
    multiset(listing) == multiset(cands)
  }

  /** The listing sorted by modification time, newest first, stably. */
  function Ranked(m: Entries, listing: seq<string>): seq<string> {
    SortDesc(listing, MtimeKey(m))
  }

  /** Where `files[keep:]` starts. */
  function KeepEnd(keep: int, n: nat): nat {
    SliceEnd(keep, n)
  }

  /** `files[keep:]`: the archives cleanup tries to delete. */
  function Doomed(ranked: seq<string>, keep: int): seq<string> {
    ranked[KeepEnd(keep, |ranked|)..]
  }

  /** One `os.remove(q)` whose failure is ignored: missing entries,
      directories and refused files stay. */
  function AfterRemove(m: Entries, q: string, unremovable: set<string>): Entries {
    if IsFile(m, q) && q !in unremovable then m - {q} else m
  }

  function RemoveAll(m: Entries, qs: seq<string>, unremovable: set<string>): Entries {
    if qs == [] then m else AfterRemove(RemoveAll(m, qs[..|qs| - 1], unremovable), qs[|qs| - 1], unremovable)
  }

  /** `_cleanup_old_archives`: nothing when listing fails, otherwise every
      archive past the first `keep` of the ranking is removed if it can be. */
  function AfterCleanup(m: Entries, keep: int, env: RotateEnv, listing: seq<string>): Entries {
    if env.listFault then m else RemoveAll(m, Doomed(Ranked(m, listing), keep), env.unremovable)
  }

  // ------------------------------------------------------------- the steps

  /** How far a run got: finished with a result, or past gzip with the
      archive written, so that cleanup runs next. */
  datatype Stage =
    | Done(result: Outcome<RotateResult>, entries: Entries)
    | Compressed(entries: Entries, archive: string)

  function NotRotated(message: string): Outcome<RotateResult> {
    Returned(RotateResult(false, None, message))
  }

  function GzipFailed(plain: string, error: string): Outcome<RotateResult> {
    Returned(RotateResult(true, Some(plain), "gzip failed: " + error))
  }

  /** Existence check, stat, threshold, and creation of the archive folder. A
      failure to create the folder is not caught: it escapes the call. */
  function Steps(policy: RotatePolicy, m: Entries, p: string, env: RotateEnv): Stage {
    if !IsFile(m, p) then Done(NotRotated("log not found: " + p), m)
    else match StatSize(m, p, env.statFault)
      case Raised(e) => Done(NotRotated("stat failed: " + e), m)
      case Returned(size) =>
        if size < policy.maxBytes then Done(NotRotated("no rotation"), m)
        else match MkdirError(m, ArchiveDir(p), env.mkdirFault)
          case Some(e) => Done(Raised(e), m)
          case None => MoveAside(policy, AfterMkdir(m, ArchiveDir(p), env.now), p, env)
  }

  /** The file moved to `plain` and an empty file created in its place. */
  function Relocated(m: Entries, p: string, plain: string, now: int): Entries
    requires p in m
  {
    AfterTouch(AfterMove(m, p, plain), p, now)
  }

  /** `shutil.move` to the plain archive, then `touch`; either failing ends
      the run with "rotate move failed". */
  function MoveAside(policy: RotatePolicy, m: Entries, p: string, env: RotateEnv): Stage {
    var plain := PlainArchive(p, env.stamp);
    match MoveError(m, p, plain, env.moveFault)
    case Some(e) => Done(NotRotated("rotate move failed: " + e), m)
    case None =>
      match env.touchFault
      case Some(e) => Done(NotRotated("rotate move failed: " + e), AfterMove(m, p, plain))
      case None => Compress(policy, Relocated(m, p, plain, env.now), p, env)
  }

  /** Copy the plain archive through gzip into the suffixed path, then unlink
      the plain archive; any failure ends the run with "gzip failed" and the
      plain archive reported. */
  function Compress(policy: RotatePolicy, m: Entries, p: string, env: RotateEnv): Stage {
    var plain := PlainArchive(p, env.stamp);
    var gz := plain + policy.archiveSuffix;
    if !IsFile(m, plain) then Done(GzipFailed(plain, OpenError(m, plain)), m)
    else
      var createFault := if env.compress.CreateFailed? then Some(env.compress.error) else None;
      match CreateError(m, gz, createFault)
      case Some(e) => Done(GzipFailed(plain, e), m)
      case None =>
        if env.compress.CopyFailed? then
          Done(GzipFailed(plain, env.compress.error), m[gz := File(env.compress.partial, env.now)])
        else
          var written := m[gz := File(env.gzip(m[plain].data), env.now)];
          var unlinkFault := if env.compress.UnlinkFailed? then Some(env.compress.error) else None;
          match RemoveError(written, plain, unlinkFault)
          case Some(e) => Done(GzipFailed(plain, e), written)
          case None => Compressed(written - {plain}, gz)
  }

  /** A whole run: its outcome and the file system it leaves. */
  datatype Rotation = Rotation(result: Outcome<RotateResult>, entries: Entries)

  function Rotate(policy: RotatePolicy, m: Entries, p: string, env: RotateEnv, listing: seq<string>): Rotation {
    match Steps(policy, m, p, env)
    case Done(r, e) => Rotation(r, e)
    case Compressed(e, gz) =>
      Rotation(Returned(RotateResult(true, Some(gz), "rotated")), AfterCleanup(e, policy.keepArchives, env, listing))
  }

  /** The listing order a run used is an order of the archive folder as it
      was when cleanup listed it. */
  predicate ListingFor(policy: RotatePolicy, m: Entries, p: string, env: RotateEnv, listing: seq<string>) {
    var st := Steps(policy, m, p, env);
    st.Compressed? ==> IsListing(listing, Candidates(st.entries, ArchiveDir(p), Name(p), policy.archiveSuffix))
  }

  // ------------------------------------------------------------- the class

  /** A rotator: its settings never change after construction. */
  class LogRotateService {
    const maxBytes: int
    const keepArchives: int
    const archiveSuffix: string

    constructor (maxBytes: int, keepArchives: int, archiveSuffix: string)
      ensures this.maxBytes == maxBytes && this.keepArchives == keepArchives
      ensures this.archiveSuffix == archiveSuffix
    {
      this.maxBytes := maxBytes;
      this.keepArchives := keepArchives;
      this.archiveSuffix := archiveSuffix;
    }

    function Policy(): RotatePolicy {
      RotatePolicy(maxBytes, keepArchives, archiveSuffix)
    }

    /** `rotate_if_needed(log_path)`: the outcome and the new file system are
        those `Rotate` describes for the listing order cleanup used. */
    method RotateIfNeeded(fs: FileSystem, logPath: string, env: RotateEnv)
      returns (res: Outcome<RotateResult>, ghost listing: seq<string>)
      modifies fs
      ensures ListingFor(Policy(), old(fs.entries), logPath, env, listing)
      ensures Rotation(res, fs.entries) == Rotate(Policy(), old(fs.entries), logPath, env, listing)
    {
      listing := [];
      if !IsFile(fs.entries, logPath) {
        res := NotRotated("log not found: " + logPath);
        return;
      }
      var st := StatSize(fs.entries, logPath, env.statFault);
      if st.Raised? {
        res := NotRotated("stat failed: " + st.error);
        return;
      }
      if st.value < maxBytes {
        res := NotRotated("no rotation");
        return;
      }
      var archiveDir := Join(Parent(logPath), ArchiveDirName);
      var err := fs.Mkdir(archiveDir, env.now, env.mkdirFault);
      if err.Some? {
        res := Raised(err.value);
        return;
      }
      ghost var m1 := fs.entries;
      var plain := Join(archiveDir, Name(logPath) + "." + env.stamp);
      var gz := plain + archiveSuffix;
      err := fs.Move(logPath, plain, env.moveFault);
      if err.Some? {
        res := NotRotated("rotate move failed: " + err.value);
        return;
      }
      err := fs.Touch(logPath, env.now, env.touchFault);
      if err.Some? {
        res := NotRotated("rotate move failed: " + err.value);
        return;
      }
      assert fs.entries == Relocated(m1, logPath, plain, env.now);
      res, listing := CompressAndClean(fs, logPath, plain, gz, env);
    }

    /** The gzip step and, when it succeeds, cleanup. */
    method CompressAndClean(fs: FileSystem, logPath: string, plain: string, gz: string, env: RotateEnv)
      returns (res: Outcome<RotateResult>, ghost listing: seq<string>)
      requires plain == PlainArchive(logPath, env.stamp) && gz == plain + archiveSuffix
      modifies fs
      ensures var st := Compress(Policy(), old(fs.entries), logPath, env);
        && (st.Compressed? ==> IsListing(listing, Candidates(st.entries, ArchiveDir(logPath), Name(logPath), archiveSuffix)))
        && Rotation(res, fs.entries) == match st
           case Done(r, e) => Rotation(r, e)
           case Compressed(e, a) =>
             Rotation(Returned(RotateResult(true, Some(a), "rotated")), AfterCleanup(e, keepArchives, env, listing))
    {
      listing := [];
      if !IsFile(fs.entries, plain) {
        res := GzipFailed(plain, OpenError(fs.entries, plain));
        return;
      }
      var data := fs.entries[plain].data;
      var createFault := if env.compress.CreateFailed? then Some(env.compress.error) else None;
      var out := if env.compress.CopyFailed? then env.compress.partial else env.gzip(data);
      var err := fs.Create(gz, out, env.now, createFault);
      if err.Some? {
        res := GzipFailed(plain, err.value);
        return;
      }
      if env.compress.CopyFailed? {
        res := GzipFailed(plain, env.compress.error);
        return;
      }
      var unlinkFault := if env.compress.UnlinkFailed? then Some(env.compress.error) else None;
      err := fs.Remove(plain, unlinkFault);
      if err.Some? {
        res := GzipFailed(plain, err.value);
        return;
      }
      listing := CleanupOldArchives(fs, ArchiveDir(logPath), Name(logPath), env);
      res := Returned(RotateResult(true, Some(gz), "rotated"));
    }

    /** `_cleanup_old_archives(archive_dir, base_name)`: the folder is listed
        in some order, ranked newest first, and everything past the first
        `keep_archives` is removed where `os.remove` allows. */
    method CleanupOldArchives(fs: FileSystem, archiveDir: string, baseName: string, env: RotateEnv)
      returns (ghost listing: seq<string>)
      modifies fs
      ensures IsListing(listing, Candidates(old(fs.entries), archiveDir, baseName, archiveSuffix))
      ensures fs.entries == AfterCleanup(old(fs.entries), keepArchives, env, listing)
    {
      var files := ListArchives(fs.entries, archiveDir, baseName);
      listing := files;
      if env.listFault {
        return;
      }
      var ranked := SortDesc(files, MtimeKey(fs.entries));
      RemoveEach(fs, ranked[KeepEnd(keepArchives, |ranked|)..], env.unremovable);
    }

    /** The matching entries of the folder, each once, in whatever order the
        directory yields them. */
    method ListArchives(m: Entries, archiveDir: string, baseName: string) returns (files: seq<string>)
      ensures IsListing(files, Candidates(m, archiveDir, baseName, archiveSuffix))
    {
      var cands := Candidates(m, archiveDir, baseName, archiveSuffix);
      var pending := cands;
      files := [];
      while pending != {}
        invariant multiset(files) + multiset(pending) == multiset(cands)
        decreases |pending|
      {
        var q :| q in pending;
        assert multiset(pending) == multiset(pending - {q}) + multiset{q};
        files := files + [q];
        pending := pending - {q};
      }
    }
  }

  /** `for f in doomed: try: os.remove(f) except: continue`. */
  method RemoveEach(fs: FileSystem, doomed: seq<string>, unremovable: set<string>)
    modifies fs
    ensures fs.entries == RemoveAll(old(fs.entries), doomed, unremovable)
  {
    ghost var m0 := fs.entries;
    for i := 0 to |doomed|
      invariant fs.entries == RemoveAll(m0, doomed[..i], unremovable)
    {
      var q := doomed[i];
      var fault := if q in unremovable then Some(PermissionDenied(q)) else None;
      var err := fs.Remove(q, fault);
      assert doomed[..i + 1][..i] == doomed[..i];
    }
    assert doomed[..|doomed|] == doomed;
  }

  // ------------------------------------------------------------ properties

  /** A missing log, or one that is not a regular file, is reported and left
      alone. */
  lemma RotateMissing(policy: RotatePolicy, m: Entries, p: string, env: RotateEnv, listing: seq<string>)
    requires !IsFile(m, p)
    ensures Rotate(policy, m, p, env, listing) == Rotation(Returned(RotateResult(false, None, "log not found: " + p)), m)
  {
  }

  /** A failing stat is reported and changes nothing. */
  lemma RotateStatFailed(policy: RotatePolicy, m: Entries, p: string, env: RotateEnv, listing: seq<string>)
    requires IsFile(m, p) && env.statFault.Some?
    ensures Rotate(policy, m, p, env, listing)
         == Rotation(Returned(RotateResult(false, None, "stat failed: " + env.statFault.value)), m)
  {
  }

  /** "rotate move failed: ...": not rotated, no archive. */
  predicate MoveFailedReport(r: Outcome<RotateResult>) {
    && r.Returned? && !r.value.rotated && r.value.archivedPath.None?
    && |r.value.message| >= 20 && r.value.message[..20] == "rotate move failed: "
  }

  /** "gzip failed: ...": rotated, the plain archive reported. */
  predicate GzipFailedReport(r: Outcome<RotateResult>, plain: string) {
    && r.Returned? && r.value.rotated && r.value.archivedPath == Some(plain)
    && |r.value.message| >= 13 && r.value.message[..13] == "gzip failed: "
  }

  lemma CompressShape(policy: RotatePolicy, m: Entries, p: string, env: RotateEnv)
    ensures var st := Compress(policy, m, p, env);
      && (st.Done? ==> GzipFailedReport(st.result, PlainArchive(p, env.stamp)))
      && (st.Compressed? ==> st.archive == GzArchive(p, env.stamp, policy.archiveSuffix))
  {
  }

  lemma MoveAsideShape(policy: RotatePolicy, m: Entries, p: string, env: RotateEnv)
    ensures var st := MoveAside(policy, m, p, env);
      && (st.Done? ==> MoveFailedReport(st.result) || GzipFailedReport(st.result, PlainArchive(p, env.stamp)))
      && (st.Compressed? ==> st.archive == GzArchive(p, env.stamp, policy.archiveSuffix))
  {
    var plain := PlainArchive(p, env.stamp);
    if MoveError(m, p, plain, env.moveFault).None? && env.touchFault.None? {
      CompressShape(policy, Relocated(m, p, plain, env.now), p, env);
    }
  }

  /** Below `max_bytes` characters the answer is "no rotation" and nothing
      changes. */
  lemma RotateBelowThreshold(policy: RotatePolicy, m: Entries, p: string, env: RotateEnv, listing: seq<string>)
    requires IsFile(m, p) && env.statFault.None? && |m[p].data| < policy.maxBytes
    ensures Rotate(policy, m, p, env, listing) == Rotation(NotRotated("no rotation"), m)
  {
  }

  /** From `max_bytes` characters on, rotation is attempted: whatever
      happens, the answer is not "no rotation". */
  lemma RotateAtThreshold(policy: RotatePolicy, m: Entries, p: string, env: RotateEnv, listing: seq<string>)
    requires IsFile(m, p) && env.statFault.None? && |m[p].data| >= policy.maxBytes
    ensures Rotate(policy, m, p, env, listing).result != NotRotated("no rotation")
  {
    if MkdirError(m, ArchiveDir(p), env.mkdirFault).None? {
      var m1 := AfterMkdir(m, ArchiveDir(p), env.now);
      MoveAsideShape(policy, m1, p, env);
      var st := MoveAside(policy, m1, p, env);
      assert Steps(policy, m, p, env) == st;
      if st.Done? && MoveFailedReport(st.result) {
        assert st.result.value.message[0] == 'r';
      }
    }
  }

  /** A failure to create the archive folder escapes `rotate_if_needed`, with
      the file system untouched. */
  lemma RotateMkdirRaises(policy: RotatePolicy, m: Entries, p: string, env: RotateEnv, listing: seq<string>)
    requires IsFile(m, p) && env.statFault.None? && |m[p].data| >= policy.maxBytes
    requires MkdirError(m, ArchiveDir(p), env.mkdirFault).Some?
    ensures Rotate(policy, m, p, env, listing)
         == Rotation(Raised(MkdirError(m, ArchiveDir(p), env.mkdirFault).value), m)
  {
  }

  /** When the move or the re-creation of the log fails, nothing counts as
      rotated and no archive is reported. */
  lemma RotateMoveFailed(policy: RotatePolicy, m: Entries, p: string, env: RotateEnv, listing: seq<string>)
    requires IsFile(m, p) && env.statFault.None? && |m[p].data| >= policy.maxBytes
    requires MkdirError(m, ArchiveDir(p), env.mkdirFault).None?
    requires MoveError(AfterMkdir(m, ArchiveDir(p), env.now), p, PlainArchive(p, env.stamp), env.moveFault).Some?
             || env.touchFault.Some?
    ensures var r := Rotate(policy, m, p, env, listing).result;
      && r.Returned? && !r.value.rotated && r.value.archivedPath.None?
      && |r.value.message| >= 20 && r.value.message[..20] == "rotate move failed: "
  {
  }

  /** The report after a run that got past the archive folder: "rotate
      move failed", "gzip failed" naming the plain archive, or "rotated"
      naming the compressed one, in which case cleanup ran. */
  lemma RotateAttempted(policy: RotatePolicy, m: Entries, p: string, env: RotateEnv, listing: seq<string>)
    requires IsFile(m, p) && env.statFault.None? && |m[p].data| >= policy.maxBytes
    requires MkdirError(m, ArchiveDir(p), env.mkdirFault).None?
    ensures var st := Steps(policy, m, p, env);
      var r := Rotate(policy, m, p, env, listing).result;
      && (st.Done? ==> MoveFailedReport(r) || GzipFailedReport(r, PlainArchive(p, env.stamp)))
      && (st.Compressed? ==> r == Returned(RotateResult(true, Some(GzArchive(p, env.stamp, policy.archiveSuffix)), "rotated")))
  {
    var m1 := AfterMkdir(m, ArchiveDir(p), env.now);
    MoveAsideShape(policy, m1, p, env);
    assert Steps(policy, m, p, env) == MoveAside(policy, m1, p, env);
  }

  /** What a run reports: it counts as rotated exactly when it names an
      archive; "rotated" names the compressed archive and is the only answer
      after which cleanup ran; "gzip failed" names the plain archive. */
  lemma RotateReport(policy: RotatePolicy, m: Entries, p: string, env: RotateEnv, listing: seq<string>)
    ensures var r := Rotate(policy, m, p, env, listing).result;
      && (r.Returned? ==> (r.value.rotated <==> r.value.archivedPath.Some?))
      && (r.Returned? && r.value.rotated ==>
            || (r.value.message == "rotated" && r.value.archivedPath == Some(GzArchive(p, env.stamp, policy.archiveSuffix)))
            || GzipFailedReport(r, PlainArchive(p, env.stamp)))
      && (r.Returned? && r.value.message == "rotated" <==> Steps(policy, m, p, env).Compressed?)
  {
    var r := Rotate(policy, m, p, env, listing).result;
    var compressed := Steps(policy, m, p, env).Compressed?;
    var plain := PlainArchive(p, env.stamp);
    var gz := GzArchive(p, env.stamp, policy.archiveSuffix);
    if !IsFile(m, p) {
      RotateMissing(policy, m, p, env, listing);
      assert r.value.message[0] == 'l';
    } else if env.statFault.Some? {
      RotateStatFailed(policy, m, p, env, listing);
      assert r.value.message[0] == 's';
    } else if |m[p].data| < policy.maxBytes {
      RotateBelowThreshold(policy, m, p, env, listing);
    } else if MkdirError(m, ArchiveDir(p), env.mkdirFault).Some? {
      RotateMkdirRaises(policy, m, p, env, listing);
    } else {
      RotateAttempted(policy, m, p, env, listing);
      AttemptShape(r, compressed, plain, gz);
    }
  }

  /** The report facts for an answer after the folder was created. */
  lemma AttemptShape(r: Outcome<RotateResult>, compressed: bool, plain: string, gz: string)
    requires !compressed ==> MoveFailedReport(r) || GzipFailedReport(r, plain)
    requires compressed ==> r == Returned(RotateResult(true, Some(gz), "rotated"))
    ensures && (r.Returned? ==> (r.value.rotated <==> r.value.archivedPath.Some?))
      && (r.Returned? && r.value.rotated ==>
            || (r.value.message == "rotated" && r.value.archivedPath == Some(gz))
            || GzipFailedReport(r, plain))
      && (r.Returned? && r.value.message == "rotated" <==> compressed)
  {
    if !compressed {
      if MoveFailedReport(r) {
        assert |r.value.message| >= 20;
      } else {
        assert r.value.message[0] == 'g';
      }
    }
  }

  // ------------------------------------------------------------- the names

  lemma JoinLength(d: string, n: string)
    ensures |Join(d, n)| >= |d| + |n|
    ensures d != "" && d[|d| - 1] != '/' ==> |Join(d, n)| == |d| + 1 + |n|
  {
  }

  lemma PathLength(p: string)
    ensures |p| <= |Parent(p)| + 1 + |Name(p)|
  {
  }

  /** The plain and the compressed archive are never the log itself. */
  lemma ArchivesAreElsewhere(p: string, stamp: string, suffix: string)
    ensures |PlainArchive(p, stamp)| > |p|
    ensures PlainArchive(p, stamp) != p && GzArchive(p, stamp, suffix) != p
  {
    PathLength(p);
    JoinLength(Parent(p), ArchiveDirName);
    JoinLength(ArchiveDir(p), Name(p) + "." + stamp);
  }

  /** The archive folder sits next to the log and is called
      "ops_toolkit_archives"; the plain archive sits in it, named after the
      log and the stamp; the compressed archive is named the same plus the
      suffix, and it matches the retention glob of its log. */
  lemma ArchiveNaming(p: string, stamp: string, suffix: string)
    requires NormalDir(Parent(p))
    requires forall i :: 0 <= i < |stamp| ==> stamp[i] != '/'
    requires forall i :: 0 <= i < |suffix| ==> suffix[i] != '/'
    ensures Parent(ArchiveDir(p)) == Parent(p) && Name(ArchiveDir(p)) == ArchiveDirName
    ensures Parent(PlainArchive(p, stamp)) == ArchiveDir(p) && Name(PlainArchive(p, stamp)) == Name(p) + "." + stamp
    ensures var gz := GzArchive(p, stamp, suffix);
      Parent(gz) == ArchiveDir(p) && Name(gz) == Name(p) + "." + stamp + suffix && Glob(Name(gz), Name(p), suffix)
  {
    var plainName := Name(p) + "." + stamp;
    ArchiveDirSplits(p);
    ArchiveNames(Name(p), stamp, suffix);
    InArchiveDir(p, plainName);
    InArchiveDir(p, plainName + suffix);
    ArchiveDirJoin(p, plainName, suffix);
    ArchiveGlob(Name(p), stamp, suffix);
  }

  lemma ArchiveDirSplits(p: string)
    requires NormalDir(Parent(p))
    ensures Parent(ArchiveDir(p)) == Parent(p) && Name(ArchiveDir(p)) == ArchiveDirName
    ensures NormalDir(ArchiveDir(p))
  {
    JoinSplits(Parent(p), ArchiveDirName);
    var d := ArchiveDir(p);
    assert d[|d| - 1] == 's';
  }

  lemma InArchiveDir(p: string, n: string)
    requires NormalDir(Parent(p)) && IsComponent(n)
    ensures Parent(Join(ArchiveDir(p), n)) == ArchiveDir(p) && Name(Join(ArchiveDir(p), n)) == n
  {
    ArchiveDirSplits(p);
    JoinSplits(ArchiveDir(p), n);
  }

  lemma ArchiveNames(name: string, stamp: string, suffix: string)
    requires forall i :: 0 <= i < |name| ==> name[i] != '/'
    requires forall i :: 0 <= i < |stamp| ==> stamp[i] != '/'
    requires forall i :: 0 <= i < |suffix| ==> suffix[i] != '/'
    ensures IsComponent(name + "." + stamp) && IsComponent(name + "." + stamp + suffix)
  {
    NoSlashAppend(name, ".");
    NoSlashAppend(name + ".", stamp);
    NoSlashAppend(name + "." + stamp, suffix);
  }

  lemma NoSlashAppend(a: string, b: string)
    requires forall i :: 0 <= i < |a| ==> a[i] != '/'
    requires forall i :: 0 <= i < |b| ==> b[i] != '/'
    ensures forall i :: 0 <= i < |a + b| ==> (a + b)[i] != '/'
  {
    forall i | 0 <= i < |a + b|
      ensures (a + b)[i] != '/'
    {
      if i >= |a| {
        assert (a + b)[i] == b[i - |a|];
      }
    }
  }

  /** The folder's path ends in its name, so appending the suffix to a path
      inside it extends the last component. */
  lemma ArchiveDirJoin(p: string, n: string, suffix: string)
    ensures Join(ArchiveDir(p), n) + suffix == Join(ArchiveDir(p), n + suffix)
  {
    var d := ArchiveDir(p);
    assert d[|d| - 1] == 's';
  }

  lemma ArchiveGlob(name: string, stamp: string, suffix: string)
    ensures Glob(name + "." + stamp + suffix, name, suffix)
  {
    var g := name + "." + stamp + suffix;
    assert g[..|name| + 1] == name + ".";
    assert g[|g| - |suffix|..] == suffix;
  }

  /** After the move and the re-creation, the plain archive holds the log's
      entry and the log is an empty file; nothing else changed. */
  lemma RelocatedSpec(m: Entries, p: string, plain: string, now: int)
    requires p in m && !IsDir(m, plain) && plain != p
    ensures var r := Relocated(m, p, plain, now);
      && r[p] == File([], now) && plain in r && r[plain] == m[p]
      && forall q :: q != p && q != plain ==> (q in r <==> q in m) && (q in r ==> r[q] == m[q])
  {
  }

  /** A run reaches cleanup only through a successful stat, folder creation,
      move and re-creation, with the log's entry at the plain archive. */
  lemma CompressedPath(policy: RotatePolicy, m: Entries, p: string, env: RotateEnv)
    requires Steps(policy, m, p, env).Compressed?
    ensures IsFile(m, p) && env.statFault.None? && |m[p].data| >= policy.maxBytes
    ensures MkdirError(m, ArchiveDir(p), env.mkdirFault).None?
    ensures var m1 := AfterMkdir(m, ArchiveDir(p), env.now);
      var plain := PlainArchive(p, env.stamp);
      && MoveError(m1, p, plain, env.moveFault).None? && env.touchFault.None?
      && Steps(policy, m, p, env) == Compress(policy, Relocated(m1, p, plain, env.now), p, env)
  {
  }

  lemma CompressOutcome(policy: RotatePolicy, m: Entries, p: string, env: RotateEnv)
    requires Compress(policy, m, p, env).Compressed?
    ensures var plain := PlainArchive(p, env.stamp);
      var gz := plain + policy.archiveSuffix;
      && IsFile(m, plain)
      && Compress(policy, m, p, env) == Compressed(m[gz := File(env.gzip(m[plain].data), env.now)] - {plain}, gz)
  {
  }

  /** If the plain archive is a regular file after the move, the move did
      not go into a directory of that name. */
  lemma PlainWasNotDir(m: Entries, p: string, stamp: string, now: int)
    requires forall i :: 0 <= i < |stamp| ==> stamp[i] != '/'
    requires p in m && p != PlainArchive(p, stamp) && IsFile(Relocated(m, p, PlainArchive(p, stamp), now), PlainArchive(p, stamp))
    ensures !IsDir(m, PlainArchive(p, stamp))
  {
    var plain := PlainArchive(p, stamp);
    PlainEndsInName(p, stamp);
    JoinLength(plain, Name(p));
    assert Join(plain, Name(p)) != plain;
    MoveKeepsOthers(m, p, plain, plain);
  }

  /** A move changes only its source and its target. */
  lemma MoveKeepsOthers(m: Entries, src: string, dst: string, q: string)
    requires src in m
    ensures q != src && q != MoveTarget(m, src, dst) ==>
      (q in AfterMove(m, src, dst) <==> q in m) && (q in m ==> AfterMove(m, src, dst)[q] == m[q])
  {
  }

  /** The plain archive's path does not end in '/'. */
  lemma PlainEndsInName(p: string, stamp: string)
    requires forall i :: 0 <= i < |stamp| ==> stamp[i] != '/'
    ensures var plain := PlainArchive(p, stamp);
      plain != "" && plain[|plain| - 1] != '/'
  {
    var plain := PlainArchive(p, stamp);
    var n := Name(p) + "." + stamp;
    JoinLength(ArchiveDir(p), n);
    assert plain[|plain| - 1] == n[|n| - 1];
    assert n[|n| - 1] != '/' by {
      if stamp != [] { assert n[|n| - 1] == stamp[|stamp| - 1]; }
    }
  }

  /** After a run that reached cleanup, before cleanup: the compressed
      archive holds the gzip of the log's old contents, the plain archive is
      gone, and the log is an empty file. */
  lemma CompressedState(policy: RotatePolicy, m: Entries, p: string, env: RotateEnv)
    requires Steps(policy, m, p, env).Compressed? && policy.archiveSuffix != ""
    requires forall i :: 0 <= i < |env.stamp| ==> env.stamp[i] != '/'
    ensures IsFile(m, p)
    ensures var st := Steps(policy, m, p, env);
      var plain := PlainArchive(p, env.stamp);
      && st.archive == GzArchive(p, env.stamp, policy.archiveSuffix)
      && st.archive in st.entries && st.entries[st.archive] == File(env.gzip(m[p].data), env.now)
      && plain !in st.entries
      && p in st.entries && st.entries[p] == File([], env.now)
  {
    CompressedPath(policy, m, p, env);
    var plain := PlainArchive(p, env.stamp);
    var gz := GzArchive(p, env.stamp, policy.archiveSuffix);
    ArchivesAreElsewhere(p, env.stamp, policy.archiveSuffix);
    var m1 := AfterMkdir(m, ArchiveDir(p), env.now);
    var m3 := Relocated(m1, p, plain, env.now);
    CompressOutcome(policy, m3, p, env);
    assert m1[p] == m[p];
    PlainWasNotDir(m1, p, env.stamp, env.now);
    RelocatedSpec(m1, p, plain, env.now);
    var e := m3[gz := File(env.gzip(m3[plain].data), env.now)] - {plain};
    assert Steps(policy, m, p, env) == Compressed(e, gz);
    assert e[p] == File([], env.now);
  }

  // ------------------------------------------------------------- retention

  /** Removing a sequence of paths one by one, ignoring failures, removes
      exactly the regular files among them that are not refused. */
  lemma {:induction false} RemoveAllSpec(m: Entries, qs: seq<string>, u: set<string>)
    ensures forall q :: q in RemoveAll(m, qs, u) <==> q in m && !(q in qs && IsFile(m, q) && q !in u)
    ensures forall q :: q in RemoveAll(m, qs, u) ==> RemoveAll(m, qs, u)[q] == m[q]
    decreases |qs|
  {
    if qs != [] {
      var init, x := qs[..|qs| - 1], qs[|qs| - 1];
      RemoveAllSpec(m, init, u);
      assert forall q :: q in qs <==> q in init || q == x by {
        assert qs == init + [x];
      }
    }
  }

  /** The ranking is sorted newest first and holds the listing's entries. */
  lemma RankedSpec(m: Entries, listing: seq<string>)
    ensures SortedDesc(Ranked(m, listing), MtimeKey(m))
    ensures multiset(Ranked(m, listing)) == multiset(listing)
  {
    SortDescCorrect(listing, MtimeKey(m));
  }

  lemma DoomedIn(ranked: seq<string>, keep: int, q: string)
    requires q in Doomed(ranked, keep)
    ensures exists j :: KeepEnd(keep, |ranked|) <= j < |ranked| && ranked[j] == q
  {
    var d := Doomed(ranked, keep);
    var k :| 0 <= k < |d| && d[k] == q;
    assert ranked[KeepEnd(keep, |ranked|) + k] == q;
  }

  /** Cleanup deletes exactly the regular files of `files[keep:]` that
      `os.remove` is not refused, and leaves every other entry as it was. */
  lemma CleanupRemoves(m: Entries, keep: int, env: RotateEnv, listing: seq<string>)
    requires !env.listFault
    ensures var doomed := Doomed(Ranked(m, listing), keep);
      var after := AfterCleanup(m, keep, env, listing);
      && (forall q :: q in after <==> q in m && !(q in doomed && IsFile(m, q) && q !in env.unremovable))
      && (forall q :: q in after ==> after[q] == m[q])
  {
    RemoveAllSpec(m, Doomed(Ranked(m, listing), keep), env.unremovable);
  }

  /** Whatever the listing order, cleanup touches nothing that does not
      match the glob. */
  lemma CleanupFrame(m: Entries, cands: set<string>, keep: int, env: RotateEnv, listing: seq<string>, q: string)
    requires IsListing(listing, cands)
    requires q !in cands
    ensures var after := AfterCleanup(m, keep, env, listing);
      (q in after <==> q in m) && (q in after ==> after[q] == m[q])
  {
    if !env.listFault {
      var ranked := Ranked(m, listing);
      RankedSpec(m, listing);
      CleanupRemoves(m, keep, env, listing);
      assert multiset(ranked)[q] == 0;
      assert q !in Doomed(ranked, keep) by {
        if q in Doomed(ranked, keep) {
          DoomedIn(ranked, keep, q);
        }
      }
    }
  }

  /** Every archive cleanup keeps among the first `keep` is at least as new
      as every archive it deletes. */
  lemma CleanupKeepsNewest(m: Entries, keep: int, env: RotateEnv, listing: seq<string>, i: nat, y: string)
    requires !env.listFault
    requires i < KeepEnd(keep, |Ranked(m, listing)|)
    requires y in m && y !in AfterCleanup(m, keep, env, listing)
    ensures MtimeKey(m)(Ranked(m, listing)[i]) >= MtimeKey(m)(y)
  {
    var ranked := Ranked(m, listing);
    RankedSpec(m, listing);
    CleanupRemoves(m, keep, env, listing);
    DoomedIn(ranked, keep, y);
  }

  /** With no refusals and only regular files matching, at most `keep`
      matching archives survive, and they are the first `keep` of the
      ranking. */
  lemma CleanupBound(m: Entries, cands: set<string>, keep: nat, env: RotateEnv, listing: seq<string>, q: string)
    requires IsListing(listing, cands)
    requires !env.listFault && env.unremovable == {}
    requires forall c :: c in cands ==> IsFile(m, c)
    requires q in cands && q in AfterCleanup(m, keep, env, listing)
    ensures KeepEnd(keep, |Ranked(m, listing)|) <= keep
    ensures q in Ranked(m, listing)[..KeepEnd(keep, |Ranked(m, listing)|)]
  {
    var ranked := Ranked(m, listing);
    var start := KeepEnd(keep, |ranked|);
    RankedSpec(m, listing);
    CleanupRemoves(m, keep, env, listing);
    assert multiset(ranked)[q] > 0;
    var j :| 0 <= j < |ranked| && ranked[j] == q;
    assert ranked[..start][j] == q;
  }

  lemma TwiceCounted(s: seq<string>, i: nat, j: nat)
    requires i < j < |s| && s[i] == s[j]
    ensures multiset(s)[s[i]] >= 2
  {
    assert s == s[..j] + s[j..];
    assert s[i] in s[..j] && s[j] in s[j..];
  }

  /** With `keep >= 1`, an archive newer than every other matching entry
      survives cleanup. */
  lemma FreshSurvives(m: Entries, cands: set<string>, keep: int, env: RotateEnv, listing: seq<string>, x: string)
    requires IsListing(listing, cands) && cands <= m.Keys
    requires keep >= 1 && x in cands
    requires forall y :: y in cands && y != x ==> MtimeKey(m)(y) < MtimeKey(m)(x)
    ensures x in AfterCleanup(m, keep, env, listing) && AfterCleanup(m, keep, env, listing)[x] == m[x]
  {
    if !env.listFault {
      var ranked := Ranked(m, listing);
      RankedSpec(m, listing);
      CleanupRemoves(m, keep, env, listing);
      assert x !in Doomed(ranked, keep) by {
        if x in Doomed(ranked, keep) {
          DoomedIn(ranked, keep, x);
          var j :| KeepEnd(keep, |ranked|) <= j < |ranked| && ranked[j] == x;
          assert multiset(ranked)[ranked[0]] > 0;
          if ranked[0] == x {
            TwiceCounted(ranked, 0, j);
          }
        }
      }
    }
  }

  /** Base "app" also matches the archives of "app.log": a rotation of
      "app" can delete them. */
  lemma GlobMatchesOtherLogs()
    ensures Glob("app.log.20240101-000000.gz", "app", ".gz")
  {
    var name := "app.log.20240101-000000.gz";
    assert name[..4] == "app.";
    assert name[|name| - 3..] == ".gz";
  }
}
