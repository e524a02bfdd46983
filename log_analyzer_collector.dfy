/** `LogAnalyzerCollector`: tails one log file. It keeps a cursor into the
    file between polls; each poll lets the rotator rotate the file, moves the
    cursor back to the start after a rotation or when the file has become
    shorter than the cursor, reads a bounded batch of new lines, counts
    keyword hits in them, and returns a snapshot.

    What one poll does is described by `Collected`, a function of the
    settings, the cursor and the file system before the poll, the injected
    environment (clock, rotation environment, stat and read faults) and the
    listing order the rotator's cleanup used. */
module LogAnalyzer {
  import opened Wrappers
  import opened Text
  import opened StableSort
  import opened FileSystems
  import opened LineReader
  import opened KeywordScan
  import opened LogModels
  import opened LogRotation

  const DefaultKeywords: seq<string> := ["ERROR", "Failed", "Warning"]
  const DefaultMaxLinesPerPoll: int := 500
  const DefaultMaxLineLength: int := 2000

  /** Everything a poll depends on besides the settings, the cursor and the
      file system: the clock reading, the rotator's environment, and faults
      for the collector's own stat and read. */
  datatype PollEnv = PollEnv(ts: int, rotate: RotateEnv, statFault: Option<string>, readFault: Option<ReadFault>)

  /** The collector's settings at the start of a poll. */
  datatype Settings = Settings(
    path: string,
    keywords: seq<string>,
    policy: RotatePolicy,
    maxLinesPerPoll: int,
    maxLineLength: int)

  // ------------------------------------------------------------- the report

  /** `[LogKeywordHit(k, v) for k, v in hits.items()]`. */
  function HitEntries(c: Counter): (r: seq<LogKeywordHit>)
    ensures |r| == |c.keys|
    ensures forall i :: 0 <= i < |r| ==> r[i].keyword == c.keys[i] && r[i].count == Get(c.counts, c.keys[i])
  {
    seq(|c.keys|, i requires 0 <= i < |c.keys| => LogKeywordHit(c.keys[i], Get(c.counts, c.keys[i])))
  }

  function CountKey(h: LogKeywordHit): int {
    h.count
  }

  /** The hit list after `sort(key=count, reverse=True)`. */
  function HitList(c: Counter): seq<LogKeywordHit> {
    SortDesc(HitEntries(c), CountKey)
  }

  function KeywordWarnings(total: nat): seq<string> {
    if total > 0 then ["Keyword hits: " + NatToString(total)] else []
  }

  /** The snapshot a poll returns once its lines are known. */
  function Report(s: Settings, ts: int, pos: nat, lines: seq<string>, notes: seq<string>): CollectorResult<LogData> {
    var c := Tally(Increments(lines, Patterns(s.keywords)));
    var warnings := KeywordWarnings(Total(c.keys, c.counts));
    CollectorResult(ts, if warnings == [] then "OK" else "WARN", |warnings|,
                    LogData(s.path, pos, lines, HitList(c), notes), warnings)
  }

  // ------------------------------------------------------------- one poll

  /** The state a poll leaves: its outcome (an exception from the rotator's
      folder creation escapes), the cursor, and the file system. */
  datatype Poll = Poll(result: Outcome<CollectorResult<LogData>>, pos: nat, entries: Entries)

  function NotFoundReport(path: string, ts: int, pos: nat): CollectorResult<LogData> {
    var notes := ["Log file not found: " + path];
    CollectorResult(ts, "WARN", 1, LogData(path, pos, [], [], notes), [notes[|notes| - 1]])
  }

  /** The note a rotation leaves. */
  function RotationNotes(rr: RotateResult): seq<string> {
    if !rr.rotated then []
    else if rr.archivedPath.Some? && rr.archivedPath.value != "" then ["log rotated: " + rr.archivedPath.value]
    else ["log rotated"]
  }

  /** Opening the file and reading from `start`: a path that is no longer a
      regular file fails to open. */
  function ReadFrom(s: Settings, m: Entries, start: nat, fault: Option<ReadFault>): Batch {
    if IsFile(m, s.path) then ReadBatch(m[s.path].data, start, s.maxLinesPerPoll, s.maxLineLength, fault)
    else Batch([], Raised(OpenError(m, s.path)))
  }

  /** Read, advance the cursor (or note the failure and keep it), count. */
  function ReadPhase(s: Settings, env: PollEnv, start: nat, notes: seq<string>, m: Entries): Poll {
    var b := ReadFrom(s, m, start, env.readFault);
    match b.cursor
    case Returned(c) => Poll(Returned(Report(s, env.ts, c, b.lines, notes)), c, m)
    case Raised(e) => Poll(Returned(Report(s, env.ts, start, b.lines, notes + ["read failed: " + e])), start, m)
  }

  /** What follows the rotator's step: a rotation restarts the cursor, a
      failed stat is noted, a cursor beyond the end of the file restarts it. */
  function AfterRotation(s: Settings, pos: nat, rot: Rotation, env: PollEnv): Poll {
    match rot.result
    case Raised(e) => Poll(Raised(e), pos, rot.entries)
    case Returned(rr) =>
      var pos1 := if rr.rotated then 0 else pos;
      var notes := RotationNotes(rr);
      match StatSize(rot.entries, s.path, env.statFault)
      case Raised(e) => ReadPhase(s, env, pos1, notes + ["stat failed: " + e], rot.entries)
      case Returned(size) => ReadPhase(s, env, if pos1 > size then 0 else pos1, notes, rot.entries)
  }

  /** `collect()`. */
  function Collected(s: Settings, pos: nat, m: Entries, env: PollEnv, listing: seq<string>): Poll {
    if !IsFile(m, s.path) then Poll(Returned(NotFoundReport(s.path, env.ts, pos)), pos, m)
    else AfterRotation(s, pos, Rotate(s.policy, m, s.path, env.rotate, listing), env)
  }

  /** The snapshot of a poll whose lines are known: count the hits, sort
      them, and warn when there are any. */
  method BuildReport(s: Settings, ts: int, pos: nat, lines: seq<string>, notes: seq<string>)
    returns (r: CollectorResult<LogData>)
    ensures r == Report(s, ts, pos, lines, notes)
  {
    var hits := KeywordHits(lines, s.keywords);
    var total := Total(hits.keys, hits.counts);
    var warnings: seq<string> := [];
    if total > 0 {
      warnings := warnings + ["Keyword hits: " + NatToString(total)];
    }
    var status := if warnings == [] then "OK" else "WARN";
    r := CollectorResult(ts, status, |warnings|, LogData(s.path, pos, lines, HitList(hits), notes), warnings);
  }

  /** The read from `start` and the report built on it. */
  method ReadAndReport(s: Settings, env: PollEnv, start: nat, notes: seq<string>, m: Entries)
    returns (res: Outcome<CollectorResult<LogData>>, pos: nat)
    ensures Poll(res, pos, m) == ReadPhase(s, env, start, notes, m)
  {
    pos := start;
    var lines: seq<string> := [];
    var notes := notes;
    if !IsFile(m, s.path) {
      notes := notes + ["read failed: " + OpenError(m, s.path)];
    } else {
      var cursor;
      lines, cursor := ReadNewLines(m[s.path].data, start, s.maxLinesPerPoll, s.maxLineLength, env.readFault);
      match cursor {
        case Returned(c) => pos := c;
        case Raised(e) => notes := notes + ["read failed: " + e];
      }
    }
    var r := BuildReport(s, env.ts, pos, lines, notes);
    res := Returned(r);
  }

  /** The rest of a poll once the rotator has answered. */
  method ContinuePoll(s: Settings, pos: nat, rr: Outcome<RotateResult>, m: Entries, env: PollEnv)
    returns (res: Outcome<CollectorResult<LogData>>, newPos: nat)
    ensures Poll(res, newPos, m) == AfterRotation(s, pos, Rotation(rr, m), env)
  {
    newPos := pos;
    if rr.Raised? {
      res := Raised(rr.error);
      return;
    }
    var notes: seq<string> := [];
    if rr.value.rotated {
      newPos := 0;
      if rr.value.archivedPath.Some? && rr.value.archivedPath.value != "" {
        notes := notes + ["log rotated: " + rr.value.archivedPath.value];
      } else {
        notes := notes + ["log rotated"];
      }
    }
    assert notes == RotationNotes(rr.value);
    assert newPos == if rr.value.rotated then 0 else pos;
    var st := StatSize(m, s.path, env.statFault);
    match st {
      case Returned(size) =>
        if newPos > size {
          newPos := 0;
        }
      case Raised(e) =>
        notes := notes + ["stat failed: " + e];
    }
    res, newPos := ReadAndReport(s, env, newPos, notes, m);
  }

  // ------------------------------------------------------------- the class

  class LogAnalyzerCollector {
    var path: string
    var keywords: seq<string>
    var rotator: LogRotateService
    const maxLinesPerPoll: int
    const maxLineLength: int
    var pos: nat

    /** An empty or absent path falls back to the default log path (found by
        probing the system, here a parameter); an empty or absent keyword
        list falls back to the default keywords. */
    constructor (path: Option<string>, keywords: Option<seq<string>>, rotateMaxBytes: int, rotateKeepArchives: int,
                 maxLinesPerPoll: int, maxLineLength: int, defaultPath: string)
      ensures this.path == if path.Some? && path.value != "" then path.value else defaultPath
      ensures this.keywords == if keywords.Some? && keywords.value != [] then keywords.value else DefaultKeywords
      ensures rotator.Policy() == RotatePolicy(rotateMaxBytes, rotateKeepArchives, DefaultSuffix)
      ensures this.maxLinesPerPoll == maxLinesPerPoll && this.maxLineLength == maxLineLength
      ensures pos == 0
    {
      this.path := if path.Some? && path.value != "" then path.value else defaultPath;
      this.keywords := if keywords.Some? && keywords.value != [] then keywords.value else DefaultKeywords;
      rotator := new LogRotateService(rotateMaxBytes, rotateKeepArchives, DefaultSuffix);
      this.maxLinesPerPoll := maxLinesPerPoll;
      this.maxLineLength := maxLineLength;
      pos := 0;
    }

    function CurrentSettings(): Settings
      reads this
    {
      Settings(path, keywords, rotator.Policy(), maxLinesPerPoll, maxLineLength)
    }

    /** `configure(...)`: a non-empty path and any given keyword list (even
        an empty one) replace the current ones; a new rotation limit or
        retention count builds a new rotator that keeps the other setting;
        the cursor always goes back to 0. */
    method Configure(path: Option<string>, keywords: Option<seq<string>>, rotateMaxBytes: Option<int>,
                     rotateKeepArchives: Option<int>)
      modifies this
      ensures this.path == if path.Some? && path.value != "" then path.value else old(this.path)
      ensures this.keywords == if keywords.Some? then keywords.value else old(this.keywords)
      ensures rotator.maxBytes == if rotateMaxBytes.Some? then rotateMaxBytes.value else old(rotator).maxBytes
      ensures rotator.keepArchives == if rotateKeepArchives.Some? then rotateKeepArchives.value else old(rotator).keepArchives
      ensures rotator.archiveSuffix ==
        if rotateMaxBytes.Some? || rotateKeepArchives.Some? then DefaultSuffix else old(rotator).archiveSuffix
      ensures rotateMaxBytes.None? && rotateKeepArchives.None? ==> rotator == old(rotator)
      ensures pos == 0
    {
      if path.Some? && path.value != "" {
        this.path := path.value;
      }
      if keywords.Some? {
        this.keywords := keywords.value;
      }
      if rotateMaxBytes.Some? {
        rotator := new LogRotateService(rotateMaxBytes.value, rotator.keepArchives, DefaultSuffix);
      }
      if rotateKeepArchives.Some? {
        rotator := new LogRotateService(rotator.maxBytes, rotateKeepArchives.value, DefaultSuffix);
      }
      pos := 0;
    }

    /** `collect()`: the outcome, the new cursor and the new file system are
        those `Collected` describes for the listing order cleanup used. */
    method Collect(fs: FileSystem, env: PollEnv) returns (res: Outcome<CollectorResult<LogData>>, ghost listing: seq<string>)
      modifies this`pos, fs
      ensures ListingFor(CurrentSettings().policy, old(fs.entries), path, env.rotate, listing)
      ensures Poll(res, pos, fs.entries) == Collected(CurrentSettings(), old(pos), old(fs.entries), env, listing)
    {
      listing := [];
      if !IsFile(fs.entries, path) {
        var notes := ["Log file not found: " + path];
        res := Returned(CollectorResult(env.ts, "WARN", 1, LogData(path, pos, [], [], notes), [notes[|notes| - 1]]));
        return;
      }
      var rr;
      rr, listing := rotator.RotateIfNeeded(fs, path, env.rotate);
      res, pos := ContinuePoll(CurrentSettings(), pos, rr, fs.entries, env);
    }
  }
}

module LogAnalyzerProofs {
  import opened Wrappers
  import opened Text
  import opened StableSort
  import opened FileSystems
  import opened LineReader
  import opened KeywordScan
  import opened LogModels
  import opened LogRotation
  import opened LogAnalyzer

  // ------------------------------------------------------------- one poll

  /** A missing log file is reported, not raised: a single warning, no lines,
      no hits, and the cursor and the file system stay as they were. */
  lemma PollMissing(s: Settings, pos: nat, m: Entries, env: PollEnv, listing: seq<string>)
    requires !IsFile(m, s.path)
    ensures var r := Collected(s, pos, m, env, listing);
      var note := "Log file not found: " + s.path;
      && r.pos == pos && r.entries == m && r.result.Returned?
      && r.result.value.status == "WARN" && r.result.value.warningCount == 1
      && r.result.value.warnings == [note]
      && r.result.value.data == LogData(s.path, pos, [], [], [note])
  {
  }

  /** Only the rotator's step can make a poll raise; then the cursor is kept
      and the file system is what the rotator left. */
  lemma PollRaises(s: Settings, pos: nat, m: Entries, env: PollEnv, listing: seq<string>)
    ensures var r := Collected(s, pos, m, env, listing);
      var rot := Rotate(s.policy, m, s.path, env.rotate, listing);
      && (r.result.Raised? <==> IsFile(m, s.path) && rot.result.Raised?)
      && (r.result.Raised? ==> r.result.error == rot.result.error && r.pos == pos && r.entries == rot.entries)
  {
    if IsFile(m, s.path) {
      var rot := Rotate(s.policy, m, s.path, env.rotate, listing);
      assert Collected(s, pos, m, env, listing) == AfterRotation(s, pos, rot, env);
      if rot.result.Returned? {
        ReadReports(s, env, if rot.result.value.rotated then 0 else pos, RotationNotes(rot.result.value), rot.entries);
      }
    }
  }

  lemma ReadReports(s: Settings, env: PollEnv, start: nat, notes: seq<string>, m: Entries)
    ensures var r := ReadPhase(s, env, start, notes, m);
      && r.result.Returned? && r.entries == m
      && r.result.value.data.lastReadPos == r.pos
      && r.result.value.data.path == s.path
      && r.result.value.ts == env.ts
  {
  }

  /** Every poll that returns reports the cursor it leaves, and leaves the
      file system as the rotator left it. */
  lemma PollCursorReported(s: Settings, pos: nat, m: Entries, env: PollEnv, listing: seq<string>)
    requires Collected(s, pos, m, env, listing).result.Returned?
    ensures var r := Collected(s, pos, m, env, listing);
      && r.result.value.data.lastReadPos == r.pos
      && r.result.value.data.path == s.path
      && r.result.value.ts == env.ts
      && r.entries == (if IsFile(m, s.path) then Rotate(s.policy, m, s.path, env.rotate, listing).entries else m)
  {
    if IsFile(m, s.path) {
      var rot := Rotate(s.policy, m, s.path, env.rotate, listing);
      assert Collected(s, pos, m, env, listing) == AfterRotation(s, pos, rot, env);
      var rr := rot.result.value;
      var pos1 := if rr.rotated then 0 else pos;
      var notes := RotationNotes(rr);
      match StatSize(rot.entries, s.path, env.statFault)
      case Raised(e) => ReadReports(s, env, pos1, notes + ["stat failed: " + e], rot.entries);
      case Returned(size) => ReadReports(s, env, if pos1 > size then 0 else pos1, notes, rot.entries);
    }
  }

  /** A rotation always names its archive, so the note is "log rotated: "
      followed by the archive's path, and the bare "log rotated" note is
      never produced. */
  lemma RotationNamesArchive(policy: RotatePolicy, m: Entries, p: string, env: RotateEnv, listing: seq<string>)
    requires Rotate(policy, m, p, env, listing).result.Returned?
    requires Rotate(policy, m, p, env, listing).result.value.rotated
    ensures var rr := Rotate(policy, m, p, env, listing).result.value;
      && rr.archivedPath.Some?
      && RotationNotes(rr) == ["log rotated: " + rr.archivedPath.value]
      && (rr.archivedPath.value == GzArchive(p, env.stamp, policy.archiveSuffix)
          || rr.archivedPath.value == PlainArchive(p, env.stamp))
  {
    RotateReport(policy, m, p, env, listing);
    JoinLength(ArchiveDir(p), Name(p) + "." + env.stamp);
  }

  /** After a rotation the poll reads the new file from its start, with the
      rotation noted first (and a failed stat after it); by
      `RotationNamesArchive` that note names the archive. */
  lemma PollAfterRotation(s: Settings, pos: nat, m: Entries, env: PollEnv, listing: seq<string>)
    requires IsFile(m, s.path)
    requires Rotate(s.policy, m, s.path, env.rotate, listing).result.Returned?
    requires Rotate(s.policy, m, s.path, env.rotate, listing).result.value.rotated
    ensures var rot := Rotate(s.policy, m, s.path, env.rotate, listing);
      var st := StatSize(rot.entries, s.path, env.statFault);
      Collected(s, pos, m, env, listing)
      == ReadPhase(s, env, 0, RotationNotes(rot.result.value) + (if st.Raised? then ["stat failed: " + st.error] else []),
                   rot.entries)
  {
    var rot := Rotate(s.policy, m, s.path, env.rotate, listing);
    var notes := RotationNotes(rot.result.value);
    assert Collected(s, pos, m, env, listing) == AfterRotation(s, pos, rot, env);
    match StatSize(rot.entries, s.path, env.statFault)
    case Raised(e) =>
      assert AfterRotation(s, pos, rot, env) == ReadPhase(s, env, 0, notes + ["stat failed: " + e], rot.entries);
    case Returned(size) =>
      assert AfterRotation(s, pos, rot, env) == ReadPhase(s, env, 0, notes, rot.entries);
      assert notes + [] == notes;
  }

  /** Without a rotation, the cursor is kept when it lies within the file and
      goes back to the start when the file has become shorter than it. */
  lemma PollStaleCursor(s: Settings, pos: nat, m: Entries, env: PollEnv, listing: seq<string>)
    requires IsFile(m, s.path)
    requires Rotate(s.policy, m, s.path, env.rotate, listing).result.Returned?
    requires !Rotate(s.policy, m, s.path, env.rotate, listing).result.value.rotated
    requires StatSize(Rotate(s.policy, m, s.path, env.rotate, listing).entries, s.path, env.statFault).Returned?
    ensures var rot := Rotate(s.policy, m, s.path, env.rotate, listing);
      var size := StatSize(rot.entries, s.path, env.statFault).value;
      Collected(s, pos, m, env, listing) == ReadPhase(s, env, if pos > size then 0 else pos, [], rot.entries)
  {
  }

  /** A failed stat is noted and the poll goes on to read from the cursor it
      has; it never raises. */
  lemma PollStatFailed(s: Settings, pos: nat, m: Entries, env: PollEnv, listing: seq<string>)
    requires IsFile(m, s.path)
    requires Rotate(s.policy, m, s.path, env.rotate, listing).result.Returned?
    requires StatSize(Rotate(s.policy, m, s.path, env.rotate, listing).entries, s.path, env.statFault).Raised?
    ensures var rot := Rotate(s.policy, m, s.path, env.rotate, listing);
      var rr := rot.result.value;
      var e := StatSize(rot.entries, s.path, env.statFault).error;
      && Collected(s, pos, m, env, listing)
         == ReadPhase(s, env, if rr.rotated then 0 else pos, RotationNotes(rr) + ["stat failed: " + e], rot.entries)
      && Collected(s, pos, m, env, listing).result.Returned?
  {
  }

  // ------------------------------------------------------------- the read

  /** A successful read advances the cursor by exactly the characters of the
      lines it returned (a partial last line included), and an empty read
      leaves it where it was. */
  lemma ReadAdvances(s: Settings, env: PollEnv, start: nat, notes: seq<string>, m: Entries)
    requires IsFile(m, s.path) && env.readFault.None?
    ensures var r := ReadPhase(s, env, start, notes, m);
      var c := m[s.path].data;
      var raw := RawLines(c, start, s.maxLinesPerPoll);
      && r.result.Returned?
      && r.pos == start + Consumed(raw)
      && r.result.value.data.newLines == Shaped(raw, s.maxLineLength)
      && r.result.value.data.notes == notes
      && (start <= |c| ==> r.pos <= |c| && c[start..r.pos] == Concat(raw))
      && (start <= |c| && |raw| < s.maxLinesPerPoll ==> r.pos == |c|)
      && (r.result.value.data.newLines == [] ==> r.pos == start)
  {
    var c := m[s.path].data;
    var raw := RawLines(c, start, s.maxLinesPerPoll);
    var p := start + Consumed(raw);
    BatchCursor(c, start, s.maxLinesPerPoll, s.maxLineLength);
    assert ReadFrom(s, m, start, env.readFault) == Batch(Shaped(raw, s.maxLineLength), Returned(p));
    var rep := Report(s, env.ts, p, Shaped(raw, s.maxLineLength), notes);
    assert ReadPhase(s, env, start, notes, m) == Poll(Returned(rep), p, m);
    assert rep.data.newLines == Shaped(raw, s.maxLineLength) && rep.data.notes == notes;
  }

  /** A failed open or read is noted, keeps the cursor, and keeps the lines
      read before the failure, which are a prefix of what a read without the
      failure would have returned. */
  lemma ReadFails(s: Settings, env: PollEnv, start: nat, notes: seq<string>, m: Entries)
    requires !IsFile(m, s.path) || env.readFault.Some?
    ensures var r := ReadPhase(s, env, start, notes, m);
      var e := if IsFile(m, s.path) then env.readFault.value.error else OpenError(m, s.path);
      && r.result.Returned?
      && r.pos == start && r.entries == m
      && r.result.value.data.notes == notes + ["read failed: " + e]
      && (IsFile(m, s.path) ==>
            var ok := ReadBatch(m[s.path].data, start, s.maxLinesPerPoll, s.maxLineLength, None);
            var lines := r.result.value.data.newLines;
            |lines| <= env.readFault.value.after && lines == ok.lines[..|lines|])
      && (!IsFile(m, s.path) ==> r.result.value.data.newLines == [])
  {
    if IsFile(m, s.path) {
      BatchFault(m[s.path].data, start, s.maxLinesPerPoll, s.maxLineLength, env.readFault.value);
    }
  }

  lemma ReadBounded(s: Settings, env: PollEnv, start: nat, notes: seq<string>, m: Entries)
    ensures |ReadPhase(s, env, start, notes, m).result.value.data.newLines|
            <= if s.maxLinesPerPoll > 0 then s.maxLinesPerPoll else 0
  {
    if IsFile(m, s.path) {
      BatchBounded(m[s.path].data, start, s.maxLinesPerPoll, s.maxLineLength, env.readFault);
    }
  }

  /** No poll returns more lines than the per-poll limit. */
  lemma PollBounded(s: Settings, pos: nat, m: Entries, env: PollEnv, listing: seq<string>)
    requires Collected(s, pos, m, env, listing).result.Returned?
    ensures |Collected(s, pos, m, env, listing).result.value.data.newLines|
            <= if s.maxLinesPerPoll > 0 then s.maxLinesPerPoll else 0
  {
    if IsFile(m, s.path) {
      var rot := Rotate(s.policy, m, s.path, env.rotate, listing);
      var rr := rot.result.value;
      var pos1 := if rr.rotated then 0 else pos;
      var notes := RotationNotes(rr);
      match StatSize(rot.entries, s.path, env.statFault)
      case Raised(e) => ReadBounded(s, env, pos1, notes + ["stat failed: " + e], rot.entries);
      case Returned(size) => ReadBounded(s, env, if pos1 > size then 0 else pos1, notes, rot.entries);
    }
  }

  // ------------------------------------------------------------- the report

  /** The status is "WARN" exactly when some line matched some keyword, and
      then the one warning gives the number of hits, counted once per
      matching (line, keyword entry) pair; otherwise the status is "OK" and
      there is no warning. */
  lemma ReportStatus(s: Settings, ts: int, pos: nat, lines: seq<string>, notes: seq<string>)
    ensures var r := Report(s, ts, pos, lines, notes);
      var pats := Patterns(s.keywords);
      var n := |Increments(lines, pats)|;
      && r.warningCount == |r.warnings| <= 1
      && (r.status == "WARN" <==> n > 0)
      && (r.status == "WARN" <==> exists i, j :: 0 <= i < |lines| && 0 <= j < |pats| && Matches(lines[i], pats[j]))
      && (r.status != "WARN" ==> r.status == "OK" && r.warnings == [])
      && (r.status == "WARN" ==> r.warnings == ["Keyword hits: " + NatToString(n)])
  {
    var pats := Patterns(s.keywords);
    TallyTotal(Increments(lines, pats));
    AnyIncrement(lines, pats);
  }

  /** The number in the warning reads back as the hit total. */
  lemma WarningNumber(total: nat)
    requires total > 0
    ensures var w := KeywordWarnings(total)[0];
      && |w| > |"Keyword hits: "|
      && w[..|"Keyword hits: "|] == "Keyword hits: "
      && DigitsValue(w[|"Keyword hits: "|..]) == total
  {
    var w := KeywordWarnings(total)[0];
    assert w[|"Keyword hits: "|..] == NatToString(total);
    NatToStringRoundTrip(total);
  }

  /** A hit entry is in the list exactly when its keyword is a non-blank
      stripped keyword, some line contains it (ignoring ASCII case), and its
      count is the number of keyword entries stripping to it times the
      number of matching lines. So keywords that never matched are absent
      and every count is positive. */
  lemma HitListSpec(lines: seq<string>, keywords: seq<string>, h: LogKeywordHit)
    ensures var c := Tally(Increments(lines, Patterns(keywords)));
      h in HitList(c) <==>
        && h.keyword != [] && KeywordScan.Entries(keywords, h.keyword) > 0 && MatchingLines(lines, h.keyword) > 0
        && h.count == KeywordScan.Entries(keywords, h.keyword) * MatchingLines(lines, h.keyword)
  {
    var c := Tally(Increments(lines, Patterns(keywords)));
    var hs := HitEntries(c);
    SortDescCorrect(hs, CountKey);
    assert h in HitList(c) <==> h in multiset(HitList(c));
    assert h in HitList(c) <==> h in hs;
    HitKeys(lines, keywords);
    HitPresence(lines, keywords, h.keyword);
    if h.keyword in c.counts {
      HitCount(lines, keywords, h.keyword);
      var i :| 0 <= i < |c.keys| && c.keys[i] == h.keyword;
      assert hs[i] == LogKeywordHit(h.keyword, c.counts[h.keyword]);
    }
  }

  /** The list is sorted by count, highest first, holds exactly the counter's
      entries, and keeps entries with equal counts in the counter's order,
      which is the order in which their keywords first matched. */
  lemma HitListOrder(lines: seq<string>, keywords: seq<string>)
    ensures var s := Increments(lines, Patterns(keywords));
      var c := Tally(s);
      && c.keys == Dedup(s)
      && SortedDesc(HitList(c), CountKey)
      && multiset(HitList(c)) == multiset(HitEntries(c))
      && forall v :: WithKey(HitList(c), CountKey, v) == WithKey(HitEntries(c), CountKey, v)
  {
    HitKeys(lines, keywords);
    SortDescCorrect(HitEntries(Tally(Increments(lines, Patterns(keywords)))), CountKey);
  }

  function ExampleSettings(keywords: seq<string>): Settings {
    Settings("app.log", keywords, RotatePolicy(DefaultMaxBytes, DefaultKeepArchives, DefaultSuffix),
             DefaultMaxLinesPerPoll, DefaultMaxLineLength)
  }

  lemma ExampleMatches()
    ensures Matches("error again", "ERROR") && Matches("ERROR disk full", "ERROR")
    ensures !Matches("INFO ok", "ERROR")
  {
    assert LowerAll("INFO ok") == "info ok";
    assert LowerAll("ERROR") == "error";
    assert OccursAt("error", LowerAll("error again"), 0);
    ContainsSpec(LowerAll("error again"), "error");
    assert OccursAt("error", LowerAll("ERROR disk full"), 0);
    ContainsSpec(LowerAll("ERROR disk full"), "error");
    ContainsSpec("info ok", "error");
    forall i
      ensures !OccursAt("error", "info ok", i)
    {
      if 0 <= i <= 2 {
        assert "info ok"[i..i + 5][0] != 'e';
      }
    }
  }

  /** A keyword `str.strip()` leaves unchanged and that is not blank. */
  predicate Clean(k: string) {
    k != [] && Strip(k) == k
  }

  lemma ExampleIncrements(k: string, a: string, b: string, c: string)
    requires !Matches(a, k) && Matches(b, k) && Matches(c, k)
    ensures Increments([a, b, c], [k]) == [k, k]
  {
    var pats := [k];
    assert pats[..0] == [];
    assert LineIncrements(a, pats) == [];
    assert LineIncrements(b, pats) == [k];
    assert LineIncrements(c, pats) == [k];
    var lines := [a, b, c];
    assert lines[..2] == [a, b] && [a, b][..1] == [a] && [a][..0] == [];
    assert Increments([a], pats) == [];
    assert Increments([a, b], pats) == [k];
  }

  lemma TallyTwice(k: string)
    ensures Tally([k, k]) == Counter([k], map[k := 2])
  {
    assert [k, k][..1] == [k];
    assert [k][..0] == [];
    assert Tally([k]) == Counter([k], map[k := 1]);
    assert map[k := 1][k := 2] == map[k := 2];
  }

  /** Whatever the keywords and lines, two increments of one key report one
      entry with count 2. */
  lemma TwoHits(k: string, keywords: seq<string>, lines: seq<string>)
    requires Increments(lines, Patterns(keywords)) == [k, k]
    ensures var r := Report(ExampleSettings(keywords), 0, 0, lines, []);
      && r.data.keywordHits == [LogKeywordHit(k, 2)]
      && r.status == "WARN"
      && r.warnings == ["Keyword hits: 2"]
  {
    TallyTwice(k);
    var t := Counter([k], map[k := 2]);
    assert HitEntries(t) == [LogKeywordHit(k, 2)];
    SortSingle(LogKeywordHit(k, 2), CountKey);
    assert Total(t.keys, t.counts) == 2;
    assert DigitChar(2) == '2';
    assert NatToString(2) == "2";
    assert "Keyword hits: " + "2" == "Keyword hits: 2";
    assert KeywordWarnings(2) == ["Keyword hits: 2"];
  }

  /** One keyword, one line that does not match it and two that do. */
  lemma OneKeywordTwoHits(k: string, a: string, b: string, c: string)
    requires Clean(k)
    requires !Matches(a, k) && Matches(b, k) && Matches(c, k)
    ensures var r := Report(ExampleSettings([k]), 0, 0, [a, b, c], []);
      && r.data.keywordHits == [LogKeywordHit(k, 2)]
      && r.status == "WARN"
      && r.warnings == ["Keyword hits: 2"]
  {
    PatternsOne(k);
    ExampleIncrements(k, a, b, c);
    TwoHits(k, [k], [a, b, c]);
  }

  /** Matching ignores ASCII case: "ERROR" counts two of these three lines. */
  lemma ExampleCaseInsensitive()
    ensures var r := Report(ExampleSettings(["ERROR"]), 0, 0, ["INFO ok", "ERROR disk full", "error again"], []);
      && r.data.keywordHits == [LogKeywordHit("ERROR", 2)]
      && r.status == "WARN"
      && r.warnings == ["Keyword hits: 2"]
  {
    ExampleMatches();
    StripError();
    OneKeywordTwoHits("ERROR", "INFO ok", "ERROR disk full", "error again");
  }

  lemma DuplicateIncrements(k: string, a: string)
    requires Clean(k) && Matches(a, k)
    ensures Increments([a], Patterns([k, k])) == [k, k]
  {
    PatternsRepeated(k);
    PatternsOne(k);
    LineTwice(k, a);
    assert [a][..0] == [];
    assert Increments([a], [k, k]) == [] + LineIncrements(a, [k, k]);
  }

  lemma StripError()
    ensures Clean("ERROR")
  {
    assert !IsSpace('E') && !IsSpace('R');
    assert TrimStart("ERROR") == "ERROR";
    assert TrimEnd("ERROR") == "ERROR";
  }

  lemma PatternsOne(k: string)
    ensures Patterns([k]) == if Strip(k) == [] then [] else [Strip(k)]
  {
    assert [k][..0] == [];
  }

  lemma PatternsRepeated(k: string)
    ensures Patterns([k, k]) == Patterns([k]) + Patterns([k])
  {
    assert [k, k][..1] == [k];
    PatternsOne(k);
  }

  lemma LineTwice(k: string, a: string)
    requires Matches(a, k)
    ensures LineIncrements(a, [k, k]) == [k, k]
  {
    assert [k, k][..1] == [k] && [k][..0] == [];
    assert LineIncrements(a, [k]) == [k];
  }

  /** The same keyword given twice shares one counter key, and each
      matching line adds one hit per entry. */
  lemma DuplicateKeywordCountsTwice(k: string, a: string)
    requires Clean(k) && Matches(a, k)
    ensures var r := Report(ExampleSettings([k, k]), 0, 0, [a], []);
      && r.data.keywordHits == [LogKeywordHit(k, 2)]
      && r.warnings == ["Keyword hits: 2"]
  {
    DuplicateIncrements(k, a);
    TwoHits(k, [k, k], [a]);
  }
}
