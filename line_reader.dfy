/** The bounded incremental read of `LogAnalyzerCollector.collect`: seek to
    the cursor, call `readline()` at most `max_lines_per_poll` times, strip the
    line feed, cut long lines, and report where the file position ended up.
    The file is a character sequence already decoded and newline-translated;
    an offset counts consumed characters. */
module LineReader {
  import opened Wrappers
  import opened Text

  /** The ellipsis appended to a cut line. */
  const Ellipsis: char := '\U{2026}'

  /** Position just after the line that starts at `from`: past its '\n', or
      the end of the file for a last line without one. */
  function LineEnd(c: string, from: nat): (e: nat)
    requires from < |c|
    ensures from < e <= |c|
    decreases |c| - from
  {
    if c[from] == '\n' || from + 1 == |c| then from + 1 else LineEnd(c, from + 1)
  }

  /** The line ends just after its first '\n', or at the end of the file. */
  lemma {:induction false} LineEndSpec(c: string, from: nat)
    requires from < |c|
    ensures var e := LineEnd(c, from);
      && (c[e - 1] == '\n' || e == |c|)
      && forall i :: from <= i < e - 1 ==> c[i] != '\n'
    decreases |c| - from
  {
    if !(c[from] == '\n' || from + 1 == |c|) {
      LineEndSpec(c, from + 1);
    }
  }

  /** One `readline()` at position `pos`: "" at or past the end of the file. */
  function ReadLine(c: string, pos: nat): string {
    if pos >= |c| then "" else c[pos..LineEnd(c, pos)]
  }

  /** The raw results of at most `n` successive `readline()` calls from
      `from`, stopping at the first empty one. */
  function RawLines(c: string, from: nat, n: int): seq<string>
    decreases if n > 0 then n else 0
  {
    if n <= 0 || from >= |c| then [] else
    var e := LineEnd(c, from);
    [c[from..e]] + RawLines(c, e, n - 1)
  }

  lemma RawLinesCons(c: string, from: nat, n: int)
    requires n > 0 && from < |c|
    ensures RawLines(c, from, n) == [c[from..LineEnd(c, from)]] + RawLines(c, LineEnd(c, from), n - 1)
  {
  }

  /** Total number of characters in `lines`. */
  function Consumed(lines: seq<string>): nat {
    if lines == [] then 0 else Consumed(lines[..|lines| - 1]) + |lines[|lines| - 1]|
  }

  function Concat(lines: seq<string>): string {
    if lines == [] then [] else Concat(lines[..|lines| - 1]) + lines[|lines| - 1]
  }

  /** One line as the collector keeps it: `rstrip("\n")`, then cut to
      `maxLen` characters plus an ellipsis when it is longer than `maxLen`. */
  function ShapeLine(raw: string, maxLen: int): string {
    var s := RStripNewlines(raw);
    if |s| > maxLen then PyPrefix(s, maxLen) + [Ellipsis] else s
  }

  function Shaped(raw: seq<string>, maxLen: int): (r: seq<string>)
    ensures |r| == |raw|
  {
    seq(|raw|, i requires 0 <= i < |raw| => ShapeLine(raw[i], maxLen))
  }

  /** A read that raises: `after` lines had been appended when it did. */
  datatype ReadFault = ReadFault(after: nat, error: string)

  // ------------------------------------------------------------- lemmas

  lemma ConsumedSnoc(lines: seq<string>, x: string)
    ensures Consumed(lines + [x]) == Consumed(lines) + |x|
    ensures Concat(lines + [x]) == Concat(lines) + x
  {
    assert (lines + [x])[..|lines|] == lines;
  }

  lemma {:induction false} ConsumedCons(x: string, lines: seq<string>)
    ensures Consumed([x] + lines) == |x| + Consumed(lines)
    ensures Concat([x] + lines) == x + Concat(lines)
    decreases |lines|
  {
    if lines == [] {
      assert [x] + lines == [x];
      assert ([x] + lines)[..0] == [];
    } else {
      var init, last := lines[..|lines| - 1], lines[|lines| - 1];
      ConsumedCons(x, init);
      assert [x] + lines == ([x] + init) + [last];
      assert lines == init + [last];
      ConsumedSnoc([x] + init, last);
      ConsumedSnoc(init, last);
    }
  }

  /** A read returns at most `n` lines, never goes past the end of the file,
      and stops short of `n` lines only at the end of the file. */
  lemma {:induction false} RawLinesBound(c: string, from: nat, n: int)
    requires from <= |c|
    ensures var r := RawLines(c, from, n);
      && |r| <= (if n > 0 then n else 0)
      && from + Consumed(r) <= |c|
      && (|r| < n ==> from + Consumed(r) == |c|)
    decreases if n > 0 then n else 0
  {
    if n > 0 && from < |c| {
      var e := LineEnd(c, from);
      RawLinesBound(c, e, n - 1);
      ConsumedCons(c[from..e], RawLines(c, e, n - 1));
    }
  }

  /** What a read consumes is exactly the file text between the cursor and
      the new cursor: every character once, in order, nothing skipped. */
  lemma {:induction false} RawLinesText(c: string, from: nat, n: int)
    requires from <= |c|
    ensures from + Consumed(RawLines(c, from, n)) <= |c|
    ensures Concat(RawLines(c, from, n)) == c[from..from + Consumed(RawLines(c, from, n))]
    decreases if n > 0 then n else 0
  {
    RawLinesBound(c, from, n);
    if n > 0 && from < |c| {
      var e := LineEnd(c, from);
      var x, rest := c[from..e], RawLines(c, e, n - 1);
      RawLinesCons(c, from, n);
      RawLinesText(c, e, n - 1);
      ConsumedCons(x, rest);
      var whole := RawLines(c, from, n);
      assert from + Consumed(whole) == e + Consumed(rest);
      assert Concat(whole) == x + Concat(rest);
      SliceConcat(c, from, e, e + Consumed(rest));
    }
  }

  lemma SliceConcat(c: string, i: nat, j: nat, k: nat)
    requires i <= j <= k <= |c|
    ensures c[i..j] + c[j..k] == c[i..k]
  {
  }

  /** What one `readline()` can return: non-empty, with a '\n' only as its
      last character. */
  predicate IsReadLine(s: string) {
    s != [] && forall i :: 0 <= i < |s| - 1 ==> s[i] != '\n'
  }

  predicate EndsWithNewline(s: string) {
    s != [] && s[|s| - 1] == '\n'
  }

  /** Every line is what one `readline()` returns, and only the final line
      may lack its '\n'. */
  lemma {:induction false} RawLinesShape(c: string, from: nat, n: int)
    ensures forall k :: 0 <= k < |RawLines(c, from, n)| ==> IsReadLine(RawLines(c, from, n)[k])
    ensures forall k :: 0 <= k < |RawLines(c, from, n)| - 1 ==> EndsWithNewline(RawLines(c, from, n)[k])
    decreases if n > 0 then n else 0
  {
    if n > 0 && from < |c| {
      var e := LineEnd(c, from);
      var rest := RawLines(c, e, n - 1);
      RawLinesShape(c, e, n - 1);
      var r := RawLines(c, from, n);
      var r0 := c[from..e];
      LineEndSpec(c, from);
      assert r == [r0] + rest;
      assert IsReadLine(r0) by {
        forall i | 0 <= i < |r0| - 1 ensures r0[i] != '\n' {
          assert r0[i] == c[from + i];
        }
      }
      if rest != [] {
        assert e < |c|;
        assert r0[|r0| - 1] == c[e - 1];
      }
      assert forall k :: 1 <= k < |r| ==> r[k] == rest[k - 1];
    }
  }

  /** Reading `n` lines and then `m` more from where the first read stopped
      gives the same lines as reading `n + m` at once: the cursor hand-over
      between polls neither loses nor repeats a line. */
  lemma {:induction false} ReadResumes(c: string, from: nat, n: nat, m: nat)
    ensures RawLines(c, from, n) + RawLines(c, from + Consumed(RawLines(c, from, n)), m) == RawLines(c, from, n + m)
    decreases n
  {
    var first := RawLines(c, from, n);
    if n == 0 || from >= |c| {
      assert first == [] && Consumed(first) == 0;
      if from >= |c| {
        assert RawLines(c, from, m) == [] && RawLines(c, from, n + m) == [];
      }
    } else {
      var e := LineEnd(c, from);
      var x, rest := c[from..e], RawLines(c, e, n - 1);
      RawLinesCons(c, from, n);
      RawLinesCons(c, from, n + m);
      ReadResumes(c, e, n - 1, m);
      ConsumedCons(x, rest);
      var tail := RawLines(c, e + Consumed(rest), m);
      assert from + Consumed(first) == e + Consumed(rest);
      ConsGlue(first, x, rest, tail, RawLines(c, from, n + m));
    }
  }

  lemma ConsGlue(first: seq<string>, x: string, rest: seq<string>, tail: seq<string>, whole: seq<string>)
    requires first == [x] + rest && whole == [x] + (rest + tail)
    ensures first + tail == whole
  {
  }

  /** A line as `readline()` returns it loses exactly its one final '\n'. */
  lemma ReadLineStrip(raw: string)
    requires IsReadLine(raw)
    ensures RStripNewlines(raw) == if raw[|raw| - 1] == '\n' then raw[..|raw| - 1] else raw
  {
    var r := RStripNewlines(raw);
    if raw[|raw| - 1] == '\n' && |raw| > 1 {
      assert r == RStripNewlines(raw[..|raw| - 1]);
    }
  }

  /** A kept line is the raw text without its '\n', unchanged when it has at
      most `maxLen` characters, and otherwise exactly its first `maxLen`
      characters followed by the ellipsis. */
  lemma ShapeLineSpec(raw: string, maxLen: nat)
    requires IsReadLine(raw)
    ensures var body := if raw[|raw| - 1] == '\n' then raw[..|raw| - 1] else raw;
      var r := ShapeLine(raw, maxLen);
      && (|body| <= maxLen ==> r == body)
      && (|body| > maxLen ==> |r| == maxLen + 1 && r[..maxLen] == body[..maxLen] && r[maxLen] == Ellipsis)
  {
    ReadLineStrip(raw);
  }

  // ------------------------------------------------------------- the loop

  /** The read loop of `collect`: at most `maxLines` lines from `start`.
      Without a fault it returns the shaped lines and the new cursor; with
      one it returns the lines appended before the exception and no cursor. */
  method ReadNewLines(content: string, start: nat, maxLines: int, maxLen: int, fault: Option<ReadFault>)
    returns (lines: seq<string>, cursor: Outcome<nat>)
    ensures Batch(lines, cursor) == ReadBatch(content, start, maxLines, maxLen, fault)
  {
    lines := [];
    var pos := start;
    var k := 0;
    while k < maxLines
      invariant 0 <= k && (k <= maxLines || k == 0)
      invariant |RawLines(content, start, k)| == k
      invariant pos == start + Consumed(RawLines(content, start, k))
      invariant lines == Shaped(RawLines(content, start, k), maxLen)
      invariant fault.Some? ==> k <= fault.value.after
      decreases maxLines - k
    {
      if fault.Some? && fault.value.after == k {
        FaultExit(content, start, maxLines, maxLen, fault.value, pos);
        return lines, Raised(fault.value.error);
      }
      var line := ReadLine(content, pos);
      if line == [] {
        ReadStops(content, start, k, maxLines, pos);
        break;
      }
      ReadAdvance(content, start, k, pos, maxLen);
      lines := lines + [ShapeLine(line, maxLen)];
      pos := pos + |line|;
      k := k + 1;
    }
    EndExit(content, start, maxLines, maxLen, fault, k);
    if fault.Some? {
      return lines, Raised(fault.value.error);
    }
    cursor := Returned(pos);
  }

  /** One more non-empty readline: the read, the cursor and the kept lines
      all grow by that line. */
  lemma ReadAdvance(c: string, start: nat, k: nat, pos: nat, maxLen: int)
    requires |RawLines(c, start, k)| == k && pos == start + Consumed(RawLines(c, start, k))
    requires ReadLine(c, pos) != []
    ensures var line := ReadLine(c, pos);
      && RawLines(c, start, k + 1) == RawLines(c, start, k) + [line]
      && |RawLines(c, start, k + 1)| == k + 1
      && pos + |line| == start + Consumed(RawLines(c, start, k + 1))
      && Shaped(RawLines(c, start, k + 1), maxLen) == Shaped(RawLines(c, start, k), maxLen) + [ShapeLine(line, maxLen)]
  {
    var line := ReadLine(c, pos);
    ReadStep(c, start, k, pos);
    ConsumedSnoc(RawLines(c, start, k), line);
    ShapedSnoc(RawLines(c, start, k), line, maxLen);
  }

  /** The loop ended without an exception: the `k` lines read are all the
      batch holds. */
  lemma EndExit(c: string, start: nat, maxLines: int, maxLen: int, fault: Option<ReadFault>, k: nat)
    requires RawLines(c, start, maxLines) == RawLines(c, start, k) && |RawLines(c, start, k)| == k
    requires fault.Some? ==> k <= fault.value.after
    ensures var raw := RawLines(c, start, k);
      ReadBatch(c, start, maxLines, maxLen, fault)
      == if fault.None? then Batch(Shaped(raw, maxLen), Returned(start + Consumed(raw)))
         else Batch(Shaped(raw, maxLen), Raised(fault.value.error))
  {
    var raw := RawLines(c, start, k);
    assert Shaped(raw, maxLen)[..|raw|] == Shaped(raw, maxLen);
  }

  /** A fault raised before the `k`-th readline, with `k` lines read so far,
      keeps exactly those lines. */
  lemma FaultExit(c: string, start: nat, maxLines: int, maxLen: int, f: ReadFault, pos: nat)
    requires f.after < maxLines
    requires |RawLines(c, start, f.after)| == f.after && pos == start + Consumed(RawLines(c, start, f.after))
    ensures ReadBatch(c, start, maxLines, maxLen, Some(f)) == Batch(Shaped(RawLines(c, start, f.after), maxLen), Raised(f.error))
  {
    ReadStops(c, start, f.after, maxLines, pos);
    ShapedPrefix(RawLines(c, start, maxLines), f.after, maxLen);
  }

  /** What one poll's read hands back: the kept lines and either the new
      cursor or the exception that ended the read. */
  datatype Batch = Batch(lines: seq<string>, cursor: Outcome<nat>)

  /** The read loop's result: without a fault, all lines `RawLines` describes,
      shaped, and the cursor just past them; with a fault raised after
      `after` lines, those lines (or all, if fewer were available) and no
      cursor. */
  function ReadBatch(content: string, start: nat, maxLines: int, maxLen: int, fault: Option<ReadFault>): Batch {
    var raw := RawLines(content, start, maxLines);
    match fault
    case None => Batch(Shaped(raw, maxLen), Returned(start + Consumed(raw)))
    case Some(f) => Batch(Shaped(raw, maxLen)[..if f.after < |raw| then f.after else |raw|], Raised(f.error))
  }

  lemma ShapedPrefix(raw: seq<string>, k: nat, maxLen: int)
    requires k <= |raw|
    ensures Shaped(raw, maxLen)[..k] == Shaped(raw[..k], maxLen)
  {
  }

  lemma ReadStep(c: string, start: nat, k: nat, pos: nat)
    requires |RawLines(c, start, k)| == k && pos == start + Consumed(RawLines(c, start, k))
    requires ReadLine(c, pos) != []
    ensures RawLines(c, start, k + 1) == RawLines(c, start, k) + [ReadLine(c, pos)]
  {
    ReadResumes(c, start, k, 1);
    assert pos < |c|;
    var e := LineEnd(c, pos);
    assert RawLines(c, e, 0) == [];
    assert RawLines(c, pos, 1) == [c[pos..e]] + RawLines(c, e, 0);
  }

  lemma ShapedSnoc(raw: seq<string>, x: string, maxLen: int)
    ensures Shaped(raw + [x], maxLen) == Shaped(raw, maxLen) + [ShapeLine(x, maxLen)]
  {
  }

  /** Helper for the loop: after `k` lines the remaining calls either
      continue from the cursor or find nothing. */
  lemma ReadStops(c: string, start: nat, k: nat, n: int, pos: nat)
    requires k <= n
    requires |RawLines(c, start, k)| == k && pos == start + Consumed(RawLines(c, start, k))
    ensures ReadLine(c, pos) == [] ==> RawLines(c, start, n) == RawLines(c, start, k)
    ensures |RawLines(c, start, n)| >= k && RawLines(c, start, n)[..k] == RawLines(c, start, k)
  {
    var done := RawLines(c, start, k);
    var tail := RawLines(c, pos, n - k);
    ReadResumes(c, start, k, n - k);
    assert done + tail == RawLines(c, start, n);
    if ReadLine(c, pos) == [] {
      assert pos >= |c|;
      assert tail == [];
      assert done + tail == done;
    }
    assert (done + tail)[..k] == done;
  }

  // ------------------------------------------------------------- one poll

  /** A poll returns at most `maxLines` lines (none when `maxLines` is not
      positive, as `range` of it is empty). */
  lemma BatchBounded(content: string, start: nat, maxLines: int, maxLen: int, fault: Option<ReadFault>)
    ensures |ReadBatch(content, start, maxLines, maxLen, fault).lines| <= if maxLines > 0 then maxLines else 0
  {
    if start <= |content| {
      RawLinesBound(content, start, maxLines);
    } else {
      assert RawLines(content, start, maxLines) == [];
    }
  }

  /** The `i`-th kept line is the `i`-th `readline()` result without its final newline,
      unchanged when it has at most `maxLen` characters and otherwise its first
      `maxLen` characters followed by the ellipsis. */
  lemma BatchLine(content: string, start: nat, maxLines: int, maxLen: nat, fault: Option<ReadFault>, i: nat)
    requires i < |ReadBatch(content, start, maxLines, maxLen, fault).lines|
    ensures var raw := RawLines(content, start, maxLines)[i];
      var line := ReadBatch(content, start, maxLines, maxLen, fault).lines[i];
      && IsReadLine(raw)
      && var body := if raw[|raw| - 1] == '\n' then raw[..|raw| - 1] else raw;
      && (|body| <= maxLen ==> line == body)
      && (|body| > maxLen ==> |line| == maxLen + 1 && line[..maxLen] == body[..maxLen] && line[maxLen] == Ellipsis)
  {
    var raw := RawLines(content, start, maxLines);
    RawLinesShape(content, start, maxLines);
    assert IsReadLine(raw[i]);
    ShapeLineSpec(raw[i], maxLen);
  }

  /** A read that does not fail moves the cursor over exactly the text it
      consumed, final unterminated line included; it reads to the end of the
      file unless the batch is full; and it returns nothing, leaving the
      cursor where it was, exactly when there is nothing past the cursor or
      no line may be read. */
  lemma BatchCursor(content: string, start: nat, maxLines: int, maxLen: int)
    ensures var b := ReadBatch(content, start, maxLines, maxLen, None);
      var raw := RawLines(content, start, maxLines);
      && b.cursor == Returned(start + Consumed(raw))
      && (start <= |content| ==> start + Consumed(raw) <= |content| && content[start..start + Consumed(raw)] == Concat(raw))
      && (start <= |content| && |raw| < maxLines ==> start + Consumed(raw) == |content|)
      && (b.lines == [] <==> start >= |content| || maxLines <= 0)
      && (b.lines == [] ==> b.cursor == Returned(start))
  {
    var raw := RawLines(content, start, maxLines);
    if start <= |content| {
      RawLinesBound(content, start, maxLines);
      RawLinesText(content, start, maxLines);
    }
    if start < |content| && maxLines > 0 {
      assert raw == [content[start..LineEnd(content, start)]] + RawLines(content, LineEnd(content, start), maxLines - 1);
    }
  }

  /** A read that fails reports the exception and keeps only lines a
      successful read would have returned first. */
  lemma BatchFault(content: string, start: nat, maxLines: int, maxLen: int, f: ReadFault)
    ensures var b := ReadBatch(content, start, maxLines, maxLen, Some(f));
      var ok := ReadBatch(content, start, maxLines, maxLen, None);
      && b.cursor == Raised(f.error)
      && |b.lines| <= f.after
      && b.lines == ok.lines[..|b.lines|]
  {
  }

  /** Two consecutive polls of `n` and `m` lines return what one poll of
      `n + m` lines would: the stored cursor neither loses nor repeats a line. */
  lemma PollsResume(content: string, start: nat, n: nat, m: nat, maxLen: int)
    ensures var first := ReadBatch(content, start, n, maxLen, None);
      var second := ReadBatch(content, first.cursor.value, m, maxLen, None);
      var both := ReadBatch(content, start, n + m, maxLen, None);
      first.lines + second.lines == both.lines && second.cursor == both.cursor
  {
    var r1 := RawLines(content, start, n);
    var r2 := RawLines(content, start + Consumed(r1), m);
    ReadResumes(content, start, n, m);
    ShapedAppend(r1, r2, maxLen);
    ConsumedAppend(r1, r2);
  }

  lemma ShapedAppend(a: seq<string>, b: seq<string>, maxLen: int)
    ensures Shaped(a + b, maxLen) == Shaped(a, maxLen) + Shaped(b, maxLen)
  {
  }

  lemma {:induction false} ConsumedAppend(a: seq<string>, b: seq<string>)
    ensures Consumed(a + b) == Consumed(a) + Consumed(b)
    decreases |b|
  {
    if b == [] {
      assert a + b == a;
    } else {
      var init := b[..|b| - 1];
      ConsumedAppend(a, init);
      assert a + b == (a + init) + [b[|b| - 1]];
      ConsumedSnoc(a + init, b[|b| - 1]);
      assert b == init + [b[|b| - 1]];
      ConsumedSnoc(init, b[|b| - 1]);
    }
  }

  /** A line still being written is split: a poll that sees "abc" consumes it,
      and once the writer has finished the line as "abcdef\n" the next poll
      returns only "def". */
  lemma PartialLineSplit()
    ensures ReadBatch("abc", 0, 500, 2000, None) == Batch(["abc"], Returned(3))
    ensures ReadBatch("abcdef\n", 3, 500, 2000, None) == Batch(["def"], Returned(7))
  {
    assert LineEnd("abc", 0) == 3;
    assert "abc"[0..3] == "abc";
    assert RawLines("abc", 0, 500) == ["abc"] + RawLines("abc", 3, 499);
    assert ShapeLine("abc", 2000) == "abc";
    assert LineEnd("abcdef\n", 3) == 7;
    assert "abcdef\n"[3..7] == "def\n";
    assert RawLines("abcdef\n", 3, 500) == ["def\n"] + RawLines("abcdef\n", 7, 499);
    assert RStripNewlines("def\n") == RStripNewlines("def");
    assert ShapeLine("def\n", 2000) == "def";
    ConsumedSnoc([], "def\n");
    ConsumedSnoc([], "abc");
    assert [] + ["abc"] == ["abc"];
    assert [] + ["def\n"] == ["def\n"];
  }
}
