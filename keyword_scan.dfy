/** `LogAnalyzerCollector._keyword_hits`: one case-insensitive literal
    matcher per stripped, non-empty keyword, and a `collections.Counter`
    incremented once per (line, matcher) pair that matches. */
module KeywordScan {
  import opened Text

  /** The matcher keys, in configuration order: every keyword stripped,
      blank ones dropped, duplicates kept. */
  function Patterns(keywords: seq<string>): seq<string> {
    if keywords == [] then [] else
    var k := Strip(keywords[|keywords| - 1]);
    Patterns(keywords[..|keywords| - 1]) + (if k == [] then [] else [k])
  }

  /** How many configured keywords strip to `key`. */
  function Entries(keywords: seq<string>, key: string): nat {
    if keywords == [] then 0
    else Entries(keywords[..|keywords| - 1], key) + (if Strip(keywords[|keywords| - 1]) == key then 1 else 0)
  }

  /** The matcher keys are the stripped keywords that are not blank: a
      non-empty key occurs once per keyword entry that strips to it (so
      duplicate entries share a key), and the empty string never occurs. */
  lemma {:induction false} PatternsSpec(keywords: seq<string>, key: string)
    ensures multiset(Patterns(keywords))[key] == if key == [] then 0 else Entries(keywords, key)
    decreases |keywords|
  {
    if keywords != [] {
      PatternsSpec(keywords[..|keywords| - 1], key);
    }
  }

  /** A line matches a key when the key occurs in it, ignoring case. */
  predicate Matches(line: string, key: string) {
    ContainsIgnoreCase(line, key)
  }

  /** The keys incremented while scanning one line, in matcher order. */
  function LineIncrements(line: string, pats: seq<string>): seq<string> {
    if pats == [] then [] else
    var last := pats[|pats| - 1];
    LineIncrements(line, pats[..|pats| - 1]) + (if Matches(line, last) then [last] else [])
  }

  /** Every increment of the scan, in the order the nested loops make them. */
  function Increments(lines: seq<string>, pats: seq<string>): seq<string> {
    if lines == [] then [] else Increments(lines[..|lines| - 1], pats) + LineIncrements(lines[|lines| - 1], pats)
  }

  /** How many of `lines` match `key`. */
  function MatchingLines(lines: seq<string>, key: string): nat {
    if lines == [] then 0
    else MatchingLines(lines[..|lines| - 1], key) + (if Matches(lines[|lines| - 1], key) then 1 else 0)
  }

  // ------------------------------------------------------------ the counter

  /** A `collections.Counter` of strings: its keys in insertion order and
      their counts. */
  datatype Counter = Counter(keys: seq<string>, counts: map<string, nat>)

  /** `c[k] += 1`: a missing key enters at the end with count 1. */
  function Inc(c: Counter, k: string): Counter {
    if k in c.counts then Counter(c.keys, c.counts[k := c.counts[k] + 1])
    else Counter(c.keys + [k], c.counts[k := 1])
  }

  /** The first occurrences of the elements of `s`, in order. */
  function Dedup(s: seq<string>): seq<string> {
    if s == [] then [] else
    var d := Dedup(s[..|s| - 1]);
    if s[|s| - 1] in d then d else d + [s[|s| - 1]]
  }

  /** The counter a stream of increments leaves, one `c[k] += 1` at a time. */
  function Tally(s: seq<string>): Counter {
    if s == [] then Counter([], map[]) else Inc(Tally(s[..|s| - 1]), s[|s| - 1])
  }

  predicate Distinct(s: seq<string>) {
    forall i, j :: 0 <= i < j < |s| ==> s[i] != s[j]
  }

  lemma {:induction false} DedupSpec(s: seq<string>)
    ensures Distinct(Dedup(s))
    ensures forall k :: k in Dedup(s) <==> k in s
    decreases |s|
  {
    if s != [] {
      var init := s[..|s| - 1];
      DedupSpec(init);
      assert s == init + [s[|s| - 1]];
    }
  }

  /** Counting one more increment is `c[k] += 1` on the counter so far. */
  lemma TallySnoc(s: seq<string>, k: string)
    ensures Tally(s + [k]) == Inc(Tally(s), k)
  {
    assert (s + [k])[..|s|] == s;
  }

  /** What a counter built from a stream of increments holds: its keys are
      the distinct incremented strings in order of first increment, and each
      key's count is the number of times it was incremented. */
  lemma {:induction false} TallyMeaning(s: seq<string>)
    ensures Tally(s).keys == Dedup(s)
    ensures forall k :: k in Tally(s).counts <==> k in s
    ensures forall k :: k in Tally(s).counts ==> Tally(s).counts[k] == multiset(s)[k]
    decreases |s|
  {
    if s != [] {
      var init, x := s[..|s| - 1], s[|s| - 1];
      TallyMeaning(init);
      DedupSpec(init);
      assert s == init + [x];
      assert multiset(s) == multiset(init) + multiset{x};
    }
  }

  // ------------------------------------------------------------ the scan

  /** The matcher list: each keyword stripped, blank ones skipped. */
  method BuildPatterns(keywords: seq<string>) returns (pats: seq<string>)
    ensures pats == Patterns(keywords)
  {
    pats := [];
    for i := 0 to |keywords|
      invariant pats == Patterns(keywords[..i])
    {
      assert keywords[..i + 1][..i] == keywords[..i];
      var k := Strip(keywords[i]);
      if k == [] {
        continue;
      }
      pats := pats + [k];
    }
    assert keywords[..|keywords|] == keywords;
  }

  /** The inner loop: every matcher tried against one line. */
  method ScanLine(line: string, pats: seq<string>, c0: Counter, ghost done: seq<string>) returns (c: Counter)
    requires c0 == Tally(done)
    ensures c == Tally(done + LineIncrements(line, pats))
  {
    c := c0;
    ghost var row: seq<string> := [];
    assert done + row == done;
    for j := 0 to |pats|
      invariant row == LineIncrements(line, pats[..j])
      invariant c == Tally(done + row)
    {
      LineIncrementsSnoc(line, pats, j);
      if Matches(line, pats[j]) {
        TallySnoc(done + row, pats[j]);
        assert done + (row + [pats[j]]) == (done + row) + [pats[j]];
        c := Inc(c, pats[j]);
        row := row + [pats[j]];
      }
    }
    assert pats[..|pats|] == pats;
  }

  /** `_keyword_hits(lines, keywords)`: an empty keyword list gives an empty
      counter; otherwise the matcher list is built and every line is tried
      against every matcher. The counter equals the tally of the increments. */
  method KeywordHits(lines: seq<string>, keywords: seq<string>) returns (c: Counter)
    ensures c == Tally(Increments(lines, Patterns(keywords)))
  {
    c := Counter([], map[]);
    if keywords == [] {
      NoPatternsNoIncrements(lines);
      return;
    }
    var pats := BuildPatterns(keywords);
    ghost var done: seq<string> := [];
    for i := 0 to |lines|
      invariant done == Increments(lines[..i], pats)
      invariant c == Tally(done)
    {
      c := ScanLine(lines[i], pats, c, done);
      IncrementsSnoc(lines, i, pats);
      done := done + LineIncrements(lines[i], pats);
    }
    assert lines[..|lines|] == lines;
  }

  lemma {:induction false} NoPatternsNoIncrements(lines: seq<string>)
    ensures Increments(lines, []) == []
    decreases |lines|
  {
    if lines != [] {
      NoPatternsNoIncrements(lines[..|lines| - 1]);
    }
  }

  lemma IncrementsSnoc(lines: seq<string>, i: nat, pats: seq<string>)
    requires i < |lines|
    ensures Increments(lines[..i + 1], pats) == Increments(lines[..i], pats) + LineIncrements(lines[i], pats)
  {
    assert lines[..i + 1][..i] == lines[..i];
  }

  lemma LineIncrementsSnoc(line: string, pats: seq<string>, j: nat)
    requires j < |pats|
    ensures LineIncrements(line, pats[..j + 1])
         == LineIncrements(line, pats[..j]) + (if Matches(line, pats[j]) then [pats[j]] else [])
  {
    assert pats[..j + 1][..j] == pats[..j];
  }

  // ------------------------------------------------------------ its meaning

  lemma {:induction false} LineIncrementsCount(line: string, pats: seq<string>, k: string)
    ensures multiset(LineIncrements(line, pats))[k] == if Matches(line, k) then multiset(pats)[k] else 0
    decreases |pats|
  {
    if pats != [] {
      var init := pats[..|pats| - 1];
      LineIncrementsCount(line, init, k);
      assert pats == init + [pats[|pats| - 1]];
    }
  }

  lemma {:induction false} IncrementsCount(lines: seq<string>, pats: seq<string>, k: string)
    ensures multiset(Increments(lines, pats))[k] == multiset(pats)[k] * MatchingLines(lines, k)
    decreases |lines|
  {
    if lines != [] {
      var init, last := lines[..|lines| - 1], lines[|lines| - 1];
      IncrementsCount(init, pats, k);
      LineIncrementsCount(last, pats, k);
      IncrementsLast(lines, pats, k);
      var a, b := multiset(pats)[k], MatchingLines(init, k);
      calc {
        multiset(Increments(lines, pats))[k];
        multiset(Increments(init, pats))[k] + multiset(LineIncrements(last, pats))[k];
        a * b + (if Matches(last, k) then a else 0);
        { CountStep(a, b, Matches(last, k), MatchingLines(lines, k)); }
        a * MatchingLines(lines, k);
      }
    }
  }

  lemma IncrementsLast(lines: seq<string>, pats: seq<string>, k: string)
    requires lines != []
    ensures var init, last := lines[..|lines| - 1], lines[|lines| - 1];
      && multiset(Increments(lines, pats))[k] == multiset(Increments(init, pats))[k] + multiset(LineIncrements(last, pats))[k]
      && MatchingLines(lines, k) == MatchingLines(init, k) + (if Matches(last, k) then 1 else 0)
  {
    var init, last := lines[..|lines| - 1], lines[|lines| - 1];
    var before, now := Increments(init, pats), LineIncrements(last, pats);
    assert Increments(lines, pats) == before + now;
    assert multiset(before + now)[k] == multiset(before)[k] + multiset(now)[k];
  }

  /** One more line adds the number of patterns equal to the key, or nothing. */
  lemma CountStep(a: nat, b: nat, matched: bool, total: nat)
    requires total == b + if matched then 1 else 0
    ensures a * b + (if matched then a else 0) == a * total
  {
    if matched {
      assert a * (b + 1) == a * b + a;
    }
  }

  lemma {:induction false} MatchingLinesBound(lines: seq<string>, k: string)
    ensures MatchingLines(lines, k) <= |lines|
    ensures MatchingLines(lines, k) > 0 <==> exists i :: 0 <= i < |lines| && Matches(lines[i], k)
    decreases |lines|
  {
    if lines != [] {
      var init := lines[..|lines| - 1];
      MatchingLinesBound(init, k);
      assert forall i :: 0 <= i < |init| ==> init[i] == lines[i];
    }
  }

  /** The counter `_keyword_hits` returns, key by key: a key is present
      exactly when some keyword entry strips to it, it is not blank, and
      some line contains it (ignoring case). */
  lemma HitPresence(lines: seq<string>, keywords: seq<string>, key: string)
    ensures key in Tally(Increments(lines, Patterns(keywords))).counts <==>
      key != [] && Entries(keywords, key) > 0 && MatchingLines(lines, key) > 0
  {
    var s := Increments(lines, Patterns(keywords));
    TallyMeaning(s);
    HitMultiplicity(lines, keywords, key);
    var e := if key == [] then 0 else Entries(keywords, key);
    MulPositive(e, MatchingLines(lines, key));
    assert key in s <==> multiset(s)[key] > 0;
  }

  /** A present key counts the entries that strip to it times the lines
      that contain it, so at most that number of entries times the number
      of lines. */
  lemma HitCount(lines: seq<string>, keywords: seq<string>, key: string)
    requires key in Tally(Increments(lines, Patterns(keywords))).counts
    ensures var n := Tally(Increments(lines, Patterns(keywords))).counts[key];
      n == Entries(keywords, key) * MatchingLines(lines, key) && n <= Entries(keywords, key) * |lines|
  {
    var s := Increments(lines, Patterns(keywords));
    TallyMeaning(s);
    assert key != [] by {
      HitPresence(lines, keywords, key);
    }
    HitMultiplicity(lines, keywords, key);
    MatchingLinesBound(lines, key);
    MulMono(Entries(keywords, key), MatchingLines(lines, key), |lines|);
  }

  lemma HitMultiplicity(lines: seq<string>, keywords: seq<string>, key: string)
    ensures multiset(Increments(lines, Patterns(keywords)))[key] ==
      (if key == [] then 0 else Entries(keywords, key)) * MatchingLines(lines, key)
  {
    PatternsSpec(keywords, key);
    IncrementsCount(lines, Patterns(keywords), key);
  }

  lemma MulPositive(a: nat, b: nat)
    ensures a * b > 0 <==> a > 0 && b > 0
  {
  }

  /** The counter's keys are distinct, in order of first increment, and
      match its count map. */
  lemma HitKeys(lines: seq<string>, keywords: seq<string>)
    ensures var s := Increments(lines, Patterns(keywords));
      && Tally(s).keys == Dedup(s)
      && Distinct(Tally(s).keys)
      && forall k :: k in Tally(s).keys <==> k in Tally(s).counts
  {
    var s := Increments(lines, Patterns(keywords));
    TallyMeaning(s);
    DedupSpec(s);
  }

  lemma MulMono(a: nat, b: nat, c: nat)
    requires b <= c
    ensures a * b <= a * c
  {
  }

  /** With no keywords, or only blank ones, nothing is counted. */
  lemma NoKeywordsNoHits(lines: seq<string>, keywords: seq<string>)
    requires forall j :: 0 <= j < |keywords| ==> Strip(keywords[j]) == []
    ensures Tally(Increments(lines, Patterns(keywords))) == Counter([], map[])
  {
    assert Patterns(keywords) == [] by {
      BlankPatterns(keywords);
    }
    NoPatternsNoIncrements(lines);
  }

  lemma {:induction false} BlankPatterns(keywords: seq<string>)
    requires forall j :: 0 <= j < |keywords| ==> Strip(keywords[j]) == []
    ensures Patterns(keywords) == []
    decreases |keywords|
  {
    if keywords != [] {
      BlankPatterns(keywords[..|keywords| - 1]);
    }
  }

  // ------------------------------------------------------------ the total

  /** `c[k]`: a `Counter` reads 0 for a key it does not hold. */
  function Get(counts: map<string, nat>, k: string): nat {
    if k in counts then counts[k] else 0
  }

  /** `sum(c.values())`, summing over the keys in order. */
  function Total(keys: seq<string>, counts: map<string, nat>): nat {
    if keys == [] then 0 else Total(keys[..|keys| - 1], counts) + Get(counts, keys[|keys| - 1])
  }

  lemma {:induction false} TotalOther(keys: seq<string>, counts: map<string, nat>, k: string, v: nat)
    requires k !in keys
    ensures Total(keys, counts[k := v]) == Total(keys, counts)
    decreases |keys|
  {
    if keys != [] {
      var init := keys[..|keys| - 1];
      assert forall x :: x in init ==> x in keys;
      TotalOther(init, counts, k, v);
    }
  }

  lemma {:induction false} TotalBump(keys: seq<string>, counts: map<string, nat>, k: string)
    requires Distinct(keys) && k in keys
    ensures Total(keys, counts[k := Get(counts, k) + 1]) == Total(keys, counts) + 1
    decreases |keys|
  {
    var init := keys[..|keys| - 1];
    assert forall x :: x in init ==> x in keys;
    if keys[|keys| - 1] == k {
      assert k !in init;
      TotalOther(init, counts, k, Get(counts, k) + 1);
    } else {
      assert k in init;
      TotalBump(init, counts, k);
    }
  }

  /** The counter's total is the number of increments: every (line,
      matcher) pair that matched adds exactly one. */
  lemma {:induction false} TallyTotal(s: seq<string>)
    ensures forall k :: k in Tally(s).keys ==> k in Tally(s).counts
    ensures Total(Tally(s).keys, Tally(s).counts) == |s|
    decreases |s|
  {
    DedupSpec(s);
    if s != [] {
      var init, k := s[..|s| - 1], s[|s| - 1];
      assert s == init + [k];
      TallyTotal(init);
      TallySnoc(init, k);
      DedupSpec(init);
      var c := Tally(init);
      TallyMeaning(init);
      if k in c.counts {
        TotalBump(c.keys, c.counts, k);
      } else {
        TotalOther(c.keys, c.counts, k, 1);
        assert c.keys + [k] != [] && (c.keys + [k])[..|c.keys|] == c.keys;
      }
    }
  }

  lemma {:induction false} AnyLineIncrement(line: string, pats: seq<string>)
    ensures |LineIncrements(line, pats)| > 0 <==> exists j :: 0 <= j < |pats| && Matches(line, pats[j])
    decreases |pats|
  {
    if pats != [] {
      var init := pats[..|pats| - 1];
      AnyLineIncrement(line, init);
      assert forall j :: 0 <= j < |init| ==> init[j] == pats[j];
    }
  }

  /** Some key is counted exactly when some line contains some non-blank
      keyword. */
  lemma {:induction false} AnyIncrement(lines: seq<string>, pats: seq<string>)
    ensures |Increments(lines, pats)| > 0 <==>
      exists i, j :: 0 <= i < |lines| && 0 <= j < |pats| && Matches(lines[i], pats[j])
    decreases |lines|
  {
    if lines != [] {
      var init := lines[..|lines| - 1];
      AnyIncrement(init, pats);
      AnyLineIncrement(lines[|lines| - 1], pats);
      assert forall i :: 0 <= i < |init| ==> init[i] == lines[i];
    }
  }
}
