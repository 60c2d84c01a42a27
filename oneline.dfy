/** pkg/oneline/oneline.go: the "One-line note" chapter of a daily note, which
    lists the summaries of a few past days (a week, a month, six months and one
    to three years back), generating and saving a missing summary with the AI
    when one is configured. */
module OneLine {
  import opened Results
  import opened Text
  import opened Calendar
  import opened Files
  import opened Ai
  import opened Config
  import opened Template
  import opened DailyNote

  // ---------------------------------------------------------------------
  // The past days
  // ---------------------------------------------------------------------

  /** A week, one month and six months before `target`, with `AddDate`'s normalisation. */
  function FixedDates(target: int): seq<int> {
    [AddDate(target, 0, 0, -7), AddDate(target, 0, -1, 0), AddDate(target, 0, -6, 0)]
  }

  /** `n` to three years before `target`. */
  function YearDates(target: int, n: int): (r: seq<int>)
    requires 1 <= n <= 4
    ensures |r| == 4 - n
    decreases 4 - n
  {
    if n == 4 then [] else [AddDate(target, -n, 0, 0)] + YearDates(target, n + 1)
  }

  /** The days listed in a note for `target`. */
  function PastDates(target: int): (r: seq<int>)
    ensures |r| == 6
  {
    FixedDates(target) + YearDates(target, 1)
  }

  /** A week back is exactly seven days back. */
  lemma WeekBack(target: int)
    ensures PastDates(target)[0] == target - 7
  {
    AddDays(target, -7);
  }

  lemma MonthLengthAtLeast28(y: int, m: int)
    requires 1 <= m <= 12
    ensures DaysInMonth(y, m) >= 28
  {
  }

  /** Going `n` months back from a day of month up to 28 keeps the day of
      month and moves the month count (year * 12 + month) back by `n`. */
  lemma MonthsBack(d: int, n: int)
    requires ToCivil(d).day <= 28
    ensures var c := ToCivil(d);
      var b := ToCivil(AddDate(d, 0, -n, 0));
      b.day == c.day && b.year * 12 + b.month == c.year * 12 + c.month - n
  {
    var c := ToCivil(d);
    var m0 := c.month - n - 1;
    var b := Civil(c.year + m0 / 12, m0 % 12 + 1, c.day);
    MonthLengthAtLeast28(b.year, b.month);
    assert AddDate(d, 0, -n, 0) == FromCivil(b);
    ToFromCivil(b);
  }

  /** Going `n` years back keeps month and day, except from a 29 February. */
  lemma YearsBack(d: int, n: int)
    requires ToCivil(d).month != 2 || ToCivil(d).day <= 28
    ensures var c := ToCivil(d);
      ToCivil(AddDate(d, -n, 0, 0)) == Civil(c.year - n, c.month, c.day)
  {
    var c := ToCivil(d);
    var b := Civil(c.year - n, c.month, c.day);
    assert (c.month - 1) / 12 == 0 && (c.month - 1) % 12 == c.month - 1;
    MonthLengthAtLeast28(b.year, b.month);
    assert AddDate(d, -n, 0, 0) == FromCivil(b);
    ToFromCivil(b);
  }

  // ---------------------------------------------------------------------
  // getSummaryWithAIFallback
  // ---------------------------------------------------------------------

  /** What a note's one-line summary shows when there is none. */
  const Missing := "missing"

  /** The first line at or after `i` whose trimmed text starts with "# LOG". */
  function LogTitleFrom(lines: seq<string>, i: nat): (r: Option<nat>)
    requires i <= |lines|
    ensures r.Some? ==> i <= r.value < |lines| && HasPrefix(TrimSpace(lines[r.value]), "# LOG")
    ensures r.Some? ==> forall j :: i <= j < r.value ==> !HasPrefix(TrimSpace(lines[j]), "# LOG")
    ensures r.None? ==> forall j :: i <= j < |lines| ==> !HasPrefix(TrimSpace(lines[j]), "# LOG")
    decreases |lines| - i
  {
    if i == |lines| then None
    else if HasPrefix(TrimSpace(lines[i]), "# LOG") then Some(i)
    else LogTitleFrom(lines, i + 1)
  }

  /** The text the AI summarises for a note without summary: what follows its
      LOG heading, trimmed; None without a LOG heading or with nothing after it. */
  function LogText(lines: seq<string>): (r: Option<string>)
    ensures r.Some? ==> r.value != "" && Trimmed(r.value)
  {
    match LogTitleFrom(lines, 0)
    case None => None
    case Some(i) =>
      if i + 1 < |lines| && TrimSpace(Join(lines[i + 1..], "\n")) != "" then Some(TrimSpace(Join(lines[i + 1..], "\n")))
      else None
  }

  /** The outcome of a summary lookup: the text shown, and the new content of
      the note when a generated summary is saved into it. */
  datatype Lookup = Lookup(summary: string, save: Option<string>)

  /** `getSummaryWithAIFallback` on a note (None when it does not exist): its
      summary; else a summary of its LOG chapter by the AI, saved into the note;
      else "missing". */
  function Fallback(content: Option<string>, summarizer: Option<Summarizer>, prompt: string): (r: Lookup)
    ensures r.summary != ""
  {
    match content
    case None => Lookup(Missing, None)
    case Some(c) =>
      var lines := Split(c);
      var s := SummaryOf(lines);
      if s != "" then Lookup(s, None)
      else if c == "" || summarizer.None? then Lookup(Missing, None)
      else
        match LogText(lines)
        case None => Lookup(Missing, None)
        case Some(text) =>
          match summarizer.value.generate(text, prompt)
          case Err(_) => Lookup(Missing, None)
          case Ok(g) => if g == "" then Lookup(Missing, None) else Lookup(g, Some(WithSummary(lines, g)))
  }

  /** The loop of `getSummaryWithAIFallback` that looks for the LOG heading:
      the index just after it. */
  method FindLogSection(lines: seq<string>) returns (start: Option<nat>)
    ensures start == match LogTitleFrom(lines, 0) case None => None case Some(i) => Some(i + 1)
  {
    var i := 0;
    while i < |lines|
      invariant 0 <= i <= |lines|
      invariant LogTitleFrom(lines, 0) == LogTitleFrom(lines, i)
    {
      if HasPrefix(TrimSpace(lines[i]), "# LOG") {
        return Some(i + 1);
      }
      i := i + 1;
    }
    return None;
  }

  /** `getSummaryWithAIFallback`: the summary of the note at `path`, generated
      by the AI and saved into the note when it has none. */
  method SummaryWithFallback(dir: Directory, path: string, summarizer: Option<Summarizer>, prompt: string)
    returns (summary: string)
    modifies dir
    ensures var r := Fallback(Content(old(dir.files), path), summarizer, prompt);
      summary == r.summary
      && dir.files == if r.save.Some? then old(dir.files)[path := r.save.value] else old(dir.files)
  {
    var content := dir.ReadFile(path);
    if content.None? {
      return Missing;
    }
    var lines := Split(content.value);
    summary := ExtractSummaryFromLines(lines);
    if summary != "" {
      return summary;
    }
    if content.value == "" || summarizer.None? {
      return Missing;
    }
    var start := FindLogSection(lines);
    if start.None? || start.value >= |lines| {
      return Missing;
    }
    var text := TrimSpace(Join(lines[start.value..], "\n"));
    if text == "" {
      return Missing;
    }
    var generated := summarizer.value.generate(text, prompt);
    if generated.Err? || generated.value == "" {
      return Missing;
    }
    // saveSummaryToFile: reads the note again and writes the summary in
    var updated := InsertSummary(lines, generated.value);
    dir.WriteFile(path, updated);
    summary := generated.value;
  }

  /** A note that has a summary shows it and is not written. */
  lemma {:induction false} SummaryShown(c: string, summarizer: Option<Summarizer>, prompt: string)
    requires SummaryOf(Split(c)) != ""
    ensures Fallback(Some(c), summarizer, prompt) == Lookup(SummaryOf(Split(c)), None)
  {
  }

  /** Without a summarizer nothing is written and a note without summary shows "missing". */
  lemma NoAiNoWrite(content: Option<string>, prompt: string)
    ensures Fallback(content, None, prompt).save == None
    ensures content.None? || SummaryOf(Split(content.value)) == "" ==> Fallback(content, None, prompt).summary == Missing
  {
  }

  /** A saved summary is written in as `GenerateSummaryIfMissing` writes one,
      into a note that had none, and a later lookup shows it from the note. */
  lemma {:induction false} GeneratedIsCached(c: string, summarizer: Option<Summarizer>, prompt: string)
    requires Fallback(Some(c), summarizer, prompt).save.Some?
    requires WellFormedSummary(Fallback(Some(c), summarizer, prompt).summary)
    ensures var r := Fallback(Some(c), summarizer, prompt);
      SummaryOf(Split(c)) == "" && r.save.value == WithSummary(Split(c), r.summary)
      && Fallback(r.save, summarizer, prompt) == Lookup(TrimSpace(r.summary), None)
  {
    var r := Fallback(Some(c), summarizer, prompt);
    InsertThenExtract(Split(c), r.summary);
  }

  // ---------------------------------------------------------------------
  // GetPastSummaries
  // ---------------------------------------------------------------------

  /** A note's lookup as a function of the journal files and the note's path. */
  type Visit = (map<string, string>, string) -> Lookup

  /** `visit` is the lookup `getSummaryWithAIFallback` makes under `cfg`. The
      trigger keeps the lookup folded until a `Fallback` term asks for it. */
  ghost predicate IsFallback(visit: Visit, cfg: Config) {
    forall files, path {:trigger Fallback(Content(files, path), cfg.aiSummarizer, cfg.aiPrompt)} ::
      visit(files, path) == Fallback(Content(files, path), cfg.aiSummarizer, cfg.aiPrompt)
  }

  /** The lookup `getSummaryWithAIFallback` makes under `cfg`. */
  function Visitor(cfg: Config): (v: Visit)
    ensures IsFallback(v, cfg)
  {
    (files: map<string, string>, path: string) => Fallback(Content(files, path), cfg.aiSummarizer, cfg.aiPrompt)
  }

  /** The summaries gathered so far (or the error that stopped the walk) and
      the journal files after the summaries saved along the way. */
  datatype Gathered = Gathered(result: Result<map<string, string>>, files: map<string, string>)

  /** The walk of `GetPastSummaries` over `dates`: each day's file name is
      rendered, its summary looked up with `visit` (which may save a generated
      one), and the summary filed under the day's `key` (`GetPastSummaries`
      uses FormatDate, the "2006-01-02" layout). */
  function Gather(files: map<string, string>, cfg: Config, fileName: (string, int) -> Result<string>,
                  key: int -> string, visit: Visit, dates: seq<int>, acc: map<string, string>): Gathered
    decreases |dates|
  {
    if dates == [] then Gathered(Ok(acc), files)
    else
      match fileName(cfg.dailyFileName, dates[0])
      case Err(e) => Gathered(Err("failed to render daily file name for " + key(dates[0]) + ": " + e), files)
      case Ok(name) =>
        var path := PathJoin(cfg.journalDir, name);
        var r := visit(files, path);
        var next := if r.save.Some? then files[path := r.save.value] else files;
        Gather(next, cfg, fileName, key, visit, dates[1..], acc[key(dates[0]) := r.summary])
  }

  /** Walking a day and then the rest is walking both, stopping at an error. */
  lemma GatherCons(files: map<string, string>, cfg: Config, fileName: (string, int) -> Result<string>,
                   key: int -> string, visit: Visit, d: int, rest: seq<int>, acc: map<string, string>)
    ensures var g := Gather(files, cfg, fileName, key, visit, [d], acc);
      Gather(files, cfg, fileName, key, visit, [d] + rest, acc)
        == if g.result.Err? then g else Gather(g.files, cfg, fileName, key, visit, rest, g.result.value)
  {
    assert ([d] + rest)[1..] == rest;
  }

  lemma SliceStart(a: seq<int>, b: seq<int>)
    ensures a[0..] + b == a + b
  {
  }

  lemma SliceStep(a: seq<int>, b: seq<int>, i: nat)
    requires i < |a|
    ensures a[i..] + b == [a[i]] + (a[i + 1..] + b)
  {
  }

  lemma SliceEnd(a: seq<int>, b: seq<int>)
    ensures a[|a|..] + b == b
  {
  }

  /** The loop body of `GetPastSummaries`: one day's summary filed under its date. */
  method SummarizeDay(dir: Directory, cfg: Config, render: Renderer, ghost visit: Visit, date: int,
                      summaries: map<string, string>)
    returns (r: Result<map<string, string>>)
    requires IsFallback(visit, cfg)
    modifies dir
    ensures var g := Gather(old(dir.files), cfg, render.fileName, FormatDate, visit, [date], summaries);
      r == g.result && dir.files == g.files
  {
    var key := FormatDate(date);
    var name := render.fileName(cfg.dailyFileName, date);
    if name.Err? {
      return Err("failed to render daily file name for " + key + ": " + name.msg);
    }
    var path := PathJoin(cfg.journalDir, name.value);
    var summary := SummaryWithFallback(dir, path, cfg.aiSummarizer, cfg.aiPrompt);
    r := Ok(summaries[key := summary]);
  }

  /** `GetPastSummaries`: the summaries of the past days, keyed by date. */
  method GetPastSummaries(dir: Directory, cfg: Config, render: Renderer, target: int)
    returns (r: Result<map<string, string>>)
    modifies dir
    ensures var g := Gather(old(dir.files), cfg, render.fileName, FormatDate, Visitor(cfg), PastDates(target), map[]);
      r == g.result && dir.files == g.files
  {
    ghost var visit := Visitor(cfg);
    ghost var spec := Gather(dir.files, cfg, render.fileName, FormatDate, visit, PastDates(target), map[]);
    var summaries: map<string, string> := map[];
    var fixed := FixedDates(target);
    ghost var years := YearDates(target, 1);
    var i := 0;
    SliceStart(fixed, years);
    while i < 3
      invariant 0 <= i <= 3
      invariant spec == Gather(dir.files, cfg, render.fileName, FormatDate, visit, fixed[i..] + years, summaries)
    {
      SliceStep(fixed, years, i);
      GatherCons(dir.files, cfg, render.fileName, FormatDate, visit, fixed[i], fixed[i + 1..] + years, summaries);
      var step := SummarizeDay(dir, cfg, render, visit, fixed[i], summaries);
      if step.Err? {
        return step;
      }
      summaries := step.value;
      i := i + 1;
    }
    SliceEnd(fixed, years);
    YearDatesBack(target);
    r := SummarizeYears(dir, cfg, render, visit, target, years, summaries);
  }

  /** `years` are the days one, two and three years before `target`. */
  ghost predicate AreYearsBack(years: seq<int>, target: int) {
    |years| == 3 && forall k {:trigger years[k]} :: 0 <= k < 3 ==> years[k] == AddDate(target, -(k + 1), 0, 0)
  }

  lemma YearDatesBack(target: int)
    ensures AreYearsBack(YearDates(target, 1), target)
  {
    var years := YearDates(target, 1);
    assert years[1..] == YearDates(target, 2);
    assert years[2..] == YearDates(target, 3);
  }

  /** The second loop of `GetPastSummaries`: one to three years back. */
  method SummarizeYears(dir: Directory, cfg: Config, render: Renderer, ghost visit: Visit, target: int,
                        ghost years: seq<int>, summaries: map<string, string>)
    returns (r: Result<map<string, string>>)
    requires IsFallback(visit, cfg) && AreYearsBack(years, target)
    modifies dir
    ensures var g := Gather(old(dir.files), cfg, render.fileName, FormatDate, visit, years, summaries);
      r == g.result && dir.files == g.files
  {
    ghost var spec := Gather(dir.files, cfg, render.fileName, FormatDate, visit, years, summaries);
    var found := summaries;
    var yearsAgo := 1;
    assert years[0..] == years;
    while yearsAgo <= 3
      invariant 1 <= yearsAgo <= 4
      invariant spec == Gather(dir.files, cfg, render.fileName, FormatDate, visit, years[yearsAgo - 1..], found)
    {
      var pastDate := AddDate(target, -yearsAgo, 0, 0);
      assert years[yearsAgo - 1] == pastDate;
      Drop(years, yearsAgo - 1);
      GatherCons(dir.files, cfg, render.fileName, FormatDate, visit, pastDate, years[yearsAgo..], found);
      var step := SummarizeDay(dir, cfg, render, visit, pastDate, found);
      if step.Err? {
        return step;
      }
      found := step.value;
      yearsAgo := yearsAgo + 1;
    }
    r := Ok(found);
  }

  lemma Drop(a: seq<int>, i: nat)
    requires i < |a|
    ensures a[i..] == [a[i]] + a[i + 1..]
  {
  }

  /** The keys of the days `dates`. */
  function KeysOf(key: int -> string, dates: seq<int>): (r: set<string>)
    ensures forall i :: 0 <= i < |dates| ==> key(dates[i]) in r
    ensures forall k :: k in r ==> exists i :: 0 <= i < |dates| && k == key(dates[i])
  {
    if dates == [] then {}
    else
      var rest := KeysOf(key, dates[1..]);
      assert forall k :: k in rest ==> exists i :: 0 <= i < |dates| && k == key(dates[i]) by {
        forall k | k in rest ensures exists i :: 0 <= i < |dates| && k == key(dates[i]) {
          var j :| 0 <= j < |dates[1..]| && k == key(dates[1..][j]);
          assert k == key(dates[j + 1]);
        }
      }
      assert forall i :: 1 <= i < |dates| ==> dates[i] == dates[1..][i - 1];
      {key(dates[0])} + rest
  }

  /** The gathered keys are the keys of the days walked, added to those already there. */
  lemma {:induction false} GatherKeys(files: map<string, string>, cfg: Config, fileName: (string, int) -> Result<string>,
                                      key: int -> string, visit: Visit, dates: seq<int>, acc: map<string, string>)
    ensures var g := Gather(files, cfg, fileName, key, visit, dates, acc);
      g.result.Ok? ==> g.result.value.Keys == acc.Keys + KeysOf(key, dates)
    decreases |dates|
  {
    if dates != [] {
      var name := fileName(cfg.dailyFileName, dates[0]);
      if name.Ok? {
        var path := PathJoin(cfg.journalDir, name.value);
        var r := visit(files, path);
        var next := if r.save.Some? then files[path := r.save.value] else files;
        var acc' := acc[key(dates[0]) := r.summary];
        GatherKeys(next, cfg, fileName, key, visit, dates[1..], acc');
        KeysOfCons(key, dates);
        KeysAdded(acc.Keys, acc'.Keys, key(dates[0]), KeysOf(key, dates[1..]));
      }
    }
  }

  /** There are no more keys than days. */
  lemma {:induction false} KeysOfSize(key: int -> string, dates: seq<int>)
    ensures |KeysOf(key, dates)| <= |dates|
  {
    if dates != [] {
      KeysOfSize(key, dates[1..]);
      KeysOfCons(key, dates);
    }
  }

  lemma KeysOfCons(key: int -> string, dates: seq<int>)
    requires dates != []
    ensures KeysOf(key, dates) == {key(dates[0])} + KeysOf(key, dates[1..])
  {
  }

  lemma KeysAdded(before: set<string>, after: set<string>, k: string, rest: set<string>)
    requires after == before + {k}
    ensures after + rest == before + ({k} + rest)
  {
  }

  /** The keys are those of the six past days, so there are at most six. */
  lemma PastSummaryKeys(files: map<string, string>, cfg: Config, fileName: (string, int) -> Result<string>,
                        key: int -> string, visit: Visit, target: int)
    ensures var g := Gather(files, cfg, fileName, key, visit, PastDates(target), map[]);
      g.result.Ok? ==> g.result.value.Keys == KeysOf(key, PastDates(target)) && |g.result.value.Keys| <= 6
  {
    GatherKeys(files, cfg, fileName, key, visit, PastDates(target), map[]);
    KeysOfSize(key, PastDates(target));
  }
}
