/** pkg/journal/journal.go: appending entries to the LOG chapter, writing a
    missing summary in, extracting the summary, listing the daily files of a
    period, and the template of a new daily note. File contents are split into
    lines with `strings.Split(content, "\n")` and joined back with "\n". */
module Journal {
  import opened Results
  import opened Text
  import opened Calendar
  import opened Config
  import opened Files
  import opened Ai
  import opened Template
  import opened DailyNote

  // ---------------------------------------------------------------------
  // AppendToLog
  // ---------------------------------------------------------------------

  /** The LOG chapter heading, recognised on the line as it stands (not trimmed). */
  predicate IsLogHeading(line: string) {
    HasPrefix(line, "# LOG")
  }

  /** The first LOG heading at or after line `i`. */
  function FirstLogFrom(lines: seq<string>, i: nat): (r: Option<nat>)
    requires i <= |lines|
    ensures r.Some? ==>
      i <= r.value < |lines| && IsLogHeading(lines[r.value]) && forall j :: i <= j < r.value ==> !IsLogHeading(lines[j])
    ensures r.None? ==> forall j :: i <= j < |lines| ==> !IsLogHeading(lines[j])
    decreases |lines| - i
  {
    if i == |lines| then None
    else if IsLogHeading(lines[i]) then Some(i)
    else FirstLogFrom(lines, i + 1)
  }

  /** The first blank-free line at or after `i`: `i` moved past blank lines. */
  function SkipBlank(lines: seq<string>, i: nat): (k: nat)
    requires i <= |lines|
    ensures i <= k <= |lines| && (k < |lines| ==> !IsBlank(lines[k]))
    ensures forall j :: i <= j < k ==> IsBlank(lines[j])
    decreases |lines| - i
  {
    if i < |lines| && IsBlank(lines[i]) then SkipBlank(lines, i + 1) else i
  }

  /** `i` moved past a run of non-blank lines (the entries already logged). */
  function SkipEntries(lines: seq<string>, i: nat): (k: nat)
    requires i <= |lines|
    ensures i <= k <= |lines| && (k < |lines| ==> IsBlank(lines[k]))
    ensures forall j :: i <= j < k ==> !IsBlank(lines[j])
    decreases |lines| - i
  {
    if i < |lines| && !IsBlank(lines[i]) then SkipEntries(lines, i + 1) else i
  }

  /** Where a new entry goes: after the first LOG heading, past the blank lines
      that follow it and past the entries already there; None without a heading. */
  function EntryPosition(lines: seq<string>): Option<nat> {
    match FirstLogFrom(lines, 0)
    case None => None
    case Some(h) => Some(SkipEntries(lines, SkipBlank(lines, h + 1)))
  }

  /** The loops of `AppendToLog` that find the insertion index. */
  method FindEntryPosition(lines: seq<string>) returns (r: Option<nat>)
    ensures r == EntryPosition(lines)
  {
    var h := 0;
    while h < |lines| && !IsLogHeading(lines[h])
      invariant h <= |lines| && FirstLogFrom(lines, h) == FirstLogFrom(lines, 0)
    {
      h := h + 1;
    }
    if h == |lines| {
      return None;
    }
    var k := h + 1;
    while k < |lines| && IsBlank(lines[k])
      invariant h + 1 <= k <= |lines| && SkipBlank(lines, k) == SkipBlank(lines, h + 1)
    {
      k := k + 1;
    }
    ghost var b := k;
    while k < |lines| && !IsBlank(lines[k])
      invariant b <= k <= |lines| && SkipEntries(lines, k) == SkipEntries(lines, b)
    {
      k := k + 1;
    }
    r := Some(k);
  }

  /** `lines` with `line` inserted at index `k`: every original line is kept, in order. */
  function Inserted(lines: seq<string>, k: nat, line: string): (r: seq<string>)
    requires k <= |lines|
    ensures |r| == |lines| + 1 && r[k] == line && r[..k] + r[k + 1..] == lines
  {
    var r := lines[..k] + [line] + lines[k..];
    assert r[..k] == lines[..k] && r[k + 1..] == lines[k..];
    r
  }

  /** The new file text: the lines joined, with a final "\n" added when missing. */
  function AppendedText(lines: seq<string>, k: nat, line: string): (r: string)
    requires k <= |lines|
    ensures HasSuffix(r, "\n")
  {
    var c := Join(Inserted(lines, k, line), "\n");
    if HasSuffix(c, "\n") then c else c + "\n"
  }

  /** What `AppendToLog` makes of the file content: the new content or the error. */
  function AppendOutcome(content: string, path: string, rendered: Result<string>): Result<string> {
    var lines := Split(content);
    match EntryPosition(lines)
    case None => Err("LOG chapter not found in file: " + path)
    case Some(k) =>
      match rendered
      case Err(e) => Err("failed to render log entry template: " + e)
      case Ok(line) => Ok(AppendedText(lines, k, line))
  }

  /** `AppendToLog`: inserts the rendered entry line in the LOG chapter of `path`. */
  method AppendToLog(dir: Directory, cfg: Config, render: Renderer, path: string, entry: string, timestamp: int)
    returns (err: Option<string>)
    modifies dir
    ensures path !in old(dir.files) ==>
      err == Some("failed to read journal file " + path + ": " + NotFound(path)) && dir.files == old(dir.files)
    ensures path in old(dir.files) ==>
      match AppendOutcome(old(dir.files)[path], path, render.logEntry(cfg.logEntryTemplate, timestamp, entry))
      case Ok(c) => err == None && dir.files == old(dir.files)[path := c]
      case Err(e) => err == Some(e) && dir.files == old(dir.files)
  {
    var content := dir.ReadFile(path);
    if content.None? {
      return Some("failed to read journal file " + path + ": " + NotFound(path));
    }
    var lines := Split(content.value);
    var position := FindEntryPosition(lines);
    if position.None? {
      return Some("LOG chapter not found in file: " + path);
    }
    var k := position.value;
    var rendered := render.logEntry(cfg.logEntryTemplate, timestamp, entry);
    if rendered.Err? {
      return Some("failed to render log entry template: " + rendered.msg);
    }
    var newLines := lines[..k] + [rendered.value] + lines[k..];
    var modified := Join(newLines, "\n");
    if !HasSuffix(modified, "\n") {
      modified := modified + "\n";
    }
    dir.WriteFile(path, modified);
    err := None;
  }

  /** Without a LOG heading the append fails, whatever the entry. */
  lemma NoLogHeadingFails(content: string, path: string, rendered: Result<string>)
    requires forall j :: 0 <= j < |Split(content)| ==> !IsLogHeading(Split(content)[j])
    ensures AppendOutcome(content, path, rendered) == Err("LOG chapter not found in file: " + path)
  {
  }

  /** The first LOG heading is the one used: any line `h` with the heading and
      none before it is where the search stops. */
  lemma {:induction false} FirstLogUnique(lines: seq<string>, i: nat, h: nat)
    requires i <= h < |lines| && IsLogHeading(lines[h])
    requires forall j :: i <= j < h ==> !IsLogHeading(lines[j])
    ensures FirstLogFrom(lines, i) == Some(h)
    decreases h - i
  {
    if i < h {
      FirstLogUnique(lines, i + 1, h);
    }
  }

  lemma {:induction false} SkipBlankUnique(lines: seq<string>, i: nat, k: nat)
    requires i <= k <= |lines| && (k < |lines| ==> !IsBlank(lines[k]))
    requires forall j :: i <= j < k ==> IsBlank(lines[j])
    ensures SkipBlank(lines, i) == k
    decreases k - i
  {
    if i < k {
      SkipBlankUnique(lines, i + 1, k);
    }
  }

  lemma {:induction false} SkipEntriesUnique(lines: seq<string>, i: nat, k: nat)
    requires i <= k <= |lines| && (k < |lines| ==> IsBlank(lines[k]))
    requires forall j :: i <= j < k ==> !IsBlank(lines[j])
    ensures SkipEntries(lines, i) == k
    decreases k - i
  {
    if i < k {
      SkipEntriesUnique(lines, i + 1, k);
    }
  }

  /** A joined text ends in "\n" exactly when its last line is empty. */
  lemma JoinEndsWithNewline(ls: seq<string>)
    requires |ls| >= 2 && NoNewlines(ls)
    ensures HasSuffix(Join(ls, "\n"), "\n") <==> ls[|ls| - 1] == ""
  {
    var n := |ls|;
    var init, last := ls[..n - 1], ls[n - 1];
    assert init + [last] == ls;
    JoinAppend(init, [last], "\n");
    assert '\n' !in last;
    EndsWithNewline(Join(init, "\n"), last);
  }

  /** A text, a line break and a one-line text end in a line break exactly
      when the one-line text is empty. */
  lemma EndsWithNewline(p: string, last: string)
    requires '\n' !in last
    ensures HasSuffix(p + "\n" + Join([last], "\n"), "\n") <==> last == ""
  {
    var a := p + "\n";
    assert Join([last], "\n") == last;
    if last != "" {
      assert (a + last)[|a + last| - 1] == last[|last| - 1];
      assert last[|last| - 1] in last;
    } else {
      assert a + last == a;
      assert a[|a| - 1..] == "\n";
    }
  }

  /** The appended file splits back into the old lines with the new line in
      place, followed by an empty line unless the last line already was one. */
  lemma AppendedLines(lines: seq<string>, k: nat, line: string)
    requires 1 <= |lines| && k <= |lines| && NoNewlines(lines) && '\n' !in line
    ensures var ins := Inserted(lines, k, line);
      Split(AppendedText(lines, k, line)) == if ins[|ins| - 1] == "" then ins else ins + [""]
  {
    var ins := Inserted(lines, k, line);
    assert NoNewlines(ins) by {
      forall j | 0 <= j < |ins| ensures '\n' !in ins[j] {
        if j < k {
          assert ins[j] == (ins[..k] + ins[k + 1..])[j];
        } else if j > k {
          assert ins[j] == (ins[..k] + ins[k + 1..])[j - 1];
        }
      }
    }
    JoinEndsWithNewline(ins);
    if ins[|ins| - 1] == "" {
      SplitJoin(ins);
    } else {
      JoinAppend(ins, [""], "\n");
      assert Join(ins, "\n") + "\n" == Join(ins + [""], "\n");
      assert NoNewlines(ins + [""]) by {
        assert forall j :: 0 <= j < |ins| ==> (ins + [""])[j] == ins[j];
      }
      SplitJoin(ins + [""]);
    }
  }

  /** The lines of the appended file around the new line. */
  lemma AppendedAround(lines: seq<string>, k: nat, line: string)
    requires 1 <= |lines| && k <= |lines| && NoNewlines(lines) && '\n' !in line
    ensures var out := Split(AppendedText(lines, k, line));
      k + 2 <= |out| + 1 && (forall j :: 0 <= j < k ==> out[j] == lines[j]) && out[k] == line
      && (k + 1 < |out| ==> out[k + 1] == if k < |lines| then lines[k] else "")
  {
    var ins := Inserted(lines, k, line);
    AppendedLines(lines, k, line);
    var out := Split(AppendedText(lines, k, line));
    assert |out| >= |ins| && out[..|ins|] == ins;
    forall j | 0 <= j < k ensures out[j] == lines[j] {
      assert out[j] == ins[j] == (ins[..k] + ins[k + 1..])[j];
    }
    if k + 1 < |out| && k < |lines| {
      assert out[k + 1] == ins[k + 1] == (ins[..k] + ins[k + 1..])[k];
    }
  }

  /** A non-blank line placed right after a run of entries extends the run. */
  lemma SkipEntriesAfterInsert(lines: seq<string>, out: seq<string>, b: nat, k: nat, line: string)
    requires b <= k <= |lines| && SkipEntries(lines, b) == k
    requires k < |out| && out[k] == line && !IsBlank(line)
    requires forall j :: 0 <= j < k ==> out[j] == lines[j]
    requires k + 1 < |out| ==> out[k + 1] == if k < |lines| then lines[k] else ""
    ensures SkipEntries(out, b) == k + 1
  {
    assert forall j :: b <= j < k + 1 ==> !IsBlank(out[j]) by {
      forall j | b <= j < k + 1 ensures !IsBlank(out[j]) {
        if j < k {
          assert out[j] == lines[j];
        }
      }
    }
    assert k + 1 < |out| ==> IsBlank(out[k + 1]) by {
      TrimSpaceOfTrimmed("");
    }
    SkipEntriesUnique(out, b, k + 1);
  }

  /** The entry position in lines that agree with `lines` up to its entry
      position `k`, hold the new line at `k` and what followed it at `k + 1`. */
  lemma PositionAfterInsert(lines: seq<string>, out: seq<string>, line: string, h: nat, b: nat, k: nat)
    requires FirstLogFrom(lines, 0) == Some(h) && h + 1 <= |lines|
    requires SkipBlank(lines, h + 1) == b && SkipEntries(lines, b) == k
    requires k < |out| && out[k] == line && !IsBlank(line)
    requires forall j :: 0 <= j < k ==> out[j] == lines[j]
    requires k + 1 < |out| ==> out[k + 1] == if k < |lines| then lines[k] else ""
    ensures EntryPosition(out) == Some(k + 1)
  {
    assert FirstLogFrom(out, 0) == Some(h) by {
      FirstLogUnique(out, 0, h);
    }
    assert SkipBlank(out, h + 1) == b by {
      SkipBlankUnique(out, h + 1, b);
    }
    SkipEntriesAfterInsert(lines, out, b, k, line);
  }

  /** Entries stack in arrival order: once an entry is appended, the next one is
      placed right after it, with no blank line in between. */
  lemma EntriesStack(lines: seq<string>, line: string, k: nat)
    requires 1 <= |lines| && NoNewlines(lines) && '\n' !in line && !IsBlank(line)
    requires EntryPosition(lines) == Some(k)
    ensures EntryPosition(Split(AppendedText(lines, k, line))) == Some(k + 1)
  {
    var h := FirstLogFrom(lines, 0).value;
    var b := SkipBlank(lines, h + 1);
    AppendedAround(lines, k, line);
    PositionAfterInsert(lines, Split(AppendedText(lines, k, line)), line, h, b, k);
  }

  // ---------------------------------------------------------------------
  // GenerateSummaryIfMissing
  // ---------------------------------------------------------------------

  /** The heading that marks where the AI input is cut off. */
  const AiInputCut := "## One-line note"

  /** The text given to the AI: everything after the title, cut before the first
      "## One-line note", trimmed. */
  function AiInput(lines: seq<string>): string
    requires |lines| >= 1
  {
    var text := Join(lines[1..], "\n");
    match IndexOf(text, AiInputCut)
    case None => TrimSpace(text)
    case Some(i) => TrimSpace(text[..i])
  }

  /** How `%w` renders a nil error: what the manual-summary error carries when
      the input ends before a line is read. */
  const NilError := "%!w(<nil>)"

  /** The summary to write in: the AI's answer when a summarizer is configured,
      otherwise the line typed by the user; Ok(None) when the user left it blank. */
  function ChosenSummary(lines: seq<string>, summarizer: Option<Summarizer>, prompt: string, manual: ManualInput)
    : Result<Option<string>>
    requires |lines| >= 1
  {
    match summarizer
    case Some(ai) =>
      (match ai.generate(AiInput(lines), prompt)
       case Err(e) => Err("failed to generate summary with AI: " + e)
       case Ok(s) => Ok(Some(s)))
    case None =>
      match manual
      case NoLine(e) => Err("failed to read manual summary: " + (if e.Some? then e.value else NilError))
      case Line(t) => if IsBlank(t) then Ok(None) else Ok(Some(t))
  }

  /** What `GenerateSummaryIfMissing` does to a note: Ok(None) leaves it as it
      is, Ok(Some(c)) replaces it by `c`. */
  function SummaryUpdate(content: string, summarizer: Option<Summarizer>, prompt: string, manual: ManualInput)
    : Result<Option<string>>
  {
    var lines := Split(content);
    if SummaryPresent(lines) then Ok(None)
    else
      match ChosenSummary(lines, summarizer, prompt, manual)
      case Err(e) => Err(e)
      case Ok(None) => Ok(None)
      case Ok(Some(s)) => Ok(Some(WithSummary(lines, s)))
  }

  /** `GenerateSummaryIfMissing`: writes a summary into `path` when it has none. */
  method GenerateSummaryIfMissing(dir: Directory, path: string, summarizer: Option<Summarizer>, prompt: string,
                                  manual: ManualInput)
    returns (err: Option<string>)
    modifies dir
    ensures path !in old(dir.files) ==>
      err == Some("failed to read journal file: " + NotFound(path)) && dir.files == old(dir.files)
    ensures path in old(dir.files) ==>
      match SummaryUpdate(old(dir.files)[path], summarizer, prompt, manual)
      case Err(e) => err == Some(e) && dir.files == old(dir.files)
      case Ok(None) => err == None && dir.files == old(dir.files)
      case Ok(Some(c)) => err == None && dir.files == old(dir.files)[path := c]
  {
    var content := dir.ReadFile(path);
    if content.None? {
      return Some("failed to read journal file: " + NotFound(path));
    }
    var lines := Split(content.value);
    var missing := SummaryIsMissing(lines);
    if !missing {
      return None;
    }
    var summary: string;
    if summarizer.Some? {
      var generated := summarizer.value.generate(AiInput(lines), prompt);
      if generated.Err? {
        return Some("failed to generate summary with AI: " + generated.msg);
      }
      summary := generated.value;
    } else {
      if manual.NoLine? {
        var cause := if manual.readError.Some? then manual.readError.value else NilError;
        return Some("failed to read manual summary: " + cause);
      }
      summary := manual.text;
      if IsBlank(summary) {
        return None;
      }
    }
    var updated := InsertSummary(lines, summary);
    dir.WriteFile(path, updated);
    err := None;
  }

  /** A note that has a summary is left alone, whatever the AI or the user would say. */
  lemma PresentSummaryKept(content: string, summarizer: Option<Summarizer>, prompt: string, manual: ManualInput)
    requires SummaryPresent(Split(content))
    ensures SummaryUpdate(content, summarizer, prompt, manual) == Ok(None)
  {
  }

  /** Without a summarizer, input that ends before a line is an error even when
      the reader reports none. */
  lemma EndOfInputIsError(content: string, prompt: string)
    requires !SummaryPresent(Split(content))
    ensures SummaryUpdate(content, None, prompt, NoLine(None))
      == Err("failed to read manual summary: %!w(<nil>)")
  {
  }

  /** Once a well-formed summary is written in, it is what extraction returns,
      and a second run leaves the note unchanged. */
  lemma WrittenSummaryStays(content: string, summarizer: Option<Summarizer>, prompt: string, manual: ManualInput,
                            summary: string)
    requires ChosenSummary(Split(content), summarizer, prompt, manual) == Ok(Some(summary))
    requires WellFormedSummary(summary) && !SummaryPresent(Split(content))
    ensures var c := WithSummary(Split(content), summary);
      SummaryUpdate(content, summarizer, prompt, manual) == Ok(Some(c))
      && SummaryOf(Split(c)) == TrimSpace(summary)
      && SummaryUpdate(c, summarizer, prompt, manual) == Ok(None)
  {
    InsertThenExtract(Split(content), summary);
  }

  /** The AI input never holds the cut-off heading. */
  lemma AiInputExcludesCut(lines: seq<string>)
    requires |lines| >= 1
    ensures forall j :: !OccursAt(AiInput(lines), AiInputCut, j)
  {
    var text := Join(lines[1..], "\n");
    var cut := match IndexOf(text, AiInputCut) case None => text case Some(i) => text[..i];
    var a, b := TrimSpaceIsSlice(cut);
    assert AiInput(lines) == cut[a..b];
    forall j ensures !OccursAt(AiInput(lines), AiInputCut, j) {
      OccursInSlice(cut, AiInputCut, a, b, j);
      match IndexOf(text, AiInputCut)
      case None =>
      case Some(i) =>
        assert cut == text[0..i];
        OccursInSlice(text, AiInputCut, 0, i, a + j);
    }
  }

  // ---------------------------------------------------------------------
  // ExtractSummary
  // ---------------------------------------------------------------------

  /** `ExtractSummary`: the summary of the note at `path`, "" when there is no such file. */
  method ExtractSummary(dir: Directory, path: string) returns (summary: string)
    ensures summary == if path in dir.files then SummaryOf(Split(dir.files[path])) else ""
  {
    var content := dir.ReadFile(path);
    if content.None? {
      return "";
    }
    summary := ExtractSummaryFromLines(Split(content.value));
  }

  // ---------------------------------------------------------------------
  // ListJournalFilesByPeriod
  // ---------------------------------------------------------------------

  /** The walk over a period: the existing daily files in day order, or the
      first day whose file name did not render, with the renderer's error. */
  datatype Listing = Listed(paths: seq<string>) | RenderFailed(day: int, error: string)

  /** The existing daily files from day `d` to day `end`. */
  function PeriodFiles(files: map<string, string>, journalDir: string, fileName: (string, int) -> Result<string>,
                       template: string, d: int, end: int): Listing
    decreases end - d
  {
    if d > end then Listed([])
    else
      match fileName(template, d)
      case Err(e) => RenderFailed(d, e)
      case Ok(name) =>
        var path := PathJoin(journalDir, name);
        KeepIf(path, path in files, PeriodFiles(files, journalDir, fileName, template, d + 1, end))
  }

  /** `path`, when kept, put before the files of a listing. */
  function KeepIf(path: string, keep: bool, r: Listing): Listing {
    match r
    case RenderFailed(d, e) => r
    case Listed(ps) => Listed(if keep then [path] + ps else ps)
  }

  /** `acc` put before the files of a listing. */
  function Prepend(acc: seq<string>, r: Listing): Listing {
    match r
    case RenderFailed(d, e) => r
    case Listed(ps) => Listed(acc + ps)
  }

  lemma PrependStep(acc: seq<string>, path: string, keep: bool, r: Listing)
    ensures Prepend(acc, KeepIf(path, keep, r)) == Prepend(if keep then acc + [path] else acc, r)
  {
    if r.Listed? && keep {
      assert acc + ([path] + r.paths) == acc + [path] + r.paths;
    }
  }

  /** What `ListJournalFilesByPeriod` returns. */
  function ListOutcome(files: map<string, string>, cfg: Config, render: Renderer, start: int, end: int)
    : Result<seq<string>>
  {
    match Validate(cfg)
    case Some(e) => Err("invalid configuration: " + e)
    case None =>
      if !IsAbs(cfg.journalDir) then Err("JournalDir must be an absolute path: " + cfg.journalDir)
      else
        match PeriodFiles(files, cfg.journalDir, render.fileName, cfg.dailyFileName, start, end)
        case Listed(ps) => Ok(ps)
        case RenderFailed(d, e) => Err("failed to render daily file name for date " + FormatDate(d) + ": " + e)
  }

  /** `ListJournalFilesByPeriod`: steps from `start` to `end` one day at a time,
      keeping the paths of the daily files that exist. */
  method ListJournalFilesByPeriod(dir: Directory, cfg: Config, render: Renderer, start: int, end: int)
    returns (r: Result<seq<string>>)
    ensures r == ListOutcome(dir.files, cfg, render, start, end)
  {
    var invalid := Validate(cfg);
    if invalid.Some? {
      return Err("invalid configuration: " + invalid.value);
    }
    if !IsAbs(cfg.journalDir) {
      return Err("JournalDir must be an absolute path: " + cfg.journalDir);
    }
    ghost var spec := PeriodFiles(dir.files, cfg.journalDir, render.fileName, cfg.dailyFileName, start, end);
    var found: seq<string> := [];
    var d := start;
    assert spec == Prepend(found, spec) by {
      if spec.Listed? {
        assert found + spec.paths == spec.paths;
      }
    }
    while d <= end
      invariant spec == Prepend(found, PeriodFiles(dir.files, cfg.journalDir, render.fileName, cfg.dailyFileName, d, end))
      decreases end - d
    {
      var name := render.fileName(cfg.dailyFileName, d);
      if name.Err? {
        assert spec == RenderFailed(d, name.msg);
        return Err("failed to render daily file name for date " + FormatDate(d) + ": " + name.msg);
      }
      var path := PathJoin(cfg.journalDir, name.value);
      ghost var rest := PeriodFiles(dir.files, cfg.journalDir, render.fileName, cfg.dailyFileName, d + 1, end);
      assert PeriodFiles(dir.files, cfg.journalDir, render.fileName, cfg.dailyFileName, d, end)
        == KeepIf(path, path in dir.files, rest);
      PrependStep(found, path, path in dir.files, rest);
      if path in dir.files {
        found := found + [path];
      }
      // d.AddDate(0, 0, 1): the next day, by lemma Calendar.AddDays
      d := d + 1;
    }
    assert found + [] == found;
    assert spec == Listed(found);
    r := Ok(found);
  }

  /** Listing succeeds exactly when every day of the period renders to a name. */
  lemma {:induction false} PeriodOkIffNamesRender(files: map<string, string>, journalDir: string,
                                                  fileName: (string, int) -> Result<string>, template: string,
                                                  start: int, end: int)
    ensures PeriodFiles(files, journalDir, fileName, template, start, end).Listed?
      <==> forall d :: start <= d <= end ==> fileName(template, d).Ok?
    decreases end - start
  {
    if start <= end {
      PeriodOkIffNamesRender(files, journalDir, fileName, template, start + 1, end);
    }
  }

  /** A listed path is an existing file named after a day of the period, and
      every such file is listed. */
  lemma {:induction false} PeriodMembers(files: map<string, string>, journalDir: string,
                                         fileName: (string, int) -> Result<string>, template: string,
                                         start: int, end: int)
    requires PeriodFiles(files, journalDir, fileName, template, start, end).Listed?
    ensures var ps := PeriodFiles(files, journalDir, fileName, template, start, end).paths;
      forall p :: p in ps <==> (p in files
        && exists d :: start <= d <= end && fileName(template, d).Ok? && p == PathJoin(journalDir, fileName(template, d).value))
    decreases end - start
  {
    if start <= end {
      PeriodMembers(files, journalDir, fileName, template, start + 1, end);
    }
  }

  /** The files of a period are the files of its first part followed by those of the rest. */
  lemma {:induction false} PeriodSplit(files: map<string, string>, journalDir: string,
                                       fileName: (string, int) -> Result<string>, template: string,
                                       start: int, mid: int, end: int)
    requires start <= mid <= end + 1
    requires PeriodFiles(files, journalDir, fileName, template, start, mid - 1).Listed?
    ensures PeriodFiles(files, journalDir, fileName, template, start, end)
      == Prepend(PeriodFiles(files, journalDir, fileName, template, start, mid - 1).paths,
                 PeriodFiles(files, journalDir, fileName, template, mid, end))
    decreases mid - start
  {
    var tail := PeriodFiles(files, journalDir, fileName, template, mid, end);
    if start == mid {
      if tail.Listed? {
        assert [] + tail.paths == tail.paths;
      }
    } else {
      var name := fileName(template, start);
      assert name.Ok?;
      var path := PathJoin(journalDir, name.value);
      var firstRest := PeriodFiles(files, journalDir, fileName, template, start + 1, mid - 1);
      PeriodSplit(files, journalDir, fileName, template, start + 1, mid, end);
      if tail.Listed? && path in files {
        assert [path] + (firstRest.paths + tail.paths) == ([path] + firstRest.paths) + tail.paths;
      }
    }
  }

  // ---------------------------------------------------------------------
  // The template of a new daily note (CreateDailyJournalFile)
  // ---------------------------------------------------------------------

  /** The comment line under the title of a new daily note (written in pieces). */
  const TemplateComment := "<!--" + " add today" + " summary below" + " this line." + " If missing," + " the AI will"
    + " generate one" + " for you" + " according to" + " configuration" + " file" + " -->"

  /** The content written into a new daily note titled `title`. */
  function DailyTemplate(title: string): string {
    Layout(title, TemplateComment)
  }

  /** The fixed chapters below the comment line. */
  const Chapters := "\n" + ("# One-line note" + "\n" + ("\n" + ("# LOG" + "\n" + "\n")))

  /** The title line, the comment line, and the chapters below them. */
  function Layout(title: string, comment: string): string {
    ("# " + title) + "\n" + (comment + "\n" + Chapters)
  }

  /** The lines of a new daily note. */
  function FreshLines(title: string, comment: string): seq<string> {
    ["# " + title, comment] + ChapterPieces
  }

  /** The lines of the fixed chapters, the empty line that ends the comment line first. */
  const ChapterPieces: seq<string> := ["", "# One-line note", "", "# LOG", "", ""]

  /** The new note of day `d`, titled as `Format("Jan 02 2006 Monday")` writes it. */
  function NewNote(d: int): string {
    DailyTemplate(FormatTitle(d))
  }

  /** A line that starts with "<!--" and ends in '>' scans as a comment and is no LOG heading. */
  lemma CommentScan(c: string)
    requires 4 <= |c| && c[..4] == "<!--" && c[|c| - 1] == '>'
    ensures !IsLogHeading(c) && Scan(c) == DailyNote.Line.Line(Comment, c)
  {
    assert c[0] == '<';
    TrimSpaceOfTrimmed(c);
  }

  lemma CommentIsOneLine()
    ensures '\n' !in TemplateComment
  {
  }

  lemma CommentLine()
    ensures '\n' !in TemplateComment && !IsLogHeading(TemplateComment)
    ensures Scan(TemplateComment) == DailyNote.Line.Line(Comment, TemplateComment)
  {
    CommentScan(TemplateComment);
    CommentIsOneLine();
  }

  lemma StopLines()
    ensures Scan("# One-line note") == DailyNote.Line.Line(Stop, "# One-line note")
    ensures Scan("# LOG") == DailyNote.Line.Line(Stop, "# LOG")
  {
    TrimSpaceOfTrimmed("# One-line note");
    TrimSpaceOfTrimmed("# LOG");
  }

  lemma ChapterLines()
    ensures Split(Chapters) == ChapterPieces
  {
    ChapterShape("# One-line note", "# LOG");
  }

  /** The chapter block around any two one-line headings splits into its six lines. */
  lemma ChapterShape(a: string, b: string)
    requires '\n' !in a && '\n' !in b
    ensures Split("\n" + (a + "\n" + ("\n" + (b + "\n" + "\n")))) == ["", a, "", b, "", ""]
  {
    var c3 := b + "\n" + "\n";
    var c2 := "\n" + c3;
    var c1 := a + "\n" + c2;
    SplitNoNewline("");
    var l5 := [""];
    LineOnto("", "", l5);
    assert "" + "\n" + "" == "\n";
    var l4 := [""] + l5;
    LineOnto(b, "\n", l4);
    var l3 := [b] + l4;
    LineOnto("", c3, l3);
    assert "" + "\n" + c3 == c2;
    var l2 := [""] + l3;
    LineOnto(a, c2, l2);
    var l1 := [a] + l2;
    LineOnto("", c1, l1);
    assert "" + "\n" + c1 == "\n" + c1;
    SixPieces("", a, "", b, "", "");
  }

  lemma SixPieces<T>(p: T, q: T, r: T, u: T, v: T, w: T)
    ensures [p] + ([q] + ([r] + ([u] + ([v] + [w])))) == [p, q, r, u, v, w]
  {
  }

  /** A line without a break, a break, then a text: the line comes first. */
  lemma LineOnto(x: string, y: string, ys: seq<string>)
    requires '\n' !in x && Split(y) == ys
    ensures Split(x + "\n" + y) == [x] + ys
  {
    SplitConcatLine(x, y);
    SplitNoNewline(x);
  }

  /** Two single lines above a block split off as two lines. */
  lemma TwoLinesAbove(head: string, comment: string, block: string)
    requires '\n' !in head && '\n' !in comment
    ensures Split(head + "\n" + (comment + "\n" + block)) == [head, comment] + Split(block)
  {
    SplitConcat(comment, block);
    SplitNoNewline(comment);
    SplitConcat(head, comment + "\n" + block);
    SplitNoNewline(head);
  }

  lemma LayoutLines(title: string, comment: string, chapters: string)
    requires '\n' !in title && '\n' !in comment
    requires Split(chapters) == ChapterPieces
    ensures Split(("# " + title) + "\n" + (comment + "\n" + chapters)) == FreshLines(title, comment)
  {
    TwoLinesAbove("# " + title, comment, chapters);
  }

  lemma LayoutNeedsSummary(title: string, comment: string)
    requires Scan(comment) == DailyNote.Line.Line(Comment, comment)
    ensures !SummaryPresent(FreshLines(title, comment))
    ensures SummaryOf(FreshLines(title, comment)) == ""
  {
    var ls := FreshLines(title, comment);
    StopLines();
    ScanEmpty();
    var rest := [DailyNote.Line.Line(Comment, comment), DailyNote.Line.Line(Blank, ""),
                 DailyNote.Line.Line(Stop, "# One-line note"), DailyNote.Line.Line(Blank, ""),
                 DailyNote.Line.Line(Stop, "# LOG"), DailyNote.Line.Line(Blank, ""), DailyNote.Line.Line(Blank, "")];
    assert ScanAll(ls)[1..] == rest;
    assert LeadIn(rest[2..]) == [];
    assert rest[1..][1..] == rest[2..];
    assert LeadIn(rest) == [];
  }

  lemma LayoutEntryPosition(title: string, comment: string)
    requires !HasPrefix(title, "LOG") && !IsLogHeading(comment)
    ensures EntryPosition(FreshLines(title, comment)) == Some(8)
  {
    var ls := FreshLines(title, comment);
    assert !IsLogHeading(ls[0]) by {
      if |title| >= 3 {
        assert ls[0][..5] == "# " + title[..3];
        assert ("# " + title[..3])[2..] == title[..3] && "# LOG"[2..] == "LOG";
      }
    }
    assert !IsLogHeading(ls[3]) by { assert ls[3][2] != "# LOG"[2]; }
    assert FirstLogFrom(ls, 5) == Some(5);
    assert FirstLogFrom(ls, 0) == Some(5);
    assert SkipBlank(ls, 6) == 8;
  }

  /** A new note has eight lines; it has no summary yet, so the first summary
      pass asks for one and nothing is extracted from it; and the first entry
      logged into it goes after the blank lines of the LOG chapter, at the end. */
  lemma FreshNote(title: string)
    requires '\n' !in title && !HasPrefix(title, "LOG")
    ensures Split(DailyTemplate(title)) == FreshLines(title, TemplateComment)
    ensures !SummaryPresent(Split(DailyTemplate(title))) && SummaryOf(Split(DailyTemplate(title))) == ""
    ensures EntryPosition(Split(DailyTemplate(title))) == Some(8)
  {
    CommentLine();
    ChapterLines();
    LayoutLines(title, TemplateComment, Chapters);
    LayoutNeedsSummary(title, TemplateComment);
    LayoutEntryPosition(title, TemplateComment);
  }

  lemma PadKeepsLine(s: string, width: nat)
    requires '\n' !in s
    ensures '\n' !in Pad(s, width)
    decreases width - |s|
  {
    if |s| < width { PadKeepsLine("0" + s, width); }
  }

  lemma NamesAreLines(m: nat, w: nat)
    requires m < 12 && w < 7
    ensures '\n' !in ShortMonthNames[m] && ShortMonthNames[m][0] != 'L' && '\n' !in DayNames[w]
  {
  }

  lemma TitleOfFits(month: int, day: int, year: int, weekday: int)
    requires 1 <= month <= 12 && 0 <= weekday < 7
    ensures '\n' !in TitleOf(month, day, year, weekday) && !HasPrefix(TitleOf(month, day, year, weekday), "LOG")
  {
    var m := ShortMonthNames[month - 1];
    NamesAreLines(month - 1, weekday);
    FormatIntKeepsLine(day, 2);
    FormatIntKeepsLine(year, 4);
    var t := m + " ";
    LineConcat(m, " ");
    LineConcat(t, FormatInt(day, 2));
    t := t + FormatInt(day, 2);
    LineConcat(t, " ");
    t := t + " ";
    LineConcat(t, FormatInt(year, 4));
    t := t + FormatInt(year, 4);
    LineConcat(t, " ");
    t := t + " ";
    LineConcat(t, DayNames[weekday]);
    t := t + DayNames[weekday];
    assert t == TitleOf(month, day, year, weekday);
  }

  /** A number written by `FormatInt` is one line. */
  lemma FormatIntKeepsLine(x: int, width: nat)
    ensures '\n' !in FormatInt(x, width)
  {
    PadKeepsLine(NatToString(if x < 0 then -x else x), width);
  }

  /** Two one-line texts joined are one line, and start where the first does. */
  lemma LineConcat(a: string, b: string)
    ensures '\n' !in a && '\n' !in b ==> '\n' !in a + b
    ensures a != [] ==> (a + b)[0] == a[0]
  {
  }

  /** Every date's title fits the template: one line, and not a LOG heading. */
  lemma TitleFits(d: int)
    ensures '\n' !in FormatTitle(d) && !HasPrefix(FormatTitle(d), "LOG")
  {
    var c := ToCivil(d);
    TitleOfFits(c.month, c.day, c.year, Weekday(d));
  }

  /** The note `CreateDailyJournalFile` writes for day `d` asks for a summary
      and takes its first entry at the end. */
  lemma NewNoteShape(d: int)
    ensures !SummaryPresent(Split(NewNote(d))) && SummaryOf(Split(NewNote(d))) == ""
    ensures EntryPosition(Split(NewNote(d))) == Some(8)
  {
    TitleFits(d);
    FreshNote(FormatTitle(d));
  }
}
