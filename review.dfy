/** The weekly, monthly and yearly reviews: each lists the daily notes of its
    period, writes a review file with a title, has a summary written into it the
    way a daily note gets one, and then appends the summaries of the listed
    notes, one after the other (week and month) or grouped by month (year). */
module Review {
  import opened Results
  import opened Text
  import opened Calendar
  import opened Config
  import opened Files
  import opened Template
  import opened Ai
  import opened DailyNote
  import opened Journal

  // ---------------------------------------------------------------------
  // The ISO week search of ReviewWeek
  // ---------------------------------------------------------------------

  /** A forward step is only taken while the probe's week is before the target
      week, so the probe stays below the target year's end. */
  lemma ForwardBound(p: int, target: (int, int))
    requires WeekBefore(ISOWeek(p), target)
    ensures p < DaysBeforeYear(target.0 + 1) + 3
  {
    var y := YearOf(ThursdayOf(p));
    YearOfBounds(ThursdayOf(p));
    DaysBeforeYearGrows(y + 1, target.0 + 1);
  }

  /** A backward step is only taken while the probe's week is after the target
      week, so the probe stays above the target year's start. */
  lemma BackwardBound(p: int, target: (int, int))
    requires WeekBefore(target, ISOWeek(p))
    ensures p > DaysBeforeYear(target.0) - 4
  {
    var y := YearOf(ThursdayOf(p));
    YearOfBounds(ThursdayOf(p));
    DaysBeforeYearGrows(target.0, y);
  }

  /** The first loop: a week at a time forward while the probe's week is
      before the target. */
  function Forward(p: int, target: (int, int)): int
    decreases DaysBeforeYear(target.0 + 1) + 3 - p
  {
    if WeekBefore(ISOWeek(p), target) then
      ForwardBound(p, target);
      Forward(p + 7, target)
    else p
  }

  /** The second loop: a week at a time backward while the probe's week is
      after the target. */
  function Backward(p: int, target: (int, int)): int
    decreases p - DaysBeforeYear(target.0) + 4
  {
    if WeekBefore(target, ISOWeek(p)) then
      BackwardBound(p, target);
      Backward(p - 7, target)
    else p
  }

  /** The forward loop stops in a week that is not before the target. */
  lemma {:induction false} ForwardReaches(p: int, target: (int, int))
    ensures !WeekBefore(ISOWeek(Forward(p, target)), target)
    decreases DaysBeforeYear(target.0 + 1) + 3 - p
  {
    if WeekBefore(ISOWeek(p), target) {
      ForwardBound(p, target);
      ForwardReaches(p + 7, target);
    }
  }

  /** The backward loop stops in a week that is not after the target. */
  lemma {:induction false} BackwardReaches(p: int, target: (int, int))
    ensures !WeekBefore(target, ISOWeek(Backward(p, target)))
    decreases p - DaysBeforeYear(target.0) + 4
  {
    if WeekBefore(target, ISOWeek(p)) {
      BackwardBound(p, target);
      BackwardReaches(p - 7, target);
    }
  }

  /** The Monday of the Monday-to-Sunday week holding `d`. */
  function MondayOf(d: int): (r: int)
    ensures r % 7 == 0 && r <= d < r + 7 && Weekday(r) == Monday
  {
    d - d % 7
  }

  /** The first day of ISO week `week` of `year`, as the search finds it. */
  function WeekStart(year: int, week: int): int {
    var target := (year, week);
    MondayOf(Backward(Forward(GoDate(year, 1, 4), target), target))
  }

  /** The first loop of `ReviewWeek`'s date search: forward a week at a time. */
  method SearchForward(probe: int, target: (int, int)) returns (r: int)
    ensures r == Forward(probe, target)
  {
    r := probe;
    while WeekBefore(ISOWeek(r), target)
      invariant Forward(r, target) == Forward(probe, target)
      decreases DaysBeforeYear(target.0 + 1) + 3 - r
    {
      ForwardBound(r, target);
      r := r + 7;  // AddDate(0, 0, 7), by Calendar.AddDays
    }
  }

  /** The second loop: backward a week at a time. */
  method SearchBackward(probe: int, target: (int, int)) returns (r: int)
    ensures r == Backward(probe, target)
  {
    r := probe;
    while WeekBefore(target, ISOWeek(r))
      invariant Backward(r, target) == Backward(probe, target)
      decreases r - DaysBeforeYear(target.0) + 4
    {
      BackwardBound(r, target);
      r := r - 7;  // AddDate(0, 0, -7)
    }
  }

  /** The third loop: back a day at a time to a Monday. */
  method BackToMonday(probe: int) returns (start: int)
    ensures start == MondayOf(probe)
  {
    start := probe;
    while Weekday(start) != Monday
      invariant MondayOf(probe) <= start <= probe
      decreases start - MondayOf(probe)
    {
      start := start - 1;  // AddDate(0, 0, -1)
    }
  }

  /** `ReviewWeek`'s date search: from 4 January of `year`, forward and then
      backward a week at a time until the probe's ISO week is neither before
      nor after the target, then back to its Monday; the period ends six days
      later. */
  method WeekRange(week: int, year: int) returns (start: int, end: int)
    ensures start == WeekStart(year, week) && end == start + 6
  {
    var target := (year, week);
    var probe := SearchForward(GoDate(year, 1, 4), target);
    probe := SearchBackward(probe, target);
    start := BackToMonday(probe);
    end := start + 6;  // AddDate(0, 0, 6)
  }

  /** One step back from a later week index stays at or after `d`'s and gets closer to it. */
  lemma WeekIndexStep(p: int, d: int)
    requires d / 7 < p / 7
    ensures d / 7 <= (p - 7) / 7 < p / 7
  {
  }

  /** Started in or after the week of `d`, the backward loop aimed at `d`'s
      ISO week stops in that week. */
  lemma {:induction false} BackwardLands(p: int, d: int)
    requires p / 7 >= d / 7
    ensures Backward(p, ISOWeek(d)) / 7 == d / 7
    decreases p / 7 - d / 7
  {
    ISOWeekOrder(d, p);
    if WeekBefore(ISOWeek(d), ISOWeek(p)) {
      WeekIndexStep(p, d);
      BackwardLands(p - 7, d);
    }
  }

  /** Two ISO weeks neither of which is before the other are the same. */
  lemma WeekTrichotomy(a: (int, int), b: (int, int))
    ensures !WeekBefore(a, b) && !WeekBefore(b, a) ==> a == b
  {
  }

  /** The search lands in the target week whenever that week exists. */
  lemma WeekStartLands(year: int, week: int)
    requires WeekExists(year, week)
    ensures ISOWeek(WeekStart(year, week)) == (year, week)
  {
    var target := (year, week);
    var d :| ISOWeek(d) == target;
    var f := Forward(GoDate(year, 1, 4), target);
    ForwardReaches(GoDate(year, 1, 4), target);
    ISOWeekOrder(f, d);
    BackwardLands(f, d);
    var b := Backward(f, target);
    SameWeek(MondayOf(b), d);
  }

  /** Whatever the week number, the search never ends past the target week. */
  lemma WeekStartNotPast(year: int, week: int)
    ensures !WeekBefore((year, week), ISOWeek(WeekStart(year, week)))
  {
    var target := (year, week);
    var f := Forward(GoDate(year, 1, 4), target);
    var b := Backward(f, target);
    BackwardReaches(f, target);
    SameWeek(MondayOf(b), b);
  }

  /** A day lies in the seven days from a Monday exactly when it has that Monday's week index. */
  lemma WeekIndexRange(s: int, x: int)
    requires s % 7 == 0
    ensures s <= x <= s + 6 <==> x / 7 == s / 7
  {
  }

  /** The period of an existing week is exactly its seven days: a day lies in
      `[start, start + 6]` if and only if its ISO week is the target. */
  lemma WeekRangeIsWeek(year: int, week: int, d: int)
    requires WeekExists(year, week)
    ensures WeekStart(year, week) <= d <= WeekStart(year, week) + 6 <==> ISOWeek(d) == (year, week)
    ensures Weekday(WeekStart(year, week)) == Monday
  {
    var s := WeekStart(year, week);
    WeekStartLands(year, week);
    ISOWeekOrder(s, d);
    ISOWeekOrder(d, s);
    WeekTrichotomy(ISOWeek(s), ISOWeek(d));
    WeekIndexRange(s, d);
  }

  /** Weeks 1 to 52 exist in every year: week `w` holds 4 January plus `w - 1` weeks. */
  lemma WeeksOfYear(y: int, w: int)
    requires 1 <= w <= 52
    ensures WeekExists(y, w)
  {
    var d := GoDate(y, 1, 4) + 7 * (w - 1);
    assert d == DaysBeforeYear(y) + 3 + 7 * (w - 1);
    var t := ThursdayOf(d);
    assert t - DaysBeforeYear(y) == 7 * (w - 1) + 6 - d % 7;
    YearStep(y);
    YearOfUnique(t, y);
    assert ISOWeek(d) == (y, w);
  }

  /** The days of a week, month or year that `ListJournalFilesByPeriod` visits
      and the note path it renders for each of them. */
  predicate NoteOf(cfg: Config, render: Renderer, d: int, p: string) {
    render.fileName(cfg.dailyFileName, d).Ok? && p == PathJoin(cfg.journalDir, render.fileName(cfg.dailyFileName, d).value)
  }

  /** A successful listing holds exactly the existing notes of the period's days. */
  lemma ListedMembers(files: map<string, string>, cfg: Config, render: Renderer, start: int, end: int, ps: seq<string>)
    requires ListOutcome(files, cfg, render, start, end) == Ok(ps)
    ensures forall p :: p in ps <==> p in files && exists d :: start <= d <= end && NoteOf(cfg, render, d, p)
  {
    var listing := PeriodFiles(files, cfg.journalDir, render.fileName, cfg.dailyFileName, start, end);
    assert listing.Listed? && listing.paths == ps;
    PeriodMembers(files, cfg.journalDir, render.fileName, cfg.dailyFileName, start, end);
    forall p | p in ps
      ensures exists d :: start <= d <= end && NoteOf(cfg, render, d, p)
    {
      var d :| start <= d <= end && render.fileName(cfg.dailyFileName, d).Ok?
        && p == PathJoin(cfg.journalDir, render.fileName(cfg.dailyFileName, d).value);
      assert NoteOf(cfg, render, d, p);
    }
  }

  /** A listing of a range of days holds the existing notes of the days of
      any period that is exactly that range. */
  lemma ListedPeriod(files: map<string, string>, cfg: Config, render: Renderer, start: int, end: int,
                     ps: seq<string>, inPeriod: int -> bool)
    requires ListOutcome(files, cfg, render, start, end) == Ok(ps)
    requires forall d :: start <= d <= end <==> inPeriod(d)
    ensures forall p :: p in ps <==> p in files && exists d :: inPeriod(d) && NoteOf(cfg, render, d, p)
  {
    ListedMembers(files, cfg, render, start, end, ps);
  }

  /** The weekly review lists exactly the existing notes of the days of its ISO week. */
  lemma WeekListing(files: map<string, string>, cfg: Config, render: Renderer, year: int, week: int, ps: seq<string>)
    requires WeekExists(year, week)
    requires ListOutcome(files, cfg, render, WeekStart(year, week), WeekStart(year, week) + 6) == Ok(ps)
    ensures forall p :: p in ps <==> p in files && exists d :: ISOWeek(d) == (year, week) && NoteOf(cfg, render, d, p)
  {
    WeekDays(year, week);
    ListedWeek(files, cfg, render, WeekStart(year, week), year, week, ps);
  }

  /** The seven days from `WeekStart` are the days of the ISO week. */
  lemma WeekDays(year: int, week: int)
    requires WeekExists(year, week)
    ensures forall d :: WeekStart(year, week) <= d <= WeekStart(year, week) + 6 <==> ISOWeek(d) == (year, week)
  {
    forall d
      ensures WeekStart(year, week) <= d <= WeekStart(year, week) + 6 <==> ISOWeek(d) == (year, week)
    {
      WeekRangeIsWeek(year, week, d);
    }
  }

  lemma ListedWeek(files: map<string, string>, cfg: Config, render: Renderer, s: int, year: int, week: int,
                   ps: seq<string>)
    requires ListOutcome(files, cfg, render, s, s + 6) == Ok(ps)
    requires forall d :: s <= d <= s + 6 <==> ISOWeek(d) == (year, week)
    ensures forall p :: p in ps <==> p in files && exists d :: ISOWeek(d) == (year, week) && NoteOf(cfg, render, d, p)
  {
    ListedPeriod(files, cfg, render, s, s + 6, ps, d => ISOWeek(d) == (year, week));
  }

  // ---------------------------------------------------------------------
  // The periods of ReviewMonth and ReviewYear
  // ---------------------------------------------------------------------

  /** One more than the index of the first of `names[i..]` that is `name`, or 0. */
  function NameIndexFrom(names: seq<string>, name: string, i: nat): (m: int)
    requires i <= |names|
    ensures m == 0 <==> name !in names[i..]
    ensures m != 0 ==> i < m <= |names| && names[m - 1] == name
    decreases |names| - i
  {
    if i == |names| then 0
    else
      assert names[i..] == [names[i]] + names[i + 1..];
      if names[i] == name then i + 1 else NameIndexFrom(names, name, i + 1)
  }

  /** `ReviewMonth`'s table from English month names to month numbers; 0, Go's
      zero value, for any other string. */
  function MonthNumber(name: string): (m: int)
    ensures 0 <= m <= 12
    ensures m == 0 <==> name !in MonthNames
    ensures m != 0 ==> MonthNames[m - 1] == name
  {
    assert MonthNames[0..] == MonthNames;
    NameIndexFrom(MonthNames, name, 0)
  }

  /** `time.Date(year, m, 1, ...)`. */
  function MonthStart(year: int, m: int): int {
    GoDate(year, m, 1)
  }

  /** `AddDate(0, 1, -1)` from the first of the month. */
  function MonthEnd(year: int, m: int): int {
    AddDate(MonthStart(year, m), 0, 1, -1)
  }

  /** The first of the month is the date (year, m, 1). */
  lemma MonthStartDate(year: int, m: int)
    requires 1 <= m <= 12
    ensures MonthStart(year, m) == DaysBeforeYear(year) + DaysBeforeMonth(year, m)
    ensures ToCivil(MonthStart(year, m)) == Civil(year, m, 1)
  {
    var c := Civil(year, m, 1);
    GoDateOfValid(c);
    ToFromCivil(c);
  }

  /** Day 0 of the next month is the day before its first. */
  lemma DayZero(year: int, m: int)
    requires 1 <= m <= 12
    ensures GoDate(year, m + 1, 0) == DaysBeforeYear(year) + DaysBeforeMonth(year, m + 1) - 1
  {
    if m == 12 {
      DayZeroOfJanuary(year);
    } else {
      assert m / 12 == 0 && m % 12 == m;
    }
  }

  /** Day 0 of month 13 is the last day of the year. */
  lemma DayZeroOfJanuary(year: int)
    ensures GoDate(year, 13, 0) == DaysBeforeYear(year) + DaysBeforeMonth(year, 13) - 1
  {
    YearStep(year);
    MonthsFillYear(year);
  }

  /** The month's period runs from its first to its last day. */
  lemma MonthBounds(year: int, m: int)
    requires 1 <= m <= 12
    ensures MonthStart(year, m) == DaysBeforeYear(year) + DaysBeforeMonth(year, m)
    ensures MonthEnd(year, m) == DaysBeforeYear(year) + DaysBeforeMonth(year, m + 1) - 1
  {
    MonthStartDate(year, m);
    DayZero(year, m);
  }

  /** The monthly period ends on the month's last day, leap years included. */
  lemma MonthEndDate(year: int, m: int)
    requires 1 <= m <= 12
    ensures ToCivil(MonthEnd(year, m)) == Civil(year, m, DaysInMonth(year, m))
  {
    MonthBounds(year, m);
    ToFromCivil(Civil(year, m, DaysInMonth(year, m)));
  }

  /** February's review ends on the 29th in a leap year and on the 28th otherwise. */
  lemma FebruaryEnds(year: int)
    ensures ToCivil(MonthEnd(year, 2)).day == if year % 4 == 0 && (year % 100 != 0 || year % 400 == 0) then 29 else 28
  {
    MonthEndDate(year, 2);
  }

  /** A day lies in the monthly review's period exactly when its date is in that month. */
  lemma MonthRangeIsMonth(year: int, m: int, d: int)
    requires 1 <= m <= 12
    ensures MonthStart(year, m) <= d <= MonthEnd(year, m) <==> ToCivil(d).year == year && ToCivil(d).month == m
  {
    MonthBounds(year, m);
    if MonthStart(year, m) <= d <= MonthEnd(year, m) {
      var e := Civil(year, m, d - MonthStart(year, m) + 1);
      assert FromCivil(e) == d;
      ToFromCivil(e);
    }
  }

  /** The monthly review lists exactly the existing notes of the days of its month. */
  lemma MonthListing(files: map<string, string>, cfg: Config, render: Renderer, year: int, m: int, ps: seq<string>)
    requires 1 <= m <= 12
    requires ListOutcome(files, cfg, render, MonthStart(year, m), MonthEnd(year, m)) == Ok(ps)
    ensures forall p :: p in ps <==>
      (p in files && exists d :: ToCivil(d).year == year && ToCivil(d).month == m && NoteOf(cfg, render, d, p))
  {
    var inMonth := d => ToCivil(d).year == year && ToCivil(d).month == m;
    forall d
      ensures MonthStart(year, m) <= d <= MonthEnd(year, m) <==> inMonth(d)
    {
      MonthRangeIsMonth(year, m, d);
    }
    ListedPeriod(files, cfg, render, MonthStart(year, m), MonthEnd(year, m), ps, inMonth);
  }

  /** `time.Date(year, time.January, 1, ...)`. */
  function YearStart(year: int): int {
    GoDate(year, 1, 1)
  }

  /** `time.Date(year, time.December, 31, ...)`. */
  function YearEnd(year: int): int {
    GoDate(year, 12, 31)
  }

  /** A day lies in the yearly review's period exactly when its date is in that year. */
  lemma YearRangeIsYear(year: int, d: int)
    ensures YearStart(year) <= d <= YearEnd(year) <==> ToCivil(d).year == year
  {
    YearBounds(year);
    YearOfBounds(d);
    if YearStart(year) <= d <= YearEnd(year) {
      YearOfUnique(d, year);
    }
  }

  /** The year's period runs from its first to its last day. */
  lemma YearBounds(year: int)
    ensures YearStart(year) == DaysBeforeYear(year) && YearEnd(year) == DaysBeforeYear(year + 1) - 1
  {
    YearStep(year);
    MonthsFillYear(year);
  }

  /** The yearly period runs from 1 January to 31 December. */
  lemma YearEndDates(year: int)
    ensures ToCivil(YearStart(year)) == Civil(year, 1, 1)
    ensures ToCivil(YearEnd(year)) == Civil(year, 12, 31)
  {
    ToFromCivil(Civil(year, 1, 1));
    ToFromCivil(Civil(year, 12, 31));
    GoDateOfValid(Civil(year, 1, 1));
    GoDateOfValid(Civil(year, 12, 31));
  }

  /** The yearly review lists exactly the existing notes of the days of its year. */
  lemma YearListing(files: map<string, string>, cfg: Config, render: Renderer, year: int, ps: seq<string>)
    requires ListOutcome(files, cfg, render, YearStart(year), YearEnd(year)) == Ok(ps)
    ensures forall p :: p in ps <==> p in files && exists d :: ToCivil(d).year == year && NoteOf(cfg, render, d, p)
  {
    var inYear := d => ToCivil(d).year == year;
    forall d
      ensures YearStart(year) <= d <= YearEnd(year) <==> inYear(d)
    {
      YearRangeIsYear(year, d);
    }
    ListedPeriod(files, cfg, render, YearStart(year), YearEnd(year), ps, inYear);
  }

  // ---------------------------------------------------------------------
  // The review bodies
  // ---------------------------------------------------------------------

  /** The three reviews, with the words that differ between them. */
  datatype Period = Weekly | Monthly | Yearly {
    function Adjective(): string {
      match this
      case Weekly => "weekly"
      case Monthly => "monthly"
      case Yearly => "yearly"
    }

    function Noun(): string {
      match this
      case Weekly => "week"
      case Monthly => "month"
      case Yearly => "year"
    }

    function Title(): string {
      match this
      case Weekly => "Weekly"
      case Monthly => "Monthly"
      case Yearly => "Yearly"
    }

    /** The instruction given to the AI for the review's own summary; the
        weekly one also asks to keep the note's language. */
    function Prompt(): string {
      "Write a summary of the " + Adjective() + " review"
        + (if this == Weekly then " using the same Language" else "")
        + ". Use 1st person" + " and a simple language." + " Use 200 characters or less."
    }
  }

  /** A note's date as a review shows it: its file name without ".md". */
  function DateLabel(path: string): string {
    TrimSuffix(Base(path), ".md")
  }

  /** What `ExtractSummary` finds in the note at `path`. */
  function SummaryIn(files: map<string, string>, path: string): string {
    if path in files then SummaryOf(Split(files[path])) else ""
  }

  /** `SummaryIn` for every path of `files`. */
  function Summaries(files: map<string, string>): string -> string {
    path => SummaryIn(files, path)
  }

  /** One note in a review: a "### date" block in the weekly and monthly
      reviews, a "- **date**: summary" bullet in the yearly one. */
  function Entry(path: string, summary: string, period: Period): string {
    if period == Yearly then "- **" + DateLabel(path) + "**: " + summary + "\n"
    else "### " + DateLabel(path) + "\n" + summary + "\n\n"
  }

  /** The entries of `paths`, in order, with the summaries `summaryOf` gives. */
  function Entries(paths: seq<string>, summaryOf: string -> string, period: Period): string
    decreases |paths|
  {
    if paths == [] then ""
    else
      var last := paths[|paths| - 1];
      Entries(paths[..|paths| - 1], summaryOf, period) + Entry(last, summaryOf(last), period)
  }

  lemma Associative(x: string, y: string, z: string)
    ensures (x + y) + z == x + (y + z)
  {
  }

  /** The entries of two lists of notes are those of the first, then those of the second. */
  lemma {:induction false} EntriesAppend(a: seq<string>, b: seq<string>, summaryOf: string -> string, period: Period)
    ensures Entries(a + b, summaryOf, period) == Entries(a, summaryOf, period) + Entries(b, summaryOf, period)
    decreases |b|
  {
    if b == [] {
      assert a + b == a;
    } else {
      var init := b[..|b| - 1];
      var last := b[|b| - 1];
      assert (a + b)[..|a + b| - 1] == a + init;
      assert (a + b)[|a + b| - 1] == last;
      EntriesAppend(a, init, summaryOf, period);
      Associative(Entries(a, summaryOf, period), Entries(init, summaryOf, period), Entry(last, summaryOf(last), period));
    }
  }

  /** The loop over the listed notes: each one's date and summary appended in turn. */
  method RenderEntries(dir: Directory, paths: seq<string>, period: Period) returns (text: string)
    ensures text == Entries(paths, Summaries(dir.files), period)
  {
    text := "";
    for i := 0 to |paths|
      invariant text == Entries(paths[..i], Summaries(dir.files), period)
    {
      var entry := RenderEntry(dir, paths[i], period);
      EntriesStep(paths, i, Summaries(dir.files), period);
      text := text + entry;
    }
    assert paths[..|paths|] == paths;
  }

  /** One note's entry, its summary read from the note. */
  method RenderEntry(dir: Directory, path: string, period: Period) returns (entry: string)
    ensures entry == Entry(path, Summaries(dir.files)(path), period)
  {
    var summary := ExtractSummary(dir, path);
    var dateStr := TrimSuffix(Base(path), ".md");
    if period == Yearly {
      entry := "- **" + dateStr + "**: " + summary + "\n";
    } else {
      entry := "### " + dateStr + "\n" + summary + "\n\n";
    }
  }

  /** One more note listed adds its entry at the end. */
  lemma EntriesStep(paths: seq<string>, i: nat, summaryOf: string -> string, period: Period)
    requires i < |paths|
    ensures Entries(paths[..i + 1], summaryOf, period)
      == Entries(paths[..i], summaryOf, period) + Entry(paths[i], summaryOf(paths[i]), period)
  {
    assert paths[..i + 1][..i] == paths[..i];
  }

  /** The month of a note named after a "2006-01-02" date; None for any other name. */
  function MonthOfFile(path: string): (r: Option<int>)
    ensures r.Some? ==> 1 <= r.value <= 12
  {
    match ParseDate(DateLabel(path))
    case None => None
    case Some(c) => Some(c.month)
  }

  /** The notes of month `m`, in listing order, as `monthOf` dates them. */
  function InMonth(paths: seq<string>, m: int, monthOf: string -> Option<int>): seq<string>
    decreases |paths|
  {
    if paths == [] then []
    else
      var last := paths[|paths| - 1];
      InMonth(paths[..|paths| - 1], m, monthOf) + (if monthOf(last) == Some(m) then [last] else [])
  }

  /** A note is grouped under month `m` exactly when it is listed and dated in `m`. */
  lemma {:induction false} InMonthMembers(paths: seq<string>, m: int, monthOf: string -> Option<int>)
    ensures forall p :: p in InMonth(paths, m, monthOf) <==> p in paths && monthOf(p) == Some(m)
    decreases |paths|
  {
    if paths != [] {
      var init := paths[..|paths| - 1];
      InMonthMembers(init, m, monthOf);
      assert paths == init + [paths[|paths| - 1]];
    }
  }

  /** How many listed notes are dated. */
  function DatedCount(paths: seq<string>, monthOf: string -> Option<int>): nat
    decreases |paths|
  {
    if paths == [] then 0
    else DatedCount(paths[..|paths| - 1], monthOf) + (if monthOf(paths[|paths| - 1]).Some? then 1 else 0)
  }

  /** How many notes the first `n` months hold. */
  function GroupedCount(paths: seq<string>, n: nat, monthOf: string -> Option<int>): nat {
    if n == 0 then 0 else GroupedCount(paths, n - 1, monthOf) + |InMonth(paths, n, monthOf)|
  }

  /** The last note adds one to the count of the months it can fall in when it is dated. */
  lemma {:induction false} GroupedStep(paths: seq<string>, n: nat, monthOf: string -> Option<int>)
    requires paths != []
    ensures var last := monthOf(paths[|paths| - 1]);
      GroupedCount(paths, n, monthOf)
        == GroupedCount(paths[..|paths| - 1], n, monthOf) + (if last.Some? && 1 <= last.value <= n then 1 else 0)
  {
    if n > 0 {
      GroupedStep(paths, n - 1, monthOf);
    }
  }

  /** No notes, none in any month. */
  lemma {:induction false} GroupedNone(n: nat, monthOf: string -> Option<int>)
    ensures GroupedCount([], n, monthOf) == 0
  {
    if n > 0 {
      GroupedNone(n - 1, monthOf);
    }
  }

  /** The twelve months hold every dated note once: their counts add up to
      the number of dated notes. */
  lemma {:induction false} MonthsPartition(paths: seq<string>, monthOf: string -> Option<int>)
    requires forall p :: monthOf(p).Some? ==> 1 <= monthOf(p).value <= 12
    ensures GroupedCount(paths, 12, monthOf) == DatedCount(paths, monthOf)
    decreases |paths|
  {
    if paths != [] {
      var last := paths[|paths| - 1];
      assert monthOf(last).Some? ==> 1 <= monthOf(last).value <= 12;
      GroupedStep(paths, 12, monthOf);
      MonthsPartition(paths[..|paths| - 1], monthOf);
    } else {
      GroupedNone(12, monthOf);
    }
  }

  /** The notes a month-keyed map holds for `m`; none when `m` is not a key. */
  function Group(byMonth: map<int, seq<string>>, m: int): seq<string> {
    if m in byMonth then byMonth[m] else []
  }

  /** The grouping loop of `ReviewYear`: each note whose name parses as a date
      is appended to its month's list; the others are skipped. */
  method GroupByMonth(paths: seq<string>) returns (byMonth: map<int, seq<string>>)
    ensures forall m :: 1 <= m <= 12 ==> Group(byMonth, m) == InMonth(paths, m, MonthOfFile)
  {
    byMonth := map[];
    for i := 0 to |paths|
      invariant forall m :: 1 <= m <= 12 ==> Group(byMonth, m) == InMonth(paths[..i], m, MonthOfFile)
    {
      assert paths[..i + 1][..i] == paths[..i];
      var dateStr := TrimSuffix(Base(paths[i]), ".md");
      var parsed := ParseDate(dateStr);
      if parsed.Some? {
        var month := parsed.value.month;
        byMonth := byMonth[month := Group(byMonth, month) + [paths[i]]];
      }
    }
    assert paths[..|paths|] == paths;
  }

  /** The section of month `m` in the yearly review: its name and its notes'
      bullets, or nothing when it has no notes. */
  function MonthSection(paths: seq<string>, summaryOf: string -> string, m: int): string
    requires 1 <= m <= 12
  {
    var notes := InMonth(paths, m, MonthOfFile);
    if notes == [] then "" else "### " + MonthNames[m - 1] + "\n\n" + Entries(notes, summaryOf, Yearly) + "\n"
  }

  /** The sections of months 1 to `n`, in calendar order. */
  function MonthSections(paths: seq<string>, summaryOf: string -> string, n: int): string
    requires 0 <= n <= 12
  {
    if n == 0 then "" else MonthSections(paths, summaryOf, n - 1) + MonthSection(paths, summaryOf, n)
  }

  /** One month of the month loop: its name and its notes' bullets, unless it has none. */
  method RenderMonth(dir: Directory, paths: seq<string>, notes: seq<string>, month: int) returns (section: string)
    requires 1 <= month <= 12 && notes == InMonth(paths, month, MonthOfFile)
    ensures section == MonthSection(paths, Summaries(dir.files), month)
  {
    section := "";
    if |notes| != 0 {
      var bullets := RenderEntries(dir, notes, Yearly);
      section := "### " + MonthNames[month - 1] + "\n\n" + bullets + "\n";
    }
  }

  /** The month loop of `ReviewYear`: January to December, skipping empty months. */
  method RenderMonths(dir: Directory, paths: seq<string>) returns (text: string)
    ensures text == MonthSections(paths, Summaries(dir.files), 12)
  {
    var byMonth := GroupByMonth(paths);
    ghost var summaryOf := Summaries(dir.files);
    text := "";
    for month := 1 to 13
      invariant text == MonthSections(paths, summaryOf, month - 1)
    {
      var section := RenderMonth(dir, paths, Group(byMonth, month), month);
      assert MonthSections(paths, summaryOf, month) == text + section;
      text := text + section;
    }
  }

  /** What a review appends after its title and summary. */
  function Body(files: map<string, string>, paths: seq<string>, period: Period): string {
    if paths == [] then "No journal entries found for this " + period.Noun() + ".\n\n"
    else if period == Yearly then "## Monthly Summaries\n\n" + MonthSections(paths, Summaries(files), 12)
    else "## Daily Summaries\n\n" + Entries(paths, Summaries(files), period)
  }

  method RenderBody(dir: Directory, paths: seq<string>, period: Period) returns (text: string)
    ensures text == Body(dir.files, paths, period)
  {
    if |paths| == 0 {
      text := "No journal entries found for this " + period.Noun() + ".\n\n";
    } else if period == Yearly {
      var months := RenderMonths(dir, paths);
      text := "## Monthly Summaries\n\n" + months;
    } else {
      var entries := RenderEntries(dir, paths, period);
      text := "## Daily Summaries\n\n" + entries;
    }
  }

  // ---------------------------------------------------------------------
  // Writing a review
  // ---------------------------------------------------------------------

  /** What a review returns and the journal files it leaves, given what the
      listing of its period gave and what the summary step made of its title:
      the review file is written with its title, the summary is written in,
      and the body is appended. */
  function Finish(files: map<string, string>, period: Period, path: string, header: string,
                  listing: Result<seq<string>>, update: Result<Option<string>>)
    : (Result<string>, map<string, string>)
  {
    match listing
    case Err(e) => (Err("failed to list journal files for " + period.Adjective() + " review: " + e), files)
    case Ok(paths) =>
      var written := files[path := header];
      match update
      case Err(e) => (Err("failed to generate summary for " + period.Adjective() + " review: " + e), written)
      case Ok(u) =>
        var summarized := if u.Some? then written[path := u.value] else written;
        var content := summarized[path];
        (Ok(period.Title() + " review generated at: " + path),
         summarized[path := content + Body(summarized, paths, period)])
  }

  /** What a review of the days `start` to `end` returns and leaves, its
      summary asked for with `prompt`. */
  function PromptedOutcome(files: map<string, string>, cfg: Config, render: Renderer, period: Period,
                           start: int, end: int, path: string, header: string,
                           summarizer: Option<Summarizer>, prompt: string, manual: ManualInput)
    : (Result<string>, map<string, string>)
  {
    Finish(files, period, path, header, ListOutcome(files, cfg, render, start, end),
           SummaryUpdate(header, summarizer, prompt, manual))
  }

  /** What a review of the days `start` to `end` returns and leaves. */
  function ReviewOutcome(files: map<string, string>, cfg: Config, render: Renderer, period: Period,
                         start: int, end: int, path: string, header: string,
                         summarizer: Option<Summarizer>, manual: ManualInput)
    : (Result<string>, map<string, string>)
  {
    PromptedOutcome(files, cfg, render, period, start, end, path, header, summarizer, period.Prompt(), manual)
  }

  /** The last steps: the review file read back and written again with the body appended. */
  method AppendBody(dir: Directory, period: Period, path: string, paths: seq<string>)
    requires path in dir.files
    modifies dir
    ensures dir.files == old(dir.files)[path := old(dir.files)[path] + Body(old(dir.files), paths, period)]
  {
    var content := dir.ReadFile(path);
    var body := RenderBody(dir, paths, period);
    dir.WriteFile(path, content.value + body);
  }

  /** The review file written with its title, then the summary step run on it. */
  method WriteTitle(dir: Directory, path: string, header: string, summarizer: Option<Summarizer>, prompt: string,
                    manual: ManualInput)
    returns (err: Option<string>)
    modifies dir
    ensures match SummaryUpdate(header, summarizer, prompt, manual)
      case Err(e) => err == Some(e) && dir.files == old(dir.files)[path := header]
      case Ok(None) => err == None && dir.files == old(dir.files)[path := header]
      case Ok(Some(c)) => err == None && dir.files == old(dir.files)[path := header][path := c]
  {
    dir.WriteFile(path, header);
    err := GenerateSummaryIfMissing(dir, path, summarizer, prompt, manual);
  }

  /** After the listing, the steps that all three reviews share. */
  method SummarizeAndAppend(dir: Directory, period: Period, path: string, header: string, paths: seq<string>,
                            summarizer: Option<Summarizer>, prompt: string, manual: ManualInput)
    returns (r: Result<string>, ghost update: Result<Option<string>>)
    modifies dir
    ensures update == SummaryUpdate(header, summarizer, prompt, manual)
    ensures (r, dir.files) == Finish(old(dir.files), period, path, header, Ok(paths), update)
  {
    update := SummaryUpdate(header, summarizer, prompt, manual);
    var err := WriteTitle(dir, path, header, summarizer, prompt, manual);
    if err.Some? {
      r := Err("failed to generate summary for " + period.Adjective() + " review: " + err.value);
      return;
    }
    AppendBody(dir, period, path, paths);
    r := Ok(period.Title() + " review generated at: " + path);
  }

  /** The steps that `ReviewWeek`, `ReviewMonth` and `ReviewYear` share once
      they know their period, file and title. */
  method WriteReview(dir: Directory, cfg: Config, render: Renderer, period: Period, start: int, end: int,
                     path: string, header: string, summarizer: Option<Summarizer>, prompt: string,
                     manual: ManualInput)
    returns (r: Result<string>)
    modifies dir
    ensures (r, dir.files)
      == PromptedOutcome(old(dir.files), cfg, render, period, start, end, path, header, summarizer, prompt, manual)
  {
    var listed := ListJournalFilesByPeriod(dir, cfg, render, start, end);
    if listed.Err? {
      return Err("failed to list journal files for " + period.Adjective() + " review: " + listed.msg);
    }
    ghost var update;
    r, update := SummarizeAndAppend(dir, period, path, header, listed.value, summarizer, prompt, manual);
  }

  /** A review changes no journal file but its own, whatever its listing and summary step gave. */
  lemma OnlyItsFile(files: map<string, string>, period: Period, path: string, header: string,
                    listing: Result<seq<string>>, update: Result<Option<string>>)
    ensures var after := Finish(files, period, path, header, listing, update).1;
      after.Keys <= files.Keys + {path} && forall q :: q in files && q != path ==> q in after && after[q] == files[q]
  {
  }

  /** A fresh review title has no summary under it, so every review asks the
      AI or the user for one. */
  lemma TitleNeedsSummary(title: string)
    requires '\n' !in title
    ensures !SummaryPresent(Split("# " + title + "\n\n"))
  {
    TwoLinesAbove("# " + title, "", "");
    assert "# " + title + "\n" + ("" + "\n" + "") == "# " + title + "\n\n";
    SplitNoNewline("");
    ScanEmpty();
    var s := ScanAll(["# " + title, "", ""]);
    assert s[1].kind == Blank && s[2].kind == Blank;
  }

  /** The summary step of a fresh review sends the AI the text after the
      title line, which is empty: the title is all the file holds. */
  lemma TitleGivesNoAiInput(header: string, title: string)
    requires '\n' !in title && header == "# " + title + "\n\n"
    ensures AiInput(Split(header)) == ""
  {
    TitleLines(header, title);
    BlankLinesGiveNoAiInput(Split(header));
  }

  /** A title line followed by a blank line splits into the title and two empty lines. */
  lemma TitleLines(header: string, title: string)
    requires '\n' !in title && header == "# " + title + "\n\n"
    ensures |Split(header)| == 3 && Split(header)[1..] == ["", ""]
  {
    NoNewlineInJoined("# ", title);
    TwoLinesAbove("# " + title, "", "");
    assert "" + "\n" + "" == "\n";
    assert "# " + title + "\n" + "\n" == header;
    SplitNoNewline("");
  }

  /** Two empty lines after the first give the AI nothing to summarise. */
  lemma BlankLinesGiveNoAiInput(lines: seq<string>)
    requires |lines| == 3 && lines[1..] == ["", ""]
    ensures AiInput(lines) == ""
  {
    assert Join(["", ""], "\n") == "\n";
    assert !HasPrefix("\n", AiInputCut);
    assert IndexOf("\n", AiInputCut) == None;
    assert TrimLeft("\n") == "" by { assert IsSpace('\n'); assert "\n"[1..] == ""; }
  }

  lemma IntToStringIsOneLine(i: int)
    ensures '\n' !in IntToString(i)
  {
    var r := NatToString(if i < 0 then -i else i);
    assert '\n' !in r by {
      forall j | 0 <= j < |r| ensures r[j] != '\n' { }
    }
  }

  /** All three reviews ask the AI to summarise an empty text: the text after
      a review's title line is empty when its summary step runs. */
  lemma ReviewsGiveNoAiInput(week: int, month: string, year: int)
    requires '\n' !in month
    ensures AiInput(Split(WeekHeader(week, year))) == ""
    ensures AiInput(Split(MonthHeader(month, year))) == ""
    ensures AiInput(Split(YearHeader(year))) == ""
  {
    WeekTitleLine(week, year);
    MonthTitleLine(month, year);
    YearTitleLine(year);
  }

  lemma WeekTitleLine(week: int, year: int)
    ensures AiInput(Split(WeekHeader(week, year))) == ""
  {
    IntToStringIsOneLine(week);
    IntToStringIsOneLine(year);
    NoNewlineInJoined("Weekly Review - Week ", IntToString(week));
    NoNewlineInJoined("Weekly Review - Week " + IntToString(week), ", ");
    NoNewlineInJoined("Weekly Review - Week " + IntToString(week) + ", ", IntToString(year));
    TitleGivesNoAiInput(WeekHeader(week, year), WeekTitle(week, year));
  }

  lemma MonthTitleLine(month: string, year: int)
    requires '\n' !in month
    ensures AiInput(Split(MonthHeader(month, year))) == ""
  {
    IntToStringIsOneLine(year);
    NoNewlineInJoined("Monthly Review - ", month);
    NoNewlineInJoined("Monthly Review - " + month, " ");
    NoNewlineInJoined("Monthly Review - " + month + " ", IntToString(year));
    TitleGivesNoAiInput(MonthHeader(month, year), MonthTitle(month, year));
  }

  lemma YearTitleLine(year: int)
    ensures AiInput(Split(YearHeader(year))) == ""
  {
    IntToStringIsOneLine(year);
    NoNewlineInJoined("Yearly Review - ", IntToString(year));
    TitleGivesNoAiInput(YearHeader(year), YearTitle(year));
  }

  lemma NoNewlineInJoined(a: string, b: string)
    requires '\n' !in a && '\n' !in b
    ensures '\n' !in a + b
  {
  }

  /** `Sprintf("review_week_%d_%d.md", year, week)`. */
  function WeekFileName(year: int, week: int): string {
    "review_week_" + IntToString(year) + "_" + IntToString(week) + ".md"
  }

  /** `Sprintf("# Weekly Review - Week %d, %d\n\n", week, year)`. */
  function WeekHeader(week: int, year: int): string {
    "# " + WeekTitle(week, year) + "\n\n"
  }

  function WeekTitle(week: int, year: int): string {
    "Weekly Review - Week " + IntToString(week) + ", " + IntToString(year)
  }

  /** `ReviewWeek`: the review of ISO week `week` of `year`. */
  method ReviewWeek(dir: Directory, cfg: Config, render: Renderer, week: int, year: int,
                    summarizer: Option<Summarizer>, manual: ManualInput)
    returns (r: Result<string>, ghost start: int)
    modifies dir
    ensures start == WeekStart(year, week)
    ensures (r, dir.files) == ReviewOutcome(old(dir.files), cfg, render, Weekly, start, start + 6,
      PathJoin(cfg.journalDir, WeekFileName(year, week)), WeekHeader(week, year), summarizer, manual)
  {
    var first, end := WeekRange(week, year);
    start := first;
    var header := WeekHeader(week, year);
    var path := PathJoin(cfg.journalDir, WeekFileName(year, week));
    r := WriteWeekReview(dir, cfg, render, first, end, path, header, summarizer, manual);
  }

  /** `ReviewWeek` once the days `start` to `end` of the week, its file and its title are known. */
  method WriteWeekReview(dir: Directory, cfg: Config, render: Renderer, start: int, end: int, path: string,
                         header: string, summarizer: Option<Summarizer>, manual: ManualInput)
    returns (r: Result<string>)
    modifies dir
    ensures (r, dir.files) == ReviewOutcome(old(dir.files), cfg, render, Weekly, start, end, path, header,
                                            summarizer, manual)
  {
    r := WriteReview(dir, cfg, render, Weekly, start, end, path, header, summarizer, Weekly.Prompt(), manual);
  }

  /** `Sprintf("review_month_%s_%d.md", month, year)`. */
  function MonthFileName(month: string, year: int): string {
    "review_month_" + month + "_" + IntToString(year) + ".md"
  }

  /** `Sprintf("# Monthly Review - %s %d\n\n", month, year)`. */
  function MonthHeader(month: string, year: int): string {
    "# " + MonthTitle(month, year) + "\n\n"
  }

  function MonthTitle(month: string, year: int): string {
    "Monthly Review - " + month + " " + IntToString(year)
  }

  /** `ReviewMonth`: the review of the month named `month` of `year`; an error
      for a name that is not an English month name. */
  method ReviewMonth(dir: Directory, cfg: Config, render: Renderer, month: string, year: int,
                     summarizer: Option<Summarizer>, manual: ManualInput)
    returns (r: Result<string>)
    modifies dir
    ensures month !in MonthNames ==> r == Err("invalid month name: " + month) && dir.files == old(dir.files)
    ensures month in MonthNames ==> var m := MonthNumber(month);
      (r, dir.files) == ReviewOutcome(old(dir.files), cfg, render, Monthly, MonthStart(year, m), MonthEnd(year, m),
        PathJoin(cfg.journalDir, MonthFileName(month, year)), MonthHeader(month, year), summarizer, manual)
  {
    var monthNum := MonthNumber(month);
    if monthNum == 0 {
      return Err("invalid month name: " + month);
    }
    var start := GoDate(year, monthNum, 1);
    var end := AddDate(start, 0, 1, -1);
    var header := MonthHeader(month, year);
    var path := PathJoin(cfg.journalDir, MonthFileName(month, year));
    r := WriteReview(dir, cfg, render, Monthly, start, end, path, header, summarizer, Monthly.Prompt(), manual);
  }

  /** `Sprintf("review_year_%d.md", year)`. */
  function YearFileName(year: int): string {
    "review_year_" + IntToString(year) + ".md"
  }

  /** `Sprintf("# Yearly Review - %d\n\n", year)`. */
  function YearHeader(year: int): string {
    "# " + YearTitle(year) + "\n\n"
  }

  function YearTitle(year: int): string {
    "Yearly Review - " + IntToString(year)
  }

  /** `ReviewYear`: the review of `year`, its notes grouped by month. */
  method ReviewYear(dir: Directory, cfg: Config, render: Renderer, year: int,
                    summarizer: Option<Summarizer>, manual: ManualInput)
    returns (r: Result<string>)
    modifies dir
    ensures (r, dir.files) == ReviewOutcome(old(dir.files), cfg, render, Yearly, YearStart(year), YearEnd(year),
      PathJoin(cfg.journalDir, YearFileName(year)), YearHeader(year), summarizer, manual)
  {
    var start := GoDate(year, 1, 1);
    var end := GoDate(year, 12, 31);
    var header := YearHeader(year);
    var path := PathJoin(cfg.journalDir, YearFileName(year));
    r := WriteReview(dir, cfg, render, Yearly, start, end, path, header, summarizer, Yearly.Prompt(), manual);
  }
}
