/** The layout of a daily note and the line-level logic shared by
    pkg/journal/journal.go and pkg/oneline/oneline.go: finding the summary
    paragraph, deciding whether a summary is missing, and writing one in.

    A note is a title line, an optional HTML comment, the summary paragraph,
    then the "# One-line note" and "# LOG" chapters. Lines are the pieces of
    `strings.Split(content, "\n")`; classification is on the trimmed line. */
module DailyNote {
  import opened Text

  /** A line that ends the summary area: the LOG or the One-line note chapter. */
  predicate IsStop(t: string) {
    HasPrefix(t, "# LOG") || HasPrefix(t, "# One-line note")
  }

  predicate IsComment(t: string) {
    HasPrefix(t, "<!--")
  }

  predicate IsHeading(t: string) {
    HasPrefix(t, "#")
  }

  /** No line holds a line break, as for the pieces of `Split`. */
  predicate NoNewlines(ls: seq<string>) {
    forall i :: 0 <= i < |ls| ==> '\n' !in ls[i]
  }

  /** How the summary scans see a trimmed line, in the order they test it: a
      stop line first, then a blank line, an HTML comment, a heading, and text. */
  datatype LineKind = Stop | Blank | Comment | Heading | Text

  /** A line as the scans see it: its kind and its trimmed text. */
  datatype Line = Line(kind: LineKind, text: string)

  function KindOf(t: string): LineKind {
    if IsStop(t) then Stop
    else if t == "" then Blank
    else if IsComment(t) then Comment
    else if IsHeading(t) then Heading
    else Text
  }

  function Scan(line: string): Line {
    var t := TrimSpace(line);
    Line(KindOf(t), t)
  }

  function ScanAll(lines: seq<string>): (r: seq<Line>)
    ensures |r| == |lines|
  {
    seq(|lines|, i requires 0 <= i < |lines| => Scan(lines[i]))
  }

  lemma ScanAllAppend(a: seq<string>, b: seq<string>)
    ensures ScanAll(a + b) == ScanAll(a) + ScanAll(b)
  {
    assert forall i :: 0 <= i < |a| + |b| ==> ScanAll(a + b)[i] == (ScanAll(a) + ScanAll(b))[i] by {
      forall i | 0 <= i < |a| + |b| ensures ScanAll(a + b)[i] == (ScanAll(a) + ScanAll(b))[i] {
        if i >= |a| { assert (a + b)[i] == b[i - |a|]; }
      }
    }
  }

  lemma ScanAllDrop(lines: seq<string>, i: nat)
    requires i <= |lines|
    ensures ScanAll(lines)[i..] == ScanAll(lines[i..])
  {
  }

  /** Trims and classifies every line of a note. */
  method ScanLines(lines: seq<string>) returns (scanned: seq<Line>)
    ensures scanned == ScanAll(lines)
  {
    scanned := [];
    var i := 0;
    while i < |lines|
      invariant 0 <= i <= |lines|
      invariant scanned == ScanAll(lines[..i])
    {
      assert lines[..i + 1] == lines[..i] + [lines[i]];
      ScanAllAppend(lines[..i], [lines[i]]);
      scanned := scanned + [Scan(lines[i])];
      i := i + 1;
    }
    assert lines[..i] == lines;
  }

  /** A text that can stand in the summary paragraph: non-empty, trimmed, and
      neither a comment nor a stop line. */
  predicate SummaryText(t: string) {
    t != "" && Trimmed(t) && !IsComment(t) && !IsStop(t)
  }

  /** Text and heading lines carry paragraph text. */
  lemma ScanText(line: string)
    ensures Scan(line).kind in {Text, Heading} ==> SummaryText(Scan(line).text)
    ensures Scan(line).kind == Text ==> !IsHeading(Scan(line).text)
    ensures '\n' !in line ==> '\n' !in Scan(line).text
  {
    if '\n' !in line {
      TrimSpaceNoNewline(line);
    }
  }

  // ---------------------------------------------------------------------
  // The summary: the first paragraph after the title
  // ---------------------------------------------------------------------

  /** The summary lines found in `ls` (the lines after the title) before the
      paragraph has started: blank lines, comments and sub-headings are skipped,
      a stop line ends the search, and the first text line opens the paragraph. */
  function LeadIn(ls: seq<Line>): seq<string> {
    if ls == [] then []
    else match ls[0].kind
      case Stop => []
      case Blank => LeadIn(ls[1..])
      case Comment => LeadIn(ls[1..])
      case Heading => LeadIn(ls[1..])
      case Text => [ls[0].text] + Paragraph(ls[1..])
  }

  /** The rest of an open paragraph: it runs to the first blank or stop line;
      comments inside it are skipped and headings are kept as text. */
  function Paragraph(ls: seq<Line>): seq<string> {
    if ls == [] then []
    else match ls[0].kind
      case Stop => []
      case Blank => []
      case Comment => Paragraph(ls[1..])
      case Heading => [ls[0].text] + Paragraph(ls[1..])
      case Text => [ls[0].text] + Paragraph(ls[1..])
  }

  /** The summary of scanned lines: the summary paragraph, pieces joined by spaces. */
  function ScannedSummary(ls: seq<Line>): string {
    if |ls| <= 1 then "" else Join(LeadIn(ls[1..]), " ")
  }

  /** The summary of a note. */
  function SummaryOf(lines: seq<string>): string {
    ScannedSummary(ScanAll(lines))
  }

  /** `ExtractSummary`'s loop, over the scanned lines of a note. */
  method FirstParagraph(scanned: seq<Line>) returns (summary: string)
    ensures summary == ScannedSummary(scanned)
  {
    if |scanned| <= 1 {
      return "";
    }
    var acc: seq<string> := [];
    var reading := false;
    var i := 1;
    while i < |scanned|
      invariant 1 <= i <= |scanned|
      invariant !reading ==> acc == [] && LeadIn(scanned[1..]) == LeadIn(scanned[i..])
      invariant reading ==> LeadIn(scanned[1..]) == acc + Paragraph(scanned[i..])
    {
      assert scanned[i..][1..] == scanned[i + 1..];
      var line := scanned[i];
      if line.kind == Stop {
        assert LeadIn(scanned[1..]) == acc;
        break;
      }
      if line.kind == Blank {
        if reading {
          assert LeadIn(scanned[1..]) == acc;
          break;
        }
        i := i + 1;
        continue;
      }
      if line.kind == Comment {
        i := i + 1;
        continue;
      }
      if !reading && line.kind == Heading {
        i := i + 1;
        continue;
      }
      if reading {
        assert acc + ([line.text] + Paragraph(scanned[i + 1..])) == (acc + [line.text]) + Paragraph(scanned[i + 1..]);
      }
      reading := true;
      acc := acc + [line.text];
      i := i + 1;
    }
    assert LeadIn(scanned[1..]) == acc by {
      if i == |scanned| {
        assert scanned[i..] == [];
        assert acc + [] == acc;
      }
    }
    summary := if |acc| > 0 then Join(acc, " ") else "";
  }

  /** `ExtractSummary` on the lines of a note. */
  method ExtractSummaryFromLines(lines: seq<string>) returns (summary: string)
    ensures summary == SummaryOf(lines)
  {
    var scanned := ScanLines(lines);
    summary := FirstParagraph(scanned);
  }

  /** Every line of `ls` that carries paragraph text carries a one-line summary text. */
  predicate GoodTexts(ls: seq<Line>) {
    forall j :: 0 <= j < |ls| && ls[j].kind in {Text, Heading} ==> SummaryText(ls[j].text) && '\n' !in ls[j].text
  }

  /** Each piece of a paragraph is a one-line summary text. */
  predicate GoodPieces(ps: seq<string>) {
    forall i :: 0 <= i < |ps| ==> SummaryText(ps[i]) && '\n' !in ps[i]
  }

  lemma {:induction false} LeadInPieces(ls: seq<Line>)
    requires GoodTexts(ls)
    ensures GoodPieces(LeadIn(ls))
  {
    if ls != [] {
      assert GoodTexts(ls[1..]) by {
        forall j | 0 <= j < |ls| - 1 ensures ls[1..][j] == ls[j + 1] { }
      }
      LeadInPieces(ls[1..]);
      ParagraphPieces(ls[1..]);
    }
  }

  lemma {:induction false} ParagraphPieces(ls: seq<Line>)
    requires GoodTexts(ls)
    ensures GoodPieces(Paragraph(ls))
  {
    if ls != [] {
      assert GoodTexts(ls[1..]) by {
        forall j | 0 <= j < |ls| - 1 ensures ls[1..][j] == ls[j + 1] { }
      }
      ParagraphPieces(ls[1..]);
    }
  }

  /** Joining non-empty trimmed one-line pieces with spaces gives a trimmed
      single line that starts with the first piece. */
  lemma {:induction false} JoinWithSpaces(ps: seq<string>)
    requires GoodPieces(ps)
    ensures Trimmed(Join(ps, " ")) && '\n' !in Join(ps, " ")
    ensures |ps| > 0 ==> Join(ps, " ") != "" && Join(ps, " ")[0] == ps[0][0]
  {
    if |ps| > 1 {
      assert GoodPieces(ps[1..]) by {
        forall i | 0 <= i < |ps| - 1 ensures ps[1..][i] == ps[i + 1] { }
      }
      JoinWithSpaces(ps[1..]);
      assert Join(ps, " ") == ps[0] + " " + Join(ps[1..], " ");
    }
  }

  /** The summary of a note is a single trimmed line. */
  lemma SummaryIsOneLine(content: string)
    ensures Trimmed(SummaryOf(Split(content)))
    ensures '\n' !in SummaryOf(Split(content))
  {
    var lines := Split(content);
    if |lines| > 1 {
      var ls := ScanAll(lines)[1..];
      assert GoodTexts(ls) by {
        forall j | 0 <= j < |ls| && ls[j].kind in {Text, Heading}
          ensures SummaryText(ls[j].text) && '\n' !in ls[j].text
        {
          assert ls[j] == Scan(lines[j + 1]);
          ScanText(lines[j + 1]);
        }
      }
      LeadInPieces(ls);
      JoinWithSpaces(LeadIn(ls));
    }
  }

  // ---------------------------------------------------------------------
  // Is the summary missing?
  // ---------------------------------------------------------------------

  /** A line the missing-summary check passes over: blank, or an HTML comment. */
  predicate Filler(k: LineKind) {
    k == Blank || k == Comment
  }

  /** A summary is present when, after the title, the first line that is
      neither blank nor a comment is text rather than a heading. */
  predicate ScannedPresent(s: seq<Line>) {
    exists i :: 1 <= i < |s| && s[i].kind == Text && forall j :: 1 <= j < i ==> Filler(s[j].kind)
  }

  predicate SummaryPresent(lines: seq<string>) {
    ScannedPresent(ScanAll(lines))
  }

  /** The missing-summary loop of `GenerateSummaryIfMissing`, over scanned lines. */
  method FirstContentIsHeading(scanned: seq<Line>) returns (missing: bool)
    ensures missing <==> !ScannedPresent(scanned)
  {
    missing := true;
    var i := 1;
    while i < |scanned|
      invariant i == 1 || 1 <= i <= |scanned|
      invariant forall j :: 1 <= j < i ==> Filler(scanned[j].kind)
    {
      var line := scanned[i];
      if line.kind == Blank {
        i := i + 1;
        continue;
      }
      if line.kind == Comment {
        i := i + 1;
        continue;
      }
      if line.kind == Stop || line.kind == Heading {
        break;
      }
      missing := false;
      break;
    }
  }

  /** Whether a note lacks its summary. */
  method SummaryIsMissing(lines: seq<string>) returns (missing: bool)
    ensures missing <==> !SummaryPresent(lines)
  {
    var scanned := ScanLines(lines);
    missing := FirstContentIsHeading(scanned);
  }

  /** A present summary is never extracted as empty: extraction starts at the same line. */
  lemma {:induction false} PresentSummaryIsExtracted(lines: seq<string>)
    requires SummaryPresent(lines)
    ensures SummaryOf(lines) != ""
  {
    var s := ScanAll(lines);
    var i :| 1 <= i < |s| && s[i].kind == Text && forall j :: 1 <= j < i ==> Filler(s[j].kind);
    LeadInFromFirstText(s[1..], i - 1);
    var ps := LeadIn(s[1..]);
    assert ps[0] != "";
    assert Join(ps, " ") == if |ps| == 1 then ps[0] else ps[0] + " " + Join(ps[1..], " ");
  }

  lemma {:induction false} LeadInFromFirstText(ls: seq<Line>, i: nat)
    requires i < |ls| && ls[i].kind == Text && forall j :: 0 <= j < i ==> Filler(ls[j].kind)
    ensures LeadIn(ls) != [] && LeadIn(ls)[0] == ls[i].text
  {
    if i > 0 {
      assert Filler(ls[0].kind);
      LeadInFromFirstText(ls[1..], i - 1);
    }
  }

  /** The two scans disagree: a sub-heading before the first paragraph makes
      the summary count as missing, yet extraction finds the paragraph below it. */
  lemma HeadingHidesSummary()
    ensures !SummaryPresent(["# Title", "## Morning", "Went running."])
    ensures SummaryOf(["# Title", "## Morning", "Went running."]) == "Went running."
  {
    MorningIsHeading();
    RunningIsText();
    HeadingAboveText("# Title", "## Morning", "Went running.");
  }

  lemma MorningIsHeading()
    ensures Scan("## Morning") == Line(Heading, "## Morning")
  {
    TrimSpaceOfTrimmed("## Morning");
    assert "## Morning"[..5][1] != "# LOG"[1];
    assert "## Morning"[..4] != "<!--";
  }

  lemma RunningIsText()
    ensures Scan("Went running.") == Line(Text, "Went running.")
  {
    TrimSpaceOfTrimmed("Went running.");
    assert "Went running."[..5] != "# LOG";
    assert "Went running."[..4] != "<!--";
  }

  /** A heading line, then a text line, below the title: no summary counts as
      present, and the text line is the summary extracted. */
  lemma HeadingAboveText(title: string, heading: string, text: string)
    requires Scan(heading) == Line(Heading, heading) && Scan(text) == Line(Text, text)
    ensures !SummaryPresent([title, heading, text]) && SummaryOf([title, heading, text]) == text
  {
    var lines := [title, heading, text];
    var s := ScanAll(lines);
    assert s[1] == Scan(lines[1]) && s[2] == Scan(lines[2]);
    assert !ScannedPresent(s) by {
      assert forall i :: 1 <= i < 3 && s[i].kind == Text ==> i == 2 && !Filler(s[1].kind);
    }
    assert s[1..][1..] == [s[2]];
    assert s[1..][1..][1..] == [];
    assert LeadIn(s[1..][1..]) == [text] + Paragraph([]);
    assert LeadIn(s[1..]) == [text];
  }

  // ---------------------------------------------------------------------
  // Writing a summary in
  // ---------------------------------------------------------------------

  /** `ls` without its leading blank lines. */
  function DropBlank(ls: seq<string>): (r: seq<string>)
    ensures |r| <= |ls| && r == ls[|ls| - |r|..]
    ensures forall i :: 0 <= i < |ls| - |r| ==> IsBlank(ls[i])
    ensures r != [] ==> !IsBlank(r[0])
  {
    if ls != [] && IsBlank(ls[0]) then DropBlank(ls[1..]) else ls
  }

  /** The lines kept above a new summary: the title, and the comment after it if any. */
  function SummaryHead(lines: seq<string>): (h: seq<string>)
    requires |lines| >= 1
    ensures 1 <= |h| <= 2 && |h| <= |lines| && h == lines[..|h|]
  {
    if |lines| > 1 && IsComment(TrimSpace(lines[1])) then lines[..2] else lines[..1]
  }

  /** The lines of the note once `summary` is written in: the head, the trimmed
      summary and an empty line, then the rest of the note from its first
      non-blank line (or a final empty line when nothing follows). */
  function LinesWithSummary(lines: seq<string>, summary: string): seq<string>
    requires |lines| >= 1
  {
    var head := SummaryHead(lines);
    var rest := DropBlank(lines[|head|..]);
    head + [TrimSpace(summary), ""] + (if rest == [] then [""] else rest)
  }

  /** The note with `summary` written in. */
  function WithSummary(lines: seq<string>, summary: string): string
    requires |lines| >= 1
  {
    Join(LinesWithSummary(lines, summary), "\n")
  }

  /** Joining the head, a summary line, an empty line and the rest (or a lone
      empty line when there is no rest). */
  lemma JoinAroundSummary(head: seq<string>, s: string, rest: seq<string>)
    requires |head| >= 1
    ensures Join(head + [s, ""] + (if rest == [] then [""] else rest), "\n")
      == Join(head, "\n") + "\n" + s + "\n\n" + Join(rest, "\n")
  {
    var tail := if rest == [] then [""] else rest;
    assert Join(tail, "\n") == Join(rest, "\n");
    assert Join([s, ""] + tail, "\n") == s + "\n" + ("" + "\n" + Join(tail, "\n")) by {
      assert ([s, ""] + tail)[1..] == [""] + tail;
      assert ([""] + tail)[1..] == tail;
    }
    JoinAppend(head, [s, ""] + tail, "\n");
    assert head + [s, ""] + tail == head + ([s, ""] + tail);
  }

  /** The text of the note with a summary written in, piece by piece. */
  lemma WithSummaryText(lines: seq<string>, summary: string)
    requires |lines| >= 1
    ensures var head := SummaryHead(lines);
      WithSummary(lines, summary)
        == Join(head, "\n") + "\n" + TrimSpace(summary) + "\n\n" + Join(DropBlank(lines[|head|..]), "\n")
  {
    JoinAroundSummary(SummaryHead(lines), TrimSpace(summary), DropBlank(lines[|SummaryHead(lines)|..]));
  }

  /** The insertion of `GenerateSummaryIfMissing` (and of `saveSummaryToFile`). */
  method InsertSummary(lines: seq<string>, summary: string) returns (content: string)
    requires |lines| >= 1
    ensures content == WithSummary(lines, summary)
  {
    var start;
    content, start := HeadText(lines);
    content := content + TrimSpace(summary) + "\n\n";
    start := SkipLeadingBlanks(lines, start);
    if start < |lines| {
      content := content + Join(lines[start..], "\n");
    } else {
      assert content == content + Join(lines[start..], "\n");
    }
    WithSummaryText(lines, summary);
  }

  /** The title line, and the comment line after it if there is one, each
      followed by a newline. */
  method HeadText(lines: seq<string>) returns (content: string, start: nat)
    requires |lines| >= 1
    ensures start == |SummaryHead(lines)| && content == Join(SummaryHead(lines), "\n") + "\n"
  {
    ghost var head := SummaryHead(lines);
    content := lines[0] + "\n";
    start := 1;
    if |lines| > 1 && IsComment(TrimSpace(lines[1])) {
      content := content + lines[1] + "\n";
      start := 2;
      assert Join(head, "\n") == lines[0] + "\n" + lines[1] by {
        assert head[1..] == [lines[1]];
      }
    }
  }

  /** The first line at or after `from` that is not blank (or the end). */
  method SkipLeadingBlanks(lines: seq<string>, from: nat) returns (start: nat)
    requires from <= |lines|
    ensures from <= start <= |lines| && lines[start..] == DropBlank(lines[from..])
  {
    start := from;
    while start < |lines| && IsBlank(lines[start])
      invariant from <= start <= |lines|
      invariant DropBlank(lines[start..]) == DropBlank(lines[from..])
    {
      DropBlankAt(lines, start);
      start := start + 1;
    }
    DropBlankAt(lines, start);
  }

  /** One step of `DropBlank` on a suffix of `lines`. */
  lemma DropBlankAt(lines: seq<string>, k: nat)
    requires k <= |lines|
    ensures k < |lines| && IsBlank(lines[k]) ==> DropBlank(lines[k..]) == DropBlank(lines[k + 1..])
    ensures k == |lines| || !IsBlank(lines[k]) ==> DropBlank(lines[k..]) == lines[k..]
  {
    if k < |lines| {
      var rest := lines[k..];
      assert rest[0] == lines[k];
      assert rest[1..] == lines[k + 1..];
    }
  }

  /** Writing a summary in splits back into the expected lines. */
  lemma WithSummaryLines(lines: seq<string>, summary: string)
    requires |lines| >= 1 && NoNewlines(lines)
    requires '\n' !in TrimSpace(summary)
    ensures Split(WithSummary(lines, summary)) == LinesWithSummary(lines, summary)
  {
    SummaryLinesAreLines(lines, summary);
    SplitJoin(LinesWithSummary(lines, summary));
  }

  lemma SummaryLinesAreLines(lines: seq<string>, summary: string)
    requires |lines| >= 1 && NoNewlines(lines)
    requires '\n' !in TrimSpace(summary)
    ensures NoNewlines(LinesWithSummary(lines, summary))
  {
    var head := SummaryHead(lines);
    var after := lines[|head|..];
    NoNewlinesSlice(lines, 0, |head|);
    NoNewlinesSlice(lines, |head|, |lines|);
    NoNewlinesSlice(after, |after| - |DropBlank(after)|, |after|);
    LinesAroundSummary(head, TrimSpace(summary), DropBlank(after));
  }

  lemma LinesAroundSummary(head: seq<string>, s: string, rest: seq<string>)
    requires NoNewlines(head) && NoNewlines(rest) && '\n' !in s
    ensures NoNewlines(head + [s, ""] + (if rest == [] then [""] else rest))
  {
    NoNewlinesAppend(head, [s, ""]);
    NoNewlinesAppend(head + [s, ""], if rest == [] then [""] else rest);
  }

  lemma NoNewlinesSlice(ls: seq<string>, a: nat, b: nat)
    requires a <= b <= |ls| && NoNewlines(ls)
    ensures NoNewlines(ls[a..b])
  {
    assert forall i :: 0 <= i < b - a ==> ls[a..b][i] == ls[a + i];
  }

  lemma NoNewlinesAppend(a: seq<string>, b: seq<string>)
    requires NoNewlines(a) && NoNewlines(b)
    ensures NoNewlines(a + b)
  {
    assert forall i :: |a| <= i < |a + b| ==> (a + b)[i] == b[i - |a|];
  }

  /** A summary text that reads back unchanged: one non-empty line that the
      summary scan takes as text (not a heading or comment). */
  predicate WellFormedSummary(summary: string) {
    var s := TrimSpace(summary);
    s != "" && '\n' !in s && !IsHeading(s) && !IsComment(s)
  }

  lemma ScanAllThree(a: seq<string>, b: seq<string>, c: seq<string>)
    ensures ScanAll(a + b + c) == ScanAll(a) + (ScanAll(b) + ScanAll(c))
  {
    ScanAllAppend(a + b, c);
    ScanAllAppend(a, b);
  }

  /** A well-formed summary scans as a text line. */
  lemma ScanSummary(summary: string)
    requires WellFormedSummary(summary)
    ensures Scan(TrimSpace(summary)) == Line(Text, TrimSpace(summary))
  {
    TrimSpaceOfTrimmed(TrimSpace(summary));
  }

  lemma ScanEmpty()
    ensures Scan("") == Line(Blank, "")
  {
    TrimSpaceOfTrimmed("");
  }

  /** The scan of lines with a text line `s` and an empty line in the middle. */
  lemma ScanAroundSummary(head: seq<string>, s: string, tail: seq<string>)
    requires Scan(s) == Line(Text, s)
    ensures ScanAll(head + [s, ""] + tail) == ScanAll(head) + ([Line(Text, s), Line(Blank, "")] + ScanAll(tail))
  {
    ScanAllThree(head, [s, ""], tail);
    ScanEmpty();
    assert ScanAll([s, ""]) == [Scan(s), Scan("")];
  }

  /** In a scan shaped like a note with a fresh summary, the summary paragraph is
      exactly that summary. */
  lemma {:induction false} FreshSummaryScan(h: seq<Line>, s: string, t: seq<Line>)
    requires 1 <= |h| <= 2 && (|h| == 2 ==> h[1].kind == Comment)
    ensures var sc := h + ([Line(Text, s), Line(Blank, "")] + t);
      ScannedSummary(sc) == s && ScannedPresent(sc)
  {
    var para := [Line(Text, s), Line(Blank, "")] + t;
    var sc := h + para;
    assert para[1..][0].kind == Blank;
    assert LeadIn(para) == [s];
    if |h| == 1 {
      assert sc[1..] == para;
      assert sc[1].kind == Text;
    } else {
      assert sc[1..] == [h[1]] + para;
      assert ([h[1]] + para)[1..] == para;
      assert sc[2].kind == Text && Filler(sc[1].kind);
    }
  }

  /** The second line of the head, when kept, scans as a comment. */
  lemma HeadScan(lines: seq<string>)
    requires |lines| >= 1
    ensures var h := ScanAll(SummaryHead(lines)); |h| == 2 ==> h[1].kind == Comment
  {
    var head := SummaryHead(lines);
    if |head| == 2 {
      var t := TrimSpace(lines[1]);
      assert ScanAll(head)[1] == Line(KindOf(t), t);
      assert IsComment(t);
      assert !IsStop(t) && t != "" by {
        assert t[..4] == "<!--";
        assert t[0] != '#';
      }
    }
  }

  /** Writing a well-formed summary in and extracting it again gives the
      trimmed summary back, and the summary is then no longer missing. */
  lemma InsertThenExtract(lines: seq<string>, summary: string)
    requires |lines| >= 1 && NoNewlines(lines)
    requires WellFormedSummary(summary)
    ensures SummaryOf(Split(WithSummary(lines, summary))) == TrimSpace(summary)
    ensures SummaryPresent(Split(WithSummary(lines, summary)))
  {
    var head := SummaryHead(lines);
    var rest := DropBlank(lines[|head|..]);
    var tail := if rest == [] then [""] else rest;
    var s := TrimSpace(summary);
    var out := LinesWithSummary(lines, summary);
    assert Split(WithSummary(lines, summary)) == out by {
      WithSummaryLines(lines, summary);
    }
    var h := ScanAll(head);
    assert ScanAll(out) == h + ([Line(Text, s), Line(Blank, "")] + ScanAll(tail)) by {
      ScanSummary(summary);
      ScanAroundSummary(head, s, tail);
    }
    HeadScan(lines);
    FreshSummaryScan(h, s, ScanAll(tail));
  }
}
