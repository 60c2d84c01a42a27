/** The configuration value of pkg/config/config.go: `DefaultConfig` and
    `Validate`. Loading and saving the TOML file are not part of this model. */
module Config {
  import opened Results
  import opened Ai
  import opened Files

  datatype Config = Config(
    journalDir: string,
    dailyFileName: string,
    dailyTemplate: string,
    logEntryTemplate: string,
    aiEnabled: bool,
    aiCommand: string,
    aiPrompt: string,
    oneLineTemplate: string,
    aiSummarizer: Option<Summarizer>)

  /** `filepath.Join(home, ".logbook", "journal")`. */
  function DefaultJournalDir(home: string): string {
    PathJoin(home, ".logbook/journal")
  }

  const DefaultDailyFileName: string := "{{.Date | formatDate \"2006-01-02\"}}.md"
  const DefaultDailyTemplate: string :=
    "# {{.Date | formatDate \"Jan 02 2006 Monday\"}}\n<!-- add today summary below this line. If missing, the AI will generate one for you according to configuration file -->\n\n# One-line note\n\n# LOG\n\n"
  const DefaultLogEntryTemplate: string := "{{.Time | formatTime \"15:04\"}} {{.Entry}}"
  const DefaultAiPrompt: string :=
    "Write a summary of the note at the given file. Use 1st person and a simple language. Use 200 characters or less"
  const DefaultOneLineTemplate: string := "{{.Date | formatDate \"2006-01-02\"}}: {{.Summary}}"

  /** `DefaultConfig()`, with `$HOME` passed in. */
  function DefaultConfig(home: string): (cfg: Config)
    ensures !cfg.aiEnabled && cfg.aiSummarizer.None?
    ensures cfg.journalDir != ""
  {
    Config(DefaultJournalDir(home), DefaultDailyFileName, DefaultDailyTemplate,
           DefaultLogEntryTemplate, false, "", DefaultAiPrompt, DefaultOneLineTemplate, None)
  }

  /** The default configuration is valid, whatever the home directory. */
  lemma DefaultConfigIsValid(home: string)
    ensures Validate(DefaultConfig(home)).None?
  {
    assert |DefaultDailyFileName| > 0 && |DefaultDailyTemplate| > 0 && |DefaultLogEntryTemplate| > 0;
  }

  /** `Config.Validate`: the message of the first failing check, or None. */
  function Validate(cfg: Config): Option<string> {
    if cfg.journalDir == "" then Some("JournalDir cannot be empty")
    else if cfg.dailyFileName == "" then Some("DailyFileName cannot be empty")
    else if cfg.dailyTemplate == "" then Some("DailyTemplate cannot be empty")
    else if cfg.logEntryTemplate == "" then Some("LogEntryTemplate cannot be empty")
    else if cfg.aiEnabled && cfg.aiPrompt == "" then Some("AIPrompt cannot be empty if AI is enabled")
    else if cfg.aiEnabled && cfg.aiCommand == "" then Some("AICommand cannot be empty if AI is enabled")
    else None
  }

  /** The checks `Validate` makes, in order: (fails, message). */
  function Checks(cfg: Config): seq<(bool, string)> {
    [ (cfg.journalDir == "", "JournalDir cannot be empty"),
      (cfg.dailyFileName == "", "DailyFileName cannot be empty"),
      (cfg.dailyTemplate == "", "DailyTemplate cannot be empty"),
      (cfg.logEntryTemplate == "", "LogEntryTemplate cannot be empty"),
      (cfg.aiEnabled && cfg.aiPrompt == "", "AIPrompt cannot be empty if AI is enabled"),
      (cfg.aiEnabled && cfg.aiCommand == "", "AICommand cannot be empty if AI is enabled") ]
  }

  /** The message of the first failing check of a list. */
  function FirstFailure(checks: seq<(bool, string)>): Option<string> {
    if checks == [] then None
    else if checks[0].0 then Some(checks[0].1)
    else FirstFailure(checks[1..])
  }

  /** `Validate` reports the first failing check and only that one; it passes
      exactly when no check fails. */
  lemma ValidateReportsFirstFailure(cfg: Config)
    ensures Validate(cfg) == FirstFailure(Checks(cfg))
    ensures Validate(cfg).None? <==> forall i :: 0 <= i < |Checks(cfg)| ==> !Checks(cfg)[i].0
    ensures Validate(cfg).Some? ==>
              exists i :: 0 <= i < |Checks(cfg)| && Checks(cfg)[i].0 && Validate(cfg).value == Checks(cfg)[i].1
                && forall j :: 0 <= j < i ==> !Checks(cfg)[j].0
  {
    FirstOfSix(Checks(cfg));
    FirstFailureIsFirst(Checks(cfg));
  }

  /** `FirstFailure` of six checks, written out. */
  lemma FirstOfSix(cs: seq<(bool, string)>)
    requires |cs| == 6
    ensures FirstFailure(cs) ==
      if cs[0].0 then Some(cs[0].1) else if cs[1].0 then Some(cs[1].1) else if cs[2].0 then Some(cs[2].1)
      else if cs[3].0 then Some(cs[3].1) else if cs[4].0 then Some(cs[4].1) else if cs[5].0 then Some(cs[5].1)
      else None
  {
    FirstFailureFrom(cs, 0);
    FirstFailureFrom(cs, 1);
    FirstFailureFrom(cs, 2);
    FirstFailureFrom(cs, 3);
    FirstFailureFrom(cs, 4);
    FirstFailureFrom(cs, 5);
    assert cs[0..] == cs;
    assert cs[6..] == [];
  }

  lemma FirstFailureFrom(cs: seq<(bool, string)>, k: nat)
    requires k < |cs|
    ensures FirstFailure(cs[k..]) == if cs[k].0 then Some(cs[k].1) else FirstFailure(cs[k + 1..])
  {
    assert cs[k..][1..] == cs[k + 1..];
  }

  /** `FirstFailure` names the earliest failing check, and nothing when none fails. */
  lemma {:induction false} FirstFailureIsFirst(checks: seq<(bool, string)>)
    ensures FirstFailure(checks).None? <==> forall i :: 0 <= i < |checks| ==> !checks[i].0
    ensures FirstFailure(checks).Some? ==>
              exists i :: 0 <= i < |checks| && checks[i].0 && FirstFailure(checks).value == checks[i].1
                && forall j :: 0 <= j < i ==> !checks[j].0
  {
    if checks != [] && !checks[0].0 {
      FirstFailureIsFirst(checks[1..]);
      if FirstFailure(checks).Some? {
        var i :| 0 <= i < |checks[1..]| && checks[1..][i].0
              && FirstFailure(checks[1..]).value == checks[1..][i].1
              && forall j :: 0 <= j < i ==> !checks[1..][j].0;
        assert checks[i + 1].0;
        assert forall j :: 0 <= j < i + 1 ==> !checks[j].0 by {
          forall j | 0 <= j < i + 1 ensures !checks[j].0 {
            if j > 0 { assert checks[j] == checks[1..][j - 1]; }
          }
        }
      } else {
        assert forall i :: 1 <= i < |checks| ==> checks[i] == checks[1..][i - 1];
      }
    }
  }

  /** With AI disabled, the prompt and the command are not checked. */
  lemma AiFieldsIgnoredWhenDisabled(cfg: Config, prompt: string, command: string)
    requires !cfg.aiEnabled
    ensures Validate(cfg.(aiPrompt := prompt, aiCommand := command)) == Validate(cfg)
  {
  }

  /** With AI enabled, an empty prompt or command makes the configuration invalid. */
  lemma AiFieldsRequiredWhenEnabled(cfg: Config)
    requires cfg.aiEnabled && (cfg.aiPrompt == "" || cfg.aiCommand == "")
    ensures Validate(cfg).Some?
  {
  }
}
