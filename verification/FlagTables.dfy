/**
 The flag and command words of flags.rs and commands.rs, list by list as each scanner
 spells them, and the facts about them that keep the scanners in step.
*/
module FlagTables {
  import opened Option
  import opened ArgScan

  const CONFIG := "--config"
  const RESTORE := "--restore"
  const RESTORE_IS := "--restore="

  /** Flags with a value that `parse_flags` matches, apart from --config. */
  const PARSE_VALUE: set<string> := {
    "--format", "--output", "--idempotency-key", "--session", "--restore-save", "--restore-check-url",
    "--restore-check-text", "--restore-check-fn", "--namespace", "--idle-timeout", "--headers",
    "--executable-path", "--extension", "--init-script", "--enable", "--cdp", "--profile", "--state",
    "--proxy", "--proxy-bypass", "--args", "--user-agent", "-p", "--provider", "--device", "--session-name",
    "--color-scheme", "--download-path", "--max-output", "--allowed-domains", "--action-policy",
    "--confirm-actions", "--engine", "--screenshot-dir", "--screenshot-quality", "--screenshot-format"
  }

  /** Switches that `parse_flags` matches. */
  const PARSE_SWITCH: set<string> := {
    "--json", "--headed", "--webgpu", "--debug", "--ignore-https-errors", "--allow-file-access",
    "--hide-scrollbars", "--auto-connect", "--annotate", "--content-boundaries", "--confirm-interactive",
    "--no-auto-dialog"
  }

  /** FLAGS_WITH_VALUE of `extract_config_path`. */
  const EXTRACT_VALUE: set<string> := {
    "--session", "--restore-save", "--restore-check-url", "--restore-check-text", "--restore-check-fn",
    "--namespace", "--headers", "--executable-path", "--cdp", "--extension", "--init-script", "--enable",
    "--profile", "--state", "--proxy", "--proxy-bypass", "--args", "--user-agent", "-p", "--provider",
    "--device", "--session-name", "--color-scheme", "--download-path", "--max-output", "--allowed-domains",
    "--action-policy", "--confirm-actions", "--engine", "--screenshot-dir", "--screenshot-quality",
    "--screenshot-format", "--idle-timeout", "--format", "--output", "--idempotency-key"
  }

  /** GLOBAL_FLAGS_WITH_VALUE of `clean_args`. */
  const CLEAN_VALUE: set<string> := {
    "--session", "--restore-save", "--restore-check-url", "--restore-check-text", "--restore-check-fn",
    "--namespace", "--headers", "--executable-path", "--cdp", "--extension", "--init-script", "--enable",
    "--profile", "--state", "--proxy", "--proxy-bypass", "--args", "--user-agent", "-p", "--provider",
    "--device", "--session-name", "--color-scheme", "--download-path", "--max-output", "--allowed-domains",
    "--action-policy", "--confirm-actions", "--config", "--engine", "--screenshot-dir", "--screenshot-quality",
    "--screenshot-format", "--idle-timeout", "--format", "--output", "--idempotency-key"
  }

  /** GLOBAL_BOOL_FLAGS of `clean_args`. */
  const CLEAN_SWITCH: set<string> := {
    "--json", "--headed", "--webgpu", "--debug", "--ignore-https-errors", "--allow-file-access",
    "--hide-scrollbars", "--auto-connect", "--annotate", "--content-boundaries", "--confirm-interactive",
    "--no-auto-dialog", "-v", "--verbose", "-q", "--quiet", "--offline", "--quick", "--fix"
  }

  predicate IsTopLevelCommand(s: string) {
    || s == "open" || s == "goto" || s == "navigate" || s == "back" || s == "forward" || s == "reload"
    || s == "read" || s == "click" || s == "dblclick" || s == "fill" || s == "type" || s == "hover"
    || s == "focus" || s == "check" || s == "uncheck" || s == "select" || s == "drag" || s == "upload"
    || s == "download" || s == "press" || s == "key" || s == "keydown" || s == "keyup" || s == "keyboard"
    || s == "scroll" || s == "scrollintoview" || s == "scrollinto" || s == "wait" || s == "screenshot"
    || s == "pdf" || s == "snapshot" || s == "audit" || s == "a11y" || s == "eval" || s == "close"
    || s == "quit" || s == "exit" || s == "inspect" || s == "auth" || s == "confirm" || s == "deny"
    || s == "connect" || s == "get" || s == "is" || s == "find" || s == "mouse" || s == "set" || s == "network"
    || s == "storage" || s == "cookies" || s == "tab" || s == "window" || s == "frame" || s == "dialog"
    || s == "trace" || s == "profiler" || s == "record" || s == "console" || s == "errors" || s == "highlight"
    || s == "clipboard" || s == "state" || s == "tap" || s == "swipe" || s == "device" || s == "diff"
    || s == "visual" || s == "batch" || s == "react" || s == "vitals" || s == "web-vitals" || s == "pushstate"
    || s == "removeinitscript" || s == "session" || s == "doctor" || s == "install" || s == "upgrade"
    || s == "profiles" || s == "skills" || s == "plugin" || s == "plugins" || s == "manifest" || s == "mark"
    || s == "config" || s == "init" || s == "run" || s == "scaffold"
  }

  predicate IsInline(s: string) {
    "--format=" <= s || "--output=" <= s || "--idempotency-key=" <= s
  }

  function ParseKind(s: string): Kind {
    if RESTORE_IS <= s then RestoreIs
    else if s in PARSE_SWITCH then SwitchFlag
    else if s in PARSE_VALUE then ValueFlag
    else if IsInline(s) then Inline
    else if s == RESTORE then Restore
    else if s == CONFIG then Config
    else Plain
  }

  function CleanKind(s: string): Kind {
    if RESTORE_IS <= s then RestoreIs
    else if IsInline(s) then Inline
    else if s in CLEAN_VALUE then ValueFlag
    else if s == RESTORE then Restore
    else if s in CLEAN_SWITCH then SwitchFlag
    else Plain
  }

  function ExtractKind(s: string): Kind {
    if s == CONFIG then Config else if s in EXTRACT_VALUE then ValueFlag else Plain
  }

  const TABLES: Tables := Tables(ParseKind, CleanKind, ExtractKind, IsTopLevelCommand)

  predicate IsFlagWord(s: string) {
    Dashed(s) && '=' !in s
  }

  lemma {:induction false} ListsAgree()
    ensures EXTRACT_VALUE == PARSE_VALUE
    ensures CLEAN_VALUE == PARSE_VALUE + {CONFIG}
    ensures PARSE_SWITCH <= CLEAN_SWITCH
  {
  }

  lemma {:induction false} ValueFlagsAreDashed(s: string)
    requires s in CLEAN_VALUE
    ensures Dashed(s)
  {
  }

  lemma {:induction false} ValueFlagsHaveNoEquals(s: string)
    requires s in CLEAN_VALUE
    ensures '=' !in s
  {
  }

  lemma {:induction false} SwitchesAreFlagWords(s: string)
    requires s in CLEAN_SWITCH
    ensures IsFlagWord(s)
  {
  }

  lemma {:induction false} FirstSwitchesTakeNoValue()
    ensures "--json" !in CLEAN_VALUE && "--headed" !in CLEAN_VALUE && "--webgpu" !in CLEAN_VALUE
  {
  }

  lemma {:induction false} SwitchesTakeNoValue(s: string)
    requires s in PARSE_SWITCH
    ensures s !in CLEAN_VALUE
  {
    FirstSwitchesTakeNoValue();
    assert "--debug" !in CLEAN_VALUE && "--annotate" !in CLEAN_VALUE && "--auto-connect" !in CLEAN_VALUE;
  }

  lemma {:induction false} RestoreIsNotListed()
    ensures CONFIG !in PARSE_VALUE && RESTORE !in CLEAN_VALUE && RESTORE !in CLEAN_SWITCH
  {
  }

  lemma {:induction false} TrueIsNoCommand()
    ensures !IsTopLevelCommand("true")
  {
  }

  lemma {:induction false} FalseIsNoCommand()
    ensures !IsTopLevelCommand("false")
  {
  }

  lemma {:induction false} MarkedTokens(s: string)
    requires RESTORE_IS <= s || IsInline(s)
    ensures Dashed(s) && '=' in s
  {
    if RESTORE_IS <= s {
      assert s[0] == '-' && s[9] == '=';
    } else if "--format=" <= s || "--output=" <= s {
      assert s[0] == '-' && s[8] == '=';
    } else {
      assert s[0] == '-' && s[17] == '=';
    }
  }

  /** What the lists say about one token. */
  ghost predicate Listed(s: string, value: bool, parseSwitch: bool, cleanSwitch: bool) {
    && value == (s in PARSE_VALUE) && parseSwitch == (s in PARSE_SWITCH) && cleanSwitch == (s in CLEAN_SWITCH)
    && (s in EXTRACT_VALUE <==> value)
    && (s in CLEAN_VALUE <==> value || s == CONFIG)
    && (value || cleanSwitch ==> IsFlagWord(s) && s != RESTORE)
    && (value ==> s != CONFIG)
    && (parseSwitch ==> cleanSwitch && !value && s != CONFIG)
  }

  lemma {:induction false} ListsOf(s: string)
    ensures Listed(s, s in PARSE_VALUE, s in PARSE_SWITCH, s in CLEAN_SWITCH)
  {
    ListsAgree();
    RestoreIsNotListed();
    if s in CLEAN_VALUE {
      ValueFlagsAreDashed(s);
      ValueFlagsHaveNoEquals(s);
    }
    if s in CLEAN_SWITCH {
      SwitchesAreFlagWords(s);
    }
    if s in PARSE_SWITCH {
      SwitchesTakeNoValue(s);
    }
  }

  /** The three scanners' own lists agree, so everything ArgScan proves holds of them. */
  lemma {:induction false} ScannersAgree()
    ensures Agree(TABLES)
  {
    TrueIsNoCommand();
    FalseIsNoCommand();
    forall s
      ensures ParseKind(s) != Plain ==>
        Dashed(s) && CleanKind(s) == if ParseKind(s) == Config then ValueFlag else ParseKind(s)
      ensures CleanKind(s) != Plain ==> Dashed(s)
      ensures ParseKind(s) == Plain ==> CleanKind(s) == Plain || CleanKind(s) == SwitchFlag
      ensures ExtractKind(s) == if ParseKind(s) == Config || ParseKind(s) == ValueFlag then ParseKind(s) else Plain
    {
      ListsOf(s);
      if RESTORE_IS <= s || IsInline(s) {
        MarkedTokens(s);
      }
    }
  }

  const EXTRA_SWITCHES: set<string> := {"-v", "--verbose", "-q", "--quiet", "--offline", "--quick", "--fix"}

  lemma {:induction false} SwitchListsDiffer()
    ensures CLEAN_SWITCH == PARSE_SWITCH + EXTRA_SWITCHES && PARSE_SWITCH !! EXTRA_SWITCHES
  {
  }

  lemma {:induction false} IsExtra(s: string)
    ensures s in EXTRA_SWITCHES <==> s in CLEAN_SWITCH && s !in PARSE_SWITCH
  {
    SwitchListsDiffer();
  }

  lemma {:induction false} ExtraSwitchesListed(s: string)
    ensures CleanKind(s) == SwitchFlag && ParseKind(s) == Plain <==> s in EXTRA_SWITCHES
  {
    ListsOf(s);
    IsExtra(s);
    if RESTORE_IS <= s || IsInline(s) {
      MarkedTokens(s);
    }
  }

  /** For every argument vector of the program: a token survives `clean_args` exactly when
      `parse_flags` takes it for a word and it is neither one of the extra switches nor a
      true/false right after one; `extract_config_path` looks at the first --config that
      `parse_flags` visits; and cleaning leaves nothing for any scanner to find. */
  lemma {:induction false} ProgramScannersKeepStep(args: seq<string>)
    ensures var roles := ParseFrom(TABLES, args, false).roles;
      && (forall i | 0 <= i < |args| ::
            CleanFrom(TABLES, args, false)[i] <==> roles[i] == Word && !ExtraDrop(TABLES, args, roles, i))
      && (ExtractFrom(TABLES, args).None? <==> NoVisit(TABLES, args, roles))
      && (ExtractFrom(TABLES, args).Some? ==>
            exists i: nat :: FirstVisit(TABLES, args, roles, i, ExtractFrom(TABLES, args).value))
    ensures var cleaned := Cleaned(TABLES, args, false);
      && Cleaned(TABLES, cleaned, false) == cleaned
      && ParseFrom(TABLES, cleaned, false).events == [] && ExtractFrom(TABLES, cleaned).None?
  {
    ScannersAgree();
    forall i | 0 <= i < |args| {
      CleanAgreesWithParse(TABLES, args, false, i);
    }
    ExtractFindsFirstVisited(TABLES, args, false);
    CleanIsFinal(TABLES, args, false);
  }
}
