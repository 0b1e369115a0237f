// The entry points around the builder screen: nmapx.go's main (privilege
// and argument checks, tui.go's screen, the checks on the command it returns
// and the start of the scan), and the mains of nmapX.go and pantalla2.go,
// which act on the command once their screen has closed.
module Program {
  import opened Strings
  import opened Options
  import opened Dispatch
  import opened Navigation
  import opened Screen
  import opened Report
  import opened Scan

  /**
   * main up to the point where the application loop takes over (Continue),
   * or the exit status it ends with. `args` are os.Args, `events` what the
   * operator does in the builder screen, `sudoOk` the answer of the first
   * privilege check; the scan gets its own answers from `w`.
   */
  method NmapxMain(args: seq<string>, sudoOk: bool, events: seq<Event>, apiKey: bool,
                   m: Machine, w: World, os: Os)
    returns (exit: Exit, nmapCmd: string, state: AppState?)
    modifies m
    ensures !sudoOk ==> exit == Exit(1) && m.log == old(m.log) + [Exec(SudoCheck)] && m.files == old(m.files)
    ensures sudoOk && |args| < 2 ==> exit == Exit(1) && m.log == old(m.log) + [Exec(SudoCheck)]
    ensures exit == Exit(0) <==> sudoOk && |args| >= 2 && nmapCmd == ""
    ensures exit == Continue <==> sudoOk && |args| >= 2 && ScanArgs(nmapCmd).Some?
    ensures sudoOk && |args| >= 2 && nmapCmd != "" && ScanArgs(nmapCmd).None? ==> exit == Exit(1)
    ensures nmapCmd != "" ==> exists sel :: Shaped(Catalog(Tui), sel) && nmapCmd == CommandLine(Catalog(Tui), sel, None)
    ensures sudoOk && |args| >= 2 ==> (nmapCmd != "" <==> Press(Rune('E')) in events)
    ensures sudoOk && |args| >= 2 && Delivered(Tui, events).stopped ==>
      nmapCmd == CommandLine(Catalog(Tui), Delivered(Tui, events).sel, None)
    ensures exit == Continue ==>
      && state != null
      && state.target == args[1]
      && Some(state.selectedNmapArgs) == ScanArgs(nmapCmd)
      && state.selectedExtraCmds == []
    ensures exit == Continue && w.sudoOk ==>
      && state.htmlPath in m.reports
      && m.reports[state.htmlPath].target == args[1]
      && m.reports[state.htmlPath].args == state.selectedNmapArgs
    ensures exit == Continue && FlagsCanonical(Catalog(Tui)) ==>
      "nmap " + Join(state.selectedNmapArgs, " ") == nmapCmd
  {
    nmapCmd, state := "", null;
    m.log := m.log + [Exec(SudoCheck)];
    if !sudoOk {
      return Exit(1), nmapCmd, state;
    }
    if |args| < 2 {
      return Exit(1), nmapCmd, state;
    }
    state := new AppState();
    state.target := args[1];

    nmapCmd := ShowNmapTUI(args, apiKey, events);
    if nmapCmd == "" {
      return Exit(0), nmapCmd, state;
    }
    ghost var sel :| Shaped(Catalog(Tui), sel) && nmapCmd == CommandLine(Catalog(Tui), sel, None);

    CommandRoundTrip(Catalog(Tui), sel, nmapCmd);
    exit := ScanCommand(state, nmapCmd, m, w, os);
  }

  /** The checks on the returned command, then the scan with its arguments. */
  method ScanCommand(state: AppState, nmapCmd: string, m: Machine, w: World, os: Os) returns (exit: Exit)
    modifies state, m
    ensures exit == Continue || exit == Exit(1)
    ensures exit == Continue <==> ScanArgs(nmapCmd).Some?
    ensures exit == Exit(1) ==> m.log == old(m.log) && m.files == old(m.files) && m.reports == old(m.reports)
    ensures state.target == old(state.target)
    ensures exit == Continue ==> Some(state.selectedNmapArgs) == ScanArgs(nmapCmd) && state.selectedExtraCmds == []
    ensures exit == Continue && w.sudoOk ==>
      && state.htmlPath in m.reports
      && m.reports[state.htmlPath].target == state.target
      && m.reports[state.htmlPath].args == state.selectedNmapArgs
  {
    var parts := Fields(nmapCmd);
    if |parts| < 2 {
      return Exit(1);
    }
    state.selectedNmapArgs := parts[1..];
    state.selectedExtraCmds := [];
    StartScan(state, m, w, os, true);
    exit := Continue;
  }

  /**
   * tui.go's ShowNmapTUI: the builder screen runs until 'E' stops it and
   * hands back the command shown, or until the operator's Ctrl-C stops the
   * application, giving "". `events` are the keys before that Ctrl-C, so
   * running out of them is the Ctrl-C.
   */
  method ShowNmapTUI(args: seq<string>, apiKey: bool, events: seq<Event>) returns (nmapCmd: string)
    ensures nmapCmd == if Delivered(Tui, events).stopped then CommandLine(Catalog(Tui), Delivered(Tui, events).sel, None) else ""
    ensures nmapCmd != "" <==> Press(Rune('E')) in events
    ensures nmapCmd != "" ==> exists sel :: Shaped(Catalog(Tui), sel) && nmapCmd == CommandLine(Catalog(Tui), sel, None)
  {
    var screen := new OptionScreen(Tui, Catalog(Tui), args, apiKey);
    var processed;
    nmapCmd, processed := screen.RunLoop(events);
    EveryELeaves(Tui, Catalog(Tui), Progress(Nav(0, false), AllOff(Catalog(Tui)), false), events);
    CommandWords(Catalog(Tui), screen.Sel, None);
  }

  /**
   * When the builder's command has arguments, the report's command card
   * text rebuilds it from them, given every catalogue flag is written with
   * single spaces.
   */
  lemma CommandRoundTrip(cats: seq<Category>, sel: seq<seq<bool>>, nmapCmd: string)
    requires Shaped(cats, sel) && nmapCmd == CommandLine(cats, sel, None)
    ensures ScanArgs(nmapCmd).Some? && FlagsCanonical(cats) ==> "nmap " + Join(ScanArgs(nmapCmd).value, " ") == nmapCmd
  {
    ScanArgsOfCommandLine(cats, sel);
    if ScanArgs(nmapCmd).Some? && FlagsCanonical(cats) {
      ReportCommandReproduces(cats, sel);
    }
  }

  /**
   * nmapX.go's main: the screen with os.Args[1] (or "localhost") as target;
   * once the application has returned, a command left with 'E' is cut at
   * single spaces and run, "nmap" being the program. `events` end where a
   * Ctrl-C stops the application without a command.
   */
  method NmapXMain(args: seq<string>, apiKey: bool, events: seq<Event>) returns (run: Option<Command>)
    ensures run == if Delivered(NmapX, events).stopped
      then Some(Command("nmap", SplitAll(SelectedFlags(Catalog(NmapX), Delivered(NmapX, events).sel) + [TargetArg(NmapX, args).value], ' ')))
      else None
    ensures run.Some? <==>
      exists i :: 0 <= i < |events| && events[i].Press? && Leaves(NmapX, Delivered(NmapX, events[..i]).nav, events[i].key)
    ensures run.Some? ==> Press(Rune('E')) in events
  {
    var screen := new OptionScreen(NmapX, Catalog(NmapX), args, apiKey);
    var finalCmd, processed := screen.RunLoop(events);
    run := PostExitCommand(screen.runAfter, finalCmd);
    LeavesAtLeavingKey(NmapX, Catalog(NmapX), Progress(Nav(0, false), AllOff(Catalog(NmapX)), false), events);
    if run.Some? {
      assert events[processed - 1] in events;
      PostExitOfCommandLine(screen.catalog, screen.Sel, screen.target);
    }
  }

  /**
   * pantalla2.go's main: 'E' hands the shown command's words to env in the
   * key handler itself; the outer runAfter is never set (the handler
   * declares its own finalCmd), so the `nmapx '<cmd>'` shell step never runs.
   * `events` end where a Ctrl-C stops the application without a hand-over.
   */
  method Pantalla2Main(apiKey: bool, events: seq<Event>, execOk: bool)
    returns (handover: Option<Handover>, shell: Option<Command>)
    ensures shell == None
    ensures handover == if Delivered(Pantalla2, events).stopped
      then Some(EnvHandover(CommandLine(Catalog(Pantalla2), Delivered(Pantalla2, events).sel, None), execOk))
      else None
    ensures handover.Some? <==> Press(Rune('E')) in events
    ensures handover.Some? ==> !handover.value.Returned?
  {
    var screen := new OptionScreen(Pantalla2, Catalog(Pantalla2), [], apiKey);
    var finalCmd, processed := screen.RunLoop(events);
    EveryELeaves(Pantalla2, Catalog(Pantalla2), Progress(Nav(0, false), AllOff(Catalog(Pantalla2)), false), events);
    handover := None;
    if screen.stopped {
      handover := Some(EnvHandover(screen.cmdView, execOk));
      EnvHandoverOfCommandLine(screen.catalog, screen.Sel);
    }
    shell := None;
    if screen.runAfter {
      shell := Some(Command("sh", ["-c", "nmapx '" + finalCmd + "'"]));
    }
  }
}
