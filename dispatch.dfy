// What happens to the assembled command once the builder screen has closed:
// nmapX.go runs it after splitting on single spaces, pantalla2.go replaces
// the process with `env` and the command's words, and nmapx.go keeps the
// words after "nmap" as the arguments of the scan it starts.
module Dispatch {
  import opened Strings
  import opened Options

  /** A program and its arguments, as exec.Command receives them. */
  datatype Command = Command(program: string, args: seq<string>)

  /** How a program invocation ends. */
  datatype Exit = Continue | Exit(code: int)

  // ---------------------------------------------------------------------
  // nmapX.go, after the application returns.

  /**
   * With runAfter set, finalCmd is cut at every single space; the first
   * piece is the program and the rest its arguments. Nothing runs otherwise.
   */
  function PostExitCommand(runAfter: bool, finalCmd: string): (r: Option<Command>)
    ensures r.Some? <==> runAfter
  {
    if runAfter then
      var parts := Split(finalCmd, ' ');
      Some(Command(parts[0], parts[1..]))
    else None
  }

  /** Nothing of the command is lost: program and arguments joined by " " give finalCmd back. */
  lemma PostExitRoundTrip(finalCmd: string)
    ensures var c := PostExitCommand(true, finalCmd).value;
      Join([c.program] + c.args, " ") == finalCmd
  {
    var parts := Split(finalCmd, ' ');
    JoinOfSplit(finalCmd, ' ');
    assert [parts[0]] + parts[1..] == parts;
  }

  /**
   * For a command the screen assembled, the program is "nmap" and the
   * arguments are the pieces of every selected flag and of the target, so
   * a flag written with a space is handed on as two arguments.
   */
  lemma PostExitOfCommandLine(cats: seq<Category>, sel: seq<seq<bool>>, target: Option<string>)
    ensures PostExitCommand(true, CommandLine(cats, sel, target))
      == Some(Command("nmap", SplitAll(SelectedFlags(cats, sel) + TargetTokens(target), ' ')))
  {
    var rest := SelectedFlags(cats, sel) + TargetTokens(target);
    var ws := ["nmap"] + rest;
    assert ["nmap"] + SelectedFlags(cats, sel) + TargetTokens(target) == ws;
    SplitOfJoin(ws, ' ');
    assert ws[0] == "nmap" && ws[1..] == rest;
    SplitWithoutSeparator("nmap", ' ');
    assert SplitAll(ws, ' ') == ["nmap"] + SplitAll(rest, ' ');
  }

  /** A flag of two words separated by one space is split into those two words. */
  lemma SplitTwoWords(a: string, b: string)
    requires forall k :: 0 <= k < |a| ==> a[k] != ' '
    requires forall k :: 0 <= k < |b| ==> b[k] != ' '
    ensures Split(a + " " + b, ' ') == [a, b]
  {
    assert a + " " + b == a + [' '] + b;
    SplitAtSeparator(a, ' ', b);
    SplitWithoutSeparator(a, ' ');
    SplitWithoutSeparator(b, ' ');
  }

  /** "--top-ports 100" reaches nmap as the two arguments "--top-ports" and "100". */
  lemma TopPortsIsTwoArguments()
    ensures Split("--top-ports 100", ' ') == ["--top-ports", "100"]
  {
    var a, b := "--top-ports", "100";
    assert forall k :: 0 <= k < |a| ==> '!' <= a[k] <= '~';
    assert forall k :: 0 <= k < |b| ==> '!' <= b[k] <= '~';
    SplitTwoWords(a, b);
    assert a + " " + b == "--top-ports 100";
  }

  // ---------------------------------------------------------------------
  // pantalla2.go, the 'E' key.

  const EnvPath := "/usr/bin/env"

  /** What pantalla2.go's 'E' leads to once the application has stopped. */
  datatype Handover =
    | Replaced(path: string, argv: seq<string>)   // syscall.Exec succeeded
    | ExecFailed                                   // the error is printed and the process exits with 1
    | Returned                                     // no words: the screen just closes

  /**
   * The words of finalCmd (strings.Fields); with at least one, the process
   * becomes /usr/bin/env with argv "env" followed by those words.
   */
  function EnvHandover(finalCmd: string, execOk: bool): (h: Handover)
    ensures h.Returned? <==> |Fields(finalCmd)| == 0
    ensures h.Replaced? <==> execOk && |Fields(finalCmd)| > 0
    ensures h.ExecFailed? <==> !execOk && |Fields(finalCmd)| > 0
    ensures h.Replaced? ==> h.path == EnvPath && h.argv == ["env"] + Fields(finalCmd)
  {
    var args := Fields(finalCmd);
    if |args| == 0 then Returned
    else if execOk then Replaced(EnvPath, ["env"] + args)
    else ExecFailed
  }

  /** The exit status of the ExecFailed path. */
  function HandoverExit(h: Handover): (e: Exit)
    ensures e == Exit(1) <==> h.ExecFailed?
  {
    if h.ExecFailed? then Exit(1) else Continue
  }

  /**
   * A command the screen assembled always has the word "nmap", so 'E'
   * always execs: env runs nmap with the words of the selected flags.
   */
  lemma EnvHandoverOfCommandLine(cats: seq<Category>, sel: seq<seq<bool>>)
    ensures EnvHandover(CommandLine(cats, sel, None), true)
      == Replaced(EnvPath, ["env", "nmap"] + FieldsOfAll(SelectedFlags(cats, sel)))
  {
    var flags := SelectedFlags(cats, sel);
    CommandWords(cats, sel, None);
    assert flags + TargetTokens(None) == flags;
    var args := Fields(CommandLine(cats, sel, None));
    assert args == ["nmap"] + FieldsOfAll(flags);
    assert EnvHandover(CommandLine(cats, sel, None), true) == Replaced(EnvPath, ["env"] + args);
    Regroup(["env"], ["nmap"], FieldsOfAll(flags));
    assert ["env"] + ["nmap"] == ["env", "nmap"];
  }

  // ---------------------------------------------------------------------
  // nmapx.go's checks around the builder screen.

  /** The words after "nmap" of the command the screen returned, or why there are none. */
  function ScanArgs(nmapCmd: string): (r: Option<seq<string>>)
    ensures r.Some? <==> |Fields(nmapCmd)| >= 2
    ensures r.Some? ==> [Fields(nmapCmd)[0]] + r.value == Fields(nmapCmd) && |r.value| > 0
  {
    var parts := Fields(nmapCmd);
    if |parts| < 2 then None else Some(parts[1..])
  }

  /**
   * For a command the screen assembled without target, the arguments are
   * the words of the selected flags, and there are some exactly when some
   * selected flag has a word.
   */
  lemma ScanArgsOfCommandLine(cats: seq<Category>, sel: seq<seq<bool>>)
    ensures var r := ScanArgs(CommandLine(cats, sel, None));
      && (r.Some? <==> |FieldsOfAll(SelectedFlags(cats, sel))| > 0)
      && (r.Some? ==> r.value == FieldsOfAll(SelectedFlags(cats, sel)))
  {
    CommandWords(cats, sel, None);
    assert SelectedFlags(cats, sel) + TargetTokens(None) == SelectedFlags(cats, sel);
    var fs := FieldsOfAll(SelectedFlags(cats, sel));
    assert (["nmap"] + fs)[1..] == fs;
  }

  /** With nothing selected the screen's command is bare "nmap", which nmapx.go rejects. */
  lemma BareCommandRejected(cats: seq<Category>)
    ensures ScanArgs(CommandLine(cats, AllOff(cats), None)) == None
  {
    NothingSelected(cats, FlagLabelDesc, None);
    ScanArgsOfCommandLine(cats, AllOff(cats));
    NonePicked(AllOff(cats));
  }

  /** Every flag of the catalogue is words separated by single spaces. */
  predicate FlagsCanonical(cats: seq<Category>) {
    forall c, i :: 0 <= c < |cats| && 0 <= i < |cats[c]| ==> Canonical(cats[c][i].flag)
  }

  /**
   * The report's command card, "nmap " + strings.Join(args, " "), gives back
   * the command the screen showed, as long as something is selected and
   * every flag is written canonically.
   */
  lemma ReportCommandReproduces(cats: seq<Category>, sel: seq<seq<bool>>)
    requires Shaped(cats, sel) && FlagsCanonical(cats) && AllPicked(sel) != []
    ensures ScanArgs(CommandLine(cats, sel, None)).Some?
    ensures "nmap " + Join(ScanArgs(CommandLine(cats, sel, None)).value, " ") == CommandLine(cats, sel, None)
  {
    var fs := SelectedFlags(cats, sel);
    CommandTokens(cats, sel);
    forall k | 0 <= k < |fs| ensures Canonical(fs[k]) {
      var p := AllPicked(sel)[k];
      assert fs[k] == cats[p.cat][p.idx].flag;
    }
    JoinFieldsOfCanonical(fs);
    ScanArgsOfCommandLine(cats, sel);
    assert ["nmap"] + fs + TargetTokens(None) == ["nmap"] + fs;
    JoinAppend(["nmap"], fs, " ");
  }
}
