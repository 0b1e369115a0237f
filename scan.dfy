// The scan pipeline of scanner.go (macOS, through sudo) and scanner_linux.go
// (Linux, without it): session paths, host discovery, the port scan, the
// report and the popup, in that order. External programs are not modelled:
// what they answer and what files they leave behind come in as a World.
module Scan {
  import opened Strings
  import opened Options
  import opened Markup
  import opened Discovery
  import opened Report

  /** The fields of the program state the scan reads and writes. */
  class AppState {
    var target: string
    var scanDir: string
    var htmlPath: string
    var selectedNmapArgs: seq<string>
    var selectedExtraCmds: seq<string>

    constructor ()
      ensures target == "" && scanDir == "" && htmlPath == ""
      ensures selectedNmapArgs == [] && selectedExtraCmds == []
    {
      target, scanDir, htmlPath := "", "", "";
      selectedNmapArgs, selectedExtraCmds := [], [];
    }
  }

  /** The shell pipelines that ask the system for its address, gateway and subnet. */
  datatype Query = HostIPQuery | GatewayQuery | SubnetQuery

  /** What the scan does outside the process, in the order it does it. */
  datatype Step =
    | Exec(argv: seq<string>)   // a program run to completion
    | Ask(q: Query)             // a shell pipeline whose output is read
    | Write(path: string)       // a file the scan itself writes
    | Serve(root: string)       // the file server on port 8080 over a directory
    | Popup(dir: string)        // the completion popup over a session directory

  /**
   * The answers of everything outside the process: whether sudo needs no
   * password, the clock, the first lines of the network queries, whether
   * the discovery run succeeded, and the files the two nmap runs write.
   */
  datatype World = World(
    sudoOk: bool,
    stamp: string,
    now: string,
    hostIP: string,
    gateway: string,
    discoveryOk: bool,
    pingsweep: Option<string>,
    ports: Option<string>)

  /**
   * The files and directories of the machine, the log of steps taken, and
   * the reports written, each by the inputs generateHTMLReport received
   * (Report.GenerateReport gives the text of each).
   */
  class Machine {
    var files: map<string, string>
    var dirs: set<string>
    var log: seq<Step>
    var reports: map<string, ReportInput>

    constructor (files0: map<string, string>)
      ensures files == files0 && dirs == {} && log == [] && reports == map[]
    {
      files, dirs, log, reports := files0, {}, [], map[];
    }
  }

  /** ReadFile and Open with the error dropped: a missing file reads as empty. */
  function Read(files: map<string, string>, path: string): (data: string)
    ensures path !in files ==> data == ""
    ensures path in files ==> data == files[path]
  {
    if path in files then files[path] else ""
  }

  function PingPath(dir: string): string { dir + "/pingsweep.gnmap" }
  function HostsPath(dir: string): string { dir + "/hosts.txt" }
  function PortsPath(dir: string): string { dir + "/ports.nmap" }
  function ReportPath(dir: string): string { dir + "/report.html" }

  // ---------------------------------------------------------------------
  // scanner.go: privileges and the two nmap runs.

  /** `sudo -n true`, the privilege check. */
  const SudoCheck: seq<string> := ["sudo", "-n", "true"]

  /** runWithPrivileges: the argv is "sudo", the command, then its arguments, on every system. */
  function Privileged(os: Os, cmd: string, args: seq<string>): (argv: seq<string>)
    ensures |argv| == |args| + 2
    ensures argv[0] == "sudo" && argv[1] == cmd && argv[2..] == args
  {
    var base := if os == Darwin then ["sudo", cmd] else ["sudo", cmd];
    base + args
  }

  /** The two branches of runWithPrivileges build the same command. */
  lemma PrivilegedSameOnEverySystem(os1: Os, os2: Os, cmd: string, args: seq<string>)
    ensures Privileged(os1, cmd, args) == Privileged(os2, cmd, args)
  {
    var a, b := Privileged(os1, cmd, args), Privileged(os2, cmd, args);
    assert a == [a[0], a[1]] + a[2..];
    assert b == [b[0], b[1]] + b[2..];
  }

  /** The ping sweep: grepable output into the session directory. */
  function DiscoveryArgs(target: string, dir: string): seq<string> {
    ["-sn", target, "-oG", PingPath(dir)]
  }

  /** The port scan: fixed options, hosts.txt in, normal output out; the selections play no part. */
  function PortScanArgs(dir: string): seq<string> {
    ["-sS", "-sV", "-T4", "--top-ports", "1000", "-iL", HostsPath(dir), "-oN", PortsPath(dir)]
  }

  /** nmap leaves its output file behind when it wrote one. */
  function Leave(files: map<string, string>, path: string, out: Option<string>): map<string, string> {
    if out.Some? then files[path := out.value] else files
  }

  /** hosts.txt as the extraction loop writes it from the ping-sweep file. */
  function HostsFile(files: map<string, string>, dir: string): string {
    LinesText(Hosts(ScanLines(Read(files, PingPath(dir)))))
  }

  /** The files after discovery: the sweep's output, then hosts.txt unless the run failed. */
  function AfterDiscovery(files: map<string, string>, dir: string, w: World, checked: bool): map<string, string> {
    var swept := Leave(files, PingPath(dir), w.pingsweep);
    if checked && !w.discoveryOk then swept
    else swept[HostsPath(dir) := HostsFile(swept, dir)]
  }

  /**
   * performHostDiscovery (checked) and PerformHostDiscoveryLinux (not): run
   * the sweep; the checked version returns on an error before hosts.txt is
   * created, the other always extracts.
   */
  method HostDiscovery(state: AppState, m: Machine, w: World, os: Os, checked: bool)
    modifies m`files, m`log
    ensures m.files == AfterDiscovery(old(m.files), state.scanDir, w, checked)
    ensures m.log == old(m.log) + [Exec(DiscoveryArgv(os, state.target, state.scanDir, checked))]
      + HostsWrite(state.scanDir, w, checked)
  {
    var argv := DiscoveryArgv(os, state.target, state.scanDir, checked);
    m.log := m.log + [Exec(argv)];
    m.files := Leave(m.files, PingPath(state.scanDir), w.pingsweep);
    if checked && !w.discoveryOk {
      return;
    }
    var written := ExtractHosts(ScanLines(Read(m.files, PingPath(state.scanDir))));
    m.files := m.files[HostsPath(state.scanDir) := written];
    m.log := m.log + [Write(HostsPath(state.scanDir))];
  }

  /** The sweep's argv: through sudo on the checked path, nmap directly on Linux. */
  function DiscoveryArgv(os: Os, target: string, dir: string, checked: bool): seq<string> {
    if checked then Privileged(os, "nmap", DiscoveryArgs(target, dir)) else ["nmap"] + DiscoveryArgs(target, dir)
  }

  function PortScanArgv(os: Os, dir: string, checked: bool): seq<string> {
    if checked then Privileged(os, "nmap", PortScanArgs(dir)) else ["nmap"] + PortScanArgs(dir)
  }

  /** performPortScan and PerformPortScanLinux: the scan runs; an error is only printed. */
  method PortScan(state: AppState, m: Machine, w: World, os: Os, checked: bool)
    modifies m`files, m`log
    ensures m.files == Leave(old(m.files), PortsPath(state.scanDir), w.ports)
    ensures m.log == old(m.log) + [Exec(PortScanArgv(os, state.scanDir, checked))]
  {
    m.log := m.log + [Exec(PortScanArgv(os, state.scanDir, checked))];
    m.files := Leave(m.files, PortsPath(state.scanDir), w.ports);
  }

  // ---------------------------------------------------------------------
  // startScan and StartScanLinux.

  /** The directory of one session, named after the clock. */
  function SessionDir(stamp: string): string { "test_" + stamp }

  /** The files after both nmap runs. */
  function Scanned(files: map<string, string>, dir: string, w: World, checked: bool): map<string, string> {
    Leave(AfterDiscovery(files, dir, w, checked), PortsPath(dir), w.ports)
  }

  /** The report a session writes: generated from hosts.txt and ports.nmap as the scans left them. */
  function SessionInput(files: map<string, string>, target: string, args: seq<string>, w: World, checked: bool)
    : ReportInput
  {
    var dir := SessionDir(w.stamp);
    var scanned := Scanned(files, dir, w, checked);
    ReportInput(w.now, w.hostIP, target, w.gateway, args, Read(scanned, HostsPath(dir)), Read(scanned, PortsPath(dir)))
  }

  const Queries: seq<Step> := [Ask(HostIPQuery), Ask(GatewayQuery), Ask(SubnetQuery)]

  /** The write of hosts.txt, absent when the checked sweep failed. */
  function HostsWrite(dir: string, w: World, checked: bool): seq<Step> {
    if checked && !w.discoveryOk then [] else [Write(HostsPath(dir))]
  }

  /** The steps of a session after any privilege check, in order. */
  function SessionLog(os: Os, target: string, w: World, checked: bool): seq<Step> {
    var dir := SessionDir(w.stamp);
    Queries + [Exec(DiscoveryArgv(os, target, dir, checked))] + HostsWrite(dir, w, checked)
      + [Exec(PortScanArgv(os, dir, checked)), Write(ReportPath(dir)), Serve(dir), Popup(dir)]
  }

  /**
   * startScan (checked: sudo check first, sudo for nmap, early return on a
   * failed sweep) and StartScanLinux (none of these).
   */
  method StartScan(state: AppState, m: Machine, w: World, os: Os, checked: bool)
    modifies state`scanDir, state`htmlPath, m
    ensures checked && !w.sudoOk ==>
      && m.log == old(m.log) + [Exec(SudoCheck)]
      && m.files == old(m.files) && m.dirs == old(m.dirs) && m.reports == old(m.reports)
      && state.scanDir == old(state.scanDir) && state.htmlPath == old(state.htmlPath)
    ensures !checked || w.sudoOk ==>
      && state.scanDir == SessionDir(w.stamp)
      && state.htmlPath == ReportPath(state.scanDir)
      && m.dirs == old(m.dirs) + {state.scanDir}
      && m.files == Scanned(old(m.files), state.scanDir, w, checked)
      && m.reports == old(m.reports)[state.htmlPath := SessionInput(old(m.files), state.target, state.selectedNmapArgs, w, checked)]
      && m.log == old(m.log) + (if checked then [Exec(SudoCheck)] else [])
                             + SessionLog(os, state.target, w, checked)
  {
    if checked {
      m.log := m.log + [Exec(SudoCheck)];
      if !w.sudoOk {
        return;
      }
    }
    Session(state, m, w, os, checked);
  }

  /** The goroutine body: paths, the queries, both scans, the report, the server and the popup. */
  method Session(state: AppState, m: Machine, w: World, os: Os, checked: bool)
    modifies state`scanDir, state`htmlPath, m
    ensures state.scanDir == SessionDir(w.stamp)
    ensures state.htmlPath == ReportPath(state.scanDir)
    ensures m.dirs == old(m.dirs) + {state.scanDir}
    ensures m.files == Scanned(old(m.files), state.scanDir, w, checked)
    ensures m.reports == old(m.reports)[state.htmlPath := SessionInput(old(m.files), state.target, state.selectedNmapArgs, w, checked)]
    ensures m.log == old(m.log) + SessionLog(os, state.target, w, checked)
  {
    state.scanDir := SessionDir(w.stamp);
    m.dirs := m.dirs + {state.scanDir};
    state.htmlPath := ReportPath(state.scanDir);
    m.log := m.log + Queries;
    HostDiscovery(state, m, w, os, checked);
    ghost var log1 := m.log;
    PortScan(state, m, w, os, checked);
    WriteReport(state, m, w);
    m.log := m.log + [Serve(state.scanDir), Popup(state.scanDir)];
    LogShape(old(m.log), log1, m.log, os, state.target, w, checked);
  }

  /** Reading both result files back, generating the page and writing it to htmlPath. */
  method WriteReport(state: AppState, m: Machine, w: World)
    modifies m`reports, m`log
    ensures m.reports == old(m.reports)[state.htmlPath := ReportInput(w.now, w.hostIP, state.target, w.gateway,
      state.selectedNmapArgs, Read(m.files, HostsPath(state.scanDir)), Read(m.files, PortsPath(state.scanDir)))]
    ensures m.log == old(m.log) + [Write(state.htmlPath)]
  {
    var hostsData := Read(m.files, HostsPath(state.scanDir));
    var portsData := Read(m.files, PortsPath(state.scanDir));
    m.reports := m.reports[state.htmlPath := ReportInput(w.now, w.hostIP, state.target, w.gateway,
      state.selectedNmapArgs, hostsData, portsData)];
    m.log := m.log + [Write(state.htmlPath)];
  }

  /** The log of StartScan, assembled stage by stage, is the session log. */
  lemma LogShape(log0: seq<Step>, log1: seq<Step>, log2: seq<Step>, os: Os, target: string, w: World, checked: bool)
    requires var dir := SessionDir(w.stamp);
      && log1 == log0 + Queries + [Exec(DiscoveryArgv(os, target, dir, checked))] + HostsWrite(dir, w, checked)
      && log2 == log1 + [Exec(PortScanArgv(os, dir, checked))] + [Write(ReportPath(dir))] + [Serve(dir), Popup(dir)]
    ensures log2 == log0 + SessionLog(os, target, w, checked)
  {
  }

  // ---------------------------------------------------------------------
  // Properties of a session.

  /** xs occurs in trace in this order, possibly with other steps between. */
  predicate InOrder(trace: seq<Step>, xs: seq<Step>)
    decreases |trace|
  {
    if |xs| == 0 then true
    else if |trace| == 0 then false
    else if trace[0] == xs[0] then InOrder(trace[1..], xs[1..])
    else InOrder(trace[1..], xs)
  }

  /** Dropping the first wanted step keeps the rest in order. */
  lemma {:induction false} InOrderWeaken(trace: seq<Step>, xs: seq<Step>)
    requires |xs| > 0 && InOrder(trace, xs)
    ensures InOrder(trace, xs[1..])
    decreases |trace|
  {
    if trace[0] == xs[0] {
      if |xs| > 1 && trace[0] == xs[1] {
        InOrderWeaken(trace[1..], xs[1..]);
        assert xs[1..][1..] == xs[2..];
      }
    } else {
      InOrderWeaken(trace[1..], xs);
      if |xs| > 1 && trace[0] == xs[1] {
        InOrderWeaken(trace[1..], xs[1..]);
        assert xs[1..][1..] == xs[2..];
      }
    }
  }

  /** Steps before a trace do not disturb an order found in it. */
  lemma {:induction false} InOrderSkip(pre: seq<Step>, trace: seq<Step>, xs: seq<Step>)
    requires InOrder(trace, xs)
    ensures InOrder(pre + trace, xs)
    decreases |pre|
  {
    if |pre| > 0 {
      InOrderSkip(pre[1..], trace, xs);
      var all := pre + trace;
      assert all[0] == pre[0] && all[1..] == pre[1..] + trace;
      if |xs| > 0 && pre[0] == xs[0] {
        InOrderWeaken(pre[1..] + trace, xs);
        assert InOrder(all[1..], xs[1..]);
      } else if |xs| > 0 {
        assert InOrder(all[1..], xs);
      }
    } else {
      assert pre + trace == trace;
    }
  }

  lemma InOrderCons(x: Step, trace: seq<Step>, xs: seq<Step>)
    requires InOrder(trace, xs)
    ensures InOrder([x] + trace, [x] + xs)
  {
    assert ([x] + trace)[1..] == trace && ([x] + xs)[1..] == xs;
  }

  /**
   * Every session, whatever the sweep answered, runs discovery, then the
   * port scan, then writes the report, then serves it, then shows the
   * popup: a failed sweep does not stop the port scan.
   */
  lemma StageOrder(os: Os, target: string, w: World, checked: bool)
    ensures var dir := SessionDir(w.stamp);
      InOrder(SessionLog(os, target, w, checked),
              [Exec(DiscoveryArgv(os, target, dir, checked)), Exec(PortScanArgv(os, dir, checked)),
               Write(ReportPath(dir)), Serve(dir), Popup(dir)])
  {
    var dir := SessionDir(w.stamp);
    var d, p := Exec(DiscoveryArgv(os, target, dir, checked)), Exec(PortScanArgv(os, dir, checked));
    var last := [Write(ReportPath(dir)), Serve(dir), Popup(dir)];
    var tail := [p] + last;
    InOrderSelf(tail);
    var hw := HostsWrite(dir, w, checked);
    InOrderSkip(hw, tail, tail);
    InOrderCons(d, hw + tail, tail);
    InOrderSkip(Queries, [d] + (hw + tail), [d] + tail);
    assert SessionLog(os, target, w, checked) == Queries + ([d] + (hw + tail));
    assert [d] + tail == [d, p, Write(ReportPath(dir)), Serve(dir), Popup(dir)];
  }

  /** Every trace holds its own steps in order. */
  lemma {:induction false} InOrderSelf(trace: seq<Step>)
    ensures InOrder(trace, trace)
    decreases |trace|
  {
    if |trace| > 0 {
      InOrderSelf(trace[1..]);
    }
  }

  /** The four file names of a session are different paths: their lengths differ. */
  lemma DistinctPaths(dir: string)
    ensures PingPath(dir) != HostsPath(dir) && PingPath(dir) != PortsPath(dir) && PingPath(dir) != ReportPath(dir)
    ensures HostsPath(dir) != PortsPath(dir) && HostsPath(dir) != ReportPath(dir)
    ensures PortsPath(dir) != ReportPath(dir)
  {
    assert |PingPath(dir)| == |dir| + 16 && |HostsPath(dir)| == |dir| + 10;
    assert |PortsPath(dir)| == |dir| + 11 && |ReportPath(dir)| == |dir| + 12;
  }

  /** A path outside the directory is none of the directory's files. */
  lemma Outside(dir: string, name: string, path: string)
    requires !HasPrefix(path, dir + "/") && |name| > 0 && name[0] == '/'
    ensures path != dir + name
  {
  }

  /** A session leaves every file outside its directory as it was. */
  lemma SessionStaysInItsDirectory(files: map<string, string>, w: World, checked: bool, path: string)
    requires !HasPrefix(path, SessionDir(w.stamp) + "/")
    ensures Read(Scanned(files, SessionDir(w.stamp), w, checked), path) == Read(files, path)
  {
    var dir := SessionDir(w.stamp);
    Outside(dir, "/pingsweep.gnmap", path);
    Outside(dir, "/hosts.txt", path);
    Outside(dir, "/ports.nmap", path);
    var swept := Leave(files, PingPath(dir), w.pingsweep);
    assert Read(swept, path) == Read(files, path);
    var after := AfterDiscovery(files, dir, w, checked);
    assert Read(after, path) == Read(files, path);
  }

  /**
   * A checked session whose sweep failed creates no hosts.txt: the report
   * then lists the hosts of whatever hosts.txt was already there.
   */
  lemma FailedSweepLeavesHostsFile(files: map<string, string>, target: string, args: seq<string>, w: World)
    requires !w.discoveryOk
    ensures SessionInput(files, target, args, w, true).hostsData == Read(files, HostsPath(SessionDir(w.stamp)))
  {
    var dir := SessionDir(w.stamp);
    DistinctPaths(dir);
    var swept := Leave(files, PingPath(dir), w.pingsweep);
    assert Read(swept, HostsPath(dir)) == Read(files, HostsPath(dir));
    assert AfterDiscovery(files, dir, w, true) == swept;
  }

  /**
   * When the sweep succeeds (or is not checked), the report is generated
   * from hosts.txt holding exactly the hosts the sweep found up, in the
   * order of its lines, so it lists them escaped, in that order.
   */
  lemma ReportListsSweptHosts(files: map<string, string>, target: string, args: seq<string>,
                              w: World, checked: bool, sweep: string)
    requires w.pingsweep == Some(sweep) && (!checked || w.discoveryOk)
    ensures var input := SessionInput(files, target, args, w, checked);
      && input.hostsData == LinesText(Hosts(ScanLines(sweep)))
      && HostItems(Split(input.hostsData, '\n')) == EscapeAll(Hosts(ScanLines(sweep)))
  {
    var dir := SessionDir(w.stamp);
    DistinctPaths(dir);
    var swept := Leave(files, PingPath(dir), w.pingsweep);
    assert Read(swept, PingPath(dir)) == sweep;
    var after := AfterDiscovery(files, dir, w, checked);
    assert Read(after, HostsPath(dir)) == LinesText(Hosts(ScanLines(sweep)));
    HostListFromDiscovery(ScanLines(sweep));
  }

  /** The port scan's output reaches the report whatever happened to the sweep. */
  lemma ReportShowsPortScan(files: map<string, string>, target: string, args: seq<string>,
                            w: World, checked: bool, ports: string)
    requires w.ports == Some(ports)
    ensures SessionInput(files, target, args, w, checked).portsData == ports
  {
  }
}
