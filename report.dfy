// The HTML report of report.go and the completion popup that lists what the
// scan produced.
module Report {
  import opened Strings
  import opened Options
  import opened Markup
  import opened Discovery
  import opened Dispatch

  // ---------------------------------------------------------------------
  // generateHTMLReport.

  const Stylesheet: string :=
    ":root{--primary:#0d6efd;--bg:#f5f7fa;--card:#fff;--border:#dee2e6;}\n"
    + "*{box-sizing:border-box;margin:0;padding:0;font-family:\"Segoe UI\",Arial,sans-serif;}\n"
    + "body{background:var(--bg);padding:1rem 2rem;color:#212529;}\n"
    + ".banner{background:linear-gradient(90deg,#0045ff 0%,#009dff 100%);color:#fff;border-radius:8px;padding:1.5rem;margin-bottom:1.5rem;}\n"
    + ".banner h1{font-size:1.75rem;margin-bottom:.3rem;}\n"
    + ".cards{display:flex;gap:1rem;flex-wrap:wrap;margin-bottom:2rem;}\n"
    + ".card{flex:1 1 200px;background:var(--card);border:1px solid var(--border);border-radius:8px;padding:1rem;}\n"
    + ".section{margin-bottom:2rem;}\n"
    + ".section h2{font-size:1.1rem;margin-bottom:.6rem;color:#0045ff;}\n"
    + ".list{list-style:none;padding-left:0;}\n"
    + ".list li{padding:.25rem .5rem;border-bottom:1px solid var(--border);}\n"
    + "pre{\n  background:#1e1e1e;\n  color:#e8e8e8;\n  padding:1rem;\n  border-radius:8px;\n  overflow-x:auto;\n"
    + "  font-size:.95rem;\n  line-height:1.4;\n  font-family:\"Consolas\",\"Courier New\",monospace;\n}\n"
    + ".open { color: #28a745; font-weight: bold; }\n"
    + ".closed { color: #dc3545; font-weight: bold; }\n"
    + ".filtered { color: #ffc107; font-weight: bold; }\n"
    + ".proto { color: #0dcaf0; font-weight: bold; }\n"
    + ".svc { color: #6610f2; font-weight: bold; }\n"

  /** The page up to the opening of the host list, with its five slots filled. */
  function Head(generated: string, hostIP: string, target: string, gateway: string, card: string): string {
    "<!DOCTYPE html>\n<html lang=\"en\">\n<head>\n<meta charset=\"UTF-8\">\n<title>Network Scan Report</title>\n<style>\n"
    + Stylesheet
    + "</style>\n</head><body>\n\n<div class=\"banner\">\n  <h1>Network Scan Report</h1>\n  <small>Generated: "
    + generated
    + "</small>\n</div>\n\n<div class=\"cards\">\n  <div class=\"card\"><h3>Host IP</h3><p>"
    + hostIP
    + "</p></div>\n  <div class=\"card\"><h3>Target</h3><p>"
    + target
    + "</p></div>\n  <div class=\"card\"><h3>Default Gateway</h3><p>"
    + gateway
    + "</p></div>\n</div>\n\n<div class=\"section\">\n  <h2>Nmap Command</h2>\n  <pre>"
    + card
    + "</pre>\n</div>\n\n<div class=\"section\">\n  <h2>Live Hosts</h2>\n  <ul class=\"list\">\n"
  }

  /** The page from the end of the host list, with the styled port text. */
  function Tail(ports: string): string {
    "  </ul>\n</div>\n\n<div class=\"section\">\n  <h2>Port Scan Results</h2>\n  <pre>"
    + ports
    + "</pre>\n</div>\n\n</body></html>"
  }

  /** The command card: the arguments after "nmap " again, escaped. */
  function CommandCard(args: seq<string>): string {
    Escape("nmap " + Join(args, " "))
  }

  /** The list item a line of hosts.txt gives: trimmed, escaped, none when blank. */
  function HostItem(line: string): seq<string> {
    var t := TrimSpace(line);
    if t == "" then [] else [Escape(t)]
  }

  function HostItems(lines: seq<string>): seq<string> {
    if |lines| == 0 then [] else HostItems(lines[..|lines| - 1]) + HostItem(lines[|lines| - 1])
  }

  function ItemLine(item: string): string {
    "    <li>" + item + "</li>\n"
  }

  function ItemLines(items: seq<string>): string {
    if |items| == 0 then "" else ItemLines(items[..|items| - 1]) + ItemLine(items[|items| - 1])
  }

  /**
   * What generateHTMLReport is given: the time it is generated, the first
   * lines of the address and gateway queries, the target, the arguments and
   * the contents of hosts.txt and ports.nmap. The subnet it also receives
   * plays no part in the page.
   */
  datatype ReportInput = ReportInput(generated: string, hostIP: string, target: string, gateway: string,
                                     args: seq<string>, hostsData: string, portsData: string)

  /** The page: head, one item per non-blank host line, tail. */
  function Page(generated: string, hostIP: string, target: string, gateway: string,
                args: seq<string>, hostsData: string, portsData: string): string
  {
    Head(generated, Escape(hostIP), Escape(target), Escape(gateway), CommandCard(args))
      + ItemLines(HostItems(Split(hostsData, '\n')))
      + Tail(StylePorts(portsData))
  }

  /**
   * generateHTMLReport: the template filled with the escaped values, then
   * one item per non-blank line of hosts.txt, then the styled ports.
   * hostIP and gateway are the first lines of what the queries returned.
   */
  method GenerateReport(generated: string, hostIP: string, target: string, gateway: string,
                        args: seq<string>, hostsData: string, portsData: string)
    returns (html: string)
    ensures html == Page(generated, hostIP, target, gateway, args, hostsData, portsData)
  {
    var escapedPorts := StylePorts(portsData);
    html := Head(generated, Escape(hostIP), Escape(target), Escape(gateway), CommandCard(args));
    html := AppendHostItems(html, Split(hostsData, '\n'));
    html := html + Tail(escapedPorts);
  }

  /** The host loop: each trimmed, non-blank line is appended as an escaped list item. */
  method AppendHostItems(html0: string, lines: seq<string>) returns (html: string)
    ensures html == html0 + ItemLines(HostItems(lines))
  {
    html := html0;
    for i := 0 to |lines|
      invariant html == html0 + ItemLines(HostItems(lines[..i]))
    {
      HostItemStep(html0, lines, i);
      var line := TrimSpace(lines[i]);
      if line != "" {
        html := html + ItemLine(Escape(line));
      }
    }
    assert lines[..|lines|] == lines;
  }

  /** One more line adds its item, if any, at the end of the list. */
  lemma HostItemStep(html0: string, lines: seq<string>, i: nat)
    requires i < |lines|
    ensures var t := TrimSpace(lines[i]);
      html0 + ItemLines(HostItems(lines[..i + 1]))
        == if t == "" then html0 + ItemLines(HostItems(lines[..i]))
           else html0 + ItemLines(HostItems(lines[..i])) + ItemLine(Escape(t))
  {
    assert lines[..i + 1][..i] == lines[..i] && lines[..i + 1][i] == lines[i];
    var prev := HostItems(lines[..i]);
    if TrimSpace(lines[i]) == "" {
      assert prev + [] == prev;
    } else {
      var x := Escape(TrimSpace(lines[i]));
      assert (prev + [x])[..|prev|] == prev;
      assert html0 + (ItemLines(prev) + ItemLine(x)) == html0 + ItemLines(prev) + ItemLine(x);
    }
  }

  // ---------------------------------------------------------------------
  // Properties of the report.

  function EscapeAll(ss: seq<string>): (r: seq<string>)
    ensures |r| == |ss|
  {
    if |ss| == 0 then [] else EscapeAll(ss[..|ss| - 1]) + [Escape(ss[|ss| - 1])]
  }

  lemma {:induction false} HostItemsAppend(a: seq<string>, b: seq<string>)
    ensures HostItems(a + b) == HostItems(a) + HostItems(b)
  {
    if |b| == 0 {
      assert a + b == a;
    } else {
      var init := b[..|b| - 1];
      assert (a + b)[..|a + b| - 1] == a + init && (a + b)[|a + b| - 1] == b[|b| - 1];
      HostItemsAppend(a, init);
    }
  }

  lemma {:induction false} HostItemsOfWords(hs: seq<string>)
    requires forall k :: 0 <= k < |hs| ==> IsWord(hs[k])
    ensures HostItems(hs) == EscapeAll(hs)
  {
    if |hs| > 0 {
      var init := hs[..|hs| - 1];
      HostItemsOfWords(init);
      TrimSpaceOfWord(hs[|hs| - 1]);
    }
  }

  /**
   * hosts.txt as host discovery writes it gives one list item per host,
   * in the order the hosts were found.
   */
  lemma HostListFromDiscovery(lines: seq<string>)
    ensures HostItems(Split(LinesText(Hosts(lines)), '\n')) == EscapeAll(Hosts(lines))
  {
    var hs := Hosts(lines);
    HostsAreWords(lines);
    forall k | 0 <= k < |hs| ensures '\n' !in hs[k] {
      assert IsWord(hs[k]);
    }
    SplitLinesText(hs);
    HostItemsAppend(hs, [""]);
    HostItemsOfWords(hs);
    assert HostItems([""]) == HostItems([]) + HostItem("");
    assert TrimSpace("") == "";
    assert HostItems(hs) + [] == HostItems(hs);
  }

  /** Missing or empty hosts data gives an empty list. */
  lemma NoHostsNoItems()
    ensures ItemLines(HostItems(Split("", '\n'))) == ""
  {
    assert Split("", '\n') == [""];
    assert TrimSpace("") == "";
    assert [""][..0] == [];
  }

  /** No item can open a tag: a host line is escaped before it is placed. */
  lemma {:induction false} HostItemsUnmarked(lines: seq<string>)
    ensures forall k :: 0 <= k < |HostItems(lines)| ==> Unmarked(HostItems(lines)[k])
    ensures forall k :: 0 <= k < |HostItems(lines)| ==> Unescape(HostItems(lines)[k]) != ""
  {
    if |lines| > 0 {
      HostItemsUnmarked(lines[..|lines| - 1]);
      var t := TrimSpace(lines[|lines| - 1]);
      EscapeUnmarked(t);
      UnescapeOfEscape(t);
    }
  }

  /**
   * The command card shows, after unescaping, exactly the command the
   * builder screen assembled, when nmapx.go took its arguments from it.
   */
  lemma CardShowsCommand(cats: seq<Category>, sel: seq<seq<bool>>)
    requires Shaped(cats, sel) && FlagsCanonical(cats) && AllPicked(sel) != []
    ensures ScanArgs(CommandLine(cats, sel, None)).Some?
    ensures Unescape(CommandCard(ScanArgs(CommandLine(cats, sel, None)).value)) == CommandLine(cats, sel, None)
    ensures Unmarked(CommandCard(ScanArgs(CommandLine(cats, sel, None)).value))
  {
    ReportCommandReproduces(cats, sel);
    var args := ScanArgs(CommandLine(cats, sel, None)).value;
    UnescapeOfEscape("nmap " + Join(args, " "));
    EscapeUnmarked("nmap " + Join(args, " "));
  }

  // ---------------------------------------------------------------------
  // showCompletionPopup.

  /** A file of the scan directory worth listing. */
  predicate IsArtefact(name: string) {
    HasSuffix(name, ".nmap") || HasSuffix(name, ".gnmap") || name == "hosts.txt"
  }

  /** The listed paths, in directory order. */
  function Artefacts(scanDir: string, names: seq<string>): seq<string> {
    if |names| == 0 then []
    else
      var n := names[|names| - 1];
      Artefacts(scanDir, names[..|names| - 1]) + (if IsArtefact(n) then [scanDir + "/" + n] else [])
  }

  /** The loop over the directory listing. */
  method ListArtefacts(scanDir: string, names: seq<string>) returns (logFiles: seq<string>)
    ensures logFiles == Artefacts(scanDir, names)
  {
    logFiles := [];
    for i := 0 to |names|
      invariant logFiles == Artefacts(scanDir, names[..i])
    {
      assert names[..i + 1][..i] == names[..i] && names[..i + 1][i] == names[i];
      var name := names[i];
      if HasSuffix(name, ".nmap") || HasSuffix(name, ".gnmap") || name == "hosts.txt" {
        logFiles := logFiles + [scanDir + "/" + name];
      } else {
        assert logFiles + [] == logFiles;
      }
    }
    assert names[..|names|] == names;
  }

  /** A path is listed exactly when it is the scan directory joined with an artefact's name. */
  lemma {:induction false} ArtefactsExactly(scanDir: string, names: seq<string>, p: string)
    ensures p in Artefacts(scanDir, names)
      <==> exists k :: 0 <= k < |names| && IsArtefact(names[k]) && p == scanDir + "/" + names[k]
  {
    if |names| > 0 {
      var n := |names| - 1;
      ArtefactsExactly(scanDir, names[..n], p);
      if exists k :: 0 <= k < n && IsArtefact(names[..n][k]) && p == scanDir + "/" + names[..n][k] {
        var k :| 0 <= k < n && IsArtefact(names[..n][k]) && p == scanDir + "/" + names[..n][k];
        assert names[k] == names[..n][k];
      }
      if exists k :: 0 <= k < |names| && IsArtefact(names[k]) && p == scanDir + "/" + names[k] {
        var k :| 0 <= k < |names| && IsArtefact(names[k]) && p == scanDir + "/" + names[k];
        if k < n {
          assert names[..n][k] == names[k];
        }
      }
    }
  }

  lemma {:induction false} ArtefactsAppend(scanDir: string, a: seq<string>, b: seq<string>)
    ensures Artefacts(scanDir, a + b) == Artefacts(scanDir, a) + Artefacts(scanDir, b)
  {
    if |b| == 0 {
      assert a + b == a;
    } else {
      var init := b[..|b| - 1];
      assert (a + b)[..|a + b| - 1] == a + init && (a + b)[|a + b| - 1] == b[|b| - 1];
      ArtefactsAppend(scanDir, a, init);
    }
  }

  const ReportUrl := "http://localhost:8080/report.html"

  /** The list of the popup: the report first, then the artefacts. */
  function PopupItems(logFiles: seq<string>): (items: seq<string>)
    ensures |items| == |logFiles| + 1
  {
    ["[HTML Report] " + ReportUrl] + logFiles
  }

  datatype Os = Darwin | Linux | OtherOs

  /** What selecting a list entry starts. */
  datatype PopupAction =
    | Start(argv: seq<string>)                      // a command started and left running
    | CopyToClipboard(argv: seq<string>, path: string)  // a command fed the path on its input
    | NoAction

  /** The selection handler of the popup's list. */
  function Select(os: Os, ix: nat, logFiles: seq<string>): (a: PopupAction)
    ensures a.Start? ==> ix == 0 && |a.argv| == 2 && a.argv[1] == ReportUrl
    ensures a.CopyToClipboard? ==> 1 <= ix <= |logFiles| && a.path == logFiles[ix - 1]
    ensures os == OtherOs ==> a == NoAction
    ensures ix == 0 && os != OtherOs ==> a == Start([if os == Darwin then "open" else "xdg-open", ReportUrl])
    ensures 1 <= ix <= |logFiles| && os != OtherOs ==> a.CopyToClipboard?
    ensures ix > |logFiles| ==> a == NoAction
  {
    if ix == 0 then
      match os
      case Darwin => Start(["open", ReportUrl])
      case Linux => Start(["xdg-open", ReportUrl])
      case OtherOs => NoAction
    else if ix - 1 < |logFiles| then
      match os
      case Darwin => CopyToClipboard(["pbcopy"], logFiles[ix - 1])
      case Linux => CopyToClipboard(["xclip", "-selection", "clipboard"], logFiles[ix - 1])
      case OtherOs => NoAction
    else NoAction
  }

  /** Selecting an artefact's line copies the path that line shows. */
  lemma SelectCopiesShownPath(os: Os, ix: nat, logFiles: seq<string>)
    requires os != OtherOs && 1 <= ix < |PopupItems(logFiles)|
    ensures Select(os, ix, logFiles).CopyToClipboard?
    ensures Select(os, ix, logFiles).path == PopupItems(logFiles)[ix]
  {
  }

  /** The popup's focus: the list or the Exit button. */
  datatype Focus = ListFocus | ExitFocus

  datatype PopupKey = Tab | Backtab | Esc | OtherKey

  /** Tab and Backtab swap the focus and are consumed; Esc ends the program with status 0. */
  function PopupInput(f: Focus, k: PopupKey): (r: (Focus, Exit, bool))
    ensures r.1 == Exit(0) <==> k == Esc
    ensures r.2 <==> k == OtherKey
    ensures (k == Tab || k == Backtab) ==> r.0 != f
    ensures (k == Esc || k == OtherKey) ==> r.0 == f
  {
    match k
    case Tab => (if f == ListFocus then ExitFocus else ListFocus, Continue, false)
    case Backtab => (if f == ExitFocus then ListFocus else ExitFocus, Continue, false)
    case Esc => (f, Exit(0), false)
    case OtherKey => (f, Continue, true)
  }

  /** With two places to go, Tab and Backtab agree, and two presses come back. */
  lemma TabBacktabAgree(f: Focus)
    ensures PopupInput(f, Tab).0 == PopupInput(f, Backtab).0
    ensures PopupInput(PopupInput(f, Tab).0, Tab).0 == f
  {
  }
}
