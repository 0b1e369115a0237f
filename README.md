# NmapX, modelled in Dafny

NmapX is a terminal front end for nmap. It comes as several separately built
`main` programs that share one idea. An operator toggles options on
category pages (host discovery, scan type, ports, timing, evasion, NSE
scripts). A builder screen assembles the `nmap` command from the selection
and shows a "Selected" summary. Depending on the variant, the command is
then copied, explained, run, handed to `env`, or used to start a scan
session. A scan session runs a ping sweep, extracts the live hosts, runs a
fixed port scan, writes an HTML report, serves it and shows a popup of the
files it produced.

The model has one module per concern:

- `Strings` (strings.dfy): the Go string functions the program relies on:
  `strings.Join`, `strings.Fields`, `strings.Split`, `strings.TrimSpace` and
  `strings.HasSuffix`, and `%d` for item numbers.
- `Options` (options.dfy): the option catalogues of the five builder
  variants. It specifies what the update closure renders from the
  selection masks: the command line, the summary in its three line formats,
  and the command view.
- `Navigation` (navigation.dfy): the page cursor, the Tab-toggled focus on
  the Copy button, and what `x` and `E` ask for in each variant.
- `Screen` (screen.dfy): the builder screen as a class.
  - Its masks are arrays that the list callbacks flip in place.
  - The update closure's loops are methods proved against the `Options`
    functions.
  - Its input capture and application loop are proved against `Navigation`.
- `Dispatch` (dispatch.dfy): what happens to the command after the screen
  closes:
  - nmapX.go splits it on single spaces and runs it;
  - pantalla2.go hands its words to `/usr/bin/env`;
  - nmapx.go keeps the words after `nmap` as the scan arguments.
- `Discovery` (hosts.dfy): `bufio.Scanner` line splitting and the
  extraction of hosts whose line ends in `Up` from grepable ping-sweep
  output.
- `Markup` (markup.dfy): `html.EscapeString` and the five
  `ReplaceAllString` passes of `stylePortsOutput`.
  - The regular expressions are written out as left-to-right scanners: `\b`
    is an ASCII word boundary, and matching is leftmost and non-overlapping.
  - A "pieces" view (text runs and inserted spans) proves what the styled
    text means.
- `Report` (report.dfy): `generateHTMLReport` (page template, host list,
  command card) and `showCompletionPopup` (artefact filter, list items,
  what a selection does, focus keys).
- `Scan` (scan.dfy): the scan sessions of scanner.go (macOS: a sudo check
  and `sudo` for nmap) and scanner_linux.go (neither).
  - Everything outside the process comes in as a `World`: whether sudo
    needs no password, the clock, the first lines of the network queries,
    whether discovery succeeded, and what the nmap runs leave behind.
  - What the session does is recorded as a log of steps and a map of files.
- `Program` (program.dfy): the `main` of nmapx.go, with tui.go's
  `ShowNmapTUI`, plus the parts of the `main` of nmapX.go and of
  pantalla2.go that act on the command once the screen has closed.

nmapX-first.go and nmapX.go both declare `main`, as do pantallas.go and
pantalla2.go. tui.go, scanner*.go, report.go and nmapx.go form one more
program. The model covers them side by side: a `Variant` value selects the
catalogue, the summary format, the command view and the key bindings.

## Model

| member | source | states |
|---|---|---|
| Options.Catalog | nmapX-first.go:82-115 | Every variant has the six categories (host, scan, port, timing, evasion, scripts), except pantalla2.go, which has two |
| Options.TargetArg | nmapX.go:47-50 | Only nmapX.go appends a target: os.Args[1] when given, otherwise "localhost" |
| Options.Picked | nmapX-first.go:146-152 | Every position taken from a mask names a set entry of that mask, in that category |
| Options.AllPicked | nmapX-first.go:153-158 | Every selected position names a set entry of the masks |
| Options.SelectedInCatalog | pantallas.go:62-67 | With masks as long as their option lists, every selected position names an option of the catalogue |
| Options.PickedExactly | nmapX-first.go:147-151 | An option is among the selected positions of its mask iff its mask bit is set |
| Options.AllPickedExactly | nmapX-first.go:144-159 | Option (c, i) is selected iff mask c has bit i set, over all categories |
| Options.PickedOrdered | nmapX-first.go:147-151 | Within a category the selected options come in index order |
| Options.AllPickedOrdered | nmapX-first.go:153-158 | Selected options come in category order, then index order, whatever the order they were toggled in |
| Options.FlagsAtIndex | nmapX-first.go:146-152 | The k-th flag of the command part is the flag of the k-th selected option |
| Options.LinesAtIndex | nmapX-first.go:166-179 | The k-th summary line renders the k-th selected option, in the variant's format |
| Options.Flip | nmapX-first.go:312 | A toggle negates one mask entry and keeps every other entry and every mask length |
| Options.AllOff | nmapX-first.go:118-123 | The initial masks have one all-false entry per option of every category |
| Options.ToggleChangesOnePosition | nmapX-first.go:312 | A toggle adds or removes exactly the toggled option in the selected set and changes no other position |
| Options.ToggleTwice | pantallas.go:185 | Toggling the same option twice restores the masks |
| Options.NonePicked | nmapX-first.go:118-123 | Masks with no set bit select nothing |
| Options.NothingSelected | nmapX-first.go:144-182 | With every mask off, the command is "nmap" (nmapX.go: "nmap <target>") and the summary is empty |
| Options.CommandTokens | nmapX-first.go:144-159 | The flags in the command are exactly those of the selected options, one per selected option, in selection order |
| Options.CommandWords | tui.go:83-98 | The words of the command are "nmap", then the words of each selected flag and of the target, in order |
| Options.ConcatenationIsJoin | pantallas.go:84-96 | Appending " " + flag to "nmap" for each selected option gives the single-space join of the command |
| Options.SpecExample | nmapX.go:157-173 | With -Pn and -sS selected and target 10.0.0.5 the command is "nmap -Pn -sS 10.0.0.5" |
| Navigation.NavStep | nmapX.go:241-260 | One key keeps the page index in range, moves it only on Right/Left, and changes the focus only on Tab, and only where there is a Copy button |
| Navigation.Shortcut | nmapX-first.go:311 | A digit '1'..'9' selects list item digit-1 exactly when the list has that many items |
| Navigation.KeyBindings | nmapX.go:241-268 | Per variant: Tab is consumed iff there is a Copy button; 'x' explains or reports the missing key, and 'E' leaves, only in the variants binding them and never while the Copy button has focus; pantalla2.go's 'E' hands the shown command on |
| Navigation.ArrowsBlockedWhileFocused | nmapX-first.go:211-233 | While the Copy button has focus, Right and Left change nothing |
| Navigation.TabTwice | nmapX-first.go:211-220 | Tab never moves the page, and two Tabs restore the focus |
| Navigation.RightThenLeft | pantallas.go:140-155 | Right then Left returns to the same page unless Right was clamped at the last page |
| Navigation.LeftThenRight | pantallas.go:140-155 | Left then Right returns to the same page unless Left was clamped at page 0 |
| Navigation.RightsReach | nmapX-first.go:222-227 | n Rights from page c reach min(c + n, last page); no wrap-around |
| Navigation.LeftsReach | nmapX-first.go:228-233 | n Lefts from page c reach max(c - n, 0); no wrap-around |
| Navigation.NavRunInRange | tui.go:163-170 | Any key sequence keeps 0 <= cur < number of pages, and the focus off where there is no Copy button |
| Navigation.PantallasForwardsEverything | pantallas.go:140-155 | pantallas.go consumes no key: every key goes on to the list |
| Screen.AssembleCommand | nmapX.go:157-173 | The parts-append loops plus target and strings.Join produce exactly the specified command line |
| Screen.AssembleByConcat | pantallas.go:84-96 | The `cmd += " " + flag` loops produce exactly the specified command line |
| Screen.AssembleSummary | pantallas.go:99-113 | The Builder loops produce exactly one summary line per selected option, in selection order |
| Screen.NewMasks | nmapX.go:109-114 | One fresh, distinct, all-false mask per category, as long as its option list |
| Screen.BuildItems | nmapX-first.go:309-311 | Every list item starts as "(i+1) label" |
| Screen.OptionScreen.constructor | nmapX-first.go:118-182 | A new screen has all masks off, page 0, no focus, the command "nmap" (plus the target in nmapX.go) and an empty summary |
| Screen.Render | nmapX-first.go:144-181 | From the masks alone: the command is the specified command line (by concatenation in pantallas.go), the view is its variant's display of it, and the summary lists the selected options |
| Screen.OptionScreen.Update | nmapX-first.go:144-181 | The command, the command view (doubled and framed in the first two variants) and the summary agree with the masks afterwards; nothing else changes |
| Screen.OptionScreen.Toggle | nmapX-first.go:311-319 | A list callback flips exactly one mask entry, sets that item's text to "(i+1) [*] label" iff it is now selected (with per-iteration loop variables), and re-renders |
| Screen.OptionScreen.HandleKey | nmapX.go:241-268 | The input capture of a running screen follows NavStep and KeyEffect; it stops the screen exactly when the key is 'E', the variant binds it, and the Copy button does not have focus. nmapX.go then sets runAfter and finalCmd to the plain command, tui.go sets finalCmd to the shown command; the selection and the rendered texts are unchanged. A missing-key message is shown in the details view; after an explanation request the view is not constrained. |
| Screen.OptionScreen.ListInput | nmapX-first.go:309-319 | A forwarded shortcut digit of an item of the visible list toggles that item and re-renders; a forwarded key that is no such digit leaves the selection and the command as they were (Enter, space and the mouse are not modelled) |
| Screen.OptionScreen.Deliver | nmapX.go:241-268 | An event goes through the capture and then to the focused list, or to the Copy button, which copies the plain command. A key stops the screen exactly when it leaves in the navigation state before it; the new navigation state, selection and stop flag are one Step from the old ones; the command handed on is the one rendered at that press |
| Screen.OptionScreen.RunLoop | tui.go:158-198 | The navigation state, selection and stop flag afterwards are the Replay of the events; the loop ends at the first event that leaves, or with the events. The result is "" unless the screen was left, and otherwise the command shown at that press; runAfter is set iff nmapX.go was left |
| Screen.Step | nmapX.go:241-268 | After one event the screen has left iff it had already, or the event is a key that leaves in the current navigation state; the page stays in range, the selection keeps its shape, and the focus stays off where there is no Copy button |
| Screen.Replay | tui.go:158-198 | Replaying events from a screen that has left changes nothing; the page stays in range and the selection keeps its shape |
| Screen.ReplayAfterStop | tui.go:161-176 | Once some prefix of the events has left the screen, the events after it change nothing |
| Screen.ReplayNext | tui.go:161-198 | While the screen has not left, one more event is one more Step |
| Screen.DeliveryIsStep | nmapX.go:241-268 | What the capture and the focused list do with one event is exactly one Step |
| Screen.LeavesAtLeavingKey | nmapX.go:241-268 | The replay has left iff some event is a key that leaves in the navigation state the earlier events produced: in nmapX.go, an 'E' while the Copy button does not have focus |
| Screen.EveryELeaves | tui.go:161-176 | Where no Copy button can take the focus (tui.go, pantalla2.go), the replay has left iff 'E' is among the events |
| Dispatch.PostExitCommand | nmapX.go:302-305 | A command is run iff runAfter is set |
| Dispatch.PostExitRoundTrip | nmapX.go:304-305 | Program and arguments joined by single spaces give finalCmd back: splitting loses nothing |
| Dispatch.PostExitOfCommandLine | nmapX.go:302-305 | For an assembled command the program is "nmap" and the arguments are the space-separated pieces of every selected flag and of the target |
| Dispatch.SplitTwoWords | nmapX.go:304 | A flag of two space-free words joined by one space becomes those two arguments |
| Dispatch.TopPortsIsTwoArguments | nmapX.go:304 | "--top-ports 100" reaches nmap as the two arguments "--top-ports" and "100" |
| Dispatch.EnvHandover | pantalla2.go:137-144 | Nothing is executed iff the command has no words; with words and a successful exec the process becomes /usr/bin/env with argv "env" followed by exactly those words; with words and a failed exec the failure is reported |
| Dispatch.HandoverExit | pantalla2.go:141-143 | The exit status is 1 exactly when the exec failed |
| Dispatch.EnvHandoverOfCommandLine | pantalla2.go:133-140 | An assembled command always has a word, so 'E' always execs "env nmap" followed by the words of the selected flags |
| Dispatch.ScanArgs | nmapx.go:39-46 | There are arguments iff the command has at least two words; they are all the words after the first |
| Dispatch.ScanArgsOfCommandLine | nmapx.go:39-46 | For an assembled command the arguments are the words of the selected flags, present iff some selected flag has a word |
| Dispatch.BareCommandRejected | nmapx.go:39-43 | With nothing selected, the bare "nmap" is rejected |
| Dispatch.ReportCommandReproduces | report.go:103 | With something selected and every flag written with single spaces, "nmap " + the joined arguments is exactly the command the screen showed |
| Strings.JoinAppend | nmapX-first.go:159 | strings.Join of two non-empty lists is the two joins with the separator between them |
| Strings.JoinAsConcat | pantallas.go:84-88 | Joining with single spaces equals appending " " + word to the first word |
| Strings.WordRun | nmapx.go:39 | The leading run of a string holds no white space and ends at white space or at the end |
| Strings.Fields | nmapx.go:39 | strings.Fields yields only non-empty words without white space |
| Strings.FieldsSplitAtSpace | nmapx.go:39 | A white-space character separates the fields of the parts on either side |
| Strings.FieldsOfJoin | nmapx.go:39 | The fields of a single-space join are the fields of its parts, in order |
| Strings.CanonicalFields | report.go:103 | A string of words separated by single spaces is its fields joined by single spaces |
| Strings.JoinFieldsOfCanonical | nmapx.go:39-46 | Joining the fields of canonical strings gives back their single-space join |
| Strings.Split | nmapX.go:304 | strings.Split always yields at least one piece |
| Strings.SplitAtSeparator | nmapX.go:304 | A separator cuts the pieces of its two sides apart |
| Strings.SplitOfJoin | nmapX.go:304 | Splitting a join on its separator gives the pieces of the joined parts |
| Strings.JoinOfSplit | nmapX.go:304 | Joining the pieces of a split with the separator gives the string back |
| Strings.TrimLeft | report.go:106 | Removes exactly the leading white space |
| Strings.TrimRight | report.go:106 | Removes exactly the trailing white space |
| Strings.TrimSpaceOfWord | report.go:106 | A word is its own trim |
| Strings.Decimal | nmapX-first.go:311 | The %d text of n is a non-empty run of ASCII digits, with no leading zero unless n is 0, and read as a decimal number it is n |
| Discovery.DropCR | scanner.go:56-58 | A scanned line loses at most one trailing carriage return |
| Discovery.ScanLines | scanner.go:56-58 | No scanned line contains a newline |
| Discovery.HostOf | scanner.go:59-63 | A line gives a host iff it ends with "Up" and has at least two fields; the host is a word |
| Discovery.ExtractHosts | scanner.go:57-65 | The extraction loop writes exactly the hosts of the lines, each followed by a newline, in line order |
| Discovery.HostsAppend | scanner.go:57-65 | Extraction works line by line: the hosts of a + b are the hosts of a, then those of b |
| Discovery.HostsExactly | scanner.go:57-65 | h is extracted iff some line gives h |
| Discovery.HostsAreWords | scanner.go:60-62 | Every extracted host is a non-empty word without white space |
| Discovery.DownLinesDropped | scanner.go:59 | A line not ending in "Up" contributes nothing |
| Discovery.LinesTextSnoc | scanner.go:62 | Writing one more host appends that host and a newline to the file |
| Discovery.SplitLinesText | report.go:105 | Splitting the written file on newlines gives the hosts and one trailing empty piece |
| Discovery.HostsFileRoundTrip | scanner_linux.go:22-31 | Reading hosts.txt back line by line gives the extracted hosts in order |
| Markup.UnescapeOfEscape | report.go:20 | html.EscapeString loses nothing: unescaping gives the input back |
| Markup.EscapeUnmarked | report.go:20 | Escaped text holds no <, >, " or ' |
| Markup.WordLen | report.go:27 | The \w run at the front ends at a non-word character or at the end |
| Markup.DigitLen | report.go:23 | The \d run at the front ends at a non-digit or at the end |
| Markup.ProtoLen | report.go:23 | A protocol match starts with a digit and ends in /tcp or /udp |
| Markup.ProtoPiecesRender | report.go:23-24 | The protocol pass equals rendering its pieces |
| Markup.ProtoPiecesPlain | report.go:23-24 | The protocol pass only adds tags: its pieces' text without the tags is the input |
| Markup.ProtoPiecesShape | report.go:23-24 | Every span the protocol pass inserts is class "proto" around a whole \d+/(tcp\|udp) match |
| Markup.WordPassToken | report.go:27-28 | A lone \w token is wrapped iff it is one of the keywords |
| Markup.WordPassNonWord | report.go:27-36 | Text without word characters is left as it is |
| Markup.KeywordMatchIsRun | report.go:27 | \bkw\b matches at i iff a whole \w run equal to kw starts at i |
| Markup.WordPiecesRender | report.go:27-28 | A keyword pass equals rendering its pieces |
| Markup.WordPiecesPlain | report.go:27-28 | A keyword pass changes no text outside the tags it inserts |
| Markup.TagInert | report.go:31-36 | A later pass leaves inserted span markup unchanged |
| Markup.KnownSpanInert | report.go:31-36 | No later keyword matches inside an earlier span, so inserted markup is never re-wrapped |
| Markup.PassStage | report.go:27-36 | Each pass after the first wraps only inside text runs, keeps the text, and adds only spans of its class around its keywords |
| Markup.ProtoServiceStages | report.go:20-28 | After the protocol and service passes, the text is the escaped input with proto and svc spans |
| Markup.StateStages | report.go:31-36 | The open, closed and filtered passes, in that order, keep the text and add only their own spans |
| Markup.ProtoLenAppend | report.go:23 | A protocol match at the front of a string is still the match when more text follows |
| Markup.ProtoPiecesClean | report.go:23-24 | No text the protocol pass leaves unwrapped holds a \d+/(tcp\|udp) match at any position |
| Markup.PassPiecesClean | report.go:27-36 | A keyword pass cuts texts without creating a protocol match in any of them |
| Markup.RunsAvoidAt | report.go:27 | In a text none of whose maximal \w runs is a keyword, no run starting at a word start is a keyword |
| Markup.WordPiecesAvoid | report.go:27-28 | After a keyword pass no maximal \w run of a remaining text is one of its keywords, nor one avoided before |
| Markup.PassPiecesAvoid | report.go:27-36 | A keyword pass over pieces leaves texts avoiding its keywords and all earlier ones |
| Markup.StylePortsComplete | report.go:23-36 | Every match is wrapped: no text between the spans holds a protocol port at any position, nor a \b match of a service, "open", "closed" or "filtered" |
| Markup.StylePortsMeaning | report.go:19-39 | The styled text is the escaped input with spans inserted: without the tags it unescapes to the input, holds no raw markup, and every span wraps a port/protocol, a service or the state its class names |
| Report.GenerateReport | report.go:42-123 | The page is the template with the escaped fields and command card, one item per non-blank host line, and the styled port text |
| Report.AppendHostItems | report.go:105-110 | The loop appends one "<li>" line per non-blank trimmed host line, escaped, in order |
| Report.HostItemStep | report.go:106-108 | A blank trimmed line adds nothing; any other adds its escaped item |
| Report.HostItemsAppend | report.go:105-110 | Items are produced line by line, in line order |
| Report.HostItemsOfWords | report.go:105-110 | Lines that are words give one escaped item each |
| Report.HostListFromDiscovery | report.go:105-110 | For a hosts.txt the extraction wrote, the list has exactly the extracted hosts, escaped, in order |
| Report.NoHostsNoItems | report.go:105-110 | Empty or missing host data gives no list items |
| Report.HostItemsUnmarked | report.go:108 | Every list item is escaped (no raw markup) and unescapes to a non-empty text |
| Report.CardShowsCommand | report.go:103 | For an assembled command with something selected, the card is escaped and unescapes to exactly the command shown |
| Report.ListArtefacts | report.go:130-137 | The directory loop yields exactly the filtered, prefixed names, in directory order |
| Report.ArtefactsExactly | report.go:130-137 | A path is listed iff it is scanDir + "/" + a name ending in .nmap or .gnmap, or equal to hosts.txt |
| Report.ArtefactsAppend | report.go:130-137 | Filtering keeps directory order |
| Report.PopupItems | report.go:139-143 | The popup lists the report URL, then one item per artefact |
| Report.Select | report.go:147-178 | Index 0 starts "open" (macOS) or "xdg-open" (Linux) on the report URL; index ix >= 1 copies the artefact at ix-1 when in range; an index past the artefacts, or another system, does nothing |
| Report.SelectCopiesShownPath | report.go:160-162 | Selecting a listed artefact copies exactly the path shown at that index |
| Report.PopupInput | report.go:197-218 | Tab and Backtab always move the focus and are consumed; Esc exits with 0; other keys pass through |
| Report.TabBacktabAgree | report.go:198-213 | With two focus targets, Tab and Backtab have the same effect, and two Tabs restore the focus |
| Scan.Read | scanner.go:103-104 | A missing file reads as empty; an existing one reads as its contents |
| Scan.Privileged | scanner.go:25-40 | The privileged argv is "sudo", the command, then its arguments |
| Scan.PrivilegedSameOnEverySystem | scanner.go:28-34 | Both system branches build the same argv |
| Scan.HostDiscovery | scanner.go:43-66 | The sweep runs through sudo; on an error, hosts.txt is not written; otherwise hosts.txt holds the hosts extracted from pingsweep.gnmap. In the build of scanner_linux.go:14-32 there is no sudo, the result is discarded and hosts.txt is always written |
| Scan.PortScan | scanner.go:69-78 | The port scan argv is fixed and independent of the selections; its output is left in ports.nmap; an error changes nothing else. The build of scanner_linux.go:35-39 uses the same argv without sudo |
| Scan.StartScan | scanner.go:81-119 | A failed sudo check only logs the check; otherwise the session sets scanDir "test_"+stamp and htmlPath scanDir+"/report.html", creates the directory, leaves the scanned files, records the report, and logs its steps in order. In the build of scanner_linux.go:42-76 there is no privilege check, so the session always runs, with the same paths and stages |
| Scan.Session | scanner.go:86-118 | The session's paths, files, report and step log |
| Scan.WriteReport | scanner.go:103-106 | The report is generated from hosts.txt and ports.nmap as they are at that point, and written to htmlPath |
| Scan.StageOrder | scanner.go:99-117 | Discovery, port scan, report write, server and popup happen in that order, and the port scan runs even after a failed discovery |
| Scan.DistinctPaths | scanner.go:46-91 | The four session files have distinct paths |
| Scan.SessionStaysInItsDirectory | scanner.go:88-106 | A session changes no file outside its own directory |
| Scan.FailedSweepLeavesHostsFile | scanner.go:46-50 | After a failed sweep, the report lists whatever hosts.txt the directory already held |
| Scan.ReportListsSweptHosts | scanner.go:99-105 | After a successful sweep, the report lists exactly the hosts extracted from the sweep, escaped, in order |
| Scan.ReportShowsPortScan | scanner.go:100-105 | The report's port section comes from what the port scan wrote |
| Program.NmapxMain | nmapx.go:9-59 | Exit 1 on a failed sudo check or missing argument, exit 0 on an empty command, exit 1 on a command without arguments; otherwise the target and arguments are stored and the scan starts with them. Past the checks, the command is non-empty iff 'E' was pressed, and it is the command line of the selection the events made |
| Program.ScanCommand | nmapx.go:38-53 | The scan starts iff the command has at least two words; selectedNmapArgs are the words after the first and selectedExtraCmds is empty |
| Program.ShowNmapTUI | tui.go:12-198 | The result is non-empty iff 'E' is among the events; it is then the command line of the selection the events made up to that press, and "" otherwise |
| Program.CommandRoundTrip | nmapx.go:39-46 | For a TUI command with arguments and single-space flags, the report card's "nmap " + join(args) reproduces the command |
| Program.NmapXMain | nmapX.go:241-308 | A command runs iff some 'E' arrives while the Copy button does not have focus; it is then "nmap" with, as arguments, the space-separated pieces of the flags the events selected before it and of the target |
| Program.Pantalla2Main | pantalla2.go:121-172 | A hand-over happens iff 'E' is among the events; it hands "env" and the words of the command line of the selection made by then; the post-exit shell step never runs |

## Left out

- The tview and tcell layout: colours, titles, borders, page switching, focus
  calls and the 1-second title revert after a copy.
- The OpenAI explanation: HTTP, JSON and the API key lookup. The model keeps
  only which text would be sent, or the missing-key message.
- Screen.OptionScreen.HandleKey: what the details view shows after an
  explanation request (the API's reply or the error text) is not modelled;
  the contract leaves the view unconstrained after an `Explain` effect.
- Screen.OptionScreen.Toggle: the item text "(i+1) [*] label" assumes that
  each iteration of the range loops that create the list callbacks has its
  own `i` and `opt` (Go 1.22 or later). The Go version of the build is not
  part of this model. With earlier Go every callback reads the loop
  variables after the loop has ended, so a toggle would write the last
  item's number and label onto item `idx` of its list.
- Text is taken to be valid UTF-8: strings are sequences of characters, so
  the byte-wise or U+FFFD treatment of invalid bytes in pingsweep.gnmap,
  ports.nmap and hosts.txt by html.EscapeString, regexp and strings.Fields
  is not modelled.
- copyToClipboard and the choice between pbcopy, xclip and xsel. The model
  keeps only the text copied.
- The exec, sudo, syscall.Exec, os.Exit, open and xdg-open calls. Their
  outcomes are inputs (`World`, `execOk`) or recorded steps.
- The ifconfig, netstat and ip shell pipelines, the clock and
  `getFirstLine`. Their answers arrive already reduced to their first line
  in `World`.
- The HTTP file server and the goroutine that runs a session. The session is
  modelled as running to completion in sequence.
- `setupUI`, `Run`, the process and ports-file monitors, the output
  redirection and the title update in nmapx.go. These are not part of this
  model.
- Scan.WriteReport: it records the report by the inputs generateHTMLReport
  receives (`ReportInput`) rather than by its text. `Report.Page` and
  `Report.GenerateReport` give that text; the two are kept apart to keep
  proofs small.
- Scan.StartScan: scanner_linux.go's GenerateHTMLReport and
  ShowCompletionPopup are not part of this model. They are taken to behave
  as report.go's.
- The subnet query: it runs and is logged, but its answer plays no part in
  the page.
- Discovery.ScanLines: bufio.Scanner's 64 KiB limit on a line is not
  modelled; longer lines are scanned whole.
- Report.ListArtefacts: the directory listing, in ioutil.ReadDir's name
  order, is a parameter.
- Report.Select: the effect of the chosen command (browser, clipboard) is
  not modelled. The popup's Exit button and list "done" handler are not
  modelled beyond PopupInput.
- Program.NmapxMain: the report card reproduces the command only under the
  hypothesis that every flag of the catalogue is words separated by single
  spaces (`FlagsCanonical`). This holds for the tables as written but is
  stated as a condition rather than checked character by character.
- Program.NmapxMain: the application loop that runs after the scan starts
  (state.app.Run) is not modelled; the method ends with `Continue` there.
- Screen.OptionScreen.RunLoop: `events` are the keys the input capture sees
  before tview's built-in Ctrl-C stop. Every capture returns Ctrl-C, and
  Application.Run then stops with `finalCmd` "" and `runAfter` false; this
  is also the only way out of nmapX-first.go and pantallas.go. The model has
  no Ctrl-C key: a Ctrl-C can only be the end of `events`, where running
  out of events gives the same outcome. The iff clauses of
  Program.ShowNmapTUI, Program.NmapXMain, Program.Pantalla2Main and
  Program.NmapxMain ("a command iff 'E' is among the events") are about
  these events, not about keys typed after a Ctrl-C.
- Screen.OptionScreen.ListInput: only the shortcut digits reach the toggle.
  tview's List also runs an item's callback on Enter or space for its
  current item (which the arrow keys, Tab, Home and End move) and on a mouse
  click; the list's current item is not modelled, because tview is not part
  of this model.
- Navigation.Shortcut: only the runes '1' to '9' select items. The source
  gives item i the rune '1'+i, which differs only for lists longer than nine
  items; no list of the catalogues has more than five.
- GetText(true) is taken as the identity on the text set into the view.
  For nmapX-first.go and nmapX.go this means 'x' sends the doubled, framed
  command view.
