// The option catalogue of the command builder and the specification of what
// its update closure renders from the selection masks: the command line and
// the "Selected" summary.
module Options {
  import opened Strings

  /** One toggleable option: `{label, flag, desc}` (the label is `name` here). */
  datatype NmapOption = NmapOption(name: string, flag: string, desc: string)

  /** One screen's options, in display order. */
  type Category = seq<NmapOption>

  /** The separately built variants of the builder screen, named after their files. */
  datatype Variant = NmapXFirst | NmapX | Pantallas | Tui | Pantalla2

  datatype Option<T> = None | Some(value: T)

  // ---------------------------------------------------------------------
  // Catalogues. nmapX-first.go and pantallas.go share one table set,
  // nmapX.go and tui.go another; pantalla2.go has two short screens.

  const ClassicCatalog: seq<Category> := [
    [ NmapOption("None", "-Pn", "Skip host discovery; treat all targets as online."),
      NmapOption("ICMP echo", "-PE", "Send ICMP echo request to discover hosts."),
      NmapOption("ICMP timestamp", "-PP", "Send ICMP timestamp request for host discovery."),
      NmapOption("ICMP netmask", "-PM", "Send ICMP netmask request to detect hosts.") ],
    [ NmapOption("SYN Scan", "-sS", "Stealth SYN scan."),
      NmapOption("TCP Connect", "-sT", "Full TCP connect scan."),
      NmapOption("UDP Scan", "-sU", "UDP scan.") ],
    [ NmapOption("All ports", "-p-", "Scan all ports 1\U{2013}65535."),
      NmapOption("Top 100", "--top-ports 100", "Scan the 100 most common ports."),
      NmapOption("Fast scan", "-F", "Fast scan using fewer ports.") ],
    [ NmapOption("Paranoid", "-T0", "Very slow, stealth."),
      NmapOption("Sneaky", "-T1", "Slow to evade IDS."),
      NmapOption("Normal", "-T3", "Default speed."),
      NmapOption("Aggressive", "-T4", "Faster, noisier.") ],
    [ NmapOption("Fragment", "-f", "Split packets into fragments."),
      NmapOption("Decoys", "-D RND:10", "Use random decoy IPs."),
      NmapOption("Spoof IP", "-S 1.2.3.4", "Set fake source IP."),
      NmapOption("Bad checksum", "--badsum", "Send invalid checksums.") ],
    [ NmapOption("firewalk", "--script=firewalk", "Trace firewall rules."),
      NmapOption("http-methods", "--script=http-methods", "Check allowed HTTP methods."),
      NmapOption("dns-brute", "--script=dns-brute", "Brute force DNS names.") ]
  ]

  const ExtendedCatalog: seq<Category> := [
    [ NmapOption("None", "-Pn", "Skip host discovery; assume hosts up"),
      NmapOption("ICMP echo", "-PE", "ICMP echo ping"),
      NmapOption("ICMP timestamp", "-PP", "ICMP timestamp ping"),
      NmapOption("TCP SYN 80,443", "-PS80,443", "SYN ping to ports 80/443"),
      NmapOption("UDP 53", "-PU53", "UDP ping to port 53") ],
    [ NmapOption("SYN", "-sS", "Stealth SYN scan"),
      NmapOption("Connect", "-sT", "TCP connect scan"),
      NmapOption("UDP", "-sU", "UDP scan"),
      NmapOption("Version", "-sV", "Service/version detection"),
      NmapOption("Aggressive", "-A", "OS, version, scripts, traceroute") ],
    [ NmapOption("All ports", "-p-", "1-65535"),
      NmapOption("Top 100", "--top-ports 100", "Top 100 common"),
      NmapOption("Fast", "-F", "Fast limited"),
      NmapOption("Custom 1-1024", "-p 1-1024", "Range 1-1024") ],
    [ NmapOption("Normal", "-T3", "Default timing"),
      NmapOption("Aggressive", "-T4", "Faster"),
      NmapOption("Insane", "-T5", "Very fast") ],
    [ NmapOption("Fragment", "-f", "Fragment packets"),
      NmapOption("Decoys", "-D RND:10", "Random decoy IPs"),
      NmapOption("Spoof IP", "-S 1.2.3.4", "Fake source IP") ],
    [ NmapOption("firewalk", "--script=firewalk", "Trace firewall rules"),
      NmapOption("ssl\U{2011}ciphers", "--script=ssl-enum-ciphers", "Enumerate SSL ciphers"),
      NmapOption("dns\U{2011}brute", "--script=dns-brute", "Brute\U{2011}force subdomains") ]
  ]

  const TwoScreenCatalog: seq<Category> := [
    [ NmapOption("None", "-Pn", "Skip host discovery"),
      NmapOption("ICMP echo", "-PE", "Send ICMP echo") ],
    [ NmapOption("SYN", "-sS", "Stealth SYN scan"),
      NmapOption("Connect", "-sT", "TCP connect scan") ]
  ]

  function Catalog(v: Variant): (cats: seq<Category>)
    ensures |cats| == (if v == Pantalla2 then 2 else 6)
  {
    match v
    case NmapXFirst => ClassicCatalog
    case Pantallas => ClassicCatalog
    case NmapX => ExtendedCatalog
    case Tui => ExtendedCatalog
    case Pantalla2 => TwoScreenCatalog
  }

  /** The target token: only nmapX.go appends one, os.Args[1] or "localhost". */
  function TargetArg(v: Variant, args: seq<string>): (t: Option<string>)
    ensures t.Some? <==> v == NmapX
    ensures t.Some? && |args| > 1 ==> t.value == args[1]
    ensures t.Some? && |args| <= 1 ==> t.value == "localhost"
  {
    if v != NmapX then None
    else if |args| > 1 then Some(args[1])
    else Some("localhost")
  }

  // ---------------------------------------------------------------------
  // Selection masks and the positions they select.

  /** Position of an option: category (screen) index, then option index. */
  datatype Pos = Pos(cat: nat, idx: nat)

  /** Masks parallel to the catalogue: one per category, each as long as its options. */
  predicate Shaped(cats: seq<Category>, sel: seq<seq<bool>>) {
    |sel| == |cats| && forall c :: 0 <= c < |cats| ==> |sel[c]| == |cats[c]|
  }

  predicate ValidPositions(cats: seq<Category>, ps: seq<Pos>) {
    forall p :: p in ps ==> p.cat < |cats| && p.idx < |cats[p.cat]|
  }

  /** Lexicographic order: category first, then option index. */
  predicate Before(p: Pos, q: Pos) {
    p.cat < q.cat || (p.cat == q.cat && p.idx < q.idx)
  }

  /** The selected positions of one mask (category c), in index order. */
  function Picked(mask: seq<bool>, c: nat): (ps: seq<Pos>)
    ensures forall p :: p in ps ==> p.cat == c && p.idx < |mask| && mask[p.idx]
  {
    if |mask| == 0 then []
    else
      var n := |mask| - 1;
      Picked(mask[..n], c) + (if mask[n] then [Pos(c, n)] else [])
  }

  /** The selected positions of all masks, category by category. */
  function AllPicked(sel: seq<seq<bool>>): (ps: seq<Pos>)
    ensures forall p :: p in ps ==> p.cat < |sel| && p.idx < |sel[p.cat]| && sel[p.cat][p.idx]
  {
    if |sel| == 0 then []
    else
      var n := |sel| - 1;
      var before := AllPicked(sel[..n]);
      assert forall p :: p in before ==> sel[..n][p.cat] == sel[p.cat];
      before + Picked(sel[n], n)
  }

  /** With masks shaped like the catalogue, every selected position names an option of it. */
  lemma SelectedInCatalog(cats: seq<Category>, sel: seq<seq<bool>>)
    requires Shaped(cats, sel)
    ensures ValidPositions(cats, AllPicked(sel))
  {
  }

  /** Option (c, i) is in the list of selected positions exactly when its mask bit is set. */
  lemma {:induction false} PickedExactly(mask: seq<bool>, c: nat, i: nat)
    ensures Pos(c, i) in Picked(mask, c) <==> i < |mask| && mask[i]
  {
    if |mask| > 0 {
      var n := |mask| - 1;
      PickedExactly(mask[..n], c, i);
    }
  }

  lemma {:induction false} AllPickedExactly(sel: seq<seq<bool>>, c: nat, i: nat)
    ensures Pos(c, i) in AllPicked(sel) <==> c < |sel| && i < |sel[c]| && sel[c][i]
  {
    if |sel| > 0 {
      var n := |sel| - 1;
      AllPickedExactly(sel[..n], c, i);
      PickedExactly(sel[n], n, i);
      if c < n {
        assert sel[..n][c] == sel[c];
      }
    }
  }

  /** The selected positions come in category order, then index order, whatever the toggle history. */
  lemma {:induction false} PickedOrdered(mask: seq<bool>, c: nat)
    ensures forall j, k :: 0 <= j < k < |Picked(mask, c)| ==> Picked(mask, c)[j].idx < Picked(mask, c)[k].idx
  {
    if |mask| > 0 {
      var n := |mask| - 1;
      PickedOrdered(mask[..n], c);
    }
  }

  lemma {:induction false} AllPickedOrdered(sel: seq<seq<bool>>)
    ensures forall j, k :: 0 <= j < k < |AllPicked(sel)| ==> Before(AllPicked(sel)[j], AllPicked(sel)[k])
  {
    if |sel| > 0 {
      var n := |sel| - 1;
      AllPickedOrdered(sel[..n]);
      PickedOrdered(sel[n], n);
      var a, b := AllPicked(sel[..n]), Picked(sel[n], n);
      assert AllPicked(sel) == a + b;
      forall j, k | 0 <= j < k < |a + b| ensures Before((a + b)[j], (a + b)[k]) {
        if k >= |a| && j < |a| {
          assert a[j] in a && (a + b)[j] == a[j];
          assert b[k - |a|] in b && (a + b)[k] == b[k - |a|];
        }
      }
    }
  }

  // ---------------------------------------------------------------------
  // Rendering.

  /** The option at a position; positions outside the catalogue never arise (SelectedInCatalog). */
  function OptionAt(cats: seq<Category>, p: Pos): NmapOption {
    if p.cat < |cats| && p.idx < |cats[p.cat]| then cats[p.cat][p.idx] else NmapOption("", "", "")
  }

  /** The flags of the given positions, in the same order. */
  function FlagsAt(cats: seq<Category>, ps: seq<Pos>): (fs: seq<string>)
    ensures |fs| == |ps|
  {
    if |ps| == 0 then []
    else FlagsAt(cats, ps[..|ps| - 1]) + [OptionAt(cats, ps[|ps| - 1]).flag]
  }

  lemma {:induction false} FlagsAtIndex(cats: seq<Category>, ps: seq<Pos>)
    ensures forall k :: 0 <= k < |ps| ==> FlagsAt(cats, ps)[k] == OptionAt(cats, ps[k]).flag
  {
    if |ps| > 0 {
      FlagsAtIndex(cats, ps[..|ps| - 1]);
    }
  }

  function SelectedFlags(cats: seq<Category>, sel: seq<seq<bool>>): seq<string> {
    FlagsAt(cats, AllPicked(sel))
  }

  function TargetTokens(target: Option<string>): seq<string> {
    match target
    case None => []
    case Some(t) => [t]
  }

  /** The assembled command: "nmap", the selected flags, the optional target, single-space joined. */
  function CommandLine(cats: seq<Category>, sel: seq<seq<bool>>, target: Option<string>): string {
    Join(["nmap"] + SelectedFlags(cats, sel) + TargetTokens(target), " ")
  }

  /** The three summary-line formats of the variants. */
  datatype SummaryStyle =
    | FlagLabelDesc   // "<flag> <label>: <desc>"    nmapX-first.go
    | LabelFlag       // "<label> (<flag>)"          nmapX.go, tui.go, pantalla2.go
    | LabelFlagDesc   // "<label> (<flag>): <desc>"  pantallas.go

  function Style(v: Variant): SummaryStyle {
    match v
    case NmapXFirst => FlagLabelDesc
    case Pantallas => LabelFlagDesc
    case NmapX => LabelFlag
    case Tui => LabelFlag
    case Pantalla2 => LabelFlag
  }

  function SummaryLine(style: SummaryStyle, o: NmapOption): string {
    match style
    case FlagLabelDesc => o.flag + " " + o.name + ": " + o.desc + "\n"
    case LabelFlag => o.name + " (" + o.flag + ")\n"
    case LabelFlagDesc => o.name + " (" + o.flag + "): " + o.desc + "\n"
  }

  function LinesAt(style: SummaryStyle, cats: seq<Category>, ps: seq<Pos>): (ls: seq<string>)
    ensures |ls| == |ps|
  {
    if |ps| == 0 then []
    else LinesAt(style, cats, ps[..|ps| - 1]) + [SummaryLine(style, OptionAt(cats, ps[|ps| - 1]))]
  }

  lemma {:induction false} LinesAtIndex(style: SummaryStyle, cats: seq<Category>, ps: seq<Pos>)
    ensures forall k :: 0 <= k < |ps| ==> LinesAt(style, cats, ps)[k] == SummaryLine(style, OptionAt(cats, ps[k]))
  {
    if |ps| > 0 {
      LinesAtIndex(style, cats, ps[..|ps| - 1]);
    }
  }

  /** The "Selected" text: one line per selected option, in flag order. */
  function Summary(style: SummaryStyle, cats: seq<Category>, sel: seq<seq<bool>>): string {
    Concat(LinesAt(style, cats, AllPicked(sel)))
  }

  /** The command view: two copies of the command framed in ▓ for nmapX-first.go and nmapX.go. */
  function Display(v: Variant, cmd: string): string {
    if v == NmapXFirst || v == NmapX then "\U{2593} " + cmd + " \U{2593}\n\U{2593} " + cmd + " \U{2593}"
    else cmd
  }

  /** A list item's main text: "(i+1) label", with "[*] " before the label when selected. */
  function ItemText(i: nat, name: string, on: bool): string {
    "(" + Decimal(i + 1) + ") " + (if on then "[*] " + name else name)
  }

  /** The mask with one entry flipped. */
  function Flip(sel: seq<seq<bool>>, c: nat, i: nat): (r: seq<seq<bool>>)
    requires c < |sel| && i < |sel[c]|
    ensures |r| == |sel| && |r[c]| == |sel[c]|
    ensures r[c][i] == !sel[c][i]
    ensures forall d, j :: 0 <= d < |sel| && 0 <= j < |sel[d]| && (d, j) != (c, i) ==> |r[d]| == |sel[d]| && r[d][j] == sel[d][j]
  {
    sel[c := sel[c][i := !sel[c][i]]]
  }

  function AllOff(cats: seq<Category>): (sel: seq<seq<bool>>)
    ensures Shaped(cats, sel)
  {
    seq(|cats|, c requires 0 <= c < |cats| => seq(|cats[c]|, _ => false))
  }

  // ---------------------------------------------------------------------
  // Properties of the rendering.

  /** Flipping an entry changes the selected set in exactly that position. */
  lemma ToggleChangesOnePosition(sel: seq<seq<bool>>, c: nat, i: nat, p: Pos)
    requires c < |sel| && i < |sel[c]|
    ensures p == Pos(c, i) ==> (p in AllPicked(Flip(sel, c, i)) <==> !(p in AllPicked(sel)))
    ensures p != Pos(c, i) ==> (p in AllPicked(Flip(sel, c, i)) <==> p in AllPicked(sel))
  {
    AllPickedExactly(Flip(sel, c, i), p.cat, p.idx);
    AllPickedExactly(sel, p.cat, p.idx);
  }

  /** Toggling the same option twice restores the masks. */
  lemma ToggleTwice(sel: seq<seq<bool>>, c: nat, i: nat)
    requires c < |sel| && i < |sel[c]|
    ensures Flip(Flip(sel, c, i), c, i) == sel
  {
    assert sel[c][i := !sel[c][i]][i := sel[c][i]] == sel[c];
  }

  lemma NonePicked(sel: seq<seq<bool>>)
    requires forall c, i :: 0 <= c < |sel| && 0 <= i < |sel[c]| ==> !sel[c][i]
    ensures AllPicked(sel) == []
  {
    if AllPicked(sel) != [] {
      assert AllPicked(sel)[0] in AllPicked(sel);
    }
  }

  /** With nothing selected the command is "nmap" (plus the target) and the summary is empty. */
  lemma NothingSelected(cats: seq<Category>, style: SummaryStyle, target: Option<string>)
    ensures CommandLine(cats, AllOff(cats), target) == if target.Some? then "nmap " + target.value else "nmap"
    ensures Summary(style, cats, AllOff(cats)) == ""
  {
    var sel := AllOff(cats);
    NonePicked(sel);
    BareCommand(cats, sel, target);
    assert LinesAt(style, cats, AllPicked(sel)) == [];
  }

  /** The words of a command without flags: "nmap" and the target. */
  lemma BareCommand(cats: seq<Category>, sel: seq<seq<bool>>, target: Option<string>)
    requires AllPicked(sel) == []
    ensures CommandLine(cats, sel, target) == if target.Some? then "nmap " + target.value else "nmap"
  {
    assert SelectedFlags(cats, sel) == [];
    var ws := ["nmap"] + SelectedFlags(cats, sel) + TargetTokens(target);
    assert ws == ["nmap"] + TargetTokens(target);
    assert CommandLine(cats, sel, target) == Join(ws, " ");
    if target.Some? {
      assert ws == ["nmap", target.value] && ws[1..] == [target.value];
      assert Join(ws, " ") == "nmap" + " " + Join([target.value], " ");
    } else {
      assert ws == ["nmap"];
    }
  }

  /** The flags in the command are those of the selected options, in category and index order. */
  lemma CommandTokens(cats: seq<Category>, sel: seq<seq<bool>>)
    requires Shaped(cats, sel)
    ensures var fs, ps := SelectedFlags(cats, sel), AllPicked(sel);
      |fs| == |ps|
      && (forall k :: 0 <= k < |fs| ==>
            && ps[k].cat < |cats| && ps[k].idx < |cats[ps[k].cat]|
            && sel[ps[k].cat][ps[k].idx] && fs[k] == cats[ps[k].cat][ps[k].idx].flag)
  {
    var ps := AllPicked(sel);
    FlagsAtIndex(cats, ps);
    forall k | 0 <= k < |ps| ensures ps[k].cat < |cats| && ps[k].idx < |cats[ps[k].cat]| {
      assert ps[k] in ps;
    }
  }

  /** The words of the command: "nmap", then the words of each selected flag and of the target, in order. */
  lemma CommandWords(cats: seq<Category>, sel: seq<seq<bool>>, target: Option<string>)
    ensures Fields(CommandLine(cats, sel, target)) == ["nmap"] + FieldsOfAll(SelectedFlags(cats, sel) + TargetTokens(target))
  {
    var rest := SelectedFlags(cats, sel) + TargetTokens(target);
    assert ["nmap"] + SelectedFlags(cats, sel) + TargetTokens(target) == ["nmap"] + rest;
    assert IsWord("nmap") by {
      forall k | 0 <= k < 4 ensures !IsSpace("nmap"[k]) {
        assert "nmap"[k] in {'n', 'm', 'a', 'p'};
      }
    }
    FieldsAfterWord("nmap", rest);
  }

  /** Building the command by appending " " + flag to "nmap" gives the single-space join. */
  lemma ConcatenationIsJoin(cats: seq<Category>, sel: seq<seq<bool>>)
    ensures "nmap" + SpacePrefixed(SelectedFlags(cats, sel)) == CommandLine(cats, sel, None)
  {
    JoinAsConcat("nmap", SelectedFlags(cats, sel));
    assert ["nmap"] + SelectedFlags(cats, sel) + TargetTokens(None) == ["nmap"] + SelectedFlags(cats, sel);
  }

  lemma JoinFour(a: string, b: string, c: string, d: string)
    ensures Join([a, b, c, d], " ") == a + " " + b + " " + c + " " + d
  {
    var ws := [a, b, c, d];
    assert ws[1..] == [b, c, d] && [b, c, d][1..] == [c, d] && [c, d][1..] == [d];
    assert Join([c, d], " ") == c + " " + d;
    assert Join([b, c, d], " ") == b + " " + (c + " " + d);
    assert Join(ws, " ") == a + " " + (b + " " + (c + " " + d));
  }

  lemma ExamplePicked()
    ensures AllPicked([[true, false], [true, false]]) == [Pos(0, 0), Pos(1, 0)]
  {
    var sel := [[true, false], [true, false]];
    assert [true, false][..1] == [true] && [true][..0] == [];
    assert Picked([true, false], 0) == [Pos(0, 0)];
    assert Picked([true, false], 1) == [Pos(1, 0)];
    assert sel[..1] == [[true, false]] && sel[..1][..0] == [];
  }

  /** The two-category example: -Pn and -sS selected, target 10.0.0.5. */
  lemma SpecExample()
    ensures var cats := [[NmapOption("", "-Pn", ""), NmapOption("", "-PE", "")],
                         [NmapOption("", "-sS", ""), NmapOption("", "-sT", "")]];
      CommandLine(cats, [[true, false], [true, false]], Some("10.0.0.5")) == "nmap -Pn -sS 10.0.0.5"
  {
    var cats := [[NmapOption("", "-Pn", ""), NmapOption("", "-PE", "")],
                 [NmapOption("", "-sS", ""), NmapOption("", "-sT", "")]];
    var sel := [[true, false], [true, false]];
    ExamplePicked();
    assert SelectedFlags(cats, sel) == ["-Pn", "-sS"];
    assert ["nmap"] + ["-Pn", "-sS"] + ["10.0.0.5"] == ["nmap", "-Pn", "-sS", "10.0.0.5"];
    JoinFour("nmap", "-Pn", "-sS", "10.0.0.5");
  }
}
