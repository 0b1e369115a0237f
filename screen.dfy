// The builder screen as the source runs it: selection masks that the list
// callbacks flip in place, an update step that rebuilds the command and the
// "Selected" text with loops over the masks, and an input capture that
// moves between pages and leaves the screen.
module Screen {
  import opened Strings
  import opened Options
  import opened Navigation

  /** The masks hold exactly the ghost selection `sel`, category by category. */
  ghost predicate Holds(masks: seq<array<bool>>, sel: seq<seq<bool>>)
    reads masks
  {
    |masks| == |sel| && forall c :: 0 <= c < |masks| ==> masks[c][..] == sel[c]
  }

  /** The positions selected by the first c masks, then the first i entries of mask c. */
  function Prefix(sel: seq<seq<bool>>, c: nat, i: nat): seq<Pos>
    requires c < |sel| && i <= |sel[c]|
  {
    AllPicked(sel[..c]) + Picked(sel[c][..i], c)
  }

  /** Entry i of mask c extends the selected positions by (c, i) exactly when it is set. */
  lemma PrefixStep(sel: seq<seq<bool>>, c: nat, i: nat)
    requires c < |sel| && i < |sel[c]|
    ensures Prefix(sel, c, i + 1) == Prefix(sel, c, i) + (if sel[c][i] then [Pos(c, i)] else [])
  {
    assert sel[c][..i + 1][..i] == sel[c][..i];
  }

  lemma PrefixZero(sel: seq<seq<bool>>, c: nat)
    requires c < |sel|
    ensures Prefix(sel, c, 0) == AllPicked(sel[..c])
  {
    assert sel[c][..0] == [];
  }

  /** Finishing mask c gives the positions selected by the first c + 1 masks. */
  lemma PrefixNext(sel: seq<seq<bool>>, c: nat)
    requires c < |sel|
    ensures AllPicked(sel[..c + 1]) == Prefix(sel, c, |sel[c]|)
  {
    assert sel[..c + 1][..c] == sel[..c];
    assert sel[c][..|sel[c]|] == sel[c];
  }

  lemma FlagsStep(cats: seq<Category>, sel: seq<seq<bool>>, c: nat, i: nat)
    requires Shaped(cats, sel) && c < |sel| && i < |sel[c]|
    ensures FlagsAt(cats, Prefix(sel, c, i + 1))
      == FlagsAt(cats, Prefix(sel, c, i)) + (if sel[c][i] then [cats[c][i].flag] else [])
  {
    PrefixStep(sel, c, i);
    var ps := Prefix(sel, c, i);
    if sel[c][i] {
      var qs := ps + [Pos(c, i)];
      assert qs[..|ps|] == ps && qs[|ps|] == Pos(c, i);
      assert OptionAt(cats, Pos(c, i)) == cats[c][i];
      assert FlagsAt(cats, qs) == FlagsAt(cats, ps) + [cats[c][i].flag];
    } else {
      assert ps + [] == ps;
      assert FlagsAt(cats, ps) + [] == FlagsAt(cats, ps);
    }
  }

  lemma LinesAtSnoc(style: SummaryStyle, cats: seq<Category>, ps: seq<Pos>, p: Pos)
    ensures LinesAt(style, cats, ps + [p]) == LinesAt(style, cats, ps) + [SummaryLine(style, OptionAt(cats, p))]
  {
    assert (ps + [p])[..|ps|] == ps;
  }

  lemma LinesStep(style: SummaryStyle, cats: seq<Category>, sel: seq<seq<bool>>, c: nat, i: nat)
    requires Shaped(cats, sel) && c < |sel| && i < |sel[c]|
    ensures Concat(LinesAt(style, cats, Prefix(sel, c, i + 1)))
      == Concat(LinesAt(style, cats, Prefix(sel, c, i))) + (if sel[c][i] then SummaryLine(style, cats[c][i]) else "")
  {
    PrefixStep(sel, c, i);
    var ps := Prefix(sel, c, i);
    if sel[c][i] {
      LinesAtSnoc(style, cats, ps, Pos(c, i));
      ConcatOne(LinesAt(style, cats, ps), SummaryLine(style, cats[c][i]));
    } else {
      assert Prefix(sel, c, i + 1) == ps;
      assert Concat(LinesAt(style, cats, ps)) + "" == Concat(LinesAt(style, cats, ps));
    }
  }

  lemma ConcatStep(cats: seq<Category>, sel: seq<seq<bool>>, c: nat, i: nat)
    requires Shaped(cats, sel) && c < |sel| && i < |sel[c]|
    ensures "nmap" + SpacePrefixed(FlagsAt(cats, Prefix(sel, c, i + 1)))
      == "nmap" + SpacePrefixed(FlagsAt(cats, Prefix(sel, c, i))) + (if sel[c][i] then " " + cats[c][i].flag else "")
  {
    FlagsStep(cats, sel, c, i);
    var fs := FlagsAt(cats, Prefix(sel, c, i));
    if sel[c][i] {
      SpacePrefixedStep("nmap", fs, cats[c][i].flag);
    } else {
      assert fs + [] == fs;
    }
  }

  /**
   * The `parts = append(parts, flag)` loops of nmapX-first.go, nmapX.go,
   * tui.go and pantalla2.go, then the target and strings.Join: the result is
   * the specified command line.
   */
  method AssembleCommand(cats: seq<Category>, masks: seq<array<bool>>, ghost sel: seq<seq<bool>>, target: Option<string>)
    returns (cmd: string)
    requires Shaped(cats, sel) && Holds(masks, sel)
    ensures cmd == CommandLine(cats, sel, target)
  {
    var parts := ["nmap"];
    var c := 0;
    assert sel[..0] == [];
    while c < |cats|
      invariant 0 <= c <= |cats|
      invariant parts == ["nmap"] + FlagsAt(cats, AllPicked(sel[..c]))
    {
      var mask := masks[c];
      var i := 0;
      PrefixZero(sel, c);
      while i < mask.Length
        invariant 0 <= i <= mask.Length == |sel[c]|
        invariant parts == ["nmap"] + FlagsAt(cats, Prefix(sel, c, i))
      {
        FlagsStep(cats, sel, c, i);
        assert mask[i] == sel[c][i] by { assert mask[..][i] == mask[i]; }
        if mask[i] {
          Regroup(["nmap"], FlagsAt(cats, Prefix(sel, c, i)), [cats[c][i].flag]);
          parts := parts + [cats[c][i].flag];
        } else {
          assert FlagsAt(cats, Prefix(sel, c, i)) + [] == FlagsAt(cats, Prefix(sel, c, i));
        }
        i := i + 1;
      }
      PrefixNext(sel, c);
      c := c + 1;
    }
    assert sel[..c] == sel;
    ghost var flags := SelectedFlags(cats, sel);
    assert parts == ["nmap"] + flags;
    match target {
      case Some(t) => parts := parts + [t];
      case None =>
    }
    assert parts == ["nmap"] + flags + TargetTokens(target);
    cmd := Join(parts, " ");
  }

  /**
   * The `cmd += " " + flag` loop of pantallas.go: the same command line as the
   * single-space join, with no target.
   */
  method AssembleByConcat(cats: seq<Category>, masks: seq<array<bool>>, ghost sel: seq<seq<bool>>)
    returns (cmd: string)
    requires Shaped(cats, sel) && Holds(masks, sel)
    ensures cmd == CommandLine(cats, sel, None)
  {
    cmd := "nmap";
    var c := 0;
    assert sel[..0] == [];
    while c < |cats|
      invariant 0 <= c <= |cats|
      invariant cmd == "nmap" + SpacePrefixed(FlagsAt(cats, AllPicked(sel[..c])))
    {
      var mask := masks[c];
      var i := 0;
      PrefixZero(sel, c);
      while i < mask.Length
        invariant 0 <= i <= mask.Length == |sel[c]|
        invariant cmd == "nmap" + SpacePrefixed(FlagsAt(cats, Prefix(sel, c, i)))
      {
        ConcatStep(cats, sel, c, i);
        assert mask[i] == sel[c][i] by { assert mask[..][i] == mask[i]; }
        if mask[i] {
          Regroup(cmd, " ", cats[c][i].flag);
          cmd := cmd + " " + cats[c][i].flag;
        } else {
          assert cmd + "" == cmd;
        }
        i := i + 1;
      }
      PrefixNext(sel, c);
      c := c + 1;
    }
    assert sel[..c] == sel;
    assert cmd == "nmap" + SpacePrefixed(SelectedFlags(cats, sel));
    ConcatenationIsJoin(cats, sel);
  }

  /** The strings.Builder loops that write one summary line per selected option. */
  method AssembleSummary(style: SummaryStyle, cats: seq<Category>, masks: seq<array<bool>>, ghost sel: seq<seq<bool>>)
    returns (text: string)
    requires Shaped(cats, sel) && Holds(masks, sel)
    ensures text == Summary(style, cats, sel)
  {
    text := "";
    var c := 0;
    assert sel[..0] == [];
    while c < |cats|
      invariant 0 <= c <= |cats|
      invariant text == Concat(LinesAt(style, cats, AllPicked(sel[..c])))
    {
      var mask := masks[c];
      var i := 0;
      PrefixZero(sel, c);
      while i < mask.Length
        invariant 0 <= i <= mask.Length == |sel[c]|
        invariant text == Concat(LinesAt(style, cats, Prefix(sel, c, i)))
      {
        LinesStep(style, cats, sel, c, i);
        assert mask[i] == sel[c][i] by { assert mask[..][i] == mask[i]; }
        if mask[i] {
          text := text + SummaryLine(style, cats[c][i]);
        }
        i := i + 1;
      }
      PrefixNext(sel, c);
      c := c + 1;
    }
    assert sel[..c] == sel;
  }

  /**
   * The three texts an update writes, from the masks alone: the command
   * (built by concatenation in pantallas.go, from parts elsewhere), its view
   * and the summary of the checked options.
   */
  method Render(v: Variant, cats: seq<Category>, masks: seq<array<bool>>, ghost sel: seq<seq<bool>>, target: Option<string>)
    returns (cmd: string, view: string, text: string)
    requires Shaped(cats, sel) && Holds(masks, sel)
    requires v == Pantallas ==> target == None
    ensures cmd == CommandLine(cats, sel, target)
    ensures view == Display(v, cmd)
    ensures text == Summary(Style(v), cats, sel)
  {
    if v == Pantallas {
      cmd := AssembleByConcat(cats, masks, sel);
    } else {
      cmd := AssembleCommand(cats, masks, sel, target);
    }
    text := AssembleSummary(Style(v), cats, masks, sel);
    view := Display(v, cmd);
  }

  /** The selection slices, all off: `make([]bool, len(opts))` for every category. */
  method NewMasks(cats: seq<Category>) returns (ms: seq<array<bool>>)
    ensures |ms| == |cats|
    ensures forall c :: 0 <= c < |cats| ==> fresh(ms[c]) && ms[c][..] == AllOff(cats)[c]
    ensures forall c, d :: 0 <= c < d < |ms| ==> ms[c] != ms[d]
  {
    ms := [];
    var c := 0;
    while c < |cats|
      invariant 0 <= c <= |cats| && |ms| == c
      invariant forall d :: 0 <= d < c ==> fresh(ms[d]) && ms[d][..] == AllOff(cats)[d]
      invariant forall d, e :: 0 <= d < e < c ==> ms[d] != ms[e]
    {
      var a := new bool[|cats[c]|](_ => false);
      assert a[..] == AllOff(cats)[c];
      ms := ms + [a];
      c := c + 1;
    }
  }

  /** The item texts of the lists as first built: "(i+1) label" for every option. */
  method BuildItems(cats: seq<Category>) returns (its: seq<seq<string>>)
    ensures |its| == |cats|
    ensures forall c :: 0 <= c < |cats| ==> |its[c]| == |cats[c]|
    ensures forall c, i :: 0 <= c < |cats| && 0 <= i < |cats[c]| ==> its[c][i] == ItemText(i, cats[c][i].name, false)
  {
    its := [];
    var c := 0;
    while c < |cats|
      invariant 0 <= c <= |cats| && |its| == c
      invariant forall d :: 0 <= d < c ==> |its[d]| == |cats[d]|
      invariant forall d, i :: 0 <= d < c && 0 <= i < |cats[d]| ==> its[d][i] == ItemText(i, cats[d][i].name, false)
    {
      var texts: seq<string> := [];
      var i := 0;
      while i < |cats[c]|
        invariant 0 <= i <= |cats[c]| && |texts| == i
        invariant forall j :: 0 <= j < i ==> texts[j] == ItemText(j, cats[c][j].name, false)
      {
        texts := texts + [ItemText(i, cats[c][i].name, false)];
        i := i + 1;
      }
      its := its + [texts];
      c := c + 1;
    }
  }

  /** An input event: a key press, or activating the Copy button (only focusable in two variants). */
  datatype Event = Press(key: Key) | PressCopy

  /** The item of the visible list that the event toggles through its shortcut digit, if any. */
  function ToggledItem(ev: Event, n: Nav, count: nat): Option<nat> {
    if ev.Press? && ev.key.Rune? && !n.focusOnCmdBar then Shortcut(ev.key.r, count) else None
  }

  /** What the events decide of a running screen: the navigation state, the selection, and whether it has left. */
  datatype Progress = Progress(nav: Nav, sel: seq<seq<bool>>, stopped: bool)

  /**
   * One event delivered to a screen over the option lists `cats`: the
   * capture moves the navigation state, a leaving key stops the screen,
   * and otherwise a shortcut digit flips its item of the visible list.
   */
  function Step(v: Variant, cats: seq<Category>, p: Progress, ev: Event): (q: Progress)
    requires Shaped(cats, p.sel) && 0 <= p.nav.cur < |cats|
    ensures Shaped(cats, q.sel) && 0 <= q.nav.cur < |cats|
    ensures FocusToggles(v) || !p.nav.focusOnCmdBar ==> FocusToggles(v) || !q.nav.focusOnCmdBar
    ensures q.stopped <==> p.stopped || (ev.Press? && Leaves(v, p.nav, ev.key))
  {
    match ev
    case PressCopy => p
    case Press(k) =>
      var n := NavStep(v, |cats|, p.nav, k);
      var t := ToggledItem(ev, n, |cats[n.cur]|);
      if Leaves(v, p.nav, k) then Progress(n, p.sel, true)
      else if t.Some? then Progress(n, Flip(p.sel, n.cur, t.value), p.stopped)
      else Progress(n, p.sel, p.stopped)
  }

  /** The events delivered one by one, from p, until one leaves the screen. */
  function Replay(v: Variant, cats: seq<Category>, p: Progress, evs: seq<Event>): (r: Progress)
    requires Shaped(cats, p.sel) && 0 <= p.nav.cur < |cats|
    ensures Shaped(cats, r.sel) && 0 <= r.nav.cur < |cats|
    ensures FocusToggles(v) || !p.nav.focusOnCmdBar ==> FocusToggles(v) || !r.nav.focusOnCmdBar
    ensures p.stopped ==> r == p
    decreases |evs|
  {
    if |evs| == 0 then p
    else
      var q := Replay(v, cats, p, evs[..|evs| - 1]);
      if q.stopped then q else Step(v, cats, q, evs[|evs| - 1])
  }

  /** The events delivered to a freshly built screen of variant v, over its catalogue. */
  function Delivered(v: Variant, evs: seq<Event>): (r: Progress)
    ensures Shaped(Catalog(v), r.sel) && 0 <= r.nav.cur < |Catalog(v)|
  {
    Replay(v, Catalog(v), Progress(Nav(0, false), AllOff(Catalog(v)), false), evs)
  }

  /** Once the screen has left, later events change nothing. */
  lemma {:induction false} ReplayAfterStop(v: Variant, cats: seq<Category>, p: Progress, evs: seq<Event>, j: nat)
    requires Shaped(cats, p.sel) && 0 <= p.nav.cur < |cats|
    requires j <= |evs| && Replay(v, cats, p, evs[..j]).stopped
    ensures Replay(v, cats, p, evs) == Replay(v, cats, p, evs[..j])
    decreases |evs|
  {
    if j < |evs| {
      var pre := evs[..|evs| - 1];
      assert pre[..j] == evs[..j];
      ReplayAfterStop(v, cats, p, pre, j);
    } else {
      assert evs[..j] == evs;
    }
  }

  /**
   * The screen leaves exactly when some event is a key that leaves it in
   * the navigation state the earlier events gave.
   */
  lemma {:induction false} LeavesAtLeavingKey(v: Variant, cats: seq<Category>, p: Progress, evs: seq<Event>)
    requires Shaped(cats, p.sel) && 0 <= p.nav.cur < |cats| && !p.stopped
    ensures Replay(v, cats, p, evs).stopped
      <==> exists i :: 0 <= i < |evs| && evs[i].Press? && Leaves(v, Replay(v, cats, p, evs[..i]).nav, evs[i].key)
    decreases |evs|
  {
    if |evs| > 0 {
      var pre := evs[..|evs| - 1];
      LeavesAtLeavingKey(v, cats, p, pre);
      forall i | 0 <= i < |pre| ensures pre[..i] == evs[..i] && pre[i] == evs[i] {
      }
      assert evs[..|pre|] == pre;
    }
  }

  /**
   * Where no Copy button can take the focus (tui.go, pantalla2.go), the
   * screen leaves exactly when 'E' is among the events.
   */
  lemma EveryELeaves(v: Variant, cats: seq<Category>, p: Progress, evs: seq<Event>)
    requires HasRun(v) && !FocusToggles(v)
    requires Shaped(cats, p.sel) && 0 <= p.nav.cur < |cats| && !p.stopped && !p.nav.focusOnCmdBar
    ensures Replay(v, cats, p, evs).stopped <==> Press(Rune('E')) in evs
  {
    LeavesAtLeavingKey(v, cats, p, evs);
    if Press(Rune('E')) in evs {
      var i :| 0 <= i < |evs| && evs[i] == Press(Rune('E'));
      assert !Replay(v, cats, p, evs[..i]).nav.focusOnCmdBar;
    }
  }

  /** Replaying one more event after a prefix that left the screen running is one more step. */
  lemma ReplayNext(v: Variant, cats: seq<Category>, p: Progress, evs: seq<Event>, i: nat)
    requires Shaped(cats, p.sel) && 0 <= p.nav.cur < |cats|
    requires i < |evs| && !Replay(v, cats, p, evs[..i]).stopped
    ensures Replay(v, cats, p, evs[..i + 1]) == Step(v, cats, Replay(v, cats, p, evs[..i]), evs[i])
  {
    assert evs[..i + 1][..i] == evs[..i];
  }

  /** What Deliver promises, read as one step of the replay. */
  lemma DeliveryIsStep(v: Variant, cats: seq<Category>, p: Progress, ev: Event, n: Nav, sel: seq<seq<bool>>, stopped: bool)
    requires Shaped(cats, p.sel) && 0 <= p.nav.cur < |cats| && !p.stopped
    requires ev.PressCopy? ==> n == p.nav && !stopped
    requires ev.Press? ==> n == NavStep(v, |cats|, p.nav, ev.key) && (stopped <==> Leaves(v, p.nav, ev.key))
    requires 0 <= n.cur < |cats|
    requires var t := ToggledItem(ev, n, |cats[n.cur]|);
      && (t.Some? ==> sel == Flip(p.sel, n.cur, t.value))
      && (t.None? ==> sel == p.sel)
    requires stopped ==> ToggledItem(ev, n, |cats[n.cur]|).None?
    ensures Progress(n, sel, stopped) == Step(v, cats, p, ev)
  {
  }

  /**
   * One running builder screen. `masks` are the `hostSel`, `scanSel`, ...
   * slices; `items` the main texts of the list items; `command` the plain
   * command (`lastCmdStr` where the source keeps one), `cmdView` the text of
   * the command view, `selected` the "Selected" text; `nav` the page cursor
   * and the Copy-button focus; `runAfter` and `finalCmd` what is handed on
   * when the screen is left.
   */
  class OptionScreen {
    const variant: Variant
    const catalog: seq<Category>
    const target: Option<string>
    const apiKeySet: bool
    const masks: seq<array<bool>>
    ghost var Sel: seq<seq<bool>>

    var items: seq<seq<string>>
    var command: string
    var cmdView: string
    var selected: string
    var detail: string
    var nav: Nav
    var runAfter: bool
    var finalCmd: string
    var stopped: bool

    /** The masks, the selection they hold and the item texts. */
    ghost predicate Shape()
      reads this`Sel, this`items, masks
    {
      && (variant == NmapX ==> target.Some?) && (variant != NmapX ==> target == None)
      && Shaped(catalog, Sel) && Holds(masks, Sel)
      && (forall c, d :: 0 <= c < d < |masks| ==> masks[c] != masks[d])
      && |items| == |catalog|
      && (forall c :: 0 <= c < |catalog| ==> |items[c]| == |catalog[c]|)
      && (forall c, i :: 0 <= c < |catalog| && 0 <= i < |catalog[c]| ==>
            items[c][i] == ItemText(i, catalog[c][i].name, Sel[c][i]))
    }

    /** The page cursor is in range; the hand-over fields are set only by leaving. */
    ghost predicate Control()
      reads this`nav, this`runAfter, this`finalCmd, this`stopped
    {
      && 0 <= nav.cur < |catalog|
      && (FocusToggles(variant) || !nav.focusOnCmdBar)
      && (runAfter ==> variant == NmapX)
      && (!stopped ==> !runAfter && finalCmd == "")
      && (variant != NmapX && variant != Tui ==> finalCmd == "")
    }

    /** Everything but the rendered texts. */
    ghost predicate Structured()
      reads this`Sel, this`items, this`nav, this`runAfter, this`finalCmd, this`stopped, masks
    {
      Shape() && Control()
    }

    /** The rendered texts agree with the selection. */
    ghost predicate Rendered()
      reads this`Sel, this`command, this`cmdView, this`selected
    {
      && command == CommandLine(catalog, Sel, target)
      && cmdView == Display(variant, command)
      && selected == Summary(Style(variant), catalog, Sel)
    }

    ghost predicate Valid()
      reads this, masks
    {
      Structured() && Rendered()
    }

    /**
     * Builds the masks (all off), the lists and the first rendering for the
     * option lists `cats` of variant `v` (its `Catalog(v)` at every call);
     * `args` are os.Args.
     */
    constructor (v: Variant, cats: seq<Category>, args: seq<string>, apiKey: bool)
      requires |cats| > 0
      ensures Valid()
      ensures forall c :: 0 <= c < |masks| ==> fresh(masks[c])
      ensures variant == v && catalog == cats && apiKeySet == apiKey && target == TargetArg(v, args)
      ensures Sel == AllOff(cats)
      ensures command == if v == NmapX then "nmap " + target.value else "nmap"
      ensures selected == ""
      ensures nav == Nav(0, false) && !stopped && detail == ""
    {
      var ms := NewMasks(cats);
      var its := BuildItems(cats);
      var cmd, view, text := Render(v, cats, ms, AllOff(cats), TargetArg(v, args));
      NothingSelected(cats, Style(v), TargetArg(v, args));
      variant := v;
      catalog := cats;
      target := TargetArg(v, args);
      apiKeySet := apiKey;
      masks := ms;
      Sel := AllOff(cats);
      items := its;
      nav := Nav(0, false);
      runAfter := false;
      finalCmd := "";
      stopped := false;
      detail := "";
      command, cmdView, selected := cmd, view, text;
    }

    /** The update closure: rebuild the command, the command view and the "Selected" text. */
    method Update()
      requires Shape()
      modifies this`command, this`cmdView, this`selected
      ensures Shape() && Rendered()
      ensures Sel == old(Sel) && items == old(items)
    {
      command, cmdView, selected := Render(variant, catalog, masks, Sel, target);
    }

    /** The list callback of item i on page c: flip its mask entry, relabel it, update. */
    method Toggle(c: nat, i: nat)
      requires Shape() && c < |catalog| && i < |catalog[c]|
      modifies this`Sel, this`items, this`command, this`cmdView, this`selected, masks[c]
      ensures Shape() && Rendered()
      ensures Sel == Flip(old(Sel), c, i)
      ensures items == old(items)[c := old(items)[c][i := ItemText(i, catalog[c][i].name, Sel[c][i])]]
    {
      masks[c][i] := !masks[c][i];
      Sel := Flip(Sel, c, i);
      items := items[c := items[c][i := ItemText(i, catalog[c][i].name, masks[c][i])]];
      Update();
    }

    /**
     * The input capture of a running screen: navigation, Tab, 'x' and 'E'
     * as the variant binds them.
     */
    method HandleKey(k: Key) returns (eff: Effect)
      requires Control() && !stopped
      modifies this`nav, this`detail, this`stopped, this`runAfter, this`finalCmd
      ensures Control()
      ensures eff == KeyEffect(variant, old(nav), k, apiKeySet, cmdView)
      ensures nav == NavStep(variant, |catalog|, old(nav), k)
      ensures eff.ShowDetail? ==> detail == eff.text
      ensures !eff.ShowDetail? && !eff.Explain? ==> detail == old(detail)
      ensures stopped == (eff.Stop? || eff.ExecWords?)
      ensures runAfter == (eff.Stop? && variant == NmapX)
      ensures finalCmd == if eff.Stop? && variant == NmapX then command
                          else if eff.Stop? && variant == Tui then cmdView
                          else ""
      ensures stopped <==> Leaves(variant, old(nav), k)
      ensures Sel == old(Sel) && items == old(items) && command == old(command)
      ensures cmdView == old(cmdView) && selected == old(selected)
    {
      eff := KeyEffect(variant, nav, k, apiKeySet, cmdView);
      KeyBindings(variant, nav, k, apiKeySet, cmdView);
      nav := NavStep(variant, |catalog|, nav, k);
      if eff.ShowDetail? {
        detail := eff.text;
      }
      if eff.Stop? || eff.ExecWords? {
        stopped := true;
        if eff.Stop? && variant == NmapX {
          runAfter := true;
          finalCmd := command;
        } else if eff.Stop? && variant == Tui {
          finalCmd := cmdView;
        }
      }
    }

    /**
     * One event: the capture first, then, unless it consumed the event, the
     * focused widget: a list toggles the item whose shortcut digit was
     * typed, the Copy button copies the plain command.
     */
    method Deliver(ev: Event) returns (eff: Effect)
      requires Valid() && !stopped
      modifies this, masks
      ensures Valid()
      ensures ev.PressCopy? ==> eff == (if old(nav).focusOnCmdBar then Copy(command) else Forward)
      ensures ev.Press? ==> eff == KeyEffect(variant, old(nav), ev.key, apiKeySet, old(cmdView))
      ensures ev.Press? ==> nav == NavStep(variant, |catalog|, old(nav), ev.key)
      ensures var t := ToggledItem(ev, nav, |catalog[nav.cur]|);
        && (t.Some? ==> Sel == Flip(old(Sel), nav.cur, t.value))
        && (t.None? ==> Sel == old(Sel) && command == old(command))
      ensures stopped == (eff.Stop? || eff.ExecWords?)
      ensures stopped ==> ev == Press(Rune('E')) && HasRun(variant)
      ensures ev.Press? ==> (stopped <==> Leaves(variant, old(nav), ev.key))
      ensures ev.PressCopy? ==> nav == old(nav) && !stopped
      ensures stopped && variant == NmapX ==> runAfter && finalCmd == command
      ensures stopped && variant == Tui ==> finalCmd == command
      ensures Progress(nav, Sel, stopped) == Step(variant, catalog, Progress(old(nav), old(Sel), false), ev)
    {
      ghost var before := Progress(nav, Sel, false);
      match ev {
        case PressCopy =>
          eff := if nav.focusOnCmdBar then Copy(command) else Forward;
        case Press(k) =>
          eff := HandleKey(k);
          assert stopped ==> ToggledItem(ev, nav, |catalog[nav.cur]|).None?;
          ListInput(ev);
      }
      DeliveryIsStep(variant, catalog, before, ev, nav, Sel, stopped);
    }

    /** The focused list's own handling of a forwarded key: a shortcut digit toggles its item. */
    method ListInput(ev: Event)
      requires Valid()
      modifies this`Sel, this`items, this`command, this`cmdView, this`selected, masks
      ensures Valid()
      ensures var t := ToggledItem(ev, nav, |catalog[nav.cur]|);
        && (t.Some? ==> Sel == Flip(old(Sel), nav.cur, t.value))
        && (t.None? ==> Sel == old(Sel) && command == old(command))
      ensures nav == old(nav) && detail == old(detail)
      ensures stopped == old(stopped) && runAfter == old(runAfter) && finalCmd == old(finalCmd)
    {
      var ix := ToggledItem(ev, nav, |catalog[nav.cur]|);
      if ix.Some? {
        Toggle(nav.cur, ix.value);
      }
    }

    /**
     * The application loop: events are delivered until one stops the
     * application. `events` are the keys the capture sees before tview's
     * built-in Ctrl-C stop; running out of events is that stop, which hands
     * on nothing. Returns the command handed on (ShowNmapTUI's result,
     * nmapX.go's finalCmd) and how many events were consumed.
     */
    method RunLoop(events: seq<Event>) returns (result: string, processed: nat)
      requires Valid() && !stopped
      modifies this, masks
      ensures Valid()
      ensures processed <= |events|
      ensures !stopped ==> processed == |events| && result == "" && !runAfter
      ensures Progress(nav, Sel, stopped) == Replay(variant, catalog, Progress(old(nav), old(Sel), false), events)
      ensures stopped ==> 0 < processed && events[processed - 1] == Press(Rune('E'))
      ensures stopped ==> !Replay(variant, catalog, Progress(old(nav), old(Sel), false), events[..processed - 1]).stopped
      ensures stopped ==> HasRun(variant)
      ensures result == finalCmd
      ensures runAfter <==> stopped && variant == NmapX
      ensures stopped && variant == NmapX ==> runAfter && result == command
      ensures stopped && variant == Tui ==> result == command
      ensures variant != NmapX && variant != Tui ==> result == ""
    {
      ghost var start := Progress(nav, Sel, false);
      processed := 0;
      while processed < |events|
        invariant Valid() && !stopped
        invariant processed <= |events|
        invariant Progress(nav, Sel, false) == Replay(variant, catalog, start, events[..processed])
      {
        ReplayNext(variant, catalog, start, events, processed);
        var eff := Deliver(events[processed]);
        processed := processed + 1;
        if stopped {
          ReplayAfterStop(variant, catalog, start, events, processed);
          result := finalCmd;
          return;
        }
      }
      assert events[..processed] == events;
      result := finalCmd;
    }
  }
}
