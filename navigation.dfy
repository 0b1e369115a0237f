// What one key press does to the builder screen: the page cursor and the
// command-bar focus (NavStep), and what the key asks of the outside world
// (KeyEffect). Both are pure; the Screen class is proved to follow them.
module Navigation {
  import opened Strings
  import opened Options

  /**
   * The keys the input capture distinguishes. Ctrl-C, which tview's own
   * loop turns into a stop after the capture has returned it, is not among
   * them: the events of a screen end at the first Ctrl-C.
   */
  datatype Key = Tab | Right | Left | Rune(r: char) | Other

  /** The navigation state: the index of the visible page and whether the Copy button has focus. */
  datatype Nav = Nav(cur: int, focusOnCmdBar: bool)

  /** What a key press asks for beyond the navigation state. */
  datatype Effect =
    | Forward                                // the event goes on to the focused widget
    | Consumed                               // the capture returned nil
    | ShowDetail(text: string)               // a message written to the details view
    | Explain(text: string)                  // the text sent off for an explanation
    | Stop                                   // app.Stop()
    | ExecWords(text: string)                // stop, then replace the process with the words of text
    | Copy(text: string)                     // the Copy button put this text on the clipboard

  /** Only nmapX-first.go and nmapX.go have a Copy button that Tab moves the focus to. */
  predicate FocusToggles(v: Variant) {
    v == NmapXFirst || v == NmapX
  }

  /** Every variant but pantallas.go binds 'x' to an explanation. */
  predicate HasExplain(v: Variant) {
    v != Pantallas
  }

  /** nmapX.go, tui.go and pantalla2.go bind 'E' to leaving the screen. */
  predicate HasRun(v: Variant) {
    v == NmapX || v == Tui || v == Pantalla2
  }

  /** The key leaves the screen: 'E' where it is bound, while the Copy button does not have focus. */
  predicate Leaves(v: Variant, n: Nav, k: Key) {
    k == Rune('E') && HasRun(v) && !n.focusOnCmdBar
  }

  /** The message shown when no OpenAI key is configured. */
  function MissingKeyMessage(v: Variant): string {
    if v == NmapXFirst then "Error: OPENAI_API_KEY not set" else "OPENAI_API_KEY not set"
  }

  /** The navigation state after one key, for a screen with `pages` pages. */
  function NavStep(v: Variant, pages: nat, n: Nav, k: Key): (r: Nav)
    ensures 0 <= n.cur < pages ==> 0 <= r.cur < pages
    ensures FocusToggles(v) || !n.focusOnCmdBar ==> FocusToggles(v) || !r.focusOnCmdBar
    ensures k != Tab ==> r.focusOnCmdBar == n.focusOnCmdBar
    ensures k != Right && k != Left ==> r.cur == n.cur
  {
    match k
    case Tab => if FocusToggles(v) then Nav(n.cur, !n.focusOnCmdBar) else n
    case Right => if !n.focusOnCmdBar && n.cur < pages - 1 then Nav(n.cur + 1, false) else n
    case Left => if !n.focusOnCmdBar && n.cur > 0 then Nav(n.cur - 1, false) else n
    case Rune(_) => n
    case Other => n
  }

  /**
   * What the key asks for, given the navigation state before it, whether an
   * OpenAI key is set and the text of the command view.
   */
  function KeyEffect(v: Variant, n: Nav, k: Key, apiKeySet: bool, shown: string): Effect
  {
    if k == Tab && FocusToggles(v) then Consumed
    else if k == Rune('x') && HasExplain(v) && !n.focusOnCmdBar then
      (if apiKeySet then Explain(shown) else ShowDetail(MissingKeyMessage(v)))
    else if Leaves(v, n, k) then
      (if v == Pantalla2 then ExecWords(shown) else Stop)
    else Forward
  }

  /** The list item a rune selects through its shortcut '1', '2', ...; None for other runes. */
  function Shortcut(r: char, count: nat): (ix: Option<nat>)
    ensures ix.Some? ==> ix.value < count && r as int == '1' as int + ix.value
    ensures '1' <= r <= '9' && (r as int - '1' as int) < count ==> ix.Some?
  {
    if '1' <= r <= '9' && (r as int - '1' as int) < count then Some(r as int - '1' as int) else None
  }

  /** The navigation state after a sequence of keys. */
  function NavRun(v: Variant, pages: nat, n: Nav, ks: seq<Key>): Nav
    decreases |ks|
  {
    if |ks| == 0 then n else NavRun(v, pages, NavStep(v, pages, n, ks[0]), ks[1..])
  }

  function Repeat(k: Key, count: nat): (ks: seq<Key>)
    ensures |ks| == count && forall j :: 0 <= j < count ==> ks[j] == k
  {
    if count == 0 then [] else [k] + Repeat(k, count - 1)
  }

  // ---------------------------------------------------------------------
  // Properties.

  /**
   * The bindings: Tab is consumed exactly where there is a Copy button; 'x'
   * explains (or reports the missing key) and 'E' leaves exactly in the
   * variants that bind them and never while the Copy button has focus;
   * leaving pantalla2.go hands the shown command to the exec step; no key
   * copies.
   */
  lemma KeyBindings(v: Variant, n: Nav, k: Key, apiKeySet: bool, shown: string)
    ensures var e := KeyEffect(v, n, k, apiKeySet, shown);
      && (e.Consumed? <==> k == Tab && FocusToggles(v))
      && ((e.ShowDetail? || e.Explain?) <==> k == Rune('x') && HasExplain(v) && !n.focusOnCmdBar)
      && (e.ShowDetail? ==> !apiKeySet && e.text == MissingKeyMessage(v))
      && (e.Explain? ==> apiKeySet && e.text == shown)
      && ((e.Stop? || e.ExecWords?) <==> Leaves(v, n, k))
      && (e.ExecWords? <==> k == Rune('E') && v == Pantalla2 && !n.focusOnCmdBar)
      && (e.ExecWords? ==> e.text == shown)
      && (e.Forward? <==> !e.Consumed? && !e.ShowDetail? && !e.Explain? && !e.Stop? && !e.ExecWords?)
      && !e.Copy?
  {
  }

  /** While the Copy button has focus, the arrows change nothing. */
  lemma ArrowsBlockedWhileFocused(v: Variant, pages: nat, n: Nav)
    requires n.focusOnCmdBar
    ensures NavStep(v, pages, n, Right) == n && NavStep(v, pages, n, Left) == n
  {
  }

  /** Tab never moves the page; twice it restores the focus. */
  lemma TabTwice(v: Variant, pages: nat, n: Nav)
    ensures NavStep(v, pages, n, Tab).cur == n.cur
    ensures NavStep(v, pages, NavStep(v, pages, n, Tab), Tab) == n
  {
  }

  /** Right then Left returns to the page one came from, unless Right was clamped. */
  lemma RightThenLeft(v: Variant, pages: nat, n: Nav)
    requires 0 <= n.cur < pages - 1 && !n.focusOnCmdBar
    ensures NavStep(v, pages, NavStep(v, pages, n, Right), Left) == n
  {
  }

  lemma LeftThenRight(v: Variant, pages: nat, n: Nav)
    requires 0 < n.cur < pages && !n.focusOnCmdBar
    ensures NavStep(v, pages, NavStep(v, pages, n, Left), Right) == n
  {
  }

  /** Pressing Right `count` times from page c lands on page min(c + count, pages - 1). */
  lemma {:induction false} RightsReach(v: Variant, pages: nat, c: int, count: nat)
    requires 0 <= c < pages
    ensures NavRun(v, pages, Nav(c, false), Repeat(Right, count)) == Nav(if c + count < pages then c + count else pages - 1, false)
    decreases count
  {
    if count > 0 {
      var ks := Repeat(Right, count);
      assert ks[0] == Right && ks[1..] == Repeat(Right, count - 1);
      var c' := if c < pages - 1 then c + 1 else c;
      assert NavStep(v, pages, Nav(c, false), Right) == Nav(c', false);
      RightsReach(v, pages, c', count - 1);
    }
  }

  /** Pressing Left `count` times from page c lands on page max(c - count, 0). */
  lemma {:induction false} LeftsReach(v: Variant, pages: nat, c: int, count: nat)
    requires 0 <= c < pages
    ensures NavRun(v, pages, Nav(c, false), Repeat(Left, count)) == Nav(if c - count > 0 then c - count else 0, false)
    decreases count
  {
    if count > 0 {
      var ks := Repeat(Left, count);
      assert ks[0] == Left && ks[1..] == Repeat(Left, count - 1);
      var c' := if c > 0 then c - 1 else c;
      assert NavStep(v, pages, Nav(c, false), Left) == Nav(c', false);
      LeftsReach(v, pages, c', count - 1);
    }
  }

  /** Any key sequence keeps the page index in range, and the focus off where there is no Copy button. */
  lemma {:induction false} NavRunInRange(v: Variant, pages: nat, n: Nav, ks: seq<Key>)
    requires 0 <= n.cur < pages && (FocusToggles(v) || !n.focusOnCmdBar)
    ensures 0 <= NavRun(v, pages, n, ks).cur < pages
    ensures FocusToggles(v) || !NavRun(v, pages, n, ks).focusOnCmdBar
    decreases |ks|
  {
    if |ks| > 0 {
      NavRunInRange(v, pages, NavStep(v, pages, n, ks[0]), ks[1..]);
    }
  }

  /** pantallas.go binds nothing but the arrows: every key goes on to the list. */
  lemma PantallasForwardsEverything(n: Nav, k: Key, apiKeySet: bool, shown: string)
    ensures KeyEffect(Pantallas, n, k, apiKeySet, shown) == Forward
  {
  }
}
