// Host extraction from the grepable ping-sweep output (scanner.go and
// scanner_linux.go share the rule): a line counts when it ends in "Up" and
// has a second field, which is the host written to hosts.txt.
module Discovery {
  import opened Strings
  import opened Options

  // ---------------------------------------------------------------------
  // bufio.Scanner with ScanLines.

  /** A line loses one trailing carriage return. */
  function DropCR(line: string): (r: string)
    ensures r == line || (line == r + "\r")
  {
    if |line| > 0 && line[|line| - 1] == '\r' then line[..|line| - 1] else line
  }

  /**
   * The lines bufio.ScanLines yields: the pieces between newlines, each
   * without a final '\r', and no empty last piece after a final newline.
   */
  function ScanLines(data: string): (ls: seq<string>)
    ensures forall k :: 0 <= k < |ls| ==> '\n' !in ls[k]
  {
    var pieces := Split(data, '\n');
    SplitPiecesHaveNoSeparator(data, '\n');
    var kept := if pieces[|pieces| - 1] == "" then pieces[..|pieces| - 1] else pieces;
    seq(|kept|, k requires 0 <= k < |kept| => DropCR(kept[k]))
  }

  // ---------------------------------------------------------------------
  // The extraction rule.

  /** The host a line contributes: its second field, when it ends in "Up" and has two fields. */
  function HostOf(line: string): (h: Option<string>)
    ensures h.Some? <==> HasSuffix(line, "Up") && |Fields(line)| >= 2
    ensures h.Some? ==> IsWord(h.value)
  {
    if HasSuffix(line, "Up") then
      var parts := Fields(line);
      if |parts| >= 2 then Some(parts[1]) else None
    else None
  }

  function HostsOfOne(line: string): seq<string> {
    match HostOf(line)
    case Some(h) => [h]
    case None => []
  }

  /** The hosts of the lines, in line order. */
  function Hosts(lines: seq<string>): seq<string> {
    if |lines| == 0 then []
    else Hosts(lines[..|lines| - 1]) + HostsOfOne(lines[|lines| - 1])
  }

  /** What `WriteString(h + "\n")` for every host leaves in the file. */
  function LinesText(hs: seq<string>): string {
    if |hs| == 0 then "" else hs[0] + "\n" + LinesText(hs[1..])
  }

  // ---------------------------------------------------------------------
  // The scanning loop.

  /** The loop over the scanned lines: every counting line writes its host and a newline. */
  method ExtractHosts(lines: seq<string>) returns (written: string)
    ensures written == LinesText(Hosts(lines))
  {
    written := "";
    var i := 0;
    while i < |lines|
      invariant 0 <= i <= |lines|
      invariant written == LinesText(Hosts(lines[..i]))
    {
      var line := lines[i];
      assert lines[..i + 1][..i] == lines[..i] && lines[..i + 1][i] == line;
      assert Hosts(lines[..i + 1]) == Hosts(lines[..i]) + HostsOfOne(line);
      if HasSuffix(line, "Up") {
        var parts := Fields(line);
        if |parts| >= 2 {
          assert HostsOfOne(line) == [parts[1]];
          LinesTextSnoc(Hosts(lines[..i]), parts[1]);
          written := written + parts[1] + "\n";
        } else {
          assert HostsOfOne(line) == [];
          assert Hosts(lines[..i]) + [] == Hosts(lines[..i]);
        }
      } else {
        assert HostsOfOne(line) == [];
        assert Hosts(lines[..i]) + [] == Hosts(lines[..i]);
      }
      i := i + 1;
    }
    assert lines[..i] == lines;
  }

  // ---------------------------------------------------------------------
  // Properties.

  lemma {:induction false} SplitPiecesHaveNoSeparator(s: string, c: char)
    ensures forall k :: 0 <= k < |Split(s, c)| ==> c !in Split(s, c)[k]
  {
    if |s| > 0 {
      SplitPiecesHaveNoSeparator(s[1..], c);
    }
  }

  lemma {:induction false} LinesTextSnoc(hs: seq<string>, h: string)
    ensures LinesText(hs + [h]) == LinesText(hs) + h + "\n"
  {
    if |hs| > 0 {
      assert (hs + [h])[1..] == hs[1..] + [h];
      LinesTextSnoc(hs[1..], h);
    }
  }

  /** Hosts of concatenated inputs: the hosts of each part, in order; lines do not interact. */
  lemma {:induction false} HostsAppend(a: seq<string>, b: seq<string>)
    ensures Hosts(a + b) == Hosts(a) + Hosts(b)
  {
    if |b| > 0 {
      var init := b[..|b| - 1];
      assert (a + b)[..|a + b| - 1] == a + init && (a + b)[|a + b| - 1] == b[|b| - 1];
      HostsAppend(a, init);
      assert Hosts(a + b) == Hosts(a + init) + HostsOfOne(b[|b| - 1]);
      assert Hosts(b) == Hosts(init) + HostsOfOne(b[|b| - 1]);
    } else {
      assert a + b == a;
    }
  }

  /** h is extracted exactly when some line contributes it. */
  lemma {:induction false} HostsExactly(lines: seq<string>, h: string)
    ensures h in Hosts(lines) <==> exists k :: 0 <= k < |lines| && HostOf(lines[k]) == Some(h)
  {
    if |lines| > 0 {
      var n := |lines| - 1;
      HostsExactly(lines[..n], h);
      if exists k :: 0 <= k < n && HostOf(lines[..n][k]) == Some(h) {
        var k :| 0 <= k < n && HostOf(lines[..n][k]) == Some(h);
        assert lines[k] == lines[..n][k];
      }
      if exists k :: 0 <= k < |lines| && HostOf(lines[k]) == Some(h) {
        var k :| 0 <= k < |lines| && HostOf(lines[k]) == Some(h);
        if k < n {
          assert lines[..n][k] == lines[k];
        }
      }
    }
  }

  /** Every extracted host is a word: no white space, not empty. */
  lemma {:induction false} HostsAreWords(lines: seq<string>)
    ensures forall k :: 0 <= k < |Hosts(lines)| ==> IsWord(Hosts(lines)[k])
  {
    if |lines| > 0 {
      HostsAreWords(lines[..|lines| - 1]);
    }
  }

  /** A line not ending in "Up" never contributes, whatever else it holds. */
  lemma DownLinesDropped(line: string)
    requires !HasSuffix(line, "Up")
    ensures Hosts([line]) == []
  {
    assert [line][..0] == [];
  }

  lemma {:induction false} SplitLinesText(hs: seq<string>)
    requires forall k :: 0 <= k < |hs| ==> '\n' !in hs[k]
    ensures Split(LinesText(hs), '\n') == hs + [""]
  {
    if |hs| > 0 {
      SplitLinesText(hs[1..]);
      assert LinesText(hs) == hs[0] + ['\n'] + LinesText(hs[1..]);
      SplitAtSeparator(hs[0], '\n', LinesText(hs[1..]));
      forall k | 0 <= k < |hs[0]| ensures hs[0][k] != '\n' {
        assert hs[0][k] in hs[0];
      }
      SplitWithoutSeparator(hs[0], '\n');
    }
  }

  /** Reading hosts.txt back line by line gives the hosts that were written, in order. */
  lemma HostsFileRoundTrip(lines: seq<string>)
    ensures ScanLines(LinesText(Hosts(lines))) == Hosts(lines)
  {
    var hs := Hosts(lines);
    HostsAreWords(lines);
    forall k | 0 <= k < |hs| ensures '\n' !in hs[k] && DropCR(hs[k]) == hs[k] {
      if |hs[k]| > 0 {
        assert !IsSpace(hs[k][|hs[k]| - 1]);
      }
    }
    SplitLinesText(hs);
    assert (hs + [""])[..|hs|] == hs;
  }
}
