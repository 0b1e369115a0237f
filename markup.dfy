// stylePortsOutput of report.go: the port-scan text is HTML-escaped, then
// five regular-expression replacements wrap protocol ports, service names
// and port states in <span class="..."> tags, each pass running over the
// previous pass's output.
//
// The passes are modelled as the left-to-right scans Go's ReplaceAllString
// performs. The pieces view (Text / Span) shows what the output means:
// escaped text, some of it wrapped once in a tag.
module Markup {
  import opened Strings

  /** `\w` of Go's regexp syntax, which `\b` is defined by: ASCII letters, digits and '_'. */
  predicate WordChar(c: char) {
    ('a' <= c <= 'z') || ('A' <= c <= 'Z') || ('0' <= c <= '9') || c == '_'
  }

  predicate AsciiDigit(c: char) {
    '0' <= c <= '9'
  }

  // ---------------------------------------------------------------------
  // html.EscapeString and its inverse.

  function EscapeChar(c: char): string {
    if c == '&' then "&amp;"
    else if c == '\'' then "&#39;"
    else if c == '<' then "&lt;"
    else if c == '>' then "&gt;"
    else if c == '"' then "&#34;"
    else [c]
  }

  function Escape(s: string): string {
    if |s| == 0 then "" else EscapeChar(s[0]) + Escape(s[1..])
  }

  /** The inverse of Escape: the five entities back to their characters. */
  function Unescape(s: string): string
    decreases |s|
  {
    if |s| == 0 then ""
    else if s[0] != '&' then [s[0]] + Unescape(s[1..])
    else if HasPrefix(s, "&amp;") then "&" + Unescape(s[5..])
    else if HasPrefix(s, "&#39;") then "'" + Unescape(s[5..])
    else if HasPrefix(s, "&lt;") then "<" + Unescape(s[4..])
    else if HasPrefix(s, "&gt;") then ">" + Unescape(s[4..])
    else if HasPrefix(s, "&#34;") then "\"" + Unescape(s[5..])
    else "&" + Unescape(s[1..])
  }

  /** No character that could open or close a tag or an attribute value. */
  predicate Unmarked(s: string) {
    forall k :: 0 <= k < |s| ==> s[k] != '<' && s[k] != '>' && s[k] != '"' && s[k] != '\''
  }

  // ---------------------------------------------------------------------
  // The replacement passes.

  /** Length of the run of `\w` characters at the front of s. */
  function WordLen(s: string): (n: nat)
    ensures n <= |s|
    ensures n < |s| ==> !WordChar(s[n])
    ensures n > 0 <==> |s| > 0 && WordChar(s[0])
  {
    if |s| == 0 || !WordChar(s[0]) then 0 else 1 + WordLen(s[1..])
  }

  /** Length of the run of ASCII digits at the front of s. */
  function DigitLen(s: string): (n: nat)
    ensures n <= |s|
    ensures n < |s| ==> !AsciiDigit(s[n])
    ensures n > 0 <==> |s| > 0 && AsciiDigit(s[0])
  {
    if |s| == 0 || !AsciiDigit(s[0]) then 0 else 1 + DigitLen(s[1..])
  }

  /**
   * Length of the match of `(\d+)/(tcp|udp)` that starts at the front of s,
   * 0 when none does. The greedy `\d+` takes the whole digit run; a shorter
   * one would leave a digit where '/' must be.
   */
  function ProtoLen(s: string): (m: nat)
    ensures m <= |s|
    ensures m > 0 ==> m > 4 && AsciiDigit(s[0]) && s[m - 4..m] in {"/tcp", "/udp"}
  {
    var n := DigitLen(s);
    if n > 0 && (HasPrefix(s[n..], "/tcp") || HasPrefix(s[n..], "/udp")) then
      assert s[n..n + 4] == s[n..][..4];
      n + 4
    else 0
  }

  function Tag(cls: string, body: string): string {
    "<span class=\"" + cls + "\">" + body + "</span>"
  }

  /**
   * ReplaceAllString with `(\d+)/(tcp|udp)` and `<span class="proto">$0</span>`:
   * from each position, the leftmost match is wrapped and the scan goes on
   * after it.
   */
  function ProtoPass(s: string): string
    decreases |s|
  {
    if |s| == 0 then ""
    else
      var m := ProtoLen(s);
      if m > 0 then Tag("proto", s[..m]) + ProtoPass(s[m..])
      else [s[0]] + ProtoPass(s[1..])
  }

  /**
   * ReplaceAllString with `\b(k1|k2|...)\b` and a span of class cls around
   * the match. Every keyword is made of `\w` characters, so a match is
   * exactly a maximal run of `\w` characters that equals a keyword
   * (WordPassMatchesAreRuns).
   */
  function WordPass(ks: seq<string>, cls: string, s: string): string
    decreases |s|
  {
    if |s| == 0 then ""
    else if WordChar(s[0]) then
      var n := WordLen(s);
      (if s[..n] in ks then Tag(cls, s[..n]) else s[..n]) + WordPass(ks, cls, s[n..])
    else [s[0]] + WordPass(ks, cls, s[1..])
  }

  const Services: seq<string> := ["ssh", "http", "domain", "nginx", "dnsmasq"]

  /** stylePortsOutput: escape, protocols, services, then open, closed and filtered. */
  function StylePorts(data: string): string {
    var escaped := Escape(data);
    var p := ProtoPass(escaped);
    var v := WordPass(Services, "svc", p);
    var o := WordPass(["open"], "open", v);
    var c := WordPass(["closed"], "closed", o);
    WordPass(["filtered"], "filtered", c)
  }

  // ---------------------------------------------------------------------
  // The pieces view.

  /** A run of escaped text, or one span the passes inserted. */
  datatype Piece = Text(t: string) | Span(cls: string, body: string)

  function RenderPiece(p: Piece): string {
    match p
    case Text(t) => t
    case Span(c, b) => Tag(c, b)
  }

  function Render(ps: seq<Piece>): string {
    if |ps| == 0 then "" else RenderPiece(ps[0]) + Render(ps[1..])
  }

  function PlainPiece(p: Piece): string {
    match p
    case Text(t) => t
    case Span(_, b) => b
  }

  /** The text with the tags taken out. */
  function Plain(ps: seq<Piece>): string {
    if |ps| == 0 then "" else PlainPiece(ps[0]) + Plain(ps[1..])
  }

  /** No empty text and no two texts side by side, so every text borders on a tag. */
  predicate Alternating(ps: seq<Piece>) {
    |ps| == 0 ||
    ((ps[0].Text? ==> |ps[0].t| > 0)
     && (|ps| > 1 ==> !(ps[0].Text? && ps[1].Text?))
     && Alternating(ps[1..]))
  }

  /** Put a piece in front, merging two texts. */
  function Cons(p: Piece, ps: seq<Piece>): seq<Piece> {
    if p.Text? && |p.t| == 0 then ps
    else if p.Text? && |ps| > 0 && ps[0].Text? then [Text(p.t + ps[0].t)] + ps[1..]
    else [p] + ps
  }

  /** The pieces of the protocol pass over unmarked text. */
  function ProtoPieces(s: string): seq<Piece>
    decreases |s|
  {
    if |s| == 0 then []
    else
      var m := ProtoLen(s);
      if m > 0 then [Span("proto", s[..m])] + ProtoPieces(s[m..])
      else Cons(Text([s[0]]), ProtoPieces(s[1..]))
  }

  /** The pieces of a keyword pass over one text. */
  function WordPieces(ks: seq<string>, cls: string, s: string): seq<Piece>
    decreases |s|
  {
    if |s| == 0 then []
    else if WordChar(s[0]) then
      var n := WordLen(s);
      if s[..n] in ks then [Span(cls, s[..n])] + WordPieces(ks, cls, s[n..])
      else Cons(Text(s[..n]), WordPieces(ks, cls, s[n..]))
    else Cons(Text([s[0]]), WordPieces(ks, cls, s[1..]))
  }

  /** A keyword pass over pieces: texts are scanned, spans left alone. */
  function PassPieces(ks: seq<string>, cls: string, ps: seq<Piece>): seq<Piece> {
    if |ps| == 0 then []
    else
      (match ps[0] case Text(t) => WordPieces(ks, cls, t) case Span(_, _) => [ps[0]])
      + PassPieces(ks, cls, ps[1..])
  }

  function StylePieces(data: string): seq<Piece> {
    var p := ProtoPieces(Escape(data));
    var v := PassPieces(Services, "svc", p);
    var o := PassPieces(["open"], "open", v);
    var c := PassPieces(["closed"], "closed", o);
    PassPieces(["filtered"], "filtered", c)
  }

  /** What each inserted span may hold: a protocol port, a service, or the state named by its class. */
  predicate KnownSpan(p: Piece) {
    p.Span? &&
    ((p.cls == "proto" && |p.body| > 0 && ProtoLen(p.body) == |p.body|)
     || (p.cls == "svc" && p.body in Services)
     || (p.cls in {"open", "closed", "filtered"} && p.body == p.cls))
  }

  predicate SpansKnown(ps: seq<Piece>) {
    forall k :: 0 <= k < |ps| && ps[k].Span? ==> KnownSpan(ps[k])
  }

  /** Every span in ps has one of the classes cs. */
  predicate ClassesIn(ps: seq<Piece>, cs: set<string>) {
    forall k :: 0 <= k < |ps| && ps[k].Span? ==> ps[k].cls in cs
  }

  /** A non-empty run of `\w` characters. */
  predicate IsToken(w: string) {
    |w| > 0 && forall k :: 0 <= k < |w| ==> WordChar(w[k])
  }

  /** No `\w` run crosses from a into b. */
  predicate Junction(a: string, b: string) {
    |a| == 0 || |b| == 0 || !WordChar(a[|a| - 1]) || !WordChar(b[0])
  }

  /**
   * Keywords a later pass may look for: tokens starting with a lower-case
   * letter, none of them a word of the span markup or of an earlier span.
   */
  predicate FreshKeywords(ks: seq<string>, cs: set<string>) {
    && (forall k :: 0 <= k < |ks| ==> IsToken(ks[k]) && 'a' <= ks[k][0] <= 'z')
    && "span" !in ks && "class" !in ks && "tcp" !in ks && "udp" !in ks
    && (forall c :: c in cs ==> c !in ks)
    && ("svc" in cs ==> forall k :: 0 <= k < |Services| ==> Services[k] !in ks)
  }

  // ---------------------------------------------------------------------
  // Escaping.

  /** Unescape reads one escaped character back and continues after it. */
  lemma UnescapeChar(c: char, rest: string)
    ensures Unescape(EscapeChar(c) + rest) == [c] + Unescape(rest)
  {
    var e := EscapeChar(c);
    var s := e + rest;
    if c == '&' {
      assert HasPrefix(s, "&amp;") by { assert s[..5] == "&amp;"; }
      assert s[5..] == rest;
    } else if c == '\'' {
      assert !HasPrefix(s, "&amp;") by { assert s[1] == '#'; }
      assert HasPrefix(s, "&#39;") by { assert s[..5] == "&#39;"; }
      assert s[5..] == rest;
    } else if c == '<' {
      assert !HasPrefix(s, "&amp;") && !HasPrefix(s, "&#39;") by { assert s[1] == 'l'; }
      assert HasPrefix(s, "&lt;") by { assert s[..4] == "&lt;"; }
      assert s[4..] == rest;
    } else if c == '>' {
      assert !HasPrefix(s, "&amp;") && !HasPrefix(s, "&#39;") && !HasPrefix(s, "&lt;") by { assert s[1] == 'g'; }
      assert HasPrefix(s, "&gt;") by { assert s[..4] == "&gt;"; }
      assert s[4..] == rest;
    } else if c == '"' {
      assert !HasPrefix(s, "&amp;") && !HasPrefix(s, "&lt;") && !HasPrefix(s, "&gt;") by { assert s[1] == '#'; }
      assert !HasPrefix(s, "&#39;") by { assert s[2] == '3' && s[3] == '4'; }
      assert HasPrefix(s, "&#34;") by { assert s[..5] == "&#34;"; }
      assert s[5..] == rest;
    } else {
      assert s[0] == c && s[1..] == rest;
    }
  }

  lemma {:induction false} UnescapeOfEscape(s: string)
    ensures Unescape(Escape(s)) == s
  {
    if |s| > 0 {
      UnescapeOfEscape(s[1..]);
      UnescapeChar(s[0], Escape(s[1..]));
    }
  }

  /** Escaped text has no '<', '>', '"' or '\''. */
  lemma {:induction false} EscapeUnmarked(s: string)
    ensures Unmarked(Escape(s))
  {
    if |s| > 0 {
      EscapeUnmarked(s[1..]);
      var e, rest := EscapeChar(s[0]), Escape(s[1..]);
      forall k | 0 <= k < |e + rest|
        ensures (e + rest)[k] != '<' && (e + rest)[k] != '>' && (e + rest)[k] != '"' && (e + rest)[k] != '\''
      {
        if k >= |e| {
          assert (e + rest)[k] == rest[k - |e|];
        }
      }
    }
  }

  // ---------------------------------------------------------------------
  // Pieces: rendering, plain text, alternation.

  lemma {:induction false} RenderAppend(a: seq<Piece>, b: seq<Piece>)
    ensures Render(a + b) == Render(a) + Render(b)
    ensures Plain(a + b) == Plain(a) + Plain(b)
  {
    if |a| == 0 {
      assert a + b == b;
      assert Render(a) + Render(b) == Render(b) && Plain(a) + Plain(b) == Plain(b);
    } else {
      assert (a + b)[0] == a[0] && (a + b)[1..] == a[1..] + b;
      RenderAppend(a[1..], b);
      assert Render(a + b) == RenderPiece(a[0]) + (Render(a[1..]) + Render(b));
      assert Plain(a + b) == PlainPiece(a[0]) + (Plain(a[1..]) + Plain(b));
      Regroup(RenderPiece(a[0]), Render(a[1..]), Render(b));
      Regroup(PlainPiece(a[0]), Plain(a[1..]), Plain(b));
    }
  }

  lemma RenderFront(p: Piece, ps: seq<Piece>)
    ensures Render([p] + ps) == RenderPiece(p) + Render(ps)
    ensures Plain([p] + ps) == PlainPiece(p) + Plain(ps)
  {
    assert ([p] + ps)[1..] == ps;
  }

  /** A piece holding the front of s, before pieces holding the rest, holds s. */
  lemma PlainJoin(p: Piece, ps: seq<Piece>, s: string, m: nat)
    requires m <= |s| && PlainPiece(p) == s[..m] && Plain(ps) == s[m..]
    ensures Plain([p] + ps) == s
  {
    RenderFront(p, ps);
    assert s[..m] + s[m..] == s;
  }

  lemma ConsRender(p: Piece, ps: seq<Piece>)
    requires p.Text?
    ensures Render(Cons(p, ps)) == p.t + Render(ps)
    ensures Plain(Cons(p, ps)) == p.t + Plain(ps)
  {
    if |p.t| == 0 {
      assert p.t + Render(ps) == Render(ps) && p.t + Plain(ps) == Plain(ps);
    } else if |ps| > 0 && ps[0].Text? {
      var q := [Text(p.t + ps[0].t)] + ps[1..];
      assert q[1..] == ps[1..];
      assert Render(q) == (p.t + ps[0].t) + Render(ps[1..]);
      assert Plain(q) == (p.t + ps[0].t) + Plain(ps[1..]);
      Regroup(p.t, ps[0].t, Render(ps[1..]));
      Regroup(p.t, ps[0].t, Plain(ps[1..]));
    } else {
      assert ([p] + ps)[1..] == ps;
    }
  }

  lemma ConsAlternating(p: Piece, ps: seq<Piece>)
    requires p.Text? && Alternating(ps)
    ensures Alternating(Cons(p, ps))
  {
    if |p.t| > 0 && |ps| > 0 && ps[0].Text? {
      var q := [Text(p.t + ps[0].t)] + ps[1..];
      assert q[1..] == ps[1..];
    }
  }

  /** Putting a text in front adds no span. */
  lemma ConsSpans(p: Piece, ps: seq<Piece>, cs: set<string>)
    requires p.Text? && SpansKnown(ps) && ClassesIn(ps, cs)
    ensures SpansKnown(Cons(p, ps)) && ClassesIn(Cons(p, ps), cs)
  {
    var q := Cons(p, ps);
    forall k | 0 <= k < |q| && q[k].Span? ensures q[k] in ps {
      if |p.t| > 0 && |ps| > 0 && ps[0].Text? {
        assert q[k] == ps[k];
      } else if |p.t| > 0 {
        assert q[k] == ps[k - 1];
      }
    }
  }

  /** Putting a known span in front. */
  lemma SpanFront(p: Piece, ps: seq<Piece>, cs: set<string>)
    requires KnownSpan(p) && p.cls in cs && SpansKnown(ps) && ClassesIn(ps, cs)
    ensures SpansKnown([p] + ps) && ClassesIn([p] + ps, cs)
  {
    var q := [p] + ps;
    assert forall k :: 1 <= k < |q| ==> q[k] == ps[k - 1];
  }

  lemma {:induction false} AlternatingAppend(a: seq<Piece>, b: seq<Piece>)
    requires Alternating(a) && Alternating(b)
    requires |a| > 0 && |b| > 0 ==> !(a[|a| - 1].Text? && b[0].Text?)
    ensures Alternating(a + b)
  {
    if |a| == 0 {
      assert a + b == b;
    } else {
      assert (a + b)[0] == a[0] && (a + b)[1..] == a[1..] + b;
      AlternatingAppend(a[1..], b);
      if |a| == 1 {
        assert a[1..] + b == b;
      } else {
        assert (a + b)[1] == a[1];
      }
    }
  }

  // ---------------------------------------------------------------------
  // The protocol pass over escaped text.

  lemma {:induction false} WordLenRun(s: string)
    ensures forall k :: 0 <= k < WordLen(s) ==> WordChar(s[k])
  {
    if |s| > 0 && WordChar(s[0]) {
      WordLenRun(s[1..]);
    }
  }

  lemma {:induction false} DigitLenRun(s: string)
    ensures forall k :: 0 <= k < DigitLen(s) ==> AsciiDigit(s[k])
  {
    if |s| > 0 && AsciiDigit(s[0]) {
      DigitLenRun(s[1..]);
    }
  }

  lemma {:induction false} DigitLenPrefix(s: string, j: nat)
    requires DigitLen(s) < j <= |s|
    ensures DigitLen(s[..j]) == DigitLen(s)
  {
    if AsciiDigit(s[0]) {
      assert s[..j][1..] == s[1..][..j - 1];
      DigitLenPrefix(s[1..], j - 1);
    }
  }

  /** The matched text is itself one whole match. */
  lemma ProtoLenOfMatch(s: string)
    requires ProtoLen(s) > 0
    ensures ProtoLen(s[..ProtoLen(s)]) == ProtoLen(s)
  {
    var m := ProtoLen(s);
    var n := DigitLen(s);
    DigitLenPrefix(s, m);
    assert s[..m][n..] == s[n..m] && s[n..][..4] == s[n..m];
  }

  /** The protocol pass is the rendering of its pieces. */
  lemma {:induction false} ProtoPiecesRender(s: string)
    ensures Render(ProtoPieces(s)) == ProtoPass(s)
    decreases |s|
  {
    if |s| > 0 {
      var m := ProtoLen(s);
      if m > 0 {
        ProtoPiecesRender(s[m..]);
        RenderFront(Span("proto", s[..m]), ProtoPieces(s[m..]));
      } else {
        ProtoPiecesRender(s[1..]);
        ConsRender(Text([s[0]]), ProtoPieces(s[1..]));
      }
    }
  }

  /** The protocol pass keeps the text: its pieces without the tags are the input. */
  lemma {:induction false} ProtoPiecesPlain(s: string)
    ensures Plain(ProtoPieces(s)) == s
    decreases |s|
  {
    if |s| > 0 {
      var m := ProtoLen(s);
      if m > 0 {
        ProtoPiecesPlain(s[m..]);
        PlainJoin(Span("proto", s[..m]), ProtoPieces(s[m..]), s, m);
      } else {
        ProtoPiecesPlain(s[1..]);
        PlainJoin(Text([s[0]]), ProtoPieces(s[1..]), s, 1);
        ConsRender(Text([s[0]]), ProtoPieces(s[1..]));
      }
    }
  }

  /** Every span of the protocol pass holds exactly one protocol port. */
  lemma {:induction false} ProtoPiecesShape(s: string)
    ensures Alternating(ProtoPieces(s))
    ensures SpansKnown(ProtoPieces(s)) && ClassesIn(ProtoPieces(s), {"proto"})
    decreases |s|
  {
    if |s| > 0 {
      var m := ProtoLen(s);
      if m > 0 {
        ProtoPiecesShape(s[m..]);
        ProtoLenOfMatch(s);
        var p := Span("proto", s[..m]);
        var rest := ProtoPieces(s[m..]);
        assert ([p] + rest)[1..] == rest;
        SpanFront(p, rest, {"proto"});
      } else {
        ProtoPiecesShape(s[1..]);
        var p, rest := Text([s[0]]), ProtoPieces(s[1..]);
        ConsAlternating(p, rest);
        ConsSpans(p, rest, {"proto"});
      }
    }
  }

  // ---------------------------------------------------------------------
  // The keyword passes.

  lemma {:induction false} WordLenAppend(a: string, b: string)
    requires WordLen(a) < |a| || |b| == 0 || !WordChar(b[0])
    ensures WordLen(a + b) == WordLen(a)
  {
    if |a| == 0 {
      assert a + b == b;
    } else if WordChar(a[0]) {
      assert (a + b)[0] == a[0] && (a + b)[1..] == a[1..] + b;
      WordLenAppend(a[1..], b);
    } else {
      assert (a + b)[0] == a[0];
    }
  }

  /** A keyword pass over a + b is the pass over each, when no `\w` run crosses the junction. */
  lemma {:induction false} WordPassAppend(ks: seq<string>, cls: string, a: string, b: string)
    requires Junction(a, b)
    ensures WordPass(ks, cls, a + b) == WordPass(ks, cls, a) + WordPass(ks, cls, b)
    decreases |a|, 1
  {
    if |a| == 0 {
      assert a + b == b;
    } else if WordChar(a[0]) {
      WordPassAppendRun(ks, cls, a, b);
    } else {
      WordPassAppendChar(ks, cls, a, b);
    }
  }

  lemma {:induction false} WordPassAppendRun(ks: seq<string>, cls: string, a: string, b: string)
    requires Junction(a, b) && |a| > 0 && WordChar(a[0])
    ensures WordPass(ks, cls, a + b) == WordPass(ks, cls, a) + WordPass(ks, cls, b)
    decreases |a|, 0
  {
    var n := WordLen(a);
    assert WordLen(a + b) == n && Junction(a[n..], b) by {
      if n == |a| {
        WordLenRun(a);
        assert WordChar(a[|a| - 1]);
      }
      WordLenAppend(a, b);
    }
    WordPassRunStep(ks, cls, a, b);
    WordPassAppend(ks, cls, a[n..], b);
    Regroup(if a[..n] in ks then Tag(cls, a[..n]) else a[..n], WordPass(ks, cls, a[n..]), WordPass(ks, cls, b));
  }

  /** A pass over a + b where a starts with a `\w` run that ends inside a: both passes wrap the same run first. */
  lemma WordPassRunStep(ks: seq<string>, cls: string, a: string, b: string)
    requires |a| > 0 && WordChar(a[0]) && WordLen(a + b) == WordLen(a)
    ensures var n := WordLen(a);
      var h := if a[..n] in ks then Tag(cls, a[..n]) else a[..n];
      && WordPass(ks, cls, a) == h + WordPass(ks, cls, a[n..])
      && WordPass(ks, cls, a + b) == h + WordPass(ks, cls, a[n..] + b)
  {
    var n := WordLen(a);
    assert (a + b)[0] == a[0] && (a + b)[..n] == a[..n] && (a + b)[n..] == a[n..] + b;
  }

  lemma {:induction false} WordPassAppendChar(ks: seq<string>, cls: string, a: string, b: string)
    requires Junction(a, b) && |a| > 0 && !WordChar(a[0])
    ensures WordPass(ks, cls, a + b) == WordPass(ks, cls, a) + WordPass(ks, cls, b)
    decreases |a|, 0
  {
    var rest := a[1..];
    assert (a + b)[0] == a[0] && (a + b)[1..] == rest + b;
    assert Junction(rest, b);
    WordPassAppend(ks, cls, rest, b);
    assert WordPass(ks, cls, a) == [a[0]] + WordPass(ks, cls, rest);
    assert WordPass(ks, cls, a + b) == [a[0]] + WordPass(ks, cls, rest + b);
    Regroup([a[0]], WordPass(ks, cls, rest), WordPass(ks, cls, b));
  }

  lemma {:induction false} WordPassNonWord(ks: seq<string>, cls: string, s: string)
    requires forall k :: 0 <= k < |s| ==> !WordChar(s[k])
    ensures WordPass(ks, cls, s) == s
  {
    if |s| > 0 {
      WordPassNonWord(ks, cls, s[1..]);
      assert [s[0]] + s[1..] == s;
    }
  }

  lemma WordPassToken(ks: seq<string>, cls: string, w: string)
    requires IsToken(w)
    ensures WordPass(ks, cls, w) == if w in ks then Tag(cls, w) else w
  {
    assert WordLen(w) == |w|;
    assert w[..|w|] == w && w[|w|..] == "";
  }

  /** A tag in the pieces a keyword pass sees: punctuation, the words span and class, the class, the body. */
  lemma TagPieces(c: string, body: string)
    ensures Tag(c, body)
      == "<" + ("span" + (" " + ("class" + ("=\"" + (c + ("\">" + (body + ("</" + ("span" + ">")))))))))
  {
    assert "<span class=\"" == "<" + ("span" + (" " + ("class" + "=\"")));
    assert "</span>" == "</" + ("span" + ">");
  }

  /** Two texts a keyword pass leaves alone, with no `\w` run across the junction. */
  lemma FixedAppend(ks: seq<string>, cls: string, a: string, b: string)
    requires WordPass(ks, cls, a) == a && WordPass(ks, cls, b) == b && Junction(a, b)
    ensures WordPass(ks, cls, a + b) == a + b
  {
    WordPassAppend(ks, cls, a, b);
  }

  /** A word other than a keyword, followed by text the pass leaves alone. */
  lemma FixedAfterWord(ks: seq<string>, cls: string, w: string, rest: string)
    requires IsToken(w) && w !in ks && WordPass(ks, cls, rest) == rest
    requires |rest| > 0 && !WordChar(rest[0])
    ensures WordPass(ks, cls, w + rest) == w + rest
  {
    WordPassToken(ks, cls, w);
    FixedAppend(ks, cls, w, rest);
  }

  /** Non-word characters, followed by text the pass leaves alone. */
  lemma FixedAfterPunctuation(ks: seq<string>, cls: string, p: string, rest: string)
    requires |p| > 0 && (forall k :: 0 <= k < |p| ==> !WordChar(p[k])) && WordPass(ks, cls, rest) == rest
    ensures WordPass(ks, cls, p + rest) == p + rest
  {
    WordPassNonWord(ks, cls, p);
    FixedAppend(ks, cls, p, rest);
  }

  lemma CloseTagFixed(ks: seq<string>, cls: string)
    requires "span" !in ks
    ensures WordPass(ks, cls, "</" + ("span" + ">")) == "</" + ("span" + ">")
  {
    WordPassNonWord(ks, cls, ">");
    FixedAfterWord(ks, cls, "span", ">");
    FixedAfterPunctuation(ks, cls, "</", "span" + ">");
  }

  lemma MarkupWords()
    ensures IsToken("span") && IsToken("class")
    ensures !WordChar('<') && !WordChar('>') && !WordChar('/') && !WordChar(' ') && !WordChar('=') && !WordChar('"')
  {
  }

  /** A span whose class and body hold no keyword is left as it is. */
  lemma TagInert(ks: seq<string>, cls: string, c: string, body: string)
    requires IsToken(c) && c !in ks && "span" !in ks && "class" !in ks
    requires WordPass(ks, cls, body) == body
    ensures WordPass(ks, cls, Tag(c, body)) == Tag(c, body)
  {
    TagPieces(c, body);
    MarkupWords();
    var close := "</" + ("span" + ">");
    CloseTagFixed(ks, cls);
    var r7 := body + close;
    FixedAppend(ks, cls, body, close);
    var r6 := "\">" + r7;
    FixedAfterPunctuation(ks, cls, "\">", r7);
    var r5 := c + r6;
    FixedAfterWord(ks, cls, c, r6);
    var r4 := "=\"" + r5;
    FixedAfterPunctuation(ks, cls, "=\"", r5);
    var r3 := "class" + r4;
    FixedAfterWord(ks, cls, "class", r4);
    var r2 := " " + r3;
    FixedAfterPunctuation(ks, cls, " ", r3);
    var r1 := "span" + r2;
    FixedAfterWord(ks, cls, "span", r2);
    FixedAfterPunctuation(ks, cls, "<", r1);
  }

  /** The body of a protocol span: digits, '/', then tcp or udp, none of them a fresh keyword. */
  lemma ProtoBodyInert(ks: seq<string>, cls: string, b: string)
    requires |b| > 0 && ProtoLen(b) == |b|
    requires forall k :: 0 <= k < |ks| ==> |ks[k]| > 0 && 'a' <= ks[k][0] <= 'z'
    requires "tcp" !in ks && "udp" !in ks
    ensures WordPass(ks, cls, b) == b
  {
    var n := DigitLen(b);
    DigitLenRun(b);
    var digits, proto := b[..n], b[n + 1..];
    assert b == digits + "/" + proto;
    assert proto == "tcp" || proto == "udp";
    assert IsToken(digits);
    WordPassToken(ks, cls, digits);
    WordPassNonWord(ks, cls, "/");
    WordPassToken(ks, cls, proto);
    WordPassAppend(ks, cls, digits, "/");
    WordPassAppend(ks, cls, digits + "/", proto);
  }

  lemma KeywordTokens()
    ensures forall k :: 0 <= k < |Services| ==> IsToken(Services[k])
    ensures IsToken("proto") && IsToken("svc") && IsToken("open") && IsToken("closed") && IsToken("filtered")
  {
  }

  /** A span that the passes so far could have made is left alone by a fresh pass. */
  lemma KnownSpanInert(ks: seq<string>, cls: string, p: Piece, cs: set<string>)
    requires KnownSpan(p) && p.cls in cs && FreshKeywords(ks, cs)
    ensures WordPass(ks, cls, RenderPiece(p)) == RenderPiece(p)
  {
    KeywordTokens();
    if p.cls == "proto" {
      ProtoBodyInert(ks, cls, p.body);
    } else if p.cls == "svc" {
      var k :| 0 <= k < |Services| && Services[k] == p.body;
      WordPassToken(ks, cls, p.body);
    } else {
      WordPassToken(ks, cls, p.body);
    }
    TagInert(ks, cls, p.cls, p.body);
  }

  // ---------------------------------------------------------------------
  // A keyword pass over pieces.

  lemma {:induction false} WordPiecesRender(ks: seq<string>, cls: string, s: string)
    ensures Render(WordPieces(ks, cls, s)) == WordPass(ks, cls, s)
    decreases |s|
  {
    if |s| > 0 {
      if WordChar(s[0]) {
        var n := WordLen(s);
        WordPiecesRender(ks, cls, s[n..]);
        var rest := WordPieces(ks, cls, s[n..]);
        if s[..n] in ks {
          assert ([Span(cls, s[..n])] + rest)[1..] == rest;
        } else {
          ConsRender(Text(s[..n]), rest);
        }
      } else {
        WordPiecesRender(ks, cls, s[1..]);
        ConsRender(Text([s[0]]), WordPieces(ks, cls, s[1..]));
      }
    }
  }

  /** A keyword pass only adds tags: the text is kept. */
  lemma {:induction false} WordPiecesPlain(ks: seq<string>, cls: string, s: string)
    ensures Plain(WordPieces(ks, cls, s)) == s
    decreases |s|
  {
    if |s| > 0 {
      if WordChar(s[0]) {
        var n := WordLen(s);
        WordPiecesPlain(ks, cls, s[n..]);
        var rest := WordPieces(ks, cls, s[n..]);
        if s[..n] in ks {
          PlainJoin(Span(cls, s[..n]), rest, s, n);
        } else {
          PlainJoin(Text(s[..n]), rest, s, n);
          ConsRender(Text(s[..n]), rest);
        }
      } else {
        WordPiecesPlain(ks, cls, s[1..]);
        PlainJoin(Text([s[0]]), WordPieces(ks, cls, s[1..]), s, 1);
        ConsRender(Text([s[0]]), WordPieces(ks, cls, s[1..]));
      }
    }
  }

  lemma {:induction false} WordPiecesShape(ks: seq<string>, cls: string, s: string, cs: set<string>)
    requires cls in cs && forall k :: 0 <= k < |ks| ==> KnownSpan(Span(cls, ks[k]))
    ensures Alternating(WordPieces(ks, cls, s))
    ensures SpansKnown(WordPieces(ks, cls, s)) && ClassesIn(WordPieces(ks, cls, s), cs)
    decreases |s|
  {
    if |s| > 0 {
      if WordChar(s[0]) {
        var n := WordLen(s);
        WordPiecesShape(ks, cls, s[n..], cs);
        var rest := WordPieces(ks, cls, s[n..]);
        if s[..n] in ks {
          var p := Span(cls, s[..n]);
          assert ([p] + rest)[1..] == rest;
          SpanFront(p, rest, cs);
        } else {
          ConsAlternating(Text(s[..n]), rest);
          ConsSpans(Text(s[..n]), rest, cs);
        }
      } else {
        WordPiecesShape(ks, cls, s[1..], cs);
        var p, rest := Text([s[0]]), WordPieces(ks, cls, s[1..]);
        ConsAlternating(p, rest);
        ConsSpans(p, rest, cs);
      }
    }
  }

  lemma TagEnds(c: string, b: string)
    ensures |Tag(c, b)| > 0 && Tag(c, b)[0] == '<' && Tag(c, b)[|Tag(c, b)| - 1] == '>'
  {
  }

  lemma SpansRest(ps: seq<Piece>, cs: set<string>)
    requires |ps| > 0 && SpansKnown(ps) && ClassesIn(ps, cs)
    ensures SpansKnown(ps[1..]) && ClassesIn(ps[1..], cs)
  {
    assert forall k :: 0 <= k < |ps| - 1 ==> ps[1..][k] == ps[k + 1];
  }

  lemma SpansAppend(a: seq<Piece>, b: seq<Piece>, cs: set<string>)
    requires SpansKnown(a) && SpansKnown(b) && ClassesIn(a, cs) && ClassesIn(b, cs)
    ensures SpansKnown(a + b) && ClassesIn(a + b, cs)
  {
    assert forall k :: |a| <= k < |a + b| ==> (a + b)[k] == b[k - |a|];
  }

  /** No `\w` run crosses from a piece into the rest, when texts and tags alternate. */
  lemma AlternatingJunction(ps: seq<Piece>)
    requires |ps| > 0 && Alternating(ps)
    ensures Junction(RenderPiece(ps[0]), Render(ps[1..]))
  {
    if ps[0].Span? {
      TagEnds(ps[0].cls, ps[0].body);
    } else if |ps| > 1 {
      TagEnds(ps[1].cls, ps[1].body);
      assert Render(ps[1..]) == Tag(ps[1].cls, ps[1].body) + Render(ps[2..]);
    }
  }

  /**
   * A keyword pass over the rendered pieces is the rendering of the pass
   * over the texts alone: it wraps nothing inside a tag made earlier.
   */
  lemma {:induction false} PassPiecesRender(ks: seq<string>, cls: string, ps: seq<Piece>, cs: set<string>)
    requires Alternating(ps) && SpansKnown(ps) && ClassesIn(ps, cs) && FreshKeywords(ks, cs)
    ensures WordPass(ks, cls, Render(ps)) == Render(PassPieces(ks, cls, ps))
    ensures Plain(PassPieces(ks, cls, ps)) == Plain(ps)
  {
    if |ps| > 0 {
      var head, rest := ps[0], ps[1..];
      SpansRest(ps, cs);
      PassPiecesRender(ks, cls, rest, cs);
      AlternatingJunction(ps);
      WordPassAppend(ks, cls, RenderPiece(head), Render(rest));
      var front := match head case Text(t) => WordPieces(ks, cls, t) case Span(_, _) => [head];
      if head.Text? {
        WordPiecesRender(ks, cls, head.t);
        WordPiecesPlain(ks, cls, head.t);
      } else {
        assert ps[0] in ps;
        KnownSpanInert(ks, cls, head, cs);
      }
      RenderAppend(front, PassPieces(ks, cls, rest));
    }
  }

  lemma {:induction false} PassPiecesShape(ks: seq<string>, cls: string, ps: seq<Piece>, cs: set<string>)
    requires Alternating(ps) && SpansKnown(ps) && ClassesIn(ps, cs)
    requires forall k :: 0 <= k < |ks| ==> KnownSpan(Span(cls, ks[k]))
    ensures Alternating(PassPieces(ks, cls, ps))
    ensures SpansKnown(PassPieces(ks, cls, ps)) && ClassesIn(PassPieces(ks, cls, ps), cs + {cls})
  {
    if |ps| > 0 {
      var head, rest := ps[0], ps[1..];
      SpansRest(ps, cs);
      PassPiecesShape(ks, cls, rest, cs);
      var tail := PassPieces(ks, cls, rest);
      assert ClassesIn(rest, cs + {cls});
      var front := match head case Text(t) => WordPieces(ks, cls, t) case Span(_, _) => [head];
      if head.Text? {
        WordPiecesShape(ks, cls, head.t, cs + {cls});
        if |rest| > 0 {
          assert tail[0] == rest[0];
        }
      } else {
        assert ps[0] in ps;
        SpanFront(head, [], cs + {cls});
        assert [head] + [] == [head];
      }
      AlternatingAppend(front, tail);
      SpansAppend(front, tail, cs + {cls});
    }
  }

  // ---------------------------------------------------------------------
  // What the report's port text means.

  lemma FreshServices()
    ensures FreshKeywords(Services, {"proto"})
    ensures forall k :: 0 <= k < |Services| ==> KnownSpan(Span("svc", Services[k]))
  {
    KeywordTokens();
  }

  lemma FreshStates()
    ensures FreshKeywords(["open"], {"proto", "svc"})
    ensures FreshKeywords(["closed"], {"proto", "svc", "open"})
    ensures FreshKeywords(["filtered"], {"proto", "svc", "open", "closed"})
  {
    KeywordTokens();
  }

  /**
   * The styled port text is the escaped scan output with spans added: it
   * renders pieces whose text, unescaped, is the scan output, where every
   * span wraps one protocol port, one service or the state its class
   * names, and no span lies inside another or inside a tag.
   */
  lemma StylePortsMeaning(data: string)
    ensures Render(StylePieces(data)) == StylePorts(data)
    ensures Unescape(Plain(StylePieces(data))) == data
    ensures Unmarked(Plain(StylePieces(data)))
    ensures SpansKnown(StylePieces(data)) && Alternating(StylePieces(data))
  {
    var escaped := Escape(data);
    ProtoServiceStages(escaped);
    var v := PassPieces(Services, "svc", ProtoPieces(escaped));
    StateStages(v);
    UnescapeOfEscape(data);
    EscapeUnmarked(data);
  }

  /** The protocol pass and the service pass, over escaped text. */
  lemma ProtoServiceStages(escaped: string)
    ensures var v := PassPieces(Services, "svc", ProtoPieces(escaped));
      && Render(v) == WordPass(Services, "svc", ProtoPass(escaped))
      && Plain(v) == escaped
      && Alternating(v) && SpansKnown(v) && ClassesIn(v, {"proto", "svc"})
  {
    ProtoPiecesRender(escaped);
    ProtoPiecesPlain(escaped);
    ProtoPiecesShape(escaped);
    var p := ProtoPieces(escaped);
    FreshServices();
    PassStage(Services, "svc", p, {"proto"});
    assert {"proto"} + {"svc"} == {"proto", "svc"};
  }

  /** The open, closed and filtered passes, over the pieces the first two passes left. */
  lemma StateStages(v: seq<Piece>)
    requires Alternating(v) && SpansKnown(v) && ClassesIn(v, {"proto", "svc"})
    ensures var f := PassPieces(["filtered"], "filtered", PassPieces(["closed"], "closed", PassPieces(["open"], "open", v)));
      && Render(f) == WordPass(["filtered"], "filtered", WordPass(["closed"], "closed", WordPass(["open"], "open", Render(v))))
      && Plain(f) == Plain(v)
      && Alternating(f) && SpansKnown(f)
  {
    FreshStates();
    PassStage(["open"], "open", v, {"proto", "svc"});
    var o := PassPieces(["open"], "open", v);
    assert {"proto", "svc"} + {"open"} == {"proto", "svc", "open"};
    PassStage(["closed"], "closed", o, {"proto", "svc", "open"});
    var c := PassPieces(["closed"], "closed", o);
    assert {"proto", "svc", "open"} + {"closed"} == {"proto", "svc", "open", "closed"};
    PassStage(["filtered"], "filtered", c, {"proto", "svc", "open", "closed"});
  }

  /** One keyword pass, over pieces whose spans it leaves alone. */
  lemma PassStage(ks: seq<string>, cls: string, ps: seq<Piece>, cs: set<string>)
    requires Alternating(ps) && SpansKnown(ps) && ClassesIn(ps, cs) && FreshKeywords(ks, cs)
    requires forall k :: 0 <= k < |ks| ==> KnownSpan(Span(cls, ks[k]))
    ensures WordPass(ks, cls, Render(ps)) == Render(PassPieces(ks, cls, ps))
    ensures Plain(PassPieces(ks, cls, ps)) == Plain(ps)
    ensures Alternating(PassPieces(ks, cls, ps))
    ensures SpansKnown(PassPieces(ks, cls, ps)) && ClassesIn(PassPieces(ks, cls, ps), cs + {cls})
  {
    PassPiecesRender(ks, cls, ps, cs);
    PassPiecesShape(ks, cls, ps, cs);
  }

  // ---------------------------------------------------------------------
  // `\b` and the runs of `\w` characters.

  /** `\b` at position i: a `\w` character on exactly one side. */
  predicate Boundary(s: string, i: int)
    requires 0 <= i <= |s|
  {
    (i > 0 && WordChar(s[i - 1])) != (i < |s| && WordChar(s[i]))
  }

  /** `\bw\b` matches s at position i. */
  predicate KeywordMatch(s: string, i: int, w: string)
    requires 0 <= i <= |s|
  {
    Boundary(s, i) && HasPrefix(s[i..], w) && Boundary(s, i + |w|)
  }

  lemma {:induction false} WordLenExact(t: string, n: nat)
    requires n <= |t| && (forall k :: 0 <= k < n ==> WordChar(t[k])) && (n < |t| ==> !WordChar(t[n]))
    ensures WordLen(t) == n
  {
    if n > 0 {
      WordLenExact(t[1..], n - 1);
    }
  }

  /**
   * For a keyword made of `\w` characters, `\bw\b` matches at i exactly
   * when a maximal run of `\w` characters starts at i and equals w: the
   * matches WordPass wraps.
   */
  lemma KeywordMatchIsRun(s: string, i: int, w: string)
    requires IsToken(w) && 0 <= i <= |s|
    ensures KeywordMatch(s, i, w)
      <==> (i == 0 || !WordChar(s[i - 1])) && i + |w| <= |s| && WordLen(s[i..]) == |w| && s[i..i + |w|] == w
  {
    var t := s[i..];
    if KeywordMatch(s, i, w) {
      assert forall k :: 0 <= k < |w| ==> t[k] == w[k];
      assert t[0] == w[0];
      if i + |w| < |s| {
        assert s[i + |w| - 1] == w[|w| - 1];
        assert t[|w|] == s[i + |w|];
      }
      WordLenExact(t, |w|);
      assert s[i..i + |w|] == t[..|w|];
    }
    if (i == 0 || !WordChar(s[i - 1])) && i + |w| <= |s| && WordLen(t) == |w| && s[i..i + |w|] == w {
      WordLenRun(t);
      assert t[..|w|] == w;
      assert s[i] == w[0];
      if i + |w| < |s| {
        assert s[i + |w|] == t[|w|];
        assert s[i + |w| - 1] == w[|w| - 1];
      }
    }
  }

  // ---------------------------------------------------------------------
  // Completeness: nothing the passes look for is left in a text piece.

  /** No protocol port starts anywhere in u. */
  predicate ProtoClean(u: string) {
    forall j :: 0 <= j < |u| ==> ProtoLen(u[j..]) == 0
  }

  predicate TextsProtoClean(ps: seq<Piece>) {
    forall k :: 0 <= k < |ps| && ps[k].Text? ==> ProtoClean(ps[k].t)
  }

  /** No maximal `\w` run of u is one of the words K (scanned as the keyword passes scan). */
  predicate RunsAvoid(u: string, K: seq<string>)
    decreases |u|
  {
    if |u| == 0 then true
    else if WordChar(u[0]) then u[..WordLen(u)] !in K && RunsAvoid(u[WordLen(u)..], K)
    else RunsAvoid(u[1..], K)
  }

  predicate TextsAvoid(ps: seq<Piece>, K: seq<string>) {
    forall k :: 0 <= k < |ps| && ps[k].Text? ==> RunsAvoid(ps[k].t, K)
  }

  lemma {:induction false} DigitLenAppend(a: string, b: string)
    requires DigitLen(a) < |a|
    ensures DigitLen(a + b) == DigitLen(a)
  {
    assert (a + b)[0] == a[0];
    if AsciiDigit(a[0]) {
      assert (a + b)[1..] == a[1..] + b;
      DigitLenAppend(a[1..], b);
    }
  }

  /** A protocol match at the front of a is one at the front of a + b. */
  lemma ProtoLenAppend(a: string, b: string)
    requires ProtoLen(a) > 0
    ensures ProtoLen(a + b) == ProtoLen(a)
  {
    var n := DigitLen(a);
    DigitLenAppend(a, b);
    assert (a + b)[n..][..4] == a[n..][..4];
  }

  lemma ProtoCleanFactor(a: string, b: string, c: string)
    requires ProtoClean(a + b + c)
    ensures ProtoClean(b)
  {
    var s := a + b + c;
    forall j | 0 <= j < |b| ensures ProtoLen(b[j..]) == 0 {
      assert s[|a| + j..] == b[j..] + c;
      if ProtoLen(b[j..]) > 0 {
        ProtoLenAppend(b[j..], c);
        assert false;
      }
    }
  }

  lemma {:induction false} PlainAt(ps: seq<Piece>, k: nat)
    requires k < |ps|
    ensures Plain(ps) == Plain(ps[..k]) + PlainPiece(ps[k]) + Plain(ps[k + 1..])
  {
    if k == 0 {
      assert ps[..0] == [] && ps[1..] == ps[k + 1..];
    } else {
      PlainAt(ps[1..], k - 1);
      assert ps[1..][..k - 1] == ps[..k][1..] && ps[1..][k - 1] == ps[k] && ps[1..][k..] == ps[k + 1..];
      assert Plain(ps[..k]) == PlainPiece(ps[0]) + Plain(ps[..k][1..]);
      Regroup(PlainPiece(ps[0]), Plain(ps[..k][1..]), PlainPiece(ps[k]));
      Regroup(PlainPiece(ps[0]), Plain(ps[..k][1..]) + PlainPiece(ps[k]), Plain(ps[k + 1..]));
    }
  }

  /** Pieces that hold a clean text hold only clean texts. */
  lemma PiecesOfClean(ps: seq<Piece>)
    requires ProtoClean(Plain(ps))
    ensures TextsProtoClean(ps)
  {
    forall k | 0 <= k < |ps| && ps[k].Text? ensures ProtoClean(ps[k].t) {
      PlainAt(ps, k);
      ProtoCleanFactor(Plain(ps[..k]), ps[k].t, Plain(ps[k + 1..]));
    }
  }

  /** A character before a clean text that starts no port, with more text after, leaves it clean. */
  lemma FrontClean(c: char, r: string, tail: string)
    requires ProtoLen([c] + r + tail) == 0 && ProtoClean(r)
    ensures ProtoClean([c] + r)
  {
    var x := [c] + r;
    forall j | 0 <= j < |x| ensures ProtoLen(x[j..]) == 0 {
      if j == 0 {
        if ProtoLen(x) > 0 {
          ProtoLenAppend(x, tail);
          assert false;
        }
      } else {
        assert x[j..] == r[j - 1..];
      }
    }
  }

  lemma OneClean(c: char)
    ensures ProtoClean([c])
  {
    assert [c][0..] == [c];
  }

  /** Putting a text in front keeps the texts clean, when the text it makes is. */
  lemma ConsClean(p: Piece, ps: seq<Piece>)
    requires p.Text? && TextsProtoClean(ps)
    requires if |p.t| > 0 && |ps| > 0 && ps[0].Text? then ProtoClean(p.t + ps[0].t) else ProtoClean(p.t)
    ensures TextsProtoClean(Cons(p, ps))
  {
    var q := Cons(p, ps);
    if |p.t| > 0 && |ps| > 0 && ps[0].Text? {
      assert forall k :: 1 <= k < |q| ==> q[k] == ps[k];
    } else if |p.t| > 0 {
      assert forall k :: 1 <= k < |q| ==> q[k] == ps[k - 1];
    }
  }

  lemma SpanClean(p: Piece, ps: seq<Piece>)
    requires p.Span? && TextsProtoClean(ps)
    ensures TextsProtoClean([p] + ps)
  {
    assert forall k :: 1 <= k < |ps| + 1 ==> ([p] + ps)[k] == ps[k - 1];
  }

  /** The first character, merged with the text that follows it, stays clean. */
  lemma MergeClean(s: string, rest: seq<Piece>)
    requires |s| > 0 && ProtoLen(s) == 0 && Plain(rest) == s[1..]
    requires |rest| > 0 && rest[0].Text? && ProtoClean(rest[0].t)
    ensures ProtoClean([s[0]] + rest[0].t)
  {
    var r0, tail := rest[0].t, Plain(rest[1..]);
    assert s[1..] == r0 + tail;
    assert s == [s[0]] + (r0 + tail);
    Regroup([s[0]], r0, tail);
    FrontClean(s[0], r0, tail);
  }

  /** The protocol pass leaves no protocol port in its texts. */
  lemma {:induction false} ProtoPiecesClean(s: string)
    ensures TextsProtoClean(ProtoPieces(s))
    decreases |s|
  {
    if |s| > 0 {
      var m := ProtoLen(s);
      if m > 0 {
        ProtoPiecesClean(s[m..]);
        SpanClean(Span("proto", s[..m]), ProtoPieces(s[m..]));
      } else {
        var rest := ProtoPieces(s[1..]);
        ProtoPiecesClean(s[1..]);
        OneClean(s[0]);
        if |rest| > 0 && rest[0].Text? {
          ProtoPiecesPlain(s[1..]);
          TextsCleanRest(rest);
          MergeClean(s, rest);
        }
        ConsClean(Text([s[0]]), rest);
      }
    }
  }

  lemma TextsCleanAppend(a: seq<Piece>, b: seq<Piece>)
    requires TextsProtoClean(a) && TextsProtoClean(b)
    ensures TextsProtoClean(a + b)
  {
    assert forall k :: |a| <= k < |a + b| ==> (a + b)[k] == b[k - |a|];
  }

  lemma TextsCleanRest(ps: seq<Piece>)
    requires |ps| > 0 && TextsProtoClean(ps)
    ensures TextsProtoClean(ps[1..]) && (ps[0].Text? ==> ProtoClean(ps[0].t))
  {
    assert forall k :: 1 <= k < |ps| ==> ps[1..][k - 1] == ps[k];
  }

  /** A keyword pass over pieces with clean texts leaves clean texts. */
  lemma {:induction false} PassPiecesClean(ks: seq<string>, cls: string, ps: seq<Piece>)
    requires TextsProtoClean(ps)
    ensures TextsProtoClean(PassPieces(ks, cls, ps))
  {
    if |ps| > 0 {
      TextsCleanRest(ps);
      PassPiecesClean(ks, cls, ps[1..]);
      var front := match ps[0] case Text(t) => WordPieces(ks, cls, t) case Span(_, _) => [ps[0]];
      if ps[0].Text? {
        WordPiecesPlain(ks, cls, ps[0].t);
        PiecesOfClean(front);
      }
      TextsCleanAppend(front, PassPieces(ks, cls, ps[1..]));
    }
  }

  lemma {:induction false} RunsAvoidNothing(u: string)
    ensures RunsAvoid(u, [])
    decreases |u|
  {
    if |u| > 0 {
      if WordChar(u[0]) {
        RunsAvoidNothing(u[WordLen(u)..]);
      } else {
        RunsAvoidNothing(u[1..]);
      }
    }
  }

  /** The front run of a stays the front run of a + b, when no run crosses the junction. */
  lemma RunAppend(a: string, b: string)
    requires Junction(a, b) && |a| > 0 && WordChar(a[0])
    ensures WordLen(a + b) == WordLen(a)
    ensures (a + b)[..WordLen(a)] == a[..WordLen(a)] && (a + b)[WordLen(a)..] == a[WordLen(a)..] + b
  {
    WordLenRun(a);
    assert WordLen(a) == |a| ==> WordChar(a[|a| - 1]);
    WordLenAppend(a, b);
  }

  lemma {:induction false} RunsAvoidAppend(a: string, b: string, K: seq<string>)
    requires Junction(a, b) && RunsAvoid(a, K) && RunsAvoid(b, K)
    ensures RunsAvoid(a + b, K)
    decreases |a|
  {
    if |a| == 0 {
      assert a + b == b;
    } else {
      assert (a + b)[0] == a[0];
      if WordChar(a[0]) {
        var n := WordLen(a);
        RunAppend(a, b);
        RunsAvoidAppend(a[n..], b, K);
      } else {
        assert (a + b)[1..] == a[1..] + b;
        RunsAvoidAppend(a[1..], b, K);
      }
    }
  }

  /** A run of u avoids K, when its words as a whole do. */
  lemma {:induction false} RunsAvoidAt(u: string, K: seq<string>, j: nat)
    requires RunsAvoid(u, K) && j < |u| && (j == 0 || !WordChar(u[j - 1])) && WordChar(u[j])
    ensures u[j..][..WordLen(u[j..])] !in K
    decreases |u|
  {
    if j > 0 {
      var n := if WordChar(u[0]) then WordLen(u) else 1;
      SkipFront(u, j, n);
      assert u[n..][j - n..] == u[j..];
      RunsAvoidAt(u[n..], K, j - n);
    }
  }

  /** Where a run starts after the front, the front run (or character) lies before it. */
  lemma SkipFront(u: string, j: nat, n: nat)
    requires 0 < j < |u| && !WordChar(u[j - 1]) && WordChar(u[j])
    requires n == if WordChar(u[0]) then WordLen(u) else 1
    ensures n <= j && (j - n == 0 || !WordChar(u[n..][j - n - 1]))
  {
    if WordChar(u[0]) {
      WordLenRun(u);
    }
  }

  /** Putting a text in front, when no run crosses into the next text. */
  lemma ConsAvoid(p: Piece, ps: seq<Piece>, K: seq<string>)
    requires p.Text? && RunsAvoid(p.t, K) && TextsAvoid(ps, K)
    requires |ps| > 0 && ps[0].Text? ==> Junction(p.t, ps[0].t)
    ensures TextsAvoid(Cons(p, ps), K)
  {
    var q := Cons(p, ps);
    if |p.t| > 0 && |ps| > 0 && ps[0].Text? {
      RunsAvoidAppend(p.t, ps[0].t, K);
      assert forall k :: 1 <= k < |q| ==> q[k] == ps[k];
    } else if |p.t| > 0 {
      assert forall k :: 1 <= k < |q| ==> q[k] == ps[k - 1];
    }
  }

  /** The first text of a keyword pass starts with the first character of its input. */
  lemma WordPiecesFront(ks: seq<string>, cls: string, s: string)
    requires |s| > 0
    ensures |WordPieces(ks, cls, s)| > 0
    ensures WordPieces(ks, cls, s)[0].Text? ==> |WordPieces(ks, cls, s)[0].t| > 0 && WordPieces(ks, cls, s)[0].t[0] == s[0]
  {
    if WordChar(s[0]) {
      var n := WordLen(s);
      assert s[..n][0] == s[0];
    }
  }

  /** A run on the front of u that is not in the keywords avoids K + ks. */
  lemma RunAvoids(u: string, n: nat, K: seq<string>, ks: seq<string>)
    requires 0 < n == WordLen(u) && u[..n] !in K && u[..n] !in ks
    ensures RunsAvoid(u[..n], K + ks)
  {
    WordLenRun(u);
    WordLenExact(u[..n], n);
    assert u[..n][..n] == u[..n] && u[..n][n..] == "";
  }

  /** A keyword pass leaves no run that is one of its keywords, nor one that was avoided before. */
  lemma {:induction false} WordPiecesAvoid(ks: seq<string>, cls: string, t: string, K: seq<string>)
    requires RunsAvoid(t, K)
    ensures TextsAvoid(WordPieces(ks, cls, t), K + ks)
    decreases |t|
  {
    if |t| > 0 {
      if WordChar(t[0]) {
        var n := WordLen(t);
        var rest := WordPieces(ks, cls, t[n..]);
        WordPiecesAvoid(ks, cls, t[n..], K);
        if t[..n] in ks {
          var q := [Span(cls, t[..n])] + rest;
          assert forall k :: 1 <= k < |q| ==> q[k] == rest[k - 1];
        } else {
          RunAvoids(t, n, K, ks);
          if |rest| > 0 {
            WordPiecesFront(ks, cls, t[n..]);
          }
          ConsAvoid(Text(t[..n]), rest, K + ks);
        }
      } else {
        var rest := WordPieces(ks, cls, t[1..]);
        WordPiecesAvoid(ks, cls, t[1..], K);
        assert RunsAvoid([t[0]], K + ks) by {
          assert [t[0]][1..] == "";
        }
        ConsAvoid(Text([t[0]]), rest, K + ks);
      }
    }
  }

  lemma TextsAvoidAppend(a: seq<Piece>, b: seq<Piece>, K: seq<string>)
    requires TextsAvoid(a, K) && TextsAvoid(b, K)
    ensures TextsAvoid(a + b, K)
  {
    assert forall k :: |a| <= k < |a + b| ==> (a + b)[k] == b[k - |a|];
  }

  lemma TextsAvoidRest(ps: seq<Piece>, K: seq<string>)
    requires |ps| > 0 && TextsAvoid(ps, K)
    ensures TextsAvoid(ps[1..], K) && (ps[0].Text? ==> RunsAvoid(ps[0].t, K))
  {
    assert forall k :: 1 <= k < |ps| ==> ps[1..][k - 1] == ps[k];
  }

  lemma {:induction false} PassPiecesAvoid(ks: seq<string>, cls: string, ps: seq<Piece>, K: seq<string>)
    requires TextsAvoid(ps, K)
    ensures TextsAvoid(PassPieces(ks, cls, ps), K + ks)
  {
    if |ps| > 0 {
      TextsAvoidRest(ps, K);
      PassPiecesAvoid(ks, cls, ps[1..], K);
      var front := match ps[0] case Text(t) => WordPieces(ks, cls, t) case Span(_, _) => [ps[0]];
      if ps[0].Text? {
        WordPiecesAvoid(ks, cls, ps[0].t, K);
      }
      TextsAvoidAppend(front, PassPieces(ks, cls, ps[1..]), K + ks);
    }
  }

  /** The texts of the protocol pass avoid nothing yet. */
  lemma ProtoPiecesAvoid(s: string)
    ensures TextsAvoid(ProtoPieces(s), [])
  {
    forall k | 0 <= k < |ProtoPieces(s)| && ProtoPieces(s)[k].Text? ensures RunsAvoid(ProtoPieces(s)[k].t, []) {
      RunsAvoidNothing(ProtoPieces(s)[k].t);
    }
  }

  /** The words a keyword pass wraps. */
  const StyleKeywords: seq<string> := Services + ["open", "closed", "filtered"]

  /** The texts of the styled pieces hold no protocol port. */
  lemma StyleTextsClean(data: string)
    ensures TextsProtoClean(StylePieces(data))
  {
    var p := ProtoPieces(Escape(data));
    var v := PassPieces(Services, "svc", p);
    var o := PassPieces(["open"], "open", v);
    var c := PassPieces(["closed"], "closed", o);
    ProtoPiecesClean(Escape(data));
    PassPiecesClean(Services, "svc", p);
    PassPiecesClean(["open"], "open", v);
    PassPiecesClean(["closed"], "closed", o);
    PassPiecesClean(["filtered"], "filtered", c);
  }

  /** No run in the texts of the styled pieces is a service or state word. */
  lemma StyleTextsAvoid(data: string)
    ensures TextsAvoid(StylePieces(data), StyleKeywords)
  {
    var p := ProtoPieces(Escape(data));
    var v := PassPieces(Services, "svc", p);
    var o := PassPieces(["open"], "open", v);
    var c := PassPieces(["closed"], "closed", o);
    ProtoPiecesAvoid(Escape(data));
    PassPiecesAvoid(Services, "svc", p, []);
    PassPiecesAvoid(["open"], "open", v, [] + Services);
    PassPiecesAvoid(["closed"], "closed", o, [] + Services + ["open"]);
    PassPiecesAvoid(["filtered"], "filtered", c, [] + Services + ["open"] + ["closed"]);
    assert [] + Services + ["open"] + ["closed"] + ["filtered"] == StyleKeywords;
  }

  /**
   * Every match the passes look for is wrapped: no text left between the
   * spans holds a protocol port, nor a `\b` match of a service or state
   * word.
   */
  lemma StylePortsComplete(data: string)
    ensures var f := StylePieces(data);
      forall k, j :: 0 <= k < |f| && f[k].Text? && 0 <= j < |f[k].t| ==> ProtoLen(f[k].t[j..]) == 0
    ensures var f := StylePieces(data);
      forall k, j, w :: 0 <= k < |f| && f[k].Text? && 0 <= j <= |f[k].t| && w in StyleKeywords ==> !KeywordMatch(f[k].t, j, w)
  {
    var f := StylePieces(data);
    StyleTextsClean(data);
    StyleTextsAvoid(data);
    KeywordTokens();
    forall k, j, w | 0 <= k < |f| && f[k].Text? && 0 <= j <= |f[k].t| && w in StyleKeywords
      ensures !KeywordMatch(f[k].t, j, w)
    {
      var u := f[k].t;
      assert IsToken(w);
      KeywordMatchIsRun(u, j, w);
      if KeywordMatch(u, j, w) {
        RunsAvoidAt(u, StyleKeywords, j);
        assert false;
      }
    }
  }
}
