// The pieces of Go's `strings` package (and of `bufio`-style line handling)
// that the tool relies on, each defined the way Go defines it, together with
// the round-trip facts the rest of the model needs.
module Strings {

  /** Go's unicode.IsSpace: the Latin-1 spaces and Unicode's White_Space set. */
  predicate IsSpace(c: char) {
    c == ' ' || c == '\t' || c == '\n' || c == '\r' || c == '\U{B}' || c == '\U{C}'
    || c == '\U{85}' || c == '\U{A0}' || c == '\U{1680}' || ('\U{2000}' <= c <= '\U{200A}')
    || c == '\U{2028}' || c == '\U{2029}' || c == '\U{202F}' || c == '\U{205F}' || c == '\U{3000}'
  }

  predicate NoSpace(s: string) {
    forall k :: 0 <= k < |s| ==> !IsSpace(s[k])
  }

  /** A non-empty string without white space: what strings.Fields yields. */
  predicate IsWord(s: string) {
    |s| > 0 && NoSpace(s)
  }

  // ---------------------------------------------------------------------
  // strings.Join

  function Join(ws: seq<string>, sep: string): string {
    if |ws| == 0 then ""
    else if |ws| == 1 then ws[0]
    else ws[0] + sep + Join(ws[1..], sep)
  }

  lemma {:induction false} JoinAppend(a: seq<string>, b: seq<string>, sep: string)
    requires |a| > 0 && |b| > 0
    ensures Join(a + b, sep) == Join(a, sep) + sep + Join(b, sep)
  {
    if |a| == 1 {
      assert a + b == [a[0]] + b;
    } else {
      assert (a + b)[1..] == a[1..] + b;
      JoinAppend(a[1..], b, sep);
    }
  }

  /** Joining a list onto a head is the head followed by " " + w for every w. */
  function SpacePrefixed(ws: seq<string>): string {
    if |ws| == 0 then "" else SpacePrefixed(ws[..|ws| - 1]) + " " + ws[|ws| - 1]
  }

  /** A `+= " " + w` step extends the space-prefixed list by w. */
  lemma SpacePrefixedStep(head: string, ws: seq<string>, w: string)
    ensures head + SpacePrefixed(ws + [w]) == (head + SpacePrefixed(ws)) + " " + w
  {
    assert (ws + [w])[..|ws|] == ws;
  }

  lemma {:induction false} JoinAsConcat(head: string, ws: seq<string>)
    ensures Join([head] + ws, " ") == head + SpacePrefixed(ws)
  {
    if |ws| > 0 {
      var init := ws[..|ws| - 1];
      JoinAsConcat(head, init);
      JoinAppend([head] + init, [ws[|ws| - 1]], " ");
      assert [head] + init + [ws[|ws| - 1]] == [head] + ws;
    }
  }

  // ---------------------------------------------------------------------
  // Concatenation of a list of strings (what a strings.Builder or a `+=`
  // loop accumulates).

  /** Concatenation regrouped; a call keeps this step out of larger proof contexts. */
  lemma Regroup<T>(x: seq<T>, y: seq<T>, z: seq<T>)
    ensures x + (y + z) == (x + y) + z
  {
  }

  function Concat(ss: seq<string>): string {
    if |ss| == 0 then "" else Concat(ss[..|ss| - 1]) + ss[|ss| - 1]
  }

  lemma {:induction false} ConcatAppend(a: seq<string>, b: seq<string>)
    ensures Concat(a + b) == Concat(a) + Concat(b)
  {
    if |b| == 0 {
      assert a + b == a;
    } else {
      var init := b[..|b| - 1];
      ConcatAppend(a, init);
      assert (a + b)[..|a + b| - 1] == a + init;
    }
  }

  lemma ConcatOne(a: seq<string>, s: string)
    ensures Concat(a + [s]) == Concat(a) + s
  {
    assert (a + [s])[..|a|] == a;
  }

  // ---------------------------------------------------------------------
  // strings.Fields: the maximal runs of non-space characters, in order.

  /** Length of the run of non-space characters at the front of s. */
  function WordRun(s: string): (n: nat)
    ensures n <= |s|
    ensures NoSpace(s[..n])
    ensures n < |s| ==> IsSpace(s[n])
  {
    if |s| == 0 || IsSpace(s[0]) then 0
    else
      var m := WordRun(s[1..]);
      assert s[..m + 1] == [s[0]] + s[1..][..m];
      1 + m
  }

  function Fields(s: string): (r: seq<string>)
    ensures forall k :: 0 <= k < |r| ==> IsWord(r[k])
    decreases |s|
  {
    if |s| == 0 then []
    else if IsSpace(s[0]) then Fields(s[1..])
    else
      var n := WordRun(s);
      [s[..n]] + Fields(s[n..])
  }

  /** Fields of each string of a list, one after the other. */
  function FieldsOfAll(ws: seq<string>): seq<string> {
    if |ws| == 0 then [] else Fields(ws[0]) + FieldsOfAll(ws[1..])
  }

  lemma {:induction false} WordRunBeforeSpace(a: string, c: char, b: string)
    requires IsSpace(c)
    ensures WordRun(a + [c] + b) == WordRun(a)
  {
    if |a| > 0 && !IsSpace(a[0]) {
      assert (a + [c] + b)[1..] == a[1..] + [c] + b;
      WordRunBeforeSpace(a[1..], c, b);
    }
  }

  /** A white-space character separates the fields on its two sides. */
  lemma {:induction false} FieldsSplitAtSpace(a: string, c: char, b: string)
    requires IsSpace(c)
    ensures Fields(a + [c] + b) == Fields(a) + Fields(b)
    decreases |a|
  {
    var s := a + [c] + b;
    if |a| == 0 {
      assert s[1..] == b;
    } else if IsSpace(a[0]) {
      assert s[1..] == a[1..] + [c] + b;
      FieldsSplitAtSpace(a[1..], c, b);
    } else {
      var n := WordRun(a);
      WordRunBeforeSpace(a, c, b);
      assert s[..n] == a[..n];
      assert s[n..] == a[n..] + [c] + b;
      FieldsSplitAtSpace(a[n..], c, b);
    }
  }

  lemma FieldsOfWord(w: string)
    requires IsWord(w)
    ensures Fields(w) == [w]
  {
    var n := WordRun(w);
    assert w[..n] == w;
    assert w[n..] == [];
  }

  /** strings.Fields of a " "-joined list is the fields of its members, in order. */
  lemma {:induction false} FieldsOfJoin(ws: seq<string>)
    ensures Fields(Join(ws, " ")) == FieldsOfAll(ws)
  {
    if |ws| == 0 {
    } else if |ws| == 1 {
      assert FieldsOfAll(ws[1..]) == [];
    } else {
      FieldsOfJoin(ws[1..]);
      FieldsSplitAtSpace(ws[0], ' ', Join(ws[1..], " "));
      assert ws[0] + " " + Join(ws[1..], " ") == ws[0] + [' '] + Join(ws[1..], " ");
    }
  }

  /** Joining a word in front of a list adds that one word in front of its fields. */
  lemma FieldsAfterWord(w: string, rest: seq<string>)
    requires IsWord(w)
    ensures Fields(Join([w] + rest, " ")) == [w] + FieldsOfAll(rest)
  {
    var ws := [w] + rest;
    assert ws[0] == w && ws[1..] == rest;
    FieldsOfJoin(ws);
    FieldsOfWord(w);
  }

  /** A flag written as words separated by single spaces (no other white space). */
  predicate Canonical(f: string) {
    |f| > 0 && !IsSpace(f[0]) && !IsSpace(f[|f| - 1])
    && (forall k :: 0 <= k < |f| && IsSpace(f[k]) ==> f[k] == ' ')
    && (forall k :: 0 <= k < |f| - 1 && f[k] == ' ' ==> f[k + 1] != ' ')
  }

  /** A canonical string is recovered by joining its fields with single spaces. */
  lemma {:induction false} CanonicalFields(f: string)
    requires Canonical(f)
    ensures |Fields(f)| > 0
    ensures Join(Fields(f), " ") == f
    decreases |f|
  {
    var n := WordRun(f);
    if n == |f| {
      FieldsOfWord(f);
    } else {
      assert f[n] == ' ';
      var w, rest := f[..n], f[n + 1..];
      assert f == w + [' '] + rest;
      assert |rest| > 0 && rest[0] != ' ';
      assert Canonical(rest) by {
        forall k | 0 <= k < |rest| && IsSpace(rest[k]) ensures rest[k] == ' ' {
          assert rest[k] == f[n + 1 + k];
        }
        forall k | 0 <= k < |rest| - 1 && rest[k] == ' ' ensures rest[k + 1] != ' ' {
          assert rest[k] == f[n + 1 + k];
        }
      }
      FieldsSplitAtSpace(w, ' ', rest);
      FieldsOfWord(w);
      CanonicalFields(rest);
      var fr := Fields(rest);
      assert Fields(f) == [w] + fr;
      assert ([w] + fr)[1..] == fr;
    }
  }

  /** Splitting canonical strings into fields and joining the fields again gives their join. */
  lemma {:induction false} JoinFieldsOfCanonical(ws: seq<string>)
    requires forall k :: 0 <= k < |ws| ==> Canonical(ws[k])
    ensures |ws| > 0 ==> |FieldsOfAll(ws)| > 0
    ensures Join(FieldsOfAll(ws), " ") == Join(ws, " ")
  {
    if |ws| > 0 {
      var w, rest := ws[0], ws[1..];
      CanonicalFields(w);
      JoinFieldsOfCanonical(rest);
      assert FieldsOfAll(ws) == Fields(w) + FieldsOfAll(rest);
      if |rest| > 0 {
        JoinAppend(Fields(w), FieldsOfAll(rest), " ");
        assert Join(ws, " ") == w + " " + Join(rest, " ");
      } else {
        assert FieldsOfAll(rest) == [];
        assert Fields(w) + [] == Fields(w);
        assert Join(ws, " ") == w;
      }
    }
  }

  // ---------------------------------------------------------------------
  // strings.Split with a one-character separator.

  function Split(s: string, c: char): (r: seq<string>)
    ensures |r| > 0
  {
    if |s| == 0 then [""]
    else
      var rest := Split(s[1..], c);
      if s[0] == c then [""] + rest else [[s[0]] + rest[0]] + rest[1..]
  }

  /** The pieces of each string of a list, one after the other. */
  function SplitAll(ws: seq<string>, c: char): seq<string> {
    if |ws| == 0 then [] else Split(ws[0], c) + SplitAll(ws[1..], c)
  }

  lemma {:induction false} SplitAtSeparator(a: string, c: char, b: string)
    ensures Split(a + [c] + b, c) == Split(a, c) + Split(b, c)
  {
    if |a| == 0 {
      assert (a + [c] + b)[1..] == b;
    } else {
      assert (a + [c] + b)[1..] == a[1..] + [c] + b;
      SplitAtSeparator(a[1..], c, b);
    }
  }

  lemma {:induction false} SplitWithoutSeparator(s: string, c: char)
    requires forall k :: 0 <= k < |s| ==> s[k] != c
    ensures Split(s, c) == [s]
  {
    if |s| > 0 {
      SplitWithoutSeparator(s[1..], c);
      assert [s[0]] + s[1..] == s;
    }
  }

  /** strings.Split of a joined list gives the pieces of every member, in order. */
  lemma {:induction false} SplitOfJoin(ws: seq<string>, c: char)
    requires |ws| > 0
    ensures Split(Join(ws, [c]), c) == SplitAll(ws, c)
  {
    if |ws| == 1 {
      assert SplitAll(ws[1..], c) == [];
    } else {
      SplitOfJoin(ws[1..], c);
      SplitAtSeparator(ws[0], c, Join(ws[1..], [c]));
    }
  }

  /** Joining the pieces of strings.Split with the separator gives the string back. */
  lemma {:induction false} JoinOfSplit(s: string, c: char)
    ensures Join(Split(s, c), [c]) == s
  {
    if |s| > 0 {
      var rest := Split(s[1..], c);
      JoinOfSplit(s[1..], c);
      if s[0] == c {
        assert Split(s, c) == [""] + rest;
      } else {
        var r := Split(s, c);
        assert r == [[s[0]] + rest[0]] + rest[1..];
        if |rest| == 1 {
          assert r == [[s[0]] + rest[0]];
        } else {
          assert r[1..] == rest[1..];
          assert Join(rest, [c]) == rest[0] + [c] + Join(rest[1..], [c]);
        }
      }
    }
  }

  // ---------------------------------------------------------------------
  // strings.HasPrefix, strings.HasSuffix, strings.TrimSpace

  predicate HasPrefix(s: string, p: string) {
    |p| <= |s| && s[..|p|] == p
  }

  predicate HasSuffix(s: string, p: string) {
    |p| <= |s| && s[|s| - |p|..] == p
  }

  function TrimLeft(s: string): (r: string)
    ensures |r| <= |s| && r == s[|s| - |r|..]
    ensures |r| > 0 ==> !IsSpace(r[0])
    ensures forall k :: 0 <= k < |s| - |r| ==> IsSpace(s[k])
  {
    if |s| > 0 && IsSpace(s[0]) then TrimLeft(s[1..]) else s
  }

  function TrimRight(s: string): (r: string)
    ensures |r| <= |s| && r == s[..|r|]
    ensures |r| > 0 ==> !IsSpace(r[|r| - 1])
    ensures forall k :: |r| <= k < |s| ==> IsSpace(s[k])
  {
    if |s| > 0 && IsSpace(s[|s| - 1]) then TrimRight(s[..|s| - 1]) else s
  }

  function TrimSpace(s: string): string {
    TrimRight(TrimLeft(s))
  }

  lemma TrimSpaceOfWord(w: string)
    requires IsWord(w)
    ensures TrimSpace(w) == w
  {
    assert TrimLeft(w) == w;
    assert TrimRight(w) == w;
  }

  // ---------------------------------------------------------------------
  // Decimal rendering of a natural number (the `%d` verb).

  function DigitChar(d: nat): (c: char)
    requires d < 10
    ensures '0' <= c <= '9' && c as int - '0' as int == d
  {
    ('0' as int + d) as char
  }

  /** The number a string of decimal digits stands for (strconv.Atoi on digits alone). */
  function DecimalValue(ds: string): nat {
    if |ds| == 0 then 0
    else
      var d := ds[|ds| - 1] as int - '0' as int;
      DecimalValue(ds[..|ds| - 1]) * 10 + (if 0 <= d then d else 0)
  }

  /** `%d` of n: decimal digits, no leading zero, standing for n. */
  function Decimal(n: nat): (r: string)
    ensures |r| > 0
    ensures forall k :: 0 <= k < |r| ==> '0' <= r[k] <= '9'
    ensures r[0] == '0' ==> r == "0"
    ensures DecimalValue(r) == n
  {
    if n < 10 then [DigitChar(n)]
    else
      var r := Decimal(n / 10) + [DigitChar(n % 10)];
      assert r[..|r| - 1] == Decimal(n / 10);
      r
  }
}
