/** The text operations the build scripts use: whitespace, stripping, lines and words. */
module PythonText {
  /** Every character that str.isspace and the regular expression class \s accept. */
  predicate IsSpace(c: char) {
    var n := c as int;
    || 0x09 <= n <= 0x0D || 0x1C <= n <= 0x20 || n == 0x85 || n == 0xA0 || n == 0x1680
    || 0x2000 <= n <= 0x200A || n == 0x2028 || n == 0x2029 || n == 0x202F || n == 0x205F || n == 0x3000
  }

  /** Every character at which str.splitlines ends a line. */
  predicate IsBreak(c: char) {
    var n := c as int;
    0x0A <= n <= 0x0D || 0x1C <= n <= 0x1E || n == 0x85 || n == 0x2028 || n == 0x2029
  }

  ghost predicate NoBreak(s: string) { forall i | 0 <= i < |s| :: !IsBreak(s[i]) }

  ghost predicate NoSpace(s: string) { forall i | 0 <= i < |s| :: !IsSpace(s[i]) }

  function LeftStrip(s: string): (r: string)
    ensures |r| <= |s| && r == s[|s| - |r|..]
    ensures r == "" || !IsSpace(r[0])
  {
    if s != "" && IsSpace(s[0]) then LeftStrip(s[1..]) else s
  }

  function RightStrip(s: string): (r: string)
    ensures |r| <= |s| && r == s[..|r|]
    ensures r == "" || !IsSpace(r[|r| - 1])
  {
    if s != "" && IsSpace(s[|s| - 1]) then RightStrip(s[..|s| - 1]) else s
  }

  function Strip(s: string): string { RightStrip(LeftStrip(s)) }

  /** Where the first line of `s` ends. */
  function LineEnd(s: string): (k: nat)
    ensures k <= |s| && NoBreak(s[..k]) && (k < |s| ==> IsBreak(s[k]))
  {
    if s == "" || IsBreak(s[0]) then 0
    else
      var k := 1 + LineEnd(s[1..]);
      assert forall i | 0 < i < k :: s[i] == s[1..][..k - 1][i - 1];
      k
  }

  /** A carriage return and a line feed together end one line. */
  function BreakLength(s: string, k: nat): (n: nat)
    requires k < |s|
    ensures 1 <= n && k + n <= |s|
  {
    if s[k] == '\r' && k + 1 < |s| && s[k + 1] == '\n' then 2 else 1
  }

  function SplitLines(s: string): (lines: seq<string>)
    ensures forall i | 0 <= i < |lines| :: NoBreak(lines[i])
    decreases |s|
  {
    if s == "" then []
    else
      var k := LineEnd(s);
      if k == |s| then assert s == s[..k]; [s] else [s[..k]] + SplitLines(s[k + BreakLength(s, k)..])
  }

  /** The text of the lines, each ended by a line feed. */
  function Unlines(lines: seq<string>): string {
    if lines == [] then "" else Unlines(lines[..|lines| - 1]) + (lines[|lines| - 1] + "\n")
  }

  lemma FirstEnd(l: string, rest: string)
    requires NoBreak(l)
    ensures LineEnd(l + "\n" + rest) == |l|
  {
    hide LineEnd;
    var s := l + "\n" + rest;
    var k := LineEnd(s);
    assert IsBreak(s[|l|]);
    assert forall i | 0 <= i < |l| :: s[i] == l[i];
    forall i | 0 <= i < k ensures !IsBreak(s[i]) { assert s[..k][i] == s[i]; }
  }

  lemma FirstLine(l: string, rest: string)
    requires NoBreak(l)
    ensures SplitLines(l + "\n" + rest) == [l] + SplitLines(rest)
  {
    hide LineEnd, NoBreak, IsBreak;
    var s := l + "\n" + rest;
    FirstEnd(l, rest);
    assert s[|l|] == '\n';
    assert s[..|l|] == l && s[|l| + 1..] == rest;
  }

  lemma Regroup(a: string, b: string, c: string)
    ensures (a + b) + c == a + (b + c)
  {
  }

  lemma {:induction false} UnlinesFront(lines: seq<string>)
    requires lines != []
    ensures Unlines(lines) == lines[0] + "\n" + Unlines(lines[1..])
  {
    if |lines| == 1 {
      assert lines[..0] == [] && lines[1..] == [];
    } else {
      var n := |lines| - 1;
      UnlinesFront(lines[..n]);
      assert lines[..n][1..] == lines[1..][..n - 1];
      Regroup(lines[0] + "\n", Unlines(lines[1..n]), lines[n] + "\n");
    }
  }

  /** Splitting undoes joining for lines without line breaks. */
  lemma {:induction false} SplitUnlines(lines: seq<string>)
    requires forall i | 0 <= i < |lines| :: NoBreak(lines[i])
    ensures SplitLines(Unlines(lines)) == lines
  {
    if lines != [] {
      UnlinesFront(lines);
      FirstLine(lines[0], Unlines(lines[1..]));
      SplitUnlines(lines[1..]);
    }
  }

  /** Stripping a text that starts and ends with other characters changes nothing. */
  lemma StripNothing(s: string)
    requires s != "" && !IsSpace(s[0]) && !IsSpace(s[|s| - 1])
    ensures Strip(s) == s
  {
  }

  // ---------- Words ----------

  function WordEnd(s: string): (k: nat)
    ensures k <= |s| && NoSpace(s[..k]) && (k < |s| ==> IsSpace(s[k]))
    ensures s != "" && !IsSpace(s[0]) ==> k > 0
  {
    if s == "" || IsSpace(s[0]) then 0
    else
      var k := 1 + WordEnd(s[1..]);
      assert forall i | 0 < i < k :: s[i] == s[1..][..k - 1][i - 1];
      k
  }

  /** The maximal runs of other characters, in order. */
  function Words(s: string): (ws: seq<string>)
    ensures forall i | 0 <= i < |ws| :: ws[i] != "" && NoSpace(ws[i])
    decreases |s|
  {
    var t := LeftStrip(s);
    if t == "" then []
    else
      var k := WordEnd(t);
      [t[..k]] + Words(t[k..])
  }

  // ---------- Lines ----------

  /** A line feed, a carriage return and a line feed, or any other single break. */
  predicate IsEnding(e: string) { e == "\r\n" || (|e| == 1 && IsBreak(e[0])) }

  /** The text is the lines, each with its ending, in order; the last one may have no ending if it is
      not empty, and no ending splits a carriage return from its line feed. */
  ghost predicate AreLines(s: string, lines: seq<string>, endings: seq<string>)
    decreases |lines|
  {
    if lines == [] then s == "" && endings == []
    else
      && endings != []
      && NoBreak(lines[0])
      && lines[0] + endings[0] <= s
      && var rest := s[|lines[0]| + |endings[0]|..];
         && (IsEnding(endings[0]) || (endings[0] == "" && lines[0] != "" && rest == ""))
         && !(endings[0] == "\r" && rest != "" && rest[0] == '\n')
         && AreLines(rest, lines[1..], endings[1..])
  }

  lemma OneMoreLine(s: string, l: string, e: string, lines: seq<string>, endings: seq<string>)
    requires NoBreak(l) && l + e <= s && AreLines(s[|l| + |e|..], lines, endings)
    requires var rest := s[|l| + |e|..];
      && (IsEnding(e) || (e == "" && l != "" && rest == ""))
      && !(e == "\r" && rest != "" && rest[0] == '\n')
    ensures AreLines(s, [l] + lines, [e] + endings)
  {
    hide NoBreak, IsEnding;
    assert ([l] + lines)[1..] == lines && ([e] + endings)[1..] == endings;
  }

  /** Splitting into lines keeps every character but the endings. */
  lemma {:induction false} SplitLinesAre(s: string) returns (endings: seq<string>)
    ensures AreLines(s, SplitLines(s), endings)
    decreases |s|
  {
    hide IsBreak, NoBreak, AreLines, IsEnding;
    if s == "" {
      endings := [];
      NoLines();
    } else {
      var k := LineEnd(s);
      if k == |s| {
        assert s[..k] == s && s + "" == s && s[|s| + |""|..] == "";
        NoLines();
        OneMoreLine(s, s, "", [], []);
        endings := [""] + [];
        assert SplitLines(s) == [s] + [];
      } else {
        var n := BreakLength(s, k);
        var more := SplitLinesAre(s[k + n..]);
        assert s[..k] + s[k..k + n] == s[..k + n];
        EndingIs(s, k);
        OneMoreLine(s, s[..k], s[k..k + n], SplitLines(s[k + n..]), more);
        endings := [s[k..k + n]] + more;
      }
    }
  }

  lemma NoLines()
    ensures AreLines("", [], [])
  {
  }

  lemma EndingIs(s: string, k: nat)
    requires k < |s| && IsBreak(s[k])
    ensures var n := BreakLength(s, k); var e, rest := s[k..k + n], s[k + n..];
      IsEnding(e) && !(e == "\r" && rest != "" && rest[0] == '\n')
  {
    hide IsBreak;
    var n := BreakLength(s, k);
    if n == 2 { assert s[k..k + 2] == "\r\n"; }
  }
}
