/** What the project-file scanners report, said of the text: the assignment lines, the words of their
    values, and the paths made of them. */
module ProWords {
  import opened PythonText
  import opened ProScanner

  // ---------- Words ----------

  /** A maximal run of characters that are no white space. */
  predicate IsRun(s: string, i: nat, j: nat) {
    && i < j <= |s|
    && (forall k | i <= k < j :: !IsSpace(s[k]))
    && (i == 0 || IsSpace(s[i - 1]))
    && (j == |s| || IsSpace(s[j]))
  }

  datatype Span = Span(from: nat, to: nat)

  /** The words stand in the text at the spans, which are runs and in order. */
  ghost predicate StandAt(s: string, ws: seq<string>, spans: seq<Span>) {
    && |ws| == |spans|
    && (forall k | 0 <= k < |spans| :: IsRun(s, spans[k].from, spans[k].to) && ws[k] == s[spans[k].from..spans[k].to])
    && forall k, l | 0 <= k < l < |spans| :: spans[k].to < spans[l].from
  }

  ghost predicate Complete(s: string, spans: seq<Span>) {
    forall i: nat, j: nat | IsRun(s, i, j) :: Span(i, j) in spans
  }

  /** The spans are the runs of the text, all of them and in order, and the words stand there. */
  ghost predicate AreRuns(s: string, ws: seq<string>, spans: seq<Span>) {
    StandAt(s, ws, spans) && Complete(s, spans)
  }

  function Shifted(spans: seq<Span>, n: nat): (r: seq<Span>)
    ensures |r| == |spans| && forall k | 0 <= k < |r| :: r[k] == Span(spans[k].from + n, spans[k].to + n)
  {
    seq(|spans|, k requires 0 <= k < |spans| => Span(spans[k].from + n, spans[k].to + n))
  }

  lemma {:induction false} LeftStripped(s: string)
    ensures forall k | 0 <= k < |s| - |LeftStrip(s)| :: IsSpace(s[k])
    decreases |s|
  {
    hide IsSpace;
    if s != "" && IsSpace(s[0]) {
      LeftStripped(s[1..]);
      assert forall k | 1 <= k < |s| :: s[k] == s[1..][k - 1];
    }
  }

  /** The first word stands between `b` and `e`. */
  predicate FirstAt(s: string, b: nat, e: nat) {
    && b < e <= |s| && (forall k | 0 <= k < b :: IsSpace(s[k])) && (forall k | b <= k < e :: !IsSpace(s[k]))
    && (e == |s| || IsSpace(s[e]))
  }

  lemma FirstIsRun(s: string, b: nat, e: nat)
    requires FirstAt(s, b, e)
    ensures IsRun(s, b, e)
  {
    hide IsSpace;
  }

  /** A run behind the first word starts behind a blank. */
  lemma LaterRun(s: string, b: nat, e: nat, i: nat, j: nat)
    requires FirstAt(s, b, e) && IsRun(s[e..], i, j)
    ensures 0 < i && IsRun(s, i + e, j + e) && s[e..][i..j] == s[i + e..j + e]
  {
    hide IsSpace;
    assert s[e..][0] == s[e];
    RunMoves(s, e, i, j);
  }

  lemma EarlierRun(s: string, b: nat, e: nat, i: nat, j: nat)
    requires FirstAt(s, b, e) && IsRun(s, i, j) && e < i
    ensures IsRun(s[e..], i - e, j - e)
  {
    hide IsSpace;
    assert s[e..][i - e - 1] == s[i - 1];
    assert j < |s| ==> s[e..][j - e] == s[j];
  }

  /** The first word and the runs of what follows it. */
  lemma OneMoreRun(s: string, b: nat, e: nat, ws: seq<string>, rest: seq<Span>)
    requires FirstAt(s, b, e) && AreRuns(s[e..], ws, rest)
    ensures AreRuns(s, [s[b..e]] + ws, [Span(b, e)] + Shifted(rest, e))
  {
    hide StandAt, Complete, FirstAt;
    OneMoreStands(s, b, e, ws, rest);
    OneMoreComplete(s, b, e, rest);
  }

  lemma OneMoreStands(s: string, b: nat, e: nat, ws: seq<string>, rest: seq<Span>)
    requires FirstAt(s, b, e) && StandAt(s[e..], ws, rest)
    ensures StandAt(s, [s[b..e]] + ws, [Span(b, e)] + Shifted(rest, e))
  {
    hide IsSpace, IsRun, FirstAt;
    FirstIsRun(s, b, e);
    RunInside(s, b, e);
    var u, all, spans := s[e..], [s[b..e]] + ws, [Span(b, e)] + Shifted(rest, e);
    forall k | 1 <= k < |spans|
      ensures IsRun(s, spans[k].from, spans[k].to) && e < spans[k].from < spans[k].to <= |s|
      ensures all[k] == s[spans[k].from..spans[k].to]
    {
      RunInside(u, rest[k - 1].from, rest[k - 1].to);
      LaterRun(s, b, e, rest[k - 1].from, rest[k - 1].to);
    }
  }

  lemma OneMoreComplete(s: string, b: nat, e: nat, rest: seq<Span>)
    requires FirstAt(s, b, e) && Complete(s[e..], rest)
    ensures Complete(s, [Span(b, e)] + Shifted(rest, e))
  {
    hide IsSpace, IsRun, FirstAt;
    var spans := [Span(b, e)] + Shifted(rest, e);
    forall i: nat, j: nat | IsRun(s, i, j) ensures Span(i, j) in spans {
      if i <= e {
        RunIsFirst(s, b, e, i, j);
        assert spans[0] == Span(i, j);
      } else {
        EarlierRun(s, b, e, i, j);
        RunInside(s, i, j);
        assert Span(i - e, j - e) in rest;
        var k :| 0 <= k < |rest| && rest[k] == Span(i - e, j - e);
        assert spans[k + 1] == Span(i, j);
      }
    }
  }

  lemma RunInside(s: string, i: nat, j: nat)
    requires IsRun(s, i, j)
    ensures i < j <= |s|
  {
  }

  lemma RunMoves(s: string, e: nat, i: nat, j: nat)
    requires e <= |s| && 0 < i && IsRun(s[e..], i, j)
    ensures IsRun(s, e + i, e + j) && s[e..][i..j] == s[e + i..e + j]
  {
    assert s[e..][i - 1] == s[e + i - 1];
  }

  lemma RunIsFirst(s: string, b: nat, e: nat, i: nat, j: nat)
    requires FirstAt(s, b, e) && IsRun(s, i, j) && i <= e
    ensures i == b && j == e
  {
    hide IsSpace;
    assert !IsSpace(s[i]);
  }

  /** The first word: behind `b` blanks, up to `e`. */
  lemma FirstWord(s: string) returns (b: nat, e: nat)
    ensures b <= e <= |s| && (forall k | 0 <= k < b :: IsSpace(s[k]))
    ensures b < |s| ==> FirstAt(s, b, e)
    ensures Words(s) == if b == |s| then [] else [s[b..e]] + Words(s[e..])
  {
    hide IsSpace, LeftStrip;
    var t := LeftStrip(s);
    LeftStripped(s);
    b := |s| - |t|;
    if t == "" {
      e := |s|;
    } else {
      var k := WordEnd(t);
      e := b + k;
      assert forall i | b <= i < e :: s[i] == t[..k][i - b];
      assert t[k..] == s[e..] && t[..k] == s[b..e];
      assert k < |t| ==> t[k] == s[e];
    }
  }

  /** Splitting at white space lists every maximal run, in order, and nothing else. */
  lemma {:induction false} WordsAre(s: string) returns (spans: seq<Span>)
    ensures AreRuns(s, Words(s), spans)
    decreases |s|
  {
    hide IsSpace, AreRuns, Words;
    var b, e := FirstWord(s);
    if b == |s| {
      spans := [];
      NoRuns(s);
    } else {
      var rest := WordsAre(s[e..]);
      OneMoreRun(s, b, e, Words(s[e..]), rest);
      spans := [Span(b, e)] + Shifted(rest, e);
    }
  }

  lemma NoRuns(s: string)
    requires forall k | 0 <= k < |s| :: IsSpace(s[k])
    ensures AreRuns(s, [], [])
  {
    hide IsSpace;
    forall i: nat, j: nat ensures !IsRun(s, i, j) {
      if i < |s| { assert IsSpace(s[i]); }
    }
  }

  /** The word is a maximal run of the text. */
  ghost predicate HasWord(s: string, w: string) {
    exists i: nat, j: nat :: IsRun(s, i, j) && w == s[i..j]
  }

  lemma WordIff(s: string, w: string)
    ensures w in Words(s) <==> HasWord(s, w)
  {
    hide IsSpace, Words;
    var spans := WordsAre(s);
    if w in Words(s) {
      var k :| 0 <= k < |Words(s)| && Words(s)[k] == w;
      assert IsRun(s, spans[k].from, spans[k].to);
    }
    if HasWord(s, w) {
      var i: nat, j: nat :| IsRun(s, i, j) && w == s[i..j];
      assert Span(i, j) in spans;
      var k :| 0 <= k < |spans| && spans[k] == Span(i, j);
      assert Words(s)[k] == w;
    }
  }

  // ---------- Assignment lines ----------

  predicate Blank(s: string) { forall i | 0 <= i < |s| :: IsSpace(s[i]) }

  predicate NoBlankEnds(s: string) { s == "" || (!IsSpace(s[0]) && !IsSpace(s[|s| - 1])) }

  predicate Shape(line: string, key: string, text: string, a: string, b: string, op: string, c: string, d: string) {
    && line == a + (key + (b + (op + (c + (text + d)))))
    && Blank(a) && Blank(b) && Blank(c) && Blank(d) && (op == "=" || op == "+=") && NoBlankEnds(text)
  }

  /** The line is the key, an equals sign with or without a plus before it, and the text, with any
      white space around them. */
  ghost predicate Assigns(line: string, key: string, text: string) {
    exists a, b, op, c, d :: Shape(line, key, text, a, b, op, c, d)
  }

  lemma {:induction false} BlankFront(a: string, s: string)
    requires Blank(a) && (s == "" || !IsSpace(s[0]))
    ensures LeftStrip(a + s) == s
    decreases |a|
  {
    hide IsSpace;
    if a == "" {
      assert a + s == s;
    } else {
      assert (a + s)[0] == a[0] && (a + s)[1..] == a[1..] + s;
      assert IsSpace(a[0]);
      BlankFront(a[1..], s);
    }
  }

  lemma {:induction false} BlankBack(s: string, d: string)
    requires Blank(d) && (s == "" || !IsSpace(s[|s| - 1]))
    ensures RightStrip(s + d) == s
    decreases |d|
  {
    hide IsSpace;
    if d == "" {
      assert s + d == s;
    } else {
      var n := |d| - 1;
      assert (s + d)[|s + d| - 1] == d[n] && (s + d)[..|s + d| - 1] == s + d[..n];
      assert IsSpace(d[n]);
      BlankBack(s, d[..n]);
    }
  }

  lemma BlankBoth(c: string, text: string, d: string)
    requires Blank(c) && Blank(d) && NoBlankEnds(text)
    ensures Strip(c + (text + d)) == text
  {
    hide IsSpace, Blank;
    if text == "" {
      assert c + (text + d) == (c + d) + "";
      assert Blank(c + d) by { JoinBlank(c, d); }
      BlankFront(c + d, "");
    } else {
      assert text + d != "" && (text + d)[0] == text[0];
      BlankFront(c, text + d);
      BlankBack(text, d);
    }
  }

  lemma JoinBlank(c: string, d: string)
    requires Blank(c) && Blank(d)
    ensures Blank(c + d)
  {
  }

  lemma {:induction false} RightStripped(s: string)
    ensures forall k | |RightStrip(s)| <= k < |s| :: IsSpace(s[k])
    decreases |s|
  {
    hide IsSpace;
    if s != "" && IsSpace(s[|s| - 1]) { RightStripped(s[..|s| - 1]); }
  }

  /** The value, step by step. */
  lemma ValueFrom(line: string, key: string, rest: string, op: string, v: string)
    requires LeftStrip(line) == key + rest && LeftStrip(rest) == op + v && (op == "=" || op == "+=")
    ensures ValueOf(line, key) == Value(Strip(v))
  {
    hide LeftStrip, Strip;
    assert (key + rest)[|key|..] == rest;
    var u := op + v;
    if op == "+=" {
      assert u[0] == '+' && u[1..] == "=" + v && ("=" + v)[1..] == v;
    } else {
      assert u[0] == '=' && u[1..] == v;
    }
  }

  lemma AssignedIsValue(line: string, key: string, text: string)
    requires key != "" && !IsSpace(key[0]) && Assigns(line, key, text)
    ensures ValueOf(line, key) == Value(text)
  {
    hide IsSpace, Blank, NoBlankEnds, LeftStrip, Strip, ValueOf;
    var a, b, op, c, d :| Shape(line, key, text, a, b, op, c, d);
    var v := c + (text + d);
    BlankBoth(c, text, d);
    var u := op + v;
    assert u != "" && u[0] == op[0];
    SignsAreNoSpace();
    BlankFront(b, u);
    var rest := b + u;
    var t := key + rest;
    assert t != "" && t[0] == key[0];
    BlankFront(a, t);
    ValueFrom(line, key, rest, op, v);
  }

  lemma SignsAreNoSpace()
    ensures !IsSpace('=') && !IsSpace('+')
  {
  }

  lemma StripParts(s: string) returns (c: string, d: string)
    ensures Blank(c) && Blank(d) && s == c + (Strip(s) + d) && NoBlankEnds(Strip(s))
  {
    hide IsSpace, LeftStrip, RightStrip, Blank;
    c := FrontBlank(s);
    d := BackBlank(LeftStrip(s));
    var t, r := LeftStrip(s), RightStrip(LeftStrip(s));
    assert r != "" ==> r[0] == t[0];
  }

  lemma BackBlank(s: string) returns (d: string)
    ensures Blank(d) && s == RightStrip(s) + d
  {
    hide IsSpace;
    RightStripped(s);
    d := s[|RightStrip(s)|..];
  }

  lemma ValueIsAssigned(line: string, key: string)
    requires ValueOf(line, key).Value?
    ensures Assigns(line, key, ValueOf(line, key).text)
  {
    hide IsSpace, Blank, NoBlankEnds, LeftStrip, Strip;
    var t := LeftStrip(line);
    var u := LeftStrip(t[|key|..]);
    var plus := u != "" && u[0] == '+';
    var v := if plus then u[1..] else u;
    var op := if plus then "+=" else "=";
    assert u == op + v[1..];
    var a := FrontBlank(line);
    var b := FrontBlank(t[|key|..]);
    var c, d := StripParts(v[1..]);
    assert t == key + t[|key|..];
    assert Shape(line, key, Strip(v[1..]), a, b, op, c, d);
  }

  lemma FrontBlank(s: string) returns (a: string)
    ensures Blank(a) && s == a + LeftStrip(s)
  {
    hide IsSpace;
    LeftStripped(s);
    a := s[..|s| - |LeftStrip(s)|];
  }

  // ---------- What is reported ----------

  /** `t` is the text before its first number sign. */
  predicate IsBefore(text: string, t: string) {
    && t <= text && (forall i | 0 <= i < |t| :: t[i] != '#') && (|t| < |text| ==> text[|t|] == '#')
  }

  lemma {:induction false} BeforeIff(text: string, t: string)
    ensures t == BeforeComment(text) <==> IsBefore(text, t)
    decreases |text|
  {
    if text != "" && text[0] != '#' {
      BeforeIff(text[1..], if t == "" then "" else t[1..]);
      if t != "" { assert t == [t[0]] + t[1..]; }
    }
  }

  /** The line gives the key the word: it assigns a text in which the word is a maximal run before
      any comment. */
  ghost predicate Gives(line: string, key: string, w: string) {
    exists text, t :: Assigns(line, key, text) && IsBefore(text, t) && HasWord(t, w)
  }

  lemma GivesIff(line: string, key: string, w: string)
    requires key != "" && !IsSpace(key[0])
    ensures w in WordsFor(line, key) <==> Gives(line, key, w)
  {
    hide IsSpace, Assigns, IsBefore, HasWord, ValueOf, Words;
    var v := ValueOf(line, key);
    if v.Value? {
      ValueIsAssigned(line, key);
      BeforeIff(v.text, BeforeComment(v.text));
      WordIff(BeforeComment(v.text), w);
    }
    forall text, t | Assigns(line, key, text) && IsBefore(text, t) && HasWord(t, w)
      ensures w in WordsFor(line, key)
    {
      AssignedIsValue(line, key, text);
      BeforeIff(text, t);
      WordIff(t, w);
    }
  }

  /** No qmake variable, and one of the extensions at its end. */
  ghost predicate NamesFile(w: string, exts: seq<string>) {
    && !(2 <= |w| && w[0] == '$' && w[1] == '$') && w != "+="
    && exists k, stem :: 0 <= k < |exts| && w == stem + exts[k]
  }

  lemma NamesIff(w: string, exts: seq<string>)
    ensures IsSource(w, exts) <==> NamesFile(w, exts)
  {
    assert "$$" <= w <==> 2 <= |w| && w[0] == '$' && w[1] == '$' by { DollarIff(w); }
    if e :| e in exts && EndsWith(w, e) {
      var k :| 0 <= k < |exts| && exts[k] == e;
      assert w == w[..|w| - |e|] + exts[k];
    }
    if k, stem :| 0 <= k < |exts| && w == stem + exts[k] {
      assert exts[k] in exts && EndsWith(w, exts[k]);
    }
  }

  lemma DollarIff(w: string)
    ensures "$$" <= w <==> 2 <= |w| && w[0] == '$' && w[1] == '$'
  {
    if 2 <= |w| && w[0] == '$' && w[1] == '$' { assert w[..2] == "$$"; }
  }

  /** A file is reported exactly when some line gives it to the key. */
  lemma {:induction false} SourceIff(lines: seq<string>, key: string, exts: seq<string>, w: string)
    requires key != "" && !IsSpace(key[0])
    ensures w in Sources(lines, key, exts) <==>
      NamesFile(w, exts) && exists i | 0 <= i < |lines| :: Gives(lines[i], key, w)
    decreases |lines|
  {
    hide IsSpace, WordsFor, Gives, NamesFile, IsSource;
    if lines != [] {
      var n := |lines| - 1;
      SourceIff(lines[..n], key, exts, w);
      GivesIff(lines[n], key, w);
      NamesIff(w, exts);
      if i :| 0 <= i < n && Gives(lines[i], key, w) { assert lines[..n][i] == lines[i]; }
    }
  }

  // ---------- Include paths ----------

  predicate Occurs(s: string, part: string, i: nat) { i + |part| <= |s| && s[i..i + |part|] == part }

  /** Taking a part out: a text in which it does not occur stays; otherwise it goes where it occurs
      first, and so on behind it. */
  lemma {:induction false} WithoutIs(s: string, part: string, i: nat)
    requires part != "" && i <= |s| && forall k | 0 <= k < i :: !Occurs(s, part, k)
    ensures i == |s| ==> Without(s, part) == s
    ensures Occurs(s, part, i) ==> Without(s, part) == s[..i] + Without(s[i + |part|..], part)
    decreases |s|
  {
    hide Without, Occurs;
    if i == 0 {
      if Occurs(s, part, 0) { OccursFirst(s, part); }
      if s == "" { WithoutNothing(part); }
    } else {
      assert !Occurs(s, part, 0);
      WithoutStep(s, part);
      forall k | 0 <= k < i - 1 ensures !Occurs(s[1..], part, k) {
        OccursLater(s, part, k);
        assert !Occurs(s, part, k + 1);
      }
      WithoutIs(s[1..], part, i - 1);
      OccursLater(s, part, i - 1);
      assert [s[0]] + s[1..] == s && [s[0]] + s[1..][..i - 1] == s[..i];
      OccursInside(s, part, i);
      assert Occurs(s, part, i) ==> s[1..][i - 1 + |part|..] == s[i + |part|..];
    }
  }

  lemma OccursInside(s: string, part: string, i: nat)
    ensures Occurs(s, part, i) ==> i + |part| <= |s|
  {
  }

  lemma WithoutNothing(part: string)
    requires part != ""
    ensures Without("", part) == ""
  {
  }

  lemma OccursFirst(s: string, part: string)
    requires part != "" && Occurs(s, part, 0)
    ensures Without(s, part) == Without(s[|part|..], part)
  {
    OccursAtFront(s, part);
  }

  lemma OccursAtFront(s: string, part: string)
    ensures Occurs(s, part, 0) <==> part <= s
  {
    assert |part| <= |s| ==> s[0..|part|] == s[..|part|];
  }

  lemma WithoutStep(s: string, part: string)
    requires part != "" && s != "" && !Occurs(s, part, 0)
    ensures Without(s, part) == [s[0]] + Without(s[1..], part)
  {
    OccursAtFront(s, part);
  }

  lemma OccursLater(s: string, part: string, k: nat)
    requires s != ""
    ensures Occurs(s[1..], part, k) <==> Occurs(s, part, k + 1)
  {
    if k + 1 + |part| <= |s| { assert s[1..][k..k + |part|] == s[k + 1..k + 1 + |part|]; }
  }

  /** A word gives an include path: what is left of it, unless it is a lone sign, nothing is left, or
      another qmake variable begins it. */
  lemma PathOfWord(w: string)
    ensures var p := Without(Without(w, "$$PWD/"), "$$PWD");
      PathsIn([w]) == if w == "+=" || p == "" || (2 <= |p| && p[0] == '$' && p[1] == '$') then [] else [p]
  {
    hide Without;
    var p := Without(Without(w, "$$PWD/"), "$$PWD");
    DollarIff(p);
    assert [w][..0] == [];
  }

  /** The paths come in the order of the words, and these in the order of the lines. */
  lemma {:induction false} PathsJoin(a: seq<string>, b: seq<string>)
    ensures PathsIn(a + b) == PathsIn(a) + PathsIn(b)
    ensures Paths(a + b) == Paths(a) + Paths(b)
    decreases |b|
  {
    hide IncludePath, WordsFor;
    if b == [] {
      assert a + b == a;
    } else {
      var n := |b| - 1;
      assert (a + b)[..|a + b| - 1] == a + b[..n];
      PathsJoin(a, b[..n]);
    }
  }

  /** A path is reported exactly when some line gives a word it is made of. */
  lemma {:induction false} PathIff(lines: seq<string>, p: string)
    ensures p in Paths(lines) <==>
      exists i, w :: 0 <= i < |lines| && Gives(lines[i], "INCLUDEPATH", w) && p in PathsIn([w])
    decreases |lines|
  {
    hide WordsFor, Gives, PathsIn;
    if lines != [] {
      var n := |lines| - 1;
      PathIff(lines[..n], p);
      assert !IsSpace("INCLUDEPATH"[0]);
      WordsPath(WordsFor(lines[n], "INCLUDEPATH"), p);
      forall w ensures w in WordsFor(lines[n], "INCLUDEPATH") <==> Gives(lines[n], "INCLUDEPATH", w) {
        GivesIff(lines[n], "INCLUDEPATH", w);
      }
    }
  }

  lemma {:induction false} WordsPath(ws: seq<string>, p: string)
    ensures p in PathsIn(ws) <==> exists w | w in ws :: p in PathsIn([w])
    decreases |ws|
  {
    hide PathsIn;
    if ws == [] {
      NoPaths();
    } else {
      var n := |ws| - 1;
      assert ws == ws[..n] + [ws[n]];
      PathsJoin(ws[..n], [ws[n]]);
      WordsPath(ws[..n], p);
    }
  }

  lemma NoPaths()
    ensures PathsIn([]) == []
  {
  }

  // ---------- Braces ----------

  /** The line ends with an opening brace, white space behind it apart. */
  lemma OpenIff(line: string)
    ensures AnyOpen(line) <==> exists a, c :: Blank(c) && line == (a + "{") + c
  {
    hide IsSpace, RightStrip, Blank, AnyOpen;
    if AnyOpen(line) {
      var a, c := OpenParts(line);
      assert line == (a + "{") + c;
    }
    if a, c :| Blank(c) && line == (a + "{") + c { OpensFrom(line, a, c); }
  }

  lemma OpenParts(line: string) returns (a: string, c: string)
    requires AnyOpen(line)
    ensures Blank(c) && line == (a + "{") + c
  {
    hide IsSpace, RightStrip, Blank;
    var t := RightStrip(line);
    c := BackBlank(line);
    a := t[..|t| - 1];
    assert t == a + "{";
  }

  lemma OpensFrom(line: string, a: string, c: string)
    requires Blank(c) && line == (a + "{") + c
    ensures AnyOpen(line)
  {
    hide IsSpace, Blank;
    var t := a + "{";
    assert t[|t| - 1] == '{';
    BracesAreNoSpace();
    BlankBack(t, c);
  }

  lemma BracesAreNoSpace()
    ensures !IsSpace('{') && !IsSpace('}')
  {
  }

  /** The line starts with a closing brace, white space before it apart. */
  lemma CloseIff(line: string)
    ensures AnyClose(line) <==> exists a, c :: Blank(a) && line == a + ("}" + c)
  {
    hide IsSpace, LeftStrip, Blank, AnyClose;
    if AnyClose(line) {
      var a, c := CloseParts(line);
      assert line == a + ("}" + c);
    }
    if a, c :| Blank(a) && line == a + ("}" + c) { ClosesFrom(line, a, c); }
  }

  lemma CloseParts(line: string) returns (a: string, c: string)
    requires AnyClose(line)
    ensures Blank(a) && line == a + ("}" + c)
  {
    hide IsSpace, LeftStrip, Blank;
    var t := LeftStrip(line);
    a := FrontBlank(line);
    c := t[1..];
    assert t == "}" + c;
  }

  lemma ClosesFrom(line: string, a: string, c: string)
    requires Blank(a) && line == a + ("}" + c)
    ensures AnyClose(line)
  {
    hide IsSpace, Blank;
    var t := "}" + c;
    assert t[0] == '}';
    BracesAreNoSpace();
    BlankFront(a, t);
  }

  predicate IsOptIn(flag: string) { flag == "experimental_vfo" || flag == "kalman_pll" || flag == "switch_support" }

  predicate OptInShape(line: string, flag: string, a: string, b: string, c: string) {
    Blank(a) && Blank(b) && Blank(c) && IsOptIn(flag) && line == a + ((flag + b + "{") + c)
  }

  /** The line is one of the three flags and an opening brace, white space around them apart. */
  lemma OptInIff(line: string)
    ensures OptInOpen(line) <==> exists flag, a, b, c :: OptInShape(line, flag, a, b, c)
  {
    hide IsSpace, Strip, RightStrip, IsFlag, IsOptIn, Blank;
    if OptInOpen(line) {
      var t := Strip(line);
      var u := t[..|t| - 1];
      var a, c := StripParts(line);
      var b := BackBlank(u);
      FlagIff(RightStrip(u));
      assert t == u + "{";
      assert OptInShape(line, RightStrip(u), a, b, c);
    }
    if flag, a, b, c :| OptInShape(line, flag, a, b, c) {
      OptInFrom(line, flag, a, b, c);
    }
  }

  lemma OptInFrom(line: string, flag: string, a: string, b: string, c: string)
    requires OptInShape(line, flag, a, b, c)
    ensures OptInOpen(line)
  {
    hide IsSpace, Strip, RightStrip, IsFlag, Blank;
    FlagIff(flag);
    FlagEnds(flag);
    BracesAreNoSpace();
    var t := flag + b + "{";
    assert t[0] == flag[0] && t[|t| - 1] == '{';
    BlankBoth(a, t, c);
    assert t[..|t| - 1] == flag + b;
    BlankBack(flag, b);
  }

  lemma FlagIff(flag: string)
    ensures IsFlag(flag) <==> IsOptIn(flag)
  {
  }

  lemma FlagEnds(flag: string)
    requires IsOptIn(flag)
    ensures flag != "" && !IsSpace(flag[0]) && !IsSpace(flag[|flag| - 1])
  {
  }
}
