/** The scan of a project file against what a default qmake build takes: exactly on which files the
    two decide every plain line alike, and three files on which they do not. */
module ProBuild {
  import opened PythonText
  import opened ProScanner

  // ---------- What a default qmake build takes ----------

  /** For each plain line, whether a build without opt-in flags takes it.  `on(k)` is the truth of
      the condition on line `k`, for the first line of a block or the middle line of an else; `at`
      is the number of the first line, `live` whether the build takes this place at all.  A body is
      taken when its condition holds, an else branch when its own does and none before it did. */
  function BuildMarks(f: Forest, at: nat, on: nat -> bool, live: bool): (ms: seq<bool>)
    ensures |ms| == PlainCount(f)
    decreases f
  {
    match f
    case Empty => []
    case Plain(_, rest) => [live] + BuildMarks(rest, at + 1, on, live)
    case Block(opener, body, tail) =>
      var holds := Holds(opener, at, on);
      BuildMarks(body, at + 1, on, live && holds)
        + TailBuildMarks(tail, at + 1 + |Lines(body)|, on, live && !holds, live)
  }

  /** `pending` while no branch of the block has been taken. */
  function TailBuildMarks(t: Tail, at: nat, on: nat -> bool, pending: bool, live: bool): (ms: seq<bool>)
    ensures |ms| == TailPlainCount(t)
    decreases t
  {
    match t
    case Close(_, rest) => BuildMarks(rest, at + 1, on, live)
    case Else(_, body, tail) =>
      BuildMarks(body, at + 1, on, pending && on(at))
        + TailBuildMarks(tail, at + 1 + |Lines(body)|, on, pending && !on(at), live)
  }

  /** The condition of a block; no opt-in flag is set. */
  predicate Holds(opener: string, at: nat, on: nat -> bool) { !OptInOpen(opener) && on(at) }

  /** Some plain line stands outside the opt-in blocks. */
  predicate Shows(f: Forest) {
    match f
    case Empty => false
    case Plain(_, _) => true
    case Block(opener, body, tail) => (!OptInOpen(opener) && Shows(body)) || TailShows(tail, !OptInOpen(opener))
  }

  predicate TailShows(t: Tail, inside: bool) {
    match t
    case Close(_, rest) => Shows(rest)
    case Else(_, body, tail) => (inside && Shows(body)) || TailShows(tail, inside)
  }

  /** Some plain line is taken by a build that takes this place. */
  predicate Yields(f: Forest, at: nat, on: nat -> bool)
    decreases f
  {
    match f
    case Empty => false
    case Plain(_, _) => true
    case Block(opener, body, tail) =>
      || (Holds(opener, at, on) && Yields(body, at + 1, on))
      || TailYields(tail, at + 1 + |Lines(body)|, on, !Holds(opener, at, on))
  }

  predicate TailYields(t: Tail, at: nat, on: nat -> bool, pending: bool)
    decreases t
  {
    match t
    case Close(_, rest) => Yields(rest, at + 1, on)
    case Else(_, body, tail) =>
      || (pending && on(at) && Yields(body, at + 1, on))
      || TailYields(tail, at + 1 + |Lines(body)|, on, pending && !on(at))
  }

  /** What the file must be like for the scan to be right: where the build takes the place, every
      branch it leaves out shows no plain line outside opt-in blocks, and the else branch it takes
      of an opt-in block yields none. */
  predicate Suits(f: Forest, at: nat, on: nat -> bool)
    decreases f, 1
  {
    match f
    case Empty => true
    case Plain(_, rest) => Suits(rest, at + 1, on)
    case Block(opener, body, tail) =>
      && BranchSuits(body, at + 1, on, !OptInOpen(opener), Holds(opener, at, on))
      && TailSuits(tail, at + 1 + |Lines(body)|, on, !OptInOpen(opener), !Holds(opener, at, on))
  }

  predicate TailSuits(t: Tail, at: nat, on: nat -> bool, inside: bool, pending: bool)
    decreases t, 1
  {
    match t
    case Close(_, rest) => Suits(rest, at + 1, on)
    case Else(_, body, tail) =>
      && BranchSuits(body, at + 1, on, inside, pending && on(at))
      && TailSuits(tail, at + 1 + |Lines(body)|, on, inside, pending && !on(at))
  }

  /** One branch: `scanned` when it stands outside opt-in blocks, `taken` by the build or not. */
  predicate BranchSuits(body: Forest, at: nat, on: nat -> bool, scanned: bool, taken: bool)
    decreases body, 2
  {
    if taken then (if scanned then Suits(body, at, on) else !Yields(body, at, on))
    else scanned ==> !Shows(body)
  }

  ghost predicate AllOff(ms: seq<bool>) { forall i | 0 <= i < |ms| :: !ms[i] }

  lemma OffJoin(a: seq<bool>, b: seq<bool>)
    ensures AllOff(a + b) <==> AllOff(a) && AllOff(b)
  {
    if AllOff(a + b) {
      assert forall i | 0 <= i < |a| :: a[i] == (a + b)[i];
      assert forall i | 0 <= i < |b| :: b[i] == (a + b)[|a| + i];
    }
  }

  lemma SameJoin<T>(a: seq<T>, b: seq<T>, c: seq<T>, d: seq<T>)
    requires |a| == |c|
    ensures a + b == c + d <==> a == c && b == d
  {
    if a + b == c + d {
      assert a == (a + b)[..|a|] && b == (a + b)[|a|..];
      assert c == (c + d)[..|c|] && d == (c + d)[|c|..];
    }
  }

  lemma SameOff(a: seq<bool>, b: seq<bool>)
    requires |a| == |b| && AllOff(a)
    ensures a == b <==> AllOff(b)
  {
    if AllOff(b) { assert forall i | 0 <= i < |a| :: a[i] == b[i]; }
  }

  lemma {:induction false} ShowsIff(f: Forest, live: bool)
    ensures AllOff(ReadingMarks(f, live)) <==> !live || !Shows(f)
    decreases f
  {
    hide OptInOpen, AllOff;
    match f
    case Empty => assert AllOff([]) by { OffNone(); }
    case Plain(_, rest) =>
      ShowsIff(rest, live);
      OffOne(live);
      OffJoin([live], ReadingMarks(rest, live));
    case Block(opener, body, tail) =>
      var inside := live && !OptInOpen(opener);
      ShowsIff(body, inside);
      TailShowsIff(tail, inside, live);
      OffJoin(ReadingMarks(body, inside), TailReadingMarks(tail, inside, live));
  }

  lemma {:induction false} TailShowsIff(t: Tail, inside: bool, live: bool)
    requires inside ==> live
    ensures AllOff(TailReadingMarks(t, inside, live)) <==> !live || !TailShows(t, inside)
    decreases t
  {
    hide OptInOpen, AllOff;
    match t
    case Close(_, rest) => ShowsIff(rest, live);
    case Else(_, body, tail) =>
      ShowsIff(body, inside);
      TailShowsIff(tail, inside, live);
      OffJoin(ReadingMarks(body, inside), TailReadingMarks(tail, inside, live));
  }

  lemma OffNone()
    ensures AllOff([])
  {
  }

  lemma OffOne(b: bool)
    ensures AllOff([b]) <==> !b
  {
    assert [b][0] == b;
  }

  lemma {:induction false} YieldsIff(f: Forest, at: nat, on: nat -> bool, live: bool)
    ensures AllOff(BuildMarks(f, at, on, live)) <==> !live || !Yields(f, at, on)
    decreases f
  {
    hide Holds, AllOff, Lines;
    match f
    case Empty => assert AllOff([]) by { OffNone(); }
    case Plain(_, rest) =>
      YieldsIff(rest, at + 1, on, live);
      OffOne(live);
      OffJoin([live], BuildMarks(rest, at + 1, on, live));
    case Block(opener, body, tail) =>
      var holds, next := Holds(opener, at, on), at + 1 + |Lines(body)|;
      YieldsIff(body, at + 1, on, live && holds);
      TailYieldsIff(tail, next, on, live && !holds, live);
      OffJoin(BuildMarks(body, at + 1, on, live && holds), TailBuildMarks(tail, next, on, live && !holds, live));
  }

  lemma {:induction false} TailYieldsIff(t: Tail, at: nat, on: nat -> bool, pending: bool, live: bool)
    requires pending ==> live
    ensures AllOff(TailBuildMarks(t, at, on, pending, live)) <==> !live || !TailYields(t, at, on, pending)
    decreases t
  {
    hide Holds, AllOff, Lines;
    match t
    case Close(_, rest) => YieldsIff(rest, at + 1, on, live);
    case Else(_, body, tail) =>
      var next := at + 1 + |Lines(body)|;
      YieldsIff(body, at + 1, on, pending && on(at));
      TailYieldsIff(tail, next, on, pending && !on(at), live);
      OffJoin(BuildMarks(body, at + 1, on, pending && on(at)),
              TailBuildMarks(tail, next, on, pending && !on(at), live));
  }

  /** The structure's reading decides every plain line as the build does exactly on suitable files. */
  lemma {:induction false} SuitsIff(f: Forest, at: nat, on: nat -> bool)
    ensures ReadingMarks(f, true) == BuildMarks(f, at, on, true) <==> Suits(f, at, on)
    decreases f, 0
  {
    hide OptInOpen, Lines, Holds;
    match f
    case Empty =>
    case Plain(_, rest) =>
      SuitsIff(rest, at + 1, on);
      SameJoin([true], ReadingMarks(rest, true), [true], BuildMarks(rest, at + 1, on, true));
    case Block(opener, body, tail) =>
      var inside, holds, next := !OptInOpen(opener), Holds(opener, at, on), at + 1 + |Lines(body)|;
      BranchSuitsIff(body, at + 1, on, inside, holds);
      TailSuitsIff(tail, next, on, inside, !holds);
      SameJoin(ReadingMarks(body, inside), TailReadingMarks(tail, inside, true),
               BuildMarks(body, at + 1, on, holds), TailBuildMarks(tail, next, on, !holds, true));
  }

  lemma {:induction false} TailSuitsIff(t: Tail, at: nat, on: nat -> bool, inside: bool, pending: bool)
    ensures TailReadingMarks(t, inside, true) == TailBuildMarks(t, at, on, pending, true)
       <==> TailSuits(t, at, on, inside, pending)
    decreases t, 0
  {
    hide OptInOpen, Lines, Holds;
    match t
    case Close(_, rest) => SuitsIff(rest, at + 1, on);
    case Else(_, body, tail) =>
      var taken, next := pending && on(at), at + 1 + |Lines(body)|;
      BranchSuitsIff(body, at + 1, on, inside, taken);
      TailSuitsIff(tail, next, on, inside, pending && !on(at));
      SameJoin(ReadingMarks(body, inside), TailReadingMarks(tail, inside, true),
               BuildMarks(body, at + 1, on, taken), TailBuildMarks(tail, next, on, pending && !on(at), true));
  }

  lemma {:induction false} BranchSuitsIff(body: Forest, at: nat, on: nat -> bool, scanned: bool, taken: bool)
    ensures ReadingMarks(body, scanned) == BuildMarks(body, at, on, taken)
       <==> BranchSuits(body, at, on, scanned, taken)
    decreases body, 1
  {
    hide Shows, Yields, AllOff, ReadingMarks, BuildMarks;
    ShowsIff(body, scanned);
    YieldsIff(body, at, on, taken);
    if scanned && taken {
      SuitsIff(body, at, on);
    } else if scanned {
      SameOff(BuildMarks(body, at, on, taken), ReadingMarks(body, scanned));
    } else {
      SameOff(ReadingMarks(body, scanned), BuildMarks(body, at, on, taken));
    }
  }

  /** On every well-nested file, whichever of its conditions hold, the scan decides each plain line
      as a build without opt-in flags does if and only if the file suits it. */
  lemma ScanIsQmakeIff(f: Forest, on: nat -> bool)
    requires ForestOk(f)
    ensures PlainMarks(START, Lines(f)) == BuildMarks(f, 0, on, true) <==> Suits(f, 0, on)
  {
    hide PlainMarks, ReadingMarks, BuildMarks, Suits;
    ScanForest(START, f);
    SuitsIff(f, 0, on);
  }

  // ---------- Comments ----------

  /** The lines as qmake reads them: comments taken out. */
  function Uncommented(lines: seq<string>): (ls: seq<string>)
    ensures |ls| == |lines|
  {
    seq(|lines|, i requires 0 <= i < |lines| => BeforeComment(lines[i]))
  }

  predicate SameRole(x: string, y: string) {
    OptInOpen(x) == OptInOpen(y) && AnyOpen(x) == AnyOpen(y) && AnyClose(x) == AnyClose(y)
  }

  /** No line opens or closes a block with its comment and not without, or the other way round. */
  predicate CommentsHarmless(lines: seq<string>) {
    forall i | 0 <= i < |lines| :: SameRole(lines[i], BeforeComment(lines[i]))
  }

  lemma {:induction false} RolesDecide(c: Counters, xs: seq<string>, ys: seq<string>)
    requires |xs| == |ys| && forall i | 0 <= i < |xs| :: SameRole(xs[i], ys[i])
    ensures AfterAll(c, xs) == AfterAll(c, ys) && PlainMarks(c, xs) == PlainMarks(c, ys)
    decreases |xs|
  {
    hide OptInOpen, AnyOpen, AnyClose;
    if xs != [] {
      var n := |xs| - 1;
      RolesDecide(c, xs[..n], ys[..n]);
      assert SameRole(xs[n], ys[n]);
    }
  }

  /** The same for the text with its comments, which the scan looks at and qmake does not: it
      holds as long as no comment hides or shows a brace. */
  lemma CommentedScanIsQmakeIff(lines: seq<string>, f: Forest, on: nat -> bool)
    requires ForestOk(f) && Lines(f) == Uncommented(lines) && CommentsHarmless(lines)
    ensures PlainMarks(START, lines) == BuildMarks(f, 0, on, true) <==> Suits(f, 0, on)
  {
    hide PlainMarks, AfterAll, BuildMarks, Suits, SameRole, ForestOk;
    RolesDecide(START, lines, Uncommented(lines));
    ScanIsQmakeIff(f, on);
  }

  /** The plain lines that marks select. */
  function Chosen(lines: seq<string>, marks: seq<bool>): seq<string>
    requires |lines| == |marks|
  {
    if lines == [] then []
    else
      var n := |lines| - 1;
      Chosen(lines[..n], marks[..n]) + (if marks[n] then [lines[n]] else [])
  }

  // ---------- Two files on which the scan is not the build ----------

  function BuildSources(f: Forest, on: nat -> bool, exts: seq<string>): set<string> {
    Sources(Chosen(PlainLines(f), BuildMarks(f, 0, on, true)), "SOURCES", exts)
  }

  /** Of the conditions only that of the third line holds. */
  predicate ElseOnly(k: nat) { k == 2 }

  /** A block with one line in its body and one in its else branch. */
  function TwoBranches(opener: string, first: string, middle: string, second: string, closer: string): Forest {
    Block(opener, Plain(first, Empty), Else(middle, Plain(second, Empty), Close(closer, Empty)))
  }

  /** The braces of a line without white space at its ends. */
  lemma BracesLook(line: string)
    requires line != "" && !IsSpace(line[0]) && !IsSpace(line[|line| - 1])
    ensures AnyOpen(line) <==> line[|line| - 1] == '{'
    ensures AnyClose(line) <==> line[0] == '}'
  {
  }

  lemma FlagOpens(flag: string)
    requires flag != "" && !IsSpace(flag[0]) && !IsSpace(flag[|flag| - 1])
    ensures OptInOpen(flag + " {") <==> IsFlag(flag)
  {
    hide LeftStrip, RightStrip, Strip, IsFlag, IsSpace;
    var line := flag + " {";
    BlankEnd(flag);
    assert line[|line| - 1] == '{' && !IsSpace('{') by { BraceIsNoSpace(); }
    StripNothing(line);
    assert line[..|line| - 1] == flag + " ";
  }

  lemma BraceIsNoSpace()
    ensures !IsSpace('{')
  {
  }

  lemma BlankEnd(s: string)
    requires s != "" && !IsSpace(s[|s| - 1])
    ensures RightStrip(s + " ") == s
  {
    assert (s + " ")[..|s|] == s;
  }

  lemma TwoBranchesScan(opener: string, first: string, middle: string, second: string, closer: string)
    requires ForestOk(TwoBranches(opener, first, middle, second, closer))
    ensures var f := TwoBranches(opener, first, middle, second, closer);
      && Lines(f) == [opener, first, middle, second, closer]
      && Kept(START, Lines(f)) == if OptInOpen(opener) then [] else [opener, first, second]
  {
    hide AnyOpen, AnyClose, OptInOpen, Kept;
    var b, e, c := Plain(first, Empty), Plain(second, Empty), Close(closer, Empty);
    var t := Else(middle, e, c);
    ScanForest(START, Block(opener, b, t));
    assert Lines(Empty) == [] && Lines(b) == [first] && Lines(e) == [second] && TailLines(c) == [closer];
    assert TailLines(t) == [middle] + ([second] + [closer]);
    assert Reading(Empty) == [] && Reading(b) == [first] && Reading(e) == [second] && TailReading(c) == [];
    assert TailReading(t) == [second] && ReadingAfter(c) == [] && ReadingAfter(t) == [];
  }

  /** The build in which the block's own condition fails and the else holds. */
  lemma TwoBranchesBuild(opener: string, first: string, middle: string, second: string, closer: string)
    ensures var f := TwoBranches(opener, first, middle, second, closer);
      Chosen(PlainLines(f), BuildMarks(f, 0, ElseOnly, true)) == [second]
  {
    hide OptInOpen;
    var b, e, c := Plain(first, Empty), Plain(second, Empty), Close(closer, Empty);
    var t := Else(middle, e, c);
    var f := Block(opener, b, t);
    assert Lines(Empty) == [] && Lines(b) == [first];
    assert PlainLines(Empty) == [] && PlainLines(b) == [first] && PlainLines(e) == [second];
    assert TailPlainLines(c) == [] && TailPlainLines(t) == [second];
    assert BuildMarks(b, 1, ElseOnly, false) == [false] && BuildMarks(e, 3, ElseOnly, true) == [true];
    assert TailBuildMarks(c, 4, ElseOnly, false, true) == [];
    assert Lines(e) == [second];
    assert TailBuildMarks(t, 2, ElseOnly, true, true) == [true];
    var ls, ms := PlainLines(f), BuildMarks(f, 0, ElseOnly, true);
    assert ls == [first, second] && ms == [false, true];
    assert ls[..1] == [first] && ms[..1] == [false] && ls[..1][..0] == [];
    assert Chosen(ls[..1], ms[..1]) == [];
  }

  /** A line `SOURCES += w` gives the word w. */
  lemma SourceLine(w: string)
    requires w != "" && NoSpace(w) && forall i | 0 <= i < |w| :: w[i] != '#'
    ensures WordsFor("SOURCES += " + w, "SOURCES") == [w]
  {
    hide Words, BeforeComment;
    var line := "SOURCES += " + w;
    ValueIs(line, w);
    NoComment(w);
    OneWord(w);
  }

  lemma ValueIs(line: string, w: string)
    requires w != "" && NoSpace(w) && line == "SOURCES += " + w
    ensures ValueOf(line, "SOURCES") == Value(w)
  {
    hide LeftStrip, Strip, IsSpace, NoSpace;
    KeyStrips(line, w);
    StripSpaced(w);
    var u := "+= " + w;
    assert u[1..] == "= " + w && u[1..][1..] == " " + w;
  }

  lemma KeyStrips(line: string, w: string)
    requires line == "SOURCES += " + w
    ensures LeftStrip(line) == line && "SOURCES" <= line && LeftStrip(line[|"SOURCES"|..]) == "+= " + w
  {
    hide LeftStrip;
    assert line[0] == 'S' && !IsSpace('S') && !IsSpace('+');
    Unspaced(line);
    assert line[7..] == " " + ("+= " + w);
    OneSpace("+= " + w);
  }

  lemma Unspaced(s: string)
    requires s != "" && !IsSpace(s[0])
    ensures LeftStrip(s) == s
  {
  }

  lemma OneSpace(s: string)
    requires s != "" && !IsSpace(s[0])
    ensures LeftStrip(" " + s) == s
  {
    assert (" " + s)[1..] == s;
  }

  lemma StripSpaced(w: string)
    requires w != "" && NoSpace(w)
    ensures Strip(" " + w) == w
  {
    OneSpace(w);
    StripNothing(w);
    Unspaced(w);
  }

  lemma {:induction false} NoComment(w: string)
    requires forall i | 0 <= i < |w| :: w[i] != '#'
    ensures BeforeComment(w) == w
  {
    if w != "" { NoComment(w[1..]); }
  }

  lemma OneWord(w: string)
    requires w != "" && NoSpace(w)
    ensures Words(w) == [w]
  {
    assert LeftStrip(w) == w && WordEnd(w) == |w| && w[..|w|] == w;
    assert Words(w[|w|..]) == [];
  }

  lemma OtherLine(line: string)
    requires line != "" && !IsSpace(line[0]) && line[0] != 'S'
    ensures WordsFor(line, "SOURCES") == []
  {
    assert LeftStrip(line) == line;
    assert "SOURCES"[0] == 'S';
  }

  lemma SourceWord(w: string)
    requires IsSourceWord(w)
    ensures SourcesIn([w], [".c"]) == {w}
  {
    assert EndsWith(w, ".c") && ".c" in [".c"];
    assert !("$$" <= w) && w != "+=";
  }

  /** What one more line adds: the one word of a SOURCES line, or nothing. */
  lemma AddsSource(lines: seq<string>, w: string)
    requires IsSourceWord(w)
    ensures Sources(lines + ["SOURCES += " + w], "SOURCES", [".c"]) == Sources(lines, "SOURCES", [".c"]) + {w}
  {
    hide WordsFor, SourcesIn, Sources;
    OneMore(lines, "SOURCES += " + w, "SOURCES", [".c"]);
    SourceLine(w);
    SourceWord(w);
  }

  /** The else branch of an opt-in block: the build compiles a source that the scan loses. */
  lemma ElseSourceIsLost()
    ensures var f := TwoBranches("kalman_pll {", "SOURCES += k.c", "} else {", "SOURCES += a.c", "}");
      && ForestOk(f) && !Suits(f, 0, ElseOnly)
      && Sources(Kept(START, Lines(f)), "SOURCES", [".c"]) == {}
      && BuildSources(f, ElseOnly, [".c"]) == {"a.c"}
  {
    hide AnyOpen, AnyClose, OptInOpen, Kept, Sources, BuildMarks, Chosen, PlainLines;
    var opener, first, middle, second, closer := "kalman_pll {", "SOURCES += k.c", "} else {", "SOURCES += a.c", "}";
    var f := TwoBranches(opener, first, middle, second, closer);
    assert IsFlag("kalman_pll");
    FlagOpens("kalman_pll");
    assert "kalman_pll" + " {" == opener;
    TwoBranchesLook(opener, first, middle, second, closer);
    TwoBranchesScan(opener, first, middle, second, closer);
    TwoBranchesBuild(opener, first, middle, second, closer);
    NoSources();
    AddsSource([], "a.c");
    assert [] + [second] == [second] && "SOURCES += " + "a.c" == second;
  }

  /** A feature flag the scripts do not list: the scan reports a source that the build leaves out. */
  lemma UnlistedFlagIsKept()
    ensures var f := TwoBranches("cart7_support {", "SOURCES += src/cart7/uft_cart7.c", "} else {",
                                 "SOURCES += b.c", "}");
      && ForestOk(f) && !Suits(f, 0, ElseOnly)
      && Sources(Kept(START, Lines(f)), "SOURCES", [".c"]) == {"src/cart7/uft_cart7.c", "b.c"}
      && BuildSources(f, ElseOnly, [".c"]) == {"b.c"}
  {
    hide AnyOpen, AnyClose, OptInOpen, Kept, Sources, BuildMarks, Chosen, PlainLines, ForestOk, Suits, WordsFor, Lines;
    var opener, first, middle, second, closer :=
      "cart7_support {", "SOURCES += src/cart7/uft_cart7.c", "} else {", "SOURCES += b.c", "}";
    var f := TwoBranches(opener, first, middle, second, closer);
    UnlistedOpens();
    UnlistedLooks();
    TwoBranchesScan(opener, first, middle, second, closer);
    TwoBranchesBuild(opener, first, middle, second, closer);
    OtherLine(opener);
    UnlistedWords(first, second);
  }

  lemma UnlistedLooks()
    ensures var f := TwoBranches("cart7_support {", "SOURCES += src/cart7/uft_cart7.c", "} else {",
                                 "SOURCES += b.c", "}");
      ForestOk(f) && !Suits(f, 0, ElseOnly)
  {
    hide ForestOk, Suits;
    TwoBranchesLook("cart7_support {", "SOURCES += src/cart7/uft_cart7.c", "} else {", "SOURCES += b.c", "}");
  }

  lemma UnlistedWords(first: string, second: string)
    requires first == "SOURCES += src/cart7/uft_cart7.c" && second == "SOURCES += b.c"
    ensures Sources(["cart7_support {", first, second], "SOURCES", [".c"]) == {"src/cart7/uft_cart7.c", "b.c"}
    ensures Sources([second], "SOURCES", [".c"]) == {"b.c"}
  {
    hide Sources, WordsFor, IsSourceWord;
    var u, v := "src/cart7/uft_cart7.c", "b.c";
    OtherLine("cart7_support {");
    assert "SOURCES += " + u == first && "SOURCES += " + v == second;
    UnlistedWordsOk();
    SourcesOfTwo("cart7_support {", u, v);
  }

  lemma UnlistedWordsOk()
    ensures IsSourceWord("src/cart7/uft_cart7.c") && IsSourceWord("b.c")
  {
  }

  lemma UnlistedOpens()
    ensures !OptInOpen("cart7_support {")
  {
    hide OptInOpen;
    assert !IsFlag("cart7_support") by { FlagLengths("cart7_support"); }
    FlagOpens("cart7_support");
    assert "cart7_support" + " {" == "cart7_support {";
  }

  predicate IsSourceWord(w: string) {
    && 2 <= |w| && w[|w| - 2..] == ".c" && w[0] != '$' && w[0] != '+'
    && forall i | 0 <= i < |w| :: !IsSpace(w[i]) && w[i] != '#'
  }

  lemma SourcesOfTwo(opener: string, u: string, v: string)
    requires WordsFor(opener, "SOURCES") == [] && IsSourceWord(u) && IsSourceWord(v)
    ensures Sources([opener, "SOURCES += " + u, "SOURCES += " + v], "SOURCES", [".c"]) == {u, v}
    ensures Sources(["SOURCES += " + v], "SOURCES", [".c"]) == {v}
  {
    hide Sources, WordsFor, SourcesIn, IsSourceWord;
    var first, second := "SOURCES += " + u, "SOURCES += " + v;
    NoSources();
    OneMore([], opener, "SOURCES", [".c"]);
    assert [] + [opener] == [opener];
    AddsSource([opener], u);
    assert [opener] + [first] == [opener, first];
    AddsSource([opener, first], v);
    assert [opener, first] + [second] == [opener, first, second];
    AddsSource([], v);
    assert [] + [second] == [second];
  }

  lemma NoSources()
    ensures Sources([], "SOURCES", [".c"]) == {} && SourcesIn([], [".c"]) == {}
  {
  }

  lemma FlagLengths(name: string)
    ensures IsFlag(name) ==> |name| == 16 || |name| == 10 || |name| == 14
  {
  }

  lemma TwoBranchesLook(opener: string, first: string, middle: string, second: string, closer: string)
    requires opener != "" && !IsSpace(opener[0]) && opener[0] != '}' && opener[|opener| - 1] == '{'
    requires first != "" && first[0] == 'S' && !IsSpace(first[|first| - 1]) && first[|first| - 1] != '{'
    requires middle != "" && middle[0] == '}' && middle[|middle| - 1] == '{'
    requires second != "" && second[0] == 'S' && !IsSpace(second[|second| - 1]) && second[|second| - 1] != '{'
    requires closer == "}"
    ensures ForestOk(TwoBranches(opener, first, middle, second, closer))
    ensures !Suits(TwoBranches(opener, first, middle, second, closer), 0, ElseOnly)
  {
    hide AnyOpen, AnyClose, OptInOpen;
    BracesLook(opener);
    BracesLook(first);
    BracesLook(middle);
    BracesLook(second);
    BracesLook(closer);
    var b, e, c := Plain(first, Empty), Plain(second, Empty), Close(closer, Empty);
    var t := Else(middle, e, c);
    assert ForestOk(Empty) && ForestOk(b) && ForestOk(e) && TailOk(c) && TailOk(t);
    assert Lines(Empty) == [] && Lines(b) == [first];
    assert Shows(b) && Yields(e, 3, ElseOnly);
    assert BranchSuits(b, 1, ElseOnly, true, false) == false;
    assert BranchSuits(e, 3, ElseOnly, false, true) == false;
    assert TailSuits(t, 2, ElseOnly, false, true) == false;
  }

  // ---------- A comment behind a brace ----------

  /** An opt-in block whose opening line carries a comment: the scan does not see it open. */
  const COMMENTED := ["kalman_pll { # off by default", "SOURCES += k.c", "}"]

  function OptInBlock(): Forest { Block("kalman_pll { ", Plain("SOURCES += k.c", Empty), Close("}", Empty)) }

  /** The structure suits every build, yet the scan reports a source that no default build takes. */
  lemma CommentHidesBrace(on: nat -> bool)
    ensures ForestOk(OptInBlock()) && Lines(OptInBlock()) == Uncommented(COMMENTED) && !CommentsHarmless(COMMENTED)
    ensures Suits(OptInBlock(), 0, on)
    ensures Sources(Kept(START, COMMENTED), "SOURCES", [".c"]) == {"k.c"}
    ensures BuildSources(OptInBlock(), on, [".c"]) == {}
  {
    hide AnyOpen, AnyClose, OptInOpen, Sources, Kept, BeforeComment, Suits, BuildMarks, Lines;
    CommentedLooks();
    CommentedLines();
    CommentedForest();
    CommentedBuild(on);
    CommentedKept();
    assert !SameRole(COMMENTED[0], BeforeComment(COMMENTED[0])) by {
      assert Uncommented(COMMENTED)[0] == "kalman_pll { ";
    }
    CommentedSource(COMMENTED[0], "SOURCES += k.c");
  }

  lemma CommentedForest()
    requires AnyOpen("kalman_pll { ") && !AnyClose("kalman_pll { ")
    requires !AnyOpen("SOURCES += k.c") && !AnyClose("SOURCES += k.c") && AnyClose("}") && !AnyOpen("}")
    ensures ForestOk(OptInBlock()) && Lines(OptInBlock()) == ["kalman_pll { ", "SOURCES += k.c", "}"]
  {
    hide AnyOpen, AnyClose;
    var b, c := Plain("SOURCES += k.c", Empty), Close("}", Empty);
    assert ForestOk(Empty) && ForestOk(b) && TailOk(c);
    assert Lines(Empty) == [] && Lines(b) == ["SOURCES += k.c"] && TailLines(c) == ["}"];
  }

  lemma CommentedSource(first: string, second: string)
    requires first != "" && !IsSpace(first[0]) && first[0] != 'S' && second == "SOURCES += k.c"
    ensures Sources([first, second], "SOURCES", [".c"]) == {"k.c"}
  {
    hide Sources, WordsFor, SourcesIn, IsSourceWord;
    OtherLine(first);
    NoSources();
    OneMore([], first, "SOURCES", [".c"]);
    assert [] + [first] == [first];
    assert IsSourceWord("k.c") by { ShortSource("k.c"); }
    AddsSource([first], "k.c");
    assert "SOURCES += " + "k.c" == second;
    assert [first] + [second] == [first, second];
  }

  lemma ShortSource(w: string)
    requires w == "k.c"
    ensures IsSourceWord(w)
  {
  }

  lemma CommentedLooks()
    ensures !AnyOpen(COMMENTED[0]) && !AnyClose(COMMENTED[0]) && !OptInOpen(COMMENTED[0])
    ensures !AnyOpen("SOURCES += k.c") && !AnyClose("SOURCES += k.c") && !OptInOpen("SOURCES += k.c")
    ensures AnyClose("}") && !AnyOpen("}") && !OptInOpen("}")
    ensures AnyOpen("kalman_pll { ") && !AnyClose("kalman_pll { ") && OptInOpen("kalman_pll { ")
  {
    hide AnyOpen, AnyClose, OptInOpen;
    BracesLook(COMMENTED[0]);
    BracesLook("SOURCES += k.c");
    BracesLook("}");
    if OptInOpen(COMMENTED[0]) { OptInOpens(COMMENTED[0]); }
    if OptInOpen("SOURCES += k.c") { OptInOpens("SOURCES += k.c"); }
    if OptInOpen("}") { OptInOpens("}"); }
    FlagBlank("kalman_pll {");
    assert IsFlag("kalman_pll");
    FlagOpens("kalman_pll");
    assert "kalman_pll" + " {" == "kalman_pll {";
    assert "kalman_pll {" + " " == "kalman_pll { ";
    OptInOpens("kalman_pll { ");
  }

  lemma FlagBlank(line: string)
    requires line != "" && !IsSpace(line[0]) && !IsSpace(line[|line| - 1])
    ensures OptInOpen(line + " ") == OptInOpen(line)
  {
    hide IsFlag;
    BlankEnd(line);
    assert LeftStrip(line + " ") == line + " " && LeftStrip(line) == line;
    assert RightStrip(line) == line;
  }

  lemma CommentedLines()
    ensures Uncommented(COMMENTED) == ["kalman_pll { ", "SOURCES += k.c", "}"]
  {
    hide BeforeComment;
    CommentStarts("kalman_pll { ", " off by default");
    assert "kalman_pll { " + ("#" + " off by default") == COMMENTED[0];
    NoComment("SOURCES += k.c");
    NoComment("}");
  }

  lemma {:induction false} CommentStarts(s: string, comment: string)
    requires forall i | 0 <= i < |s| :: s[i] != '#'
    ensures BeforeComment(s + ("#" + comment)) == s
    decreases |s|
  {
    var all := s + ("#" + comment);
    if s == "" {
      assert all[0] == '#';
    } else {
      assert all[0] == s[0] && all[1..] == s[1..] + ("#" + comment);
      CommentStarts(s[1..], comment);
    }
  }

  lemma CommentedBuild(on: nat -> bool)
    requires OptInOpen("kalman_pll { ")
    ensures Suits(OptInBlock(), 0, on) && BuildSources(OptInBlock(), on, [".c"]) == {}
  {
    hide OptInOpen;
    var b, c := Plain("SOURCES += k.c", Empty), Close("}", Empty);
    assert PlainLines(b) == ["SOURCES += k.c"] && TailPlainLines(c) == [];
    assert BuildMarks(b, 1, on, false) == [false] && TailBuildMarks(c, 1 + 1, on, true, true) == [];
    assert PlainLines(OptInBlock()) == ["SOURCES += k.c"] && BuildMarks(OptInBlock(), 0, on, true) == [false];
    assert Chosen(["SOURCES += k.c"], [false]) == [];
    NoSources();
  }

  lemma CommentedKept()
    requires !AnyOpen(COMMENTED[0]) && !AnyClose(COMMENTED[0]) && !OptInOpen(COMMENTED[0])
    requires !AnyOpen("SOURCES += k.c") && !AnyClose("SOURCES += k.c") && !OptInOpen("SOURCES += k.c")
    requires AnyClose("}") && !AnyOpen("}") && !OptInOpen("}")
    ensures Kept(START, COMMENTED) == [COMMENTED[0], COMMENTED[1]]
  {
    hide AnyOpen, AnyClose, OptInOpen, Kept, AfterAll;
    KeptStep(COMMENTED, 0);
    KeptStep(COMMENTED, 1);
    KeptStep(COMMENTED, 2);
    RunNone(START);
    assert COMMENTED[..0] == [] && COMMENTED[..3] == COMMENTED;
  }
}
