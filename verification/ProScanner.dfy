/** The brace-counting scan of a qmake project file, in its two copies, against the block structure
    of the file. Lines are what is left after continuation lines have been joined. */
module ProScanner {
  import opened PythonText

  const OPT_IN_FLAGS := {"experimental_vfo", "kalman_pll", "switch_support"}

  // ---------- What a line looks like ----------

  predicate IsFlag(name: string) { name in OPT_IN_FLAGS }

  /** The line ends with an opening brace. */
  predicate AnyOpen(line: string) {
    var t := RightStrip(line);
    t != "" && t[|t| - 1] == '{'
  }

  /** The line starts with a closing brace. */
  predicate AnyClose(line: string) {
    var t := LeftStrip(line);
    t != "" && t[0] == '}'
  }

  /** The line is an opt-in flag and an opening brace, nothing else. */
  predicate OptInOpen(line: string) {
    var t := Strip(line);
    t != "" && t[|t| - 1] == '{' && IsFlag(RightStrip(t[..|t| - 1]))
  }

  lemma OptInOpens(line: string)
    requires OptInOpen(line)
    ensures AnyOpen(line) && !AnyClose(line)
  {
    var t := LeftStrip(line);
    var u := RightStrip(t);
    FlagFirst(RightStrip(u[..|u| - 1]));
    RightOfLeft(line);
  }

  lemma FlagFirst(flag: string)
    requires IsFlag(flag)
    ensures flag != "" && flag[0] != '}'
  {
  }

  /** Stripping on the left leaves the right end. */
  lemma {:induction false} RightOfLeft(s: string)
    requires RightStrip(LeftStrip(s)) != ""
    ensures RightStrip(s) != "" && var t, u := RightStrip(s), RightStrip(LeftStrip(s)); t[|t| - 1] == u[|u| - 1]
    decreases |s|
  {
    var t := LeftStrip(s);
    if t != s {
      assert t == LeftStrip(s[1..]);
      RightOfLeft(s[1..]);
      RightStripFront(s);
    }
  }

  lemma {:induction false} RightStripFront(s: string)
    requires s != "" && RightStrip(s[1..]) != ""
    ensures RightStrip(s) == [s[0]] + RightStrip(s[1..])
    decreases |s|
  {
    if IsSpace(s[|s| - 1]) && |s| > 1 {
      assert s[1..][..|s| - 2] == s[..|s| - 1][1..];
      RightStripFront(s[..|s| - 1]);
    }
  }

  // ---------- The counters ----------

  datatype Counters = Counters(skipDepth: nat, braceDepth: nat, skipOrigin: int)

  const START := Counters(0, 0, -1)

  /** What one line does to the counters. */
  function After(c: Counters, line: string): Counters {
    if c.skipDepth == 0 && OptInOpen(line) then Counters(1, c.braceDepth + 1, c.braceDepth)
    else
      var o := if AnyOpen(line)
               then Counters(if c.skipDepth > 0 then c.skipDepth + 1 else 0, c.braceDepth + 1, c.skipOrigin)
               else c;
      if AnyClose(line) then
        var brace := if o.braceDepth > 0 then o.braceDepth - 1 else 0;
        var skip := if o.skipDepth > 0 then o.skipDepth - 1 else 0;
        Counters(skip, brace, if o.skipDepth == 1 && brace == o.skipOrigin then -1 else o.skipOrigin)
      else o
  }

  /** Whether the line reaches the key pattern. */
  predicate Keeps(c: Counters, line: string) {
    c.skipDepth == 0 && !OptInOpen(line) && !AnyClose(line)
  }

  function AfterAll(c: Counters, lines: seq<string>): Counters {
    if lines == [] then c else After(AfterAll(c, lines[..|lines| - 1]), lines[|lines| - 1])
  }

  /** The lines that reach the key pattern. */
  function Kept(c: Counters, lines: seq<string>): seq<string> {
    if lines == [] then []
    else
      var n := |lines| - 1;
      Kept(c, lines[..n]) + (if Keeps(AfterAll(c, lines[..n]), lines[n]) then [lines[n]] else [])
  }

  /** A line that neither opens nor closes a block. */
  predicate IsPlain(line: string) { !AnyOpen(line) && !AnyClose(line) }

  /** For each plain line, whether it reaches the key pattern. */
  function PlainMarks(c: Counters, lines: seq<string>): seq<bool> {
    if lines == [] then []
    else
      var n := |lines| - 1;
      PlainMarks(c, lines[..n]) + (if IsPlain(lines[n]) then [Keeps(AfterAll(c, lines[..n]), lines[n])] else [])
  }

  /** The skipping counters agree: while skipping, the braces open are those open where the skipped
      block began and those opened inside; otherwise no origin is remembered. */
  predicate InStep(c: Counters) {
    if c.skipDepth > 0 then 0 <= c.skipOrigin && c.braceDepth == c.skipOrigin + c.skipDepth else c.skipOrigin == -1
  }

  /** The counters stay in step over every sequence of lines, well nested or not. */
  lemma {:induction false} AlwaysInStep(c: Counters, lines: seq<string>)
    requires InStep(c)
    ensures InStep(AfterAll(c, lines))
  {
    hide AnyOpen, AnyClose, OptInOpen;
    if lines != [] { AlwaysInStep(c, lines[..|lines| - 1]); }
  }

  lemma {:induction false} RunJoins(c: Counters, xs: seq<string>, ys: seq<string>)
    ensures AfterAll(c, xs + ys) == AfterAll(AfterAll(c, xs), ys)
    ensures Kept(c, xs + ys) == Kept(c, xs) + Kept(AfterAll(c, xs), ys)
    ensures PlainMarks(c, xs + ys) == PlainMarks(c, xs) + PlainMarks(AfterAll(c, xs), ys)
    decreases |ys|
  {
    hide After, Keeps, IsPlain;
    if ys == [] {
      assert xs + ys == xs;
    } else {
      var n := |ys| - 1;
      RunJoins(c, xs, ys[..n]);
      assert (xs + ys)[..|xs| + n] == xs + ys[..n];
    }
  }

  lemma RunNone(c: Counters)
    ensures AfterAll(c, []) == c && Kept(c, []) == [] && PlainMarks(c, []) == []
  {
  }

  lemma RunOne(c: Counters, line: string)
    ensures AfterAll(c, [line]) == After(c, line)
    ensures Kept(c, [line]) == if Keeps(c, line) then [line] else []
    ensures PlainMarks(c, [line]) == if IsPlain(line) then [Keeps(c, line)] else []
  {
    hide After, Keeps, IsPlain;
    assert [line][..0] == [];
  }

  // ---------- Block structure ----------

  /** Lines and blocks; a block ends with a closing line or goes on with a middle line such as an else. */
  datatype Forest = Empty | Plain(line: string, rest: Forest) | Block(opener: string, body: Forest, tail: Tail)
  datatype Tail = Close(closer: string, rest: Forest) | Else(middle: string, body: Forest, tail: Tail)

  predicate ForestOk(f: Forest) {
    match f
    case Empty => true
    case Plain(line, rest) => !AnyOpen(line) && !AnyClose(line) && ForestOk(rest)
    case Block(opener, body, tail) => AnyOpen(opener) && !AnyClose(opener) && ForestOk(body) && TailOk(tail)
  }

  predicate TailOk(t: Tail) {
    match t
    case Close(closer, rest) => AnyClose(closer) && !AnyOpen(closer) && ForestOk(rest)
    case Else(middle, body, tail) => AnyClose(middle) && AnyOpen(middle) && ForestOk(body) && TailOk(tail)
  }

  function Lines(f: Forest): seq<string> {
    match f
    case Empty => []
    case Plain(line, rest) => [line] + Lines(rest)
    case Block(opener, body, tail) => [opener] + (Lines(body) + TailLines(tail))
  }

  function TailLines(t: Tail): seq<string> {
    match t
    case Close(closer, rest) => [closer] + Lines(rest)
    case Else(middle, body, tail) => [middle] + (Lines(body) + TailLines(tail))
  }

  /** Reading the structure: an opt-in block counts for nothing, with all it holds and all its else
      branches; of any other block the opener and the contents count. */
  function Reading(f: Forest): seq<string> {
    match f
    case Empty => []
    case Plain(line, rest) => [line] + Reading(rest)
    case Block(opener, body, tail) =>
      if OptInOpen(opener) then ReadingAfter(tail) else [opener] + (Reading(body) + TailReading(tail))
  }

  function TailReading(t: Tail): seq<string> {
    match t
    case Close(_, rest) => Reading(rest)
    case Else(_, body, tail) => Reading(body) + TailReading(tail)
  }

  /** What counts after a block whose branches are all passed over. */
  function ReadingAfter(t: Tail): seq<string> {
    match t
    case Close(_, rest) => Reading(rest)
    case Else(_, _, tail) => ReadingAfter(tail)
  }

  function PlainCount(f: Forest): nat {
    match f
    case Empty => 0
    case Plain(_, rest) => 1 + PlainCount(rest)
    case Block(_, body, tail) => PlainCount(body) + TailPlainCount(tail)
  }

  function TailPlainCount(t: Tail): nat {
    match t
    case Close(_, rest) => PlainCount(rest)
    case Else(_, body, tail) => PlainCount(body) + TailPlainCount(tail)
  }

  function PlainLines(f: Forest): (ls: seq<string>)
    ensures |ls| == PlainCount(f)
  {
    match f
    case Empty => []
    case Plain(line, rest) => [line] + PlainLines(rest)
    case Block(_, body, tail) => PlainLines(body) + TailPlainLines(tail)
  }

  function TailPlainLines(t: Tail): (ls: seq<string>)
    ensures |ls| == TailPlainCount(t)
  {
    match t
    case Close(_, rest) => PlainLines(rest)
    case Else(_, body, tail) => PlainLines(body) + TailPlainLines(tail)
  }

  /** For each plain line, whether it counts: it stands in no opt-in block, body or else branch. */
  function ReadingMarks(f: Forest, live: bool): (ms: seq<bool>)
    ensures |ms| == PlainCount(f)
  {
    match f
    case Empty => []
    case Plain(_, rest) => [live] + ReadingMarks(rest, live)
    case Block(opener, body, tail) =>
      var inside := live && !OptInOpen(opener);
      ReadingMarks(body, inside) + TailReadingMarks(tail, inside, live)
  }

  /** `inside` holds for the branches of the block, `live` for what follows it. */
  function TailReadingMarks(t: Tail, inside: bool, live: bool): (ms: seq<bool>)
    ensures |ms| == TailPlainCount(t)
  {
    match t
    case Close(_, rest) => ReadingMarks(rest, live)
    case Else(_, body, tail) => ReadingMarks(body, inside) + TailReadingMarks(tail, inside, live)
  }

  // ---------- The scan agrees with the structure ----------

  predicate Active(c: Counters) { c.skipDepth == 0 }

  /** Inside a skipped block a forest is passed over and the counters come back. */
  lemma {:induction false} SkipForest(c: Counters, f: Forest)
    requires InStep(c) && !Active(c) && ForestOk(f)
    ensures AfterAll(c, Lines(f)) == c && Kept(c, Lines(f)) == []
    ensures PlainMarks(c, Lines(f)) == ReadingMarks(f, false)
    decreases f
  {
    hide AnyOpen, AnyClose, OptInOpen, AfterAll, Kept, PlainMarks;
    match f
    case Empty => RunNone(c);
    case Plain(line, rest) =>
      RunOne(c, line);
      RunJoins(c, [line], Lines(rest));
      SkipForest(c, rest);
    case Block(opener, body, tail) =>
      var d := Counters(c.skipDepth + 1, c.braceDepth + 1, c.skipOrigin);
      RunOne(c, opener);
      RunJoins(c, [opener], Lines(body) + TailLines(tail));
      RunJoins(d, Lines(body), TailLines(tail));
      SkipForest(d, body);
      SkipTail(d, tail);
  }

  /** A block inside a skipped block ends one level further out, still skipped. */
  lemma {:induction false} SkipTail(c: Counters, t: Tail)
    requires InStep(c) && c.skipDepth > 1 && TailOk(t)
    ensures AfterAll(c, TailLines(t)) == Counters(c.skipDepth - 1, c.braceDepth - 1, c.skipOrigin)
    ensures Kept(c, TailLines(t)) == []
    ensures PlainMarks(c, TailLines(t)) == TailReadingMarks(t, false, false)
    decreases t
  {
    hide AnyOpen, AnyClose, OptInOpen, AfterAll, Kept, PlainMarks;
    match t
    case Close(closer, rest) =>
      var d := Counters(c.skipDepth - 1, c.braceDepth - 1, c.skipOrigin);
      RunOne(c, closer);
      RunJoins(c, [closer], Lines(rest));
      SkipForest(d, rest);
    case Else(middle, body, tail) =>
      RunOne(c, middle);
      RunJoins(c, [middle], Lines(body) + TailLines(tail));
      RunJoins(c, Lines(body), TailLines(tail));
      SkipForest(c, body);
      SkipTail(c, tail);
  }

  /** The end of the outermost skipped block makes the scan active again. */
  lemma {:induction false} LeaveTail(c: Counters, t: Tail)
    requires InStep(c) && c.skipDepth == 1 && TailOk(t)
    ensures AfterAll(c, TailLines(t)) == Counters(0, c.braceDepth - 1, -1)
    ensures Kept(c, TailLines(t)) == ReadingAfter(t)
    ensures PlainMarks(c, TailLines(t)) == TailReadingMarks(t, false, true)
    decreases t
  {
    hide AnyOpen, AnyClose, OptInOpen, AfterAll, Kept, PlainMarks;
    match t
    case Close(closer, rest) =>
      var d := Counters(0, c.braceDepth - 1, -1);
      RunOne(c, closer);
      RunJoins(c, [closer], Lines(rest));
      ScanForest(d, rest);
    case Else(middle, body, tail) =>
      RunOne(c, middle);
      RunJoins(c, [middle], Lines(body) + TailLines(tail));
      RunJoins(c, Lines(body), TailLines(tail));
      SkipForest(c, body);
      LeaveTail(c, tail);
  }

  /** The scan keeps exactly the lines the structure says count, and the depth comes back. */
  lemma {:induction false} ScanForest(c: Counters, f: Forest)
    requires InStep(c) && Active(c) && ForestOk(f)
    ensures AfterAll(c, Lines(f)) == c && Kept(c, Lines(f)) == Reading(f)
    ensures PlainMarks(c, Lines(f)) == ReadingMarks(f, true)
    decreases f
  {
    hide AnyOpen, AnyClose, OptInOpen, AfterAll, Kept, PlainMarks;
    match f
    case Empty => RunNone(c);
    case Plain(line, rest) =>
      if OptInOpen(line) { OptInOpens(line); }
      RunOne(c, line);
      RunJoins(c, [line], Lines(rest));
      ScanForest(c, rest);
    case Block(opener, body, tail) =>
      RunOne(c, opener);
      RunJoins(c, [opener], Lines(body) + TailLines(tail));
      var d := After(c, opener);
      RunJoins(d, Lines(body), TailLines(tail));
      if OptInOpen(opener) {
        SkipForest(d, body);
        LeaveTail(d, tail);
      } else {
        ScanForest(d, body);
        ScanTail(d, tail);
      }
  }

  lemma {:induction false} ScanTail(c: Counters, t: Tail)
    requires InStep(c) && Active(c) && c.braceDepth > 0 && TailOk(t)
    ensures AfterAll(c, TailLines(t)) == Counters(0, c.braceDepth - 1, -1)
    ensures Kept(c, TailLines(t)) == TailReading(t)
    ensures PlainMarks(c, TailLines(t)) == TailReadingMarks(t, true, true)
    decreases t
  {
    hide AnyOpen, AnyClose, OptInOpen, AfterAll, Kept, PlainMarks;
    match t
    case Close(closer, rest) =>
      if OptInOpen(closer) { OptInOpens(closer); }
      var d := Counters(0, c.braceDepth - 1, -1);
      RunOne(c, closer);
      RunJoins(c, [closer], Lines(rest));
      ScanForest(d, rest);
    case Else(middle, body, tail) =>
      if OptInOpen(middle) { OptInOpens(middle); }
      RunOne(c, middle);
      RunJoins(c, [middle], Lines(body) + TailLines(tail));
      RunJoins(c, Lines(body), TailLines(tail));
      ScanForest(c, body);
      ScanTail(c, tail);
  }

  /** Well nested, counting braces from depth `d`: no closing brace without an open one, none left open. */
  predicate WellNested(d: nat, lines: seq<string>)
    decreases |lines|
  {
    if lines == [] then d == 0
    else if AnyClose(lines[0]) then
      d > 0 && WellNested(if AnyOpen(lines[0]) then d else d - 1, lines[1..])
    else WellNested(if AnyOpen(lines[0]) then d + 1 else d, lines[1..])
  }

  /** The longest forest the lines start with. */
  lemma {:induction false} BuildForest(d: nat, lines: seq<string>) returns (f: Forest, rest: seq<string>)
    requires WellNested(d, lines)
    ensures ForestOk(f) && lines == Lines(f) + rest
    ensures WellNested(d, rest) && (rest == [] || AnyClose(rest[0]))
    decreases |lines|, 1
  {
    hide AnyOpen, AnyClose;
    if lines == [] || AnyClose(lines[0]) {
      return Empty, lines;
    }
    var body, more;
    if AnyOpen(lines[0]) {
      body, more := BuildForest(d + 1, lines[1..]);
      var tail;
      tail, rest := BuildTail(d + 1, more);
      f := Block(lines[0], body, tail);
      assert lines == [lines[0]] + (Lines(body) + (TailLines(tail) + rest));
    } else {
      body, rest := BuildForest(d, lines[1..]);
      f := Plain(lines[0], body);
    }
  }

  lemma {:induction false} BuildTail(d: nat, lines: seq<string>) returns (t: Tail, rest: seq<string>)
    requires WellNested(d, lines) && lines != [] && AnyClose(lines[0])
    ensures TailOk(t) && lines == TailLines(t) + rest
    ensures d > 0 && WellNested(d - 1, rest) && (rest == [] || AnyClose(rest[0]))
    decreases |lines|, 0
  {
    hide AnyOpen, AnyClose;
    var f;
    if AnyOpen(lines[0]) {
      var more, tail;
      f, more := BuildForest(d, lines[1..]);
      tail, rest := BuildTail(d, more);
      t := Else(lines[0], f, tail);
      assert lines == [lines[0]] + (Lines(f) + (TailLines(tail) + rest));
    } else {
      f, rest := BuildForest(d - 1, lines[1..]);
      t := Close(lines[0], f);
    }
  }

  /** Every well-nested file has a block structure, the scan keeps what that structure says counts,
      and the counters end where they began. */
  lemma ScanReadsStructure(lines: seq<string>) returns (f: Forest)
    requires WellNested(0, lines)
    ensures ForestOk(f) && Lines(f) == lines
    ensures Kept(START, lines) == Reading(f) && AfterAll(START, lines) == START
  {
    var rest;
    f, rest := BuildForest(0, lines);
    assert Lines(f) == lines;
    ScanForest(START, f);
  }

  // ---------- The words of a kept line ----------

  datatype Value = NoValue | Value(text: string)

  /** What follows `key =` or `key +=` at the start of the line. */
  function ValueOf(line: string, key: string): Value {
    var t := LeftStrip(line);
    if !(key <= t) then NoValue
    else
      var u := LeftStrip(t[|key|..]);
      var v := if u != "" && u[0] == '+' then u[1..] else u;
      if v != "" && v[0] == '=' then Value(Strip(v[1..])) else NoValue
  }

  function BeforeComment(s: string): string {
    if s == "" || s[0] == '#' then "" else [s[0]] + BeforeComment(s[1..])
  }

  /** The words a line gives to a key. */
  function WordsFor(line: string, key: string): seq<string> {
    var v := ValueOf(line, key);
    if v.NoValue? then [] else Words(BeforeComment(v.text))
  }

  predicate EndsWith(w: string, e: string) { |e| <= |w| && w[|w| - |e|..] == e }

  /** A word that names a source file: no qmake variable, one of the extensions. */
  predicate IsSource(w: string, exts: seq<string>) {
    !("$$" <= w) && w != "+=" && exists e | e in exts :: EndsWith(w, e)
  }

  function SourcesIn(words: seq<string>, exts: seq<string>): set<string> {
    set w | w in words && IsSource(w, exts)
  }

  /** The source files named by a list of lines. */
  function Sources(lines: seq<string>, key: string, exts: seq<string>): set<string> {
    if lines == [] then {}
    else Sources(lines[..|lines| - 1], key, exts) + SourcesIn(WordsFor(lines[|lines| - 1], key), exts)
  }

  /** Every occurrence of `part` taken out, from the left. */
  function Without(s: string, part: string): string
    requires part != ""
    decreases |s|
  {
    if s == "" then "" else if part <= s then Without(s[|part|..], part) else [s[0]] + Without(s[1..], part)
  }

  function IncludePath(w: string): string { Without(Without(w, "$$PWD/"), "$$PWD") }

  /** The include directories named by words: relative to the project file, no other qmake variable. */
  function PathsIn(words: seq<string>): seq<string> {
    if words == [] then []
    else
      var w := words[|words| - 1];
      var p := IncludePath(w);
      PathsIn(words[..|words| - 1]) + (if w != "+=" && p != "" && !("$$" <= p) then [p] else [])
  }

  function Paths(lines: seq<string>): seq<string> {
    if lines == [] then []
    else Paths(lines[..|lines| - 1]) + PathsIn(WordsFor(lines[|lines| - 1], "INCLUDEPATH"))
  }

  // ---------- The two scanners ----------

  lemma KeptStep(lines: seq<string>, i: nat)
    requires i < |lines|
    ensures var c := AfterAll(START, lines[..i]);
      && AfterAll(START, lines[..i + 1]) == After(c, lines[i])
      && Kept(START, lines[..i + 1]) == Kept(START, lines[..i]) + (if Keeps(c, lines[i]) then [lines[i]] else [])
  {
    hide After, Keeps;
    assert lines[..i + 1][..i] == lines[..i];
  }

  lemma OneMore(lines: seq<string>, line: string, key: string, exts: seq<string>)
    ensures Sources(lines + [line], key, exts) == Sources(lines, key, exts) + SourcesIn(WordsFor(line, key), exts)
    ensures Paths(lines + [line]) == Paths(lines) + PathsIn(WordsFor(line, "INCLUDEPATH"))
  {
    hide WordsFor, SourcesIn, PathsIn;
    assert (lines + [line])[..|lines|] == lines;
  }

  /** The scanner of SOURCES and HEADERS. */
  method ParseProLists(lines: seq<string>, key: string, exts: seq<string>) returns (out: set<string>)
    ensures out == Sources(Kept(START, lines), key, exts)
  {
    hide AnyOpen, AnyClose, OptInOpen, AfterAll, Kept, Sources, SourcesIn, WordsFor;
    out := {};
    var skipDepth, braceDepth, skipOrigin := 0, 0, -1;
    var i := 0;
    assert lines[..0] == [];
    Begin(key, exts);
    while i < |lines|
      invariant 0 <= i <= |lines| && 0 <= skipDepth && 0 <= braceDepth
      invariant Counters(skipDepth, braceDepth, skipOrigin) == AfterAll(START, lines[..i])
      invariant out == Sources(Kept(START, lines[..i]), key, exts)
    {
      var line := lines[i];
      KeptStep(lines, i);
      OneMore(Kept(START, lines[..i]), line, key, exts);
      assert Kept(START, lines[..i]) + [] == Kept(START, lines[..i]);
      i := i + 1;
      if skipDepth == 0 && OptInOpen(line) {
        skipDepth, skipOrigin := 1, braceDepth;
        braceDepth := braceDepth + 1;
        continue;
      }
      if AnyOpen(line) {
        braceDepth := braceDepth + 1;
        if skipDepth > 0 { skipDepth := skipDepth + 1; }
      }
      if AnyClose(line) {
        braceDepth := if braceDepth > 0 then braceDepth - 1 else 0;
        if skipDepth > 0 {
          skipDepth := skipDepth - 1;
          if skipDepth == 0 && braceDepth == skipOrigin { skipOrigin := -1; }
        }
        continue;
      }
      if skipDepth > 0 { continue; }
      var found := CollectSources(WordsFor(line, key), exts);
      out := out + found;
    }
    assert lines[..|lines|] == lines;
  }

  lemma Begin(key: string, exts: seq<string>)
    ensures AfterAll(START, []) == START && Kept(START, []) == []
    ensures Sources([], key, exts) == {} && Paths([]) == []
  {
  }

  method CollectSources(words: seq<string>, exts: seq<string>) returns (out: set<string>)
    ensures out == SourcesIn(words, exts)
  {
    out := {};
    var i := 0;
    while i < |words|
      invariant 0 <= i <= |words| && out == SourcesIn(words[..i], exts)
    {
      var w := words[i];
      assert words[..i + 1] == words[..i] + [w];
      i := i + 1;
      if "$$" <= w || w == "+=" { continue; }
      if exists e | e in exts :: EndsWith(w, e) { out := out + {w}; }
    }
    assert words[..|words|] == words;
  }

  /** The second copy of the scan, for INCLUDEPATH. */
  method ParseProIncludepaths(lines: seq<string>) returns (out: seq<string>)
    ensures out == Paths(Kept(START, lines))
  {
    hide AnyOpen, AnyClose, OptInOpen, AfterAll, Kept, Paths, PathsIn, WordsFor;
    out := [];
    var skipDepth, braceDepth, skipOrigin := 0, 0, -1;
    var i := 0;
    assert lines[..0] == [];
    Begin("", []);
    while i < |lines|
      invariant 0 <= i <= |lines| && 0 <= skipDepth && 0 <= braceDepth
      invariant Counters(skipDepth, braceDepth, skipOrigin) == AfterAll(START, lines[..i])
      invariant out == Paths(Kept(START, lines[..i]))
    {
      var line := lines[i];
      KeptStep(lines, i);
      OneMore(Kept(START, lines[..i]), line, "", []);
      assert Kept(START, lines[..i]) + [] == Kept(START, lines[..i]);
      i := i + 1;
      if skipDepth == 0 && OptInOpen(line) {
        skipDepth, skipOrigin := 1, braceDepth;
        braceDepth := braceDepth + 1;
        continue;
      }
      if AnyOpen(line) {
        braceDepth := braceDepth + 1;
        if skipDepth > 0 { skipDepth := skipDepth + 1; }
      }
      if AnyClose(line) {
        braceDepth := if braceDepth > 0 then braceDepth - 1 else 0;
        if skipDepth > 0 {
          skipDepth := skipDepth - 1;
          if skipDepth == 0 && braceDepth == skipOrigin { skipOrigin := -1; }
        }
        continue;
      }
      if skipDepth > 0 { continue; }
      var found := CollectPaths(WordsFor(line, "INCLUDEPATH"));
      out := out + found;
    }
    assert lines[..|lines|] == lines;
  }

  method CollectPaths(words: seq<string>) returns (out: seq<string>)
    ensures out == PathsIn(words)
  {
    hide IncludePath;
    out := [];
    var i := 0;
    while i < |words|
      invariant 0 <= i <= |words| && out == PathsIn(words[..i])
    {
      var w := words[i];
      assert words[..i + 1][..i] == words[..i];
      i := i + 1;
      if w == "+=" { continue; }
      var p := IncludePath(w);
      if p != "" && !("$$" <= p) { out := out + [p]; }
    }
    assert words[..|words|] == words;
  }

  /** A source the scanner reports is a word without white space on a line that counts. */
  lemma {:induction false} SourcesAreWords(lines: seq<string>, key: string, exts: seq<string>, w: string)
    requires w in Sources(lines, key, exts)
    ensures w != "" && NoSpace(w) && IsSource(w, exts)
  {
    hide Words, IsSource;
    var n := |lines| - 1;
    if w in Sources(lines[..n], key, exts) { SourcesAreWords(lines[..n], key, exts, w); }
  }
}
