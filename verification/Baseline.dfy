/** The baseline of accepted build gaps: writing it, loading it, and the gate that compares with it. */
module Baseline {
  import opened PythonText
  import ProScanner

  // ---------- Loading ----------

  datatype Entry = NoEntry | Entry(kind: string, file: string)

  /** Where the first tab stands, or the length when there is none. */
  function FirstTab(s: string): (k: nat)
    ensures k <= |s| && '\t' !in s[..k] && (k < |s| ==> s[k] == '\t')
  {
    if s == "" || s[0] == '\t' then 0
    else
      var k := 1 + FirstTab(s[1..]);
      assert s[..k] == [s[0]] + s[1..][..k - 1];
      k
  }

  /** One line of the file: blank lines and comments hold no entry. */
  function ParseLine(raw: string): Entry {
    var line := Strip(raw);
    if line == "" || line[0] == '#' then NoEntry
    else
      var k := FirstTab(line);
      Entry(line[..k], if k < |line| then line[k + 1..] else "")
  }

  function ParseLines(lines: seq<string>): (es: seq<Entry>)
    ensures |es| == |lines| && forall i | 0 <= i < |lines| :: es[i] == ParseLine(lines[i])
  {
    seq(|lines|, i requires 0 <= i < |lines| => ParseLine(lines[i]))
  }

  /** The files a list of entries gives to one kind. */
  function FilesOf(es: seq<Entry>, kind: string): set<string> {
    set e | e in es && e.Entry? && e.kind == kind :: e.file
  }

  /** What the loader finds in a file; an absent file holds nothing. */
  function Loaded(file: Text, kind: string): set<string> {
    if file.Absent? then {} else FilesOf(ParseLines(SplitLines(file.text)), kind)
  }

  datatype Text = Absent | Text(text: string)

  method LoadBaseline(file: Text) returns (a: set<string>, b: set<string>)
    ensures a == Loaded(file, "A") && b == Loaded(file, "B")
  {
    a, b := {}, {};
    if file.Absent? { return; }
    var lines := SplitLines(file.text);
    ghost var es := ParseLines(lines);
    var i := 0;
    while i < |lines|
      invariant 0 <= i <= |lines|
      invariant a == FilesOf(es[..i], "A") && b == FilesOf(es[..i], "B")
    {
      var line := Strip(lines[i]);
      FilesGrow(es, i, "A");
      FilesGrow(es, i, "B");
      i := i + 1;
      if line == "" || line[0] == '#' { continue; }
      var k := FirstTab(line);
      var kind, rest := line[..k], if k < |line| then line[k + 1..] else "";
      if kind == "A" {
        a := a + {rest};
      } else if kind == "B" {
        b := b + {rest};
      }
    }
    assert es[..|lines|] == es;
  }

  lemma FilesGrow(es: seq<Entry>, i: nat, kind: string)
    requires i < |es|
    ensures FilesOf(es[..i + 1], kind)
         == FilesOf(es[..i], kind) + (if es[i].Entry? && es[i].kind == kind then {es[i].file} else {})
  {
    assert es[..i + 1] == es[..i] + [es[i]];
  }

  // ---------- Writing ----------

  function Row(kind: string, p: string): string { kind + "\t" + p }

  function Rows(kind: string, ps: seq<string>): (rows: seq<string>)
    ensures |rows| == |ps| && forall i | 0 <= i < |ps| :: rows[i] == Row(kind, ps[i])
  {
    seq(|ps|, i requires 0 <= i < |ps| => Row(kind, ps[i]))
  }

  ghost predicate Lists(ps: seq<string>, s: set<string>) { forall p :: p in ps <==> p in s }

  /** Comment lines and blank lines only. */
  ghost predicate IsHeader(header: seq<string>) {
    forall i | 0 <= i < |header| :: NoBreak(header[i]) && (header[i] == "" || header[i][0] == '#')
  }

  /** The header, one row for each file of `a`, then one for each file of `b`, in some order. */
  ghost predicate IsBaseline(text: string, header: seq<string>, a: set<string>, b: set<string>) {
    exists ps, qs | Lists(ps, a) && Lists(qs, b) :: text == Unlines(header + Rows("A", ps) + Rows("B", qs))
  }

  /** Writes one row for each file of the set. */
  method WriteRows(ghost before: seq<string>, kind: string, s: set<string>, text: string)
    returns (out: string, ghost ps: seq<string>)
    requires text == Unlines(before)
    ensures Lists(ps, s) && out == Unlines(before + Rows(kind, ps))
  {
    out, ps := text, [];
    var rest := s;
    assert before + Rows(kind, ps) == before;
    while rest != {}
      invariant rest <= s && forall p :: p in ps <==> p in s && p !in rest
      invariant out == Unlines(before + Rows(kind, ps))
      decreases |rest|
    {
      var p :| p in rest;
      ghost var lines := before + Rows(kind, ps);
      assert before + Rows(kind, ps + [p]) == lines + [Row(kind, p)];
      assert (lines + [Row(kind, p)])[..|lines|] == lines;
      out := out + (kind + "\t" + p + "\n");
      ps := ps + [p];
      rest := rest - {p};
    }
  }

  method WriteBaseline(header: seq<string>, missA: set<string>, missB: set<string>) returns (text: string)
    ensures IsBaseline(text, header, missA, missB)
  {
    ghost var ps, qs;
    text := Unlines(header);
    text, ps := WriteRows(header, "A", missA, text);
    text, qs := WriteRows(header + Rows("A", ps), "B", missB, text);
  }

  // ---------- Round trip ----------

  /** A path survives the file format: no line break and no white space at its end. */
  ghost predicate Clean(p: string) { NoBreak(p) && (p == "" || !IsSpace(p[|p| - 1])) }

  /** Every path that comes out of the loader is clean. */
  lemma LoadedAreClean(file: Text, kind: string, p: string)
    requires p in Loaded(file, kind)
    ensures Clean(p)
  {
    var lines := SplitLines(file.text);
    var i :| 0 <= i < |lines| && ParseLine(lines[i]).Entry? && ParseLine(lines[i]).file == p;
    FileIsClean(lines[i]);
  }

  lemma FileIsClean(raw: string)
    requires NoBreak(raw) && ParseLine(raw).Entry?
    ensures Clean(ParseLine(raw).file)
  {
    hide LeftStrip, RightStrip, FirstTab, IsSpace, IsBreak;
    var line := Strip(raw);
    assert NoBreak(LeftStrip(raw));
    assert NoBreak(line) && !IsSpace(line[|line| - 1]);
  }

  lemma ParseRow(kind: char, p: string)
    requires !IsSpace(kind) && kind != '#' && Clean(p)
    ensures ParseLine(Row([kind], p)) == Entry([kind], p) && NoBreak(Row([kind], p))
  {
    var row := Row([kind], p);
    assert row[0] == kind && row[1] == '\t';
    if p == "" {
      assert LeftStrip(row) == row;
      assert RightStrip(row) == RightStrip(row[..1]) == [kind];
      assert FirstTab([kind]) == 1;
    } else {
      assert row[|row| - 1] == p[|p| - 1];
      StripNothing(row);
      assert FirstTab(row) == 1;
      assert row[2..] == p && row[..1] == [kind];
    }
  }

  lemma HeaderHoldsNothing(line: string)
    requires line == "" || line[0] == '#'
    ensures ParseLine(line) == NoEntry
  {
    hide LeftStrip, RightStrip, FirstTab;
    if line == "" {
      assert Strip(line) == "";
    } else {
      LeftStripNothing(line);
      StripKeepsFirst(line);
    }
  }

  lemma LeftStripNothing(s: string)
    requires s != "" && !IsSpace(s[0])
    ensures LeftStrip(s) == s
  {
  }

  lemma {:induction false} StripKeepsFirst(s: string)
    requires s != "" && !IsSpace(s[0])
    ensures RightStrip(s) != "" && RightStrip(s)[0] == s[0]
  {
    if IsSpace(s[|s| - 1]) { StripKeepsFirst(s[..|s| - 1]); }
  }

  /** Clean paths come back: the loader undoes the writer. */
  lemma LoadUndoesWrite(text: string, header: seq<string>, a: set<string>, b: set<string>)
    requires IsHeader(header) && IsBaseline(text, header, a, b)
    requires forall p | p in a + b :: Clean(p)
    ensures Loaded(Text(text), "A") == a && Loaded(Text(text), "B") == b
  {
    hide ParseLine, Row;
    var ps, qs :| Lists(ps, a) && Lists(qs, b) && text == Unlines(header + Rows("A", ps) + Rows("B", qs));
    var lines := header + Rows("A", ps) + Rows("B", qs);
    RowsParse('A', ps);
    RowsParse('B', qs);
    assert forall i | 0 <= i < |lines| :: NoBreak(lines[i]);
    SplitUnlines(lines);
    RowsGive(lines, header, ps, qs, "A", ps);
    RowsGive(lines, header, ps, qs, "B", qs);
  }

  lemma RowsParse(kind: char, ps: seq<string>)
    requires !IsSpace(kind) && kind != '#' && forall p | p in ps :: Clean(p)
    ensures forall i | 0 <= i < |ps| ::
      ParseLine(Row([kind], ps[i])) == Entry([kind], ps[i]) && NoBreak(Row([kind], ps[i]))
  {
    forall i | 0 <= i < |ps|
      ensures ParseLine(Row([kind], ps[i])) == Entry([kind], ps[i]) && NoBreak(Row([kind], ps[i]))
    {
      ParseRow(kind, ps[i]);
    }
  }

  lemma RowsGive(lines: seq<string>, header: seq<string>, ps: seq<string>, qs: seq<string>,
                 kind: string, mine: seq<string>)
    requires lines == header + Rows("A", ps) + Rows("B", qs) && IsHeader(header)
    requires forall i | 0 <= i < |ps| :: ParseLine(Row("A", ps[i])) == Entry("A", ps[i])
    requires forall i | 0 <= i < |qs| :: ParseLine(Row("B", qs[i])) == Entry("B", qs[i])
    requires (kind == "A" && mine == ps) || (kind == "B" && mine == qs)
    ensures forall p :: p in FilesOf(ParseLines(lines), kind) <==> p in mine
  {
    hide ParseLine, Row;
    var es := ParseLines(lines);
    var h, n := |header|, |header| + |ps|;
    forall i | 0 <= i < h ensures es[i] == NoEntry { HeaderHoldsNothing(header[i]); }
    assert forall i | h <= i < n :: es[i] == Entry("A", ps[i - h]);
    assert forall i | n <= i < |es| :: es[i] == Entry("B", qs[i - n]);
    forall p ensures p in FilesOf(es, kind) <==> p in mine {
      if p in mine {
        var k :| 0 <= k < |mine| && mine[k] == p;
        var i := if kind == "A" then h + k else n + k;
        assert es[i] == Entry(kind, p) && es[i] in es;
      }
    }
  }

  /** The round trip holds exactly for clean paths. */
  lemma RoundTripIffClean(text: string, header: seq<string>, a: set<string>, b: set<string>)
    requires IsHeader(header) && IsBaseline(text, header, a, b)
    ensures Loaded(Text(text), "A") == a && Loaded(Text(text), "B") == b <==> forall p | p in a + b :: Clean(p)
  {
    if forall p | p in a + b :: Clean(p) {
      LoadUndoesWrite(text, header, a, b);
    } else if Loaded(Text(text), "A") == a && Loaded(Text(text), "B") == b {
      var p :| p in a + b && !Clean(p);
      LoadedAreClean(Text(text), if p in a then "A" else "B", p);
    }
  }

  // ---------- The gate ----------

  /** Files the globbing build compiles and the project file does not list. */
  function MissA(cmake: set<string>, pro: set<string>): set<string> { cmake - pro }

  /** Files the project file lists and the disk does not hold. */
  function MissB(pro: set<string>, onDisk: set<string>): set<string> { pro - onDisk }

  /** The exit code and the baseline afterwards. */
  method Run(rebuild: bool, header: seq<string>, cmake: set<string>, pro: set<string>, onDisk: set<string>,
             baseline: Text)
    returns (code: int, after: Text)
    ensures rebuild ==>
      code == 0 && after.Text? && IsBaseline(after.text, header, MissA(cmake, pro), MissB(pro, onDisk))
    ensures !rebuild ==> after == baseline && code == Verdict(cmake, pro, onDisk, baseline)
  {
    hide Loaded, IsBaseline;
    var missA, missB := cmake - pro, set p | p in pro && p !in onDisk;
    assert missB == MissB(pro, onDisk);
    if rebuild {
      var text := WriteBaseline(header, missA, missB);
      return 0, Text(text);
    }
    var baseA, baseB := LoadBaseline(baseline);
    var newA, newB := missA - baseA, missB - baseB;
    assert forall p | p in missA && p !in baseA :: p in newA;
    assert forall p | p in missB && p !in baseB :: p in newB;
    if newA != {} || newB != {} {
      return 1, baseline;
    }
    return 0, baseline;
  }

  /** The gate fails exactly when some current gap is not in the baseline. */
  function Verdict(cmake: set<string>, pro: set<string>, onDisk: set<string>, baseline: Text): int {
    if (exists p | p in cmake && p !in pro :: p !in Loaded(baseline, "A"))
       || (exists p | p in pro && p !in onDisk :: p !in Loaded(baseline, "B")) then 1 else 0
  }

  /** After a rebuild the unchanged tree passes, exactly when every gap is a clean path. */
  lemma RebuildThenCheck(header: seq<string>, cmake: set<string>, pro: set<string>, onDisk: set<string>, text: string)
    requires IsHeader(header) && IsBaseline(text, header, MissA(cmake, pro), MissB(pro, onDisk))
    ensures Verdict(cmake, pro, onDisk, Text(text)) == 0
       <==> forall p | p in MissA(cmake, pro) + MissB(pro, onDisk) :: Clean(p)
  {
    var a, b := MissA(cmake, pro), MissB(pro, onDisk);
    if forall p | p in a + b :: Clean(p) {
      LoadUndoesWrite(text, header, a, b);
    } else {
      var p :| p in a + b && !Clean(p);
      if p in a {
        if p in Loaded(Text(text), "A") { LoadedAreClean(Text(text), "A", p); }
      } else {
        if p in Loaded(Text(text), "B") { LoadedAreClean(Text(text), "B", p); }
      }
    }
  }

  /** Project-file entries are words, hence clean: with a scanned project file only files on disk can
      spoil the round trip. */
  lemma OnlyDiskNamesMatter(header: seq<string>, cmake: set<string>, lines: seq<string>, exts: seq<string>,
                            onDisk: set<string>, text: string)
    requires IsHeader(header)
    requires var pro := ProScanner.Sources(lines, "SOURCES", exts);
      IsBaseline(text, header, MissA(cmake, pro), MissB(pro, onDisk))
    ensures var pro := ProScanner.Sources(lines, "SOURCES", exts);
      Verdict(cmake, pro, onDisk, Text(text)) == 0 <==> forall p | p in MissA(cmake, pro) :: Clean(p)
  {
    hide Verdict, IsBaseline;
    var pro := ProScanner.Sources(lines, "SOURCES", exts);
    forall p | p in MissB(pro, onDisk) ensures Clean(p) {
      ProScanner.SourcesAreWords(lines, "SOURCES", exts, p);
    }
    RebuildThenCheck(header, cmake, pro, onDisk, text);
  }

  /** What the globbing of the source tree collects: only names with a source extension. */
  ghost predicate Globbed(cmake: set<string>) {
    forall p | p in cmake :: ProScanner.EndsWith(p, ".c") || ProScanner.EndsWith(p, ".cpp")
  }

  lemma GlobbedIsClean(cmake: set<string>, p: string)
    requires Globbed(cmake) && p in cmake
    ensures Clean(p) <==> NoBreak(p)
  {
    assert p[|p| - 1] == 'c' || p[|p| - 1] == 'p' by {
      if ProScanner.EndsWith(p, ".c") {
        assert p[|p| - 2..][1] == 'c';
      } else {
        assert p[|p| - 4..][3] == 'p';
      }
    }
  }

  /** A rebuilt baseline accepts its own tree exactly when no source file the project file misses
      has a line break in its path. */
  lemma OnlyBreaksMatter(header: seq<string>, cmake: set<string>, lines: seq<string>, exts: seq<string>,
                         onDisk: set<string>, text: string)
    requires IsHeader(header) && Globbed(cmake)
    requires var pro := ProScanner.Sources(lines, "SOURCES", exts);
      IsBaseline(text, header, MissA(cmake, pro), MissB(pro, onDisk))
    ensures var pro := ProScanner.Sources(lines, "SOURCES", exts);
      Verdict(cmake, pro, onDisk, Text(text)) == 0 <==> forall p | p in MissA(cmake, pro) :: NoBreak(p)
  {
    hide Verdict, IsBaseline, Clean, NoBreak, Globbed;
    var pro := ProScanner.Sources(lines, "SOURCES", exts);
    OnlyDiskNamesMatter(header, cmake, lines, exts, onDisk, text);
    forall p | p in cmake ensures Clean(p) <==> NoBreak(p) { GlobbedIsClean(cmake, p); }
  }

  /** Such a tree: one source file with a line feed in its name, and an empty project file.  The
      check straight after the rebuild fails. */
  lemma BreakSpoilsRebuild(header: seq<string>, text: string)
    requires IsHeader(header) && IsBaseline(text, header, {"src/a\nb.c"}, {})
    ensures Globbed({"src/a\nb.c"}) && Verdict({"src/a\nb.c"}, {}, {"src/a\nb.c"}, Text(text)) == 1
  {
    hide IsBaseline, Loaded;
    var name := "src/a\nb.c";
    assert name[|name| - 2..] == ".c" && name[5] == '\n';
    assert !Clean(name) && IsBreak(name[5]);
    if name in Loaded(Text(text), "A") { LoadedAreClean(Text(text), "A", name); }
  }

  // ---------- The gate, on the text ----------

  /** The line is a row for the file; without a tab it is one for the empty name. */
  predicate IsRow(line: string, kind: string, file: string) {
    Strip(line) == kind + "\t" + file || (file == "" && Strip(line) == kind)
  }

  ghost predicate HasRow(baseline: Text, kind: string, file: string) {
    baseline.Text? && exists i | 0 <= i < |SplitLines(baseline.text)| :: IsRow(SplitLines(baseline.text)[i], kind, file)
  }

  lemma RowIsEntry(line: string, kind: string, file: string)
    requires kind == "A" || kind == "B"
    ensures ParseLine(line) == Entry(kind, file) <==> IsRow(line, kind, file)
  {
    hide Strip;
    var s := Strip(line);
    var k := FirstTab(s);
    if s == kind + "\t" + file {
      assert s[0] == kind[0] && s[1] == '\t';
      OneBeforeTab(s);
      assert s[..1] == kind && s[2..] == file;
    }
    if s == kind {
      OneBeforeTab(s);
      assert s[..1] == kind;
    }
    if k < |s| { assert s == s[..k] + "\t" + s[k + 1..]; }
  }

  lemma OneBeforeTab(s: string)
    requires s != "" && s[0] != '\t' && (|s| == 1 || s[1] == '\t')
    ensures FirstTab(s) == 1
  {
    assert |s| > 1 ==> s[1..][0] == s[1];
  }

  /** The gate passes exactly when every globbed file missing from the project file has a row A, and
      every listed file missing on disk a row B. */
  lemma GateIff(cmake: set<string>, pro: set<string>, onDisk: set<string>, baseline: Text)
    ensures Verdict(cmake, pro, onDisk, baseline) == 0 <==>
      && (forall p | p in cmake && p !in pro :: HasRow(baseline, "A", p))
      && (forall p | p in pro && p !in onDisk :: HasRow(baseline, "B", p))
    ensures Verdict(cmake, pro, onDisk, baseline) == 0 || Verdict(cmake, pro, onDisk, baseline) == 1
  {
    hide Loaded, HasRow;
    forall p ensures p in Loaded(baseline, "A") <==> HasRow(baseline, "A", p) { LoadedHasRow(baseline, "A", p); }
    forall p ensures p in Loaded(baseline, "B") <==> HasRow(baseline, "B", p) { LoadedHasRow(baseline, "B", p); }
  }

  lemma LoadedHasRow(baseline: Text, kind: string, p: string)
    requires kind == "A" || kind == "B"
    ensures p in Loaded(baseline, kind) <==> HasRow(baseline, kind, p)
  {
    hide ParseLine, IsRow;
    if baseline.Text? {
      var lines := SplitLines(baseline.text);
      var es := ParseLines(lines);
      forall i | 0 <= i < |lines| ensures es[i] == Entry(kind, p) <==> IsRow(lines[i], kind, p) {
        RowIsEntry(lines[i], kind, p);
      }
      if p in Loaded(baseline, kind) {
        var e :| e in es && e.Entry? && e.kind == kind && e.file == p;
        var i :| 0 <= i < |es| && es[i] == e;
        assert IsRow(lines[i], kind, p);
      }
      if HasRow(baseline, kind, p) {
        var i :| 0 <= i < |lines| && IsRow(lines[i], kind, p);
        assert es[i] in es;
      }
    }
  }
}
