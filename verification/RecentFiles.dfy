/** The main window's list of recent files. */
module RecentFiles {
  const LIMIT := 10

  datatype Event = Open(name: string, valid: bool) | Clear

  /** When a name was last opened successfully since the last clear; -1 when it was not. */
  function LastOpen(history: seq<Event>, name: string): (t: int)
    ensures -1 <= t < |history|
  {
    if history == [] then -1
    else
      var n := |history| - 1;
      match history[n]
      case Open(other, valid) => if valid && other == name then n else LastOpen(history[..n], name)
      case Clear => -1
  }

  /** The list holds the most recently opened distinct names since the last clear, newest first: a name
      is missing only when the list is full and everything in it was opened later. */
  ghost predicate MostRecent(history: seq<Event>, files: seq<string>) {
    && |files| <= LIMIT
    && (forall i | 0 <= i < |files| :: 0 <= LastOpen(history, files[i]))
    && (forall i, j | 0 <= i < j < |files| :: LastOpen(history, files[j]) < LastOpen(history, files[i]))
    && (forall name | name !in files && 0 <= LastOpen(history, name) ::
          |files| == LIMIT && forall i | 0 <= i < LIMIT :: LastOpen(history, name) < LastOpen(history, files[i]))
  }

  /** Only one list is the most recent one, so cutting it early never changes a later result. */
  lemma MostRecentUnique(history: seq<Event>, xs: seq<string>, ys: seq<string>)
    requires MostRecent(history, xs) && MostRecent(history, ys)
    ensures xs == ys
  {
    hide MostRecent;
    PrefixesAgree(history, xs, ys, |xs|);
    assert xs[..|xs|] == xs && ys[..|ys|] == ys;
  }

  lemma {:induction false} PrefixesAgree(history: seq<Event>, xs: seq<string>, ys: seq<string>, i: nat)
    requires MostRecent(history, xs) && MostRecent(history, ys)
    ensures |xs| == |ys| && (i <= |xs| ==> xs[..i] == ys[..i])
    decreases i
  {
    if i == 0 {
      SameLength(history, xs, ys);
    } else {
      PrefixesAgree(history, xs, ys, i - 1);
      if i <= |xs| { SameAt(history, xs, ys, i - 1); }
    }
  }

  lemma SameAt(history: seq<Event>, xs: seq<string>, ys: seq<string>, i: nat)
    requires MostRecent(history, xs) && MostRecent(history, ys) && i < |xs| == |ys| && xs[..i] == ys[..i]
    ensures xs[i] == ys[i]
  {
    hide LastOpen;
    NotBefore(history, xs, ys, i);
    NotBefore(history, ys, xs, i);
    var x, y := xs[i], ys[i];
    assert LastOpen(history, x) == LastOpen(history, y);
    SameTime(history, x, y);
  }

  /** Element i of one list is not older than element i of the other. */
  lemma NotBefore(history: seq<Event>, xs: seq<string>, ys: seq<string>, i: nat)
    requires MostRecent(history, xs) && MostRecent(history, ys) && i < |xs| == |ys| && xs[..i] == ys[..i]
    ensures LastOpen(history, ys[i]) <= LastOpen(history, xs[i])
  {
    hide LastOpen;
    forall k | 0 <= k < i ensures xs[k] == ys[k] { assert xs[..i][k] == ys[..i][k]; }
    var y := ys[i];
    if y in xs { var k :| 0 <= k < |xs| && xs[k] == y; }
  }

  lemma {:induction false} SameTime(history: seq<Event>, x: string, y: string)
    requires LastOpen(history, x) == LastOpen(history, y) >= 0
    ensures x == y
  {
    var n := |history| - 1;
    if LastOpen(history, x) < n { SameTime(history[..n], x, y); }
  }

  lemma SameLength(history: seq<Event>, xs: seq<string>, ys: seq<string>)
    requires MostRecent(history, xs) && MostRecent(history, ys)
    ensures |xs| == |ys|
  {
    hide LastOpen;
    if |xs| < |ys| { Pigeonhole(history, xs, ys); }
    if |ys| < |xs| { Pigeonhole(history, ys, xs); }
  }

  /** A list that is not full holds every opened name, so the other cannot be longer. */
  lemma Pigeonhole(history: seq<Event>, xs: seq<string>, ys: seq<string>)
    requires MostRecent(history, xs) && MostRecent(history, ys)
    ensures !(|xs| < |ys|)
  {
    hide LastOpen;
    if |xs| < |ys| {
      forall j | 0 <= j < |ys| ensures ys[j] in xs {}
      Distinct(history, ys);
      Distinct(history, xs);
      var sx, sy := set x | x in xs, set y | y in ys;
      assert sy <= sx;
      SubsetSize(sy, sx);
    }
  }

  lemma SubsetSize(a: set<string>, b: set<string>)
    requires a <= b
    ensures |a| <= |b|
  {
    assert |b| == |a| + |b - a| by { assert b == a + (b - a); }
  }

  lemma Distinct(history: seq<Event>, xs: seq<string>)
    requires MostRecent(history, xs)
    ensures |set x | x in xs| == |xs|
  {
    hide LastOpen;
    DistinctSize(xs);
  }

  lemma {:induction false} DistinctSize(xs: seq<string>)
    requires forall i, j | 0 <= i < j < |xs| :: xs[i] != xs[j]
    ensures |set x | x in xs| == |xs|
  {
    if xs == [] {
      assert (set x | x in xs) == {};
    } else {
      var n := |xs| - 1;
      DistinctSize(xs[..n]);
      assert (set x | x in xs) == (set x | x in xs[..n]) + {xs[n]};
    }
  }

  // ---------- The window ----------

  function RemoveAll(files: seq<string>, name: string): seq<string> {
    if files == [] then []
    else
      var n := |files| - 1;
      RemoveAll(files[..n], name) + (if files[n] == name then [] else [files[n]])
  }

  /** Removing a name from a list of distinct names takes out its one place. */
  lemma {:induction false} RemoveFirst(files: seq<string>, name: string)
    requires forall i, j | 0 <= i < j < |files| :: files[i] != files[j]
    ensures name !in files ==> RemoveAll(files, name) == files
    ensures forall k | 0 <= k < |files| && files[k] == name :: RemoveAll(files, name) == files[..k] + files[k + 1..]
  {
    if files != [] {
      var n := |files| - 1;
      RemoveFirst(files[..n], name);
      forall k | 0 <= k < |files| && files[k] == name
        ensures RemoveAll(files, name) == files[..k] + files[k + 1..]
      {
        if k < n {
          assert files[..n][..k] == files[..k] && files[..n][k + 1..] + [files[n]] == files[k + 1..];
        } else {
          assert name !in files[..n];
        }
      }
      assert name !in files ==> files[..n] + [files[n]] == files;
    }
  }

  lemma DistinctNames(history: seq<Event>, files: seq<string>)
    requires MostRecent(history, files)
    ensures forall i, j | 0 <= i < j < |files| :: files[i] != files[j]
  {
    hide LastOpen;
  }

  lemma OpenMoves(history: seq<Event>, name: string, valid: bool, other: string)
    ensures LastOpen(history + [Open(name, valid)], other)
         == if valid && other == name then |history| else LastOpen(history, other)
  {
    assert (history + [Open(name, valid)])[..|history|] == history;
  }

  lemma FailedOpenChangesNothing(history: seq<Event>, name: string, files: seq<string>)
    requires MostRecent(history, files)
    ensures MostRecent(history + [Open(name, false)], files)
  {
    hide LastOpen;
    forall other ensures LastOpen(history + [Open(name, false)], other) == LastOpen(history, other) {
      OpenMoves(history, name, false, other);
    }
  }

  /** The opened name in front, the others behind it, cut to the limit. */
  lemma OpenKeepsMostRecent(history: seq<Event>, name: string, before: seq<string>, files: seq<string>)
    requires MostRecent(history, before)
    requires var longest := [name] + RemoveAll(before, name);
      files == if |longest| > LIMIT then longest[..LIMIT] else longest
    ensures MostRecent(history + [Open(name, true)], files)
  {
    hide LastOpen, RemoveAll, MostRecent;
    DistinctNames(history, before);
    RemoveFirst(before, name);
    if k :| 0 <= k < |before| && before[k] == name {
      NotOverfull(history, before);
      MoveToFront(history, name, before, k, files);
    } else {
      NotOverfull(history, before);
      PutInFront(history, name, before, files);
    }
  }

  lemma NotOverfull(history: seq<Event>, files: seq<string>)
    requires MostRecent(history, files)
    ensures |files| <= LIMIT
  {
  }

  /** The opened name was in the list. */
  lemma MoveToFront(history: seq<Event>, name: string, before: seq<string>, k: nat, files: seq<string>)
    requires MostRecent(history, before) && k < |before| && before[k] == name
    requires files == [name] + (before[..k] + before[k + 1..])
    ensures MostRecent(history + [Open(name, true)], files)
  {
    hide LastOpen;
    DistinctNames(history, before);
    Moved(name, before, k, files);
    Times(history, name);
  }

  lemma Moved(name: string, before: seq<string>, k: nat, files: seq<string>)
    requires k < |before| && before[k] == name && forall i, j | 0 <= i < j < |before| :: before[i] != before[j]
    requires files == [name] + (before[..k] + before[k + 1..])
    ensures |files| == |before| && files[0] == name
    ensures forall m | 1 <= m < |files| :: files[m] != name && files[m] == before[if m <= k then m - 1 else m]
    ensures forall other | other in before :: other in files
  {
    forall other | other in before ensures other in files {
      var m :| 0 <= m < |before| && before[m] == other;
      if m != k { assert files[if m < k then m + 1 else m] == other; }
    }
  }

  /** The opened name was not in the list; the last one may have to go. */
  lemma PutInFront(history: seq<Event>, name: string, before: seq<string>, files: seq<string>)
    requires MostRecent(history, before) && name !in before
    requires files == [name] + (if |before| == LIMIT then before[..LIMIT - 1] else before)
    ensures MostRecent(history + [Open(name, true)], files)
  {
    hide LastOpen;
    NotOverfull(history, before);
    Pushed(name, before, files);
    Times(history, name);
  }

  lemma Pushed(name: string, before: seq<string>, files: seq<string>)
    requires |before| <= LIMIT && files == [name] + (if |before| == LIMIT then before[..LIMIT - 1] else before)
    ensures |files| == (if |before| == LIMIT then LIMIT else |before| + 1) && files[0] == name
    ensures forall m | 1 <= m < |files| :: files[m] == before[m - 1]
    ensures forall other | other in before && other !in files :: |before| == LIMIT && other == before[LIMIT - 1]
  {
    forall m | 0 <= m < |files| - 1 ensures before[m] in files { assert files[m + 1] == before[m]; }
  }

  /** The times after opening a name: its own is the newest, the others stay. */
  lemma Times(history: seq<Event>, name: string)
    ensures forall other :: LastOpen(history + [Open(name, true)], other)
                            == if other == name then |history| else LastOpen(history, other)
  {
    hide LastOpen;
    forall other
      ensures LastOpen(history + [Open(name, true)], other)
           == if other == name then |history| else LastOpen(history, other)
    {
      OpenMoves(history, name, true, other);
    }
  }

  class MainWindow {
    var recentFiles: seq<string>
    ghost var history: seq<Event>

    ghost predicate Valid()
      reads this
    {
      MostRecent(history, recentFiles)
    }

    constructor ()
      ensures Valid() && history == [] && recentFiles == []
    {
      recentFiles, history := [], [];
    }

    /** Start-up with the list an earlier session saved: its history goes on. */
    constructor Restore(saved: seq<string>, ghost earlier: seq<Event>)
      requires MostRecent(earlier, saved)
      ensures Valid() && history == earlier && recentFiles == saved
    {
      recentFiles, history := saved, earlier;
    }

    /** Opening a file; an image that does not validate changes nothing. */
    method OpenFile(filename: string, valid: bool)
      requires Valid()
      modifies this
      ensures history == old(history) + [Open(filename, valid)] && Valid()
      ensures valid ==> recentFiles != [] && recentFiles[0] == filename
      ensures !valid ==> recentFiles == old(recentFiles)
    {
      hide LastOpen, MostRecent, RemoveAll;
      history := history + [Open(filename, valid)];
      if !valid {
        FailedOpenChangesNothing(old(history), filename, recentFiles);
        return;
      }
      recentFiles := RemoveAll(recentFiles, filename);
      recentFiles := [filename] + recentFiles;
      ghost var longest := recentFiles;
      while |recentFiles| > LIMIT
        invariant history == old(history) + [Open(filename, valid)]
        invariant |recentFiles| <= |longest| && recentFiles == longest[..|recentFiles|]
        invariant |longest| > LIMIT ==> |recentFiles| >= LIMIT
        invariant |longest| <= LIMIT ==> recentFiles == longest
      {
        recentFiles := recentFiles[..|recentFiles| - 1];
      }
      OpenKeepsMostRecent(old(history), filename, old(recentFiles), recentFiles);
    }

    method ClearRecent()
      requires Valid()
      modifies this
      ensures history == old(history) + [Clear] && Valid() && recentFiles == []
    {
      history := history + [Clear];
      recentFiles := [];
    }
  }

  /** The name was opened at `t`, and not again nor forgotten since. */
  ghost predicate OpenedAt(history: seq<Event>, name: string, t: nat) {
    && t < |history| && history[t] == Open(name, true)
    && forall k | t < k < |history| :: history[k] != Open(name, true) && history[k] != Clear
  }

  /** A name's last opening is its last valid one with no clear behind it. */
  lemma {:induction false} LastOpenIs(history: seq<Event>, name: string, t: nat)
    ensures LastOpen(history, name) == t <==> OpenedAt(history, name, t)
    decreases |history|
  {
    if history != [] {
      var n := |history| - 1;
      LastOpenIs(history[..n], name, t);
      if t < n { assert history[..n][t] == history[t]; }
      assert forall k | t < k < n :: history[..n][k] == history[k];
    }
  }

  /** The list never exceeds ten names, and as long as it is shorter it holds every name opened since
      the last clear. */
  lemma TenAtMost(history: seq<Event>, files: seq<string>, name: string, t: nat)
    requires MostRecent(history, files)
    ensures |files| <= 10
    ensures |files| < 10 && OpenedAt(history, name, t) ==> name in files
  {
    hide LastOpen;
    LastOpenIs(history, name, t);
  }
}
