/** Properties of `compare` and `make_sums` as written in `scripts/md5dir.py`. */
module Md5dirFacts {
  import opened Manifest
  import opened Md5dir
  import opened Wrappers
  import opened Checksum
  import opened Paths
  import StringOrder

  /** The lines between the header and the STATUS line. */
  predicate IsReport(e: Event) {
    e.Changed? || e.Deleted? || e.Added?
  }

  predicate AllReports(es: seq<Event>) {
    forall k :: 0 <= k < |es| ==> IsReport(es[k])
  }

  lemma {:induction false} LoopLogsReports(ignores: seq<string>, a: seq<Record>, b: seq<Record>, st: Cursor)
    requires InRange(a, b, st) && AllReports(st.events)
    ensures AllReports(Loop(ignores, a, b, st).events)
    decreases |a| - st.i + |b| - st.j
  {
    if st.i < |a| && st.j < |b| {
      LoopLogsReports(ignores, a, b, Step(ignores, a, b, st));
    }
  }

  /** The records the drain reports: those after the pending record of the
      side that did not run out. */
  function DrainedRecords(a: seq<Record>, b: seq<Record>, st: Cursor): seq<Record>
    requires InRange(a, b, st)
  {
    if st.i == |a| then (if st.j < |b| then b[st.j + 1..] else [])
    else if st.j == |b| then a[st.i + 1..]
    else []
  }

  /** The drain appends one ADDED line per drained record and counts each. */
  lemma DrainIsAddedEvents(a: seq<Record>, b: seq<Record>, st: Cursor)
    requires InRange(a, b, st)
    ensures Drain(a, b, st).events == st.events + AddedEvents(DrainedRecords(a, b, st))
    ensures Drain(a, b, st).added == st.added + |DrainedRecords(a, b, st)|
  {
    if st.i == |a| && st.j == |b| {
      assert b[st.j..] == [];
    }
  }

  lemma DrainLogsReports(a: seq<Record>, b: seq<Record>, st: Cursor)
    requires InRange(a, b, st) && AllReports(st.events)
    ensures AllReports(Drain(a, b, st).events)
  {
    var rest := DrainedRecords(a, b, st);
    DrainIsAddedEvents(a, b, st);
    var r := Drain(a, b, st);
    forall k | 0 <= k < |r.events| ensures IsReport(r.events[k]) {
      if k >= |st.events| {
        assert r.events[k] == AddedEvents(rest)[k - |st.events|];
      }
    }
  }

  /** `compare` writes the header first and exactly one STATUS line, last;
      every line between them is a CHANGED, DELETED or ADDED report. */
  lemma CompareLogShape(ignores: seq<string>, a: seq<Record>, b: seq<Record>, dirpath: string)
    ensures var log := CompareLog(ignores, a, b, dirpath);
      |log| >= 2 && log[0] == Analysis(dirpath) && log[|log| - 1].Status? &&
      (forall k :: 0 < k < |log| - 1 ==> IsReport(log[k])) &&
      (forall k :: 0 <= k < |log| && log[k].Status? ==> k == |log| - 1)
  {
    LoopLogsReports(ignores, a, b, Start);
    DrainLogsReports(a, b, Loop(ignores, a, b, Start));
    var r := CompareRun(ignores, a, b);
    var log := CompareLog(ignores, a, b, dirpath);
    assert log == [Analysis(dirpath)] + r.events + [Status(r.confirmed, r.added, r.deleted, r.changed)];
    forall k | 0 < k < |log| - 1 ensures IsReport(log[k]) {
      assert log[k] == r.events[k - 1];
    }
  }

  // ----- the STATUS counters against the report lines -----

  datatype Kind = ChangedKind | DeletedKind | AddedKind

  predicate IsKind(e: Event, kind: Kind) {
    match kind
    case ChangedKind => e.Changed?
    case DeletedKind => e.Deleted?
    case AddedKind => e.Added?
  }

  /** How many lines of the given kind `es` holds. */
  function Count(es: seq<Event>, kind: Kind): nat
    decreases |es|
  {
    if es == [] then 0
    else Count(es[..|es| - 1], kind) + if IsKind(es[|es| - 1], kind) then 1 else 0
  }

  lemma {:induction false} CountAppend(xs: seq<Event>, ys: seq<Event>, kind: Kind)
    ensures Count(xs + ys, kind) == Count(xs, kind) + Count(ys, kind)
    decreases |ys|
  {
    if ys != [] {
      assert (xs + ys)[..|xs + ys| - 1] == xs + ys[..|ys| - 1];
      CountAppend(xs, ys[..|ys| - 1], kind);
    } else {
      assert xs + ys == xs;
    }
  }

  lemma {:induction false} CountAddedEvents(rs: seq<Record>, kind: Kind)
    ensures Count(AddedEvents(rs), kind) == if kind == AddedKind then |rs| else 0
    decreases |rs|
  {
    if rs != [] {
      assert AddedEvents(rs)[..|rs| - 1] == AddedEvents(rs[..|rs| - 1]);
      CountAddedEvents(rs[..|rs| - 1], kind);
    }
  }

  predicate Tallied(st: Cursor) {
    st.changed == Count(st.events, ChangedKind) &&
    st.deleted == Count(st.events, DeletedKind) &&
    st.added == Count(st.events, AddedKind)
  }

  lemma TallyOne(st: Cursor, e: Event)
    requires Tallied(st)
    ensures Tallied(st.(events := st.events + [e],
      changed := st.changed + (if e.Changed? then 1 else 0),
      deleted := st.deleted + (if e.Deleted? then 1 else 0),
      added := st.added + (if e.Added? then 1 else 0)))
  {
    assert (st.events + [e])[..|st.events|] == st.events;
  }

  lemma StepTallies(ignores: seq<string>, a: seq<Record>, b: seq<Record>, st: Cursor)
    requires st.i < |a| && st.j < |b| && Tallied(st)
    ensures Tallied(Step(ignores, a, b, st))
  {
    var p, q := a[st.i].file, b[st.j].file;
    if Ignore(ignores, p) || Ignore(ignores, q) {
    } else if p == q {
      if a[st.i].md5 != b[st.j].md5 {
        TallyOne(st, Changed(p));
      }
    } else if StringOrder.Below(p, q) {
      TallyOne(st, Deleted(p));
    } else {
      TallyOne(st, Added(q));
    }
  }

  lemma {:induction false} LoopTallies(ignores: seq<string>, a: seq<Record>, b: seq<Record>, st: Cursor)
    requires InRange(a, b, st) && Tallied(st)
    ensures Tallied(Loop(ignores, a, b, st))
    decreases |a| - st.i + |b| - st.j
  {
    if st.i < |a| && st.j < |b| {
      StepTallies(ignores, a, b, st);
      LoopTallies(ignores, a, b, Step(ignores, a, b, st));
    }
  }

  /** The STATUS line's changed, deleted and added figures are the numbers of
      CHANGED, DELETED and ADDED lines above it. */
  lemma StatusCountsReports(ignores: seq<string>, a: seq<Record>, b: seq<Record>)
    ensures var r := CompareRun(ignores, a, b);
      r.changed == Count(r.events, ChangedKind) &&
      r.deleted == Count(r.events, DeletedKind) &&
      r.added == Count(r.events, AddedKind)
  {
    LoopTallies(ignores, a, b, Start);
    var m := Loop(ignores, a, b, Start);
    var rest := DrainedRecords(a, b, m);
    DrainIsAddedEvents(a, b, m);
    CountAppend(m.events, AddedEvents(rest), ChangedKind);
    CountAppend(m.events, AddedEvents(rest), DeletedKind);
    CountAppend(m.events, AddedEvents(rest), AddedKind);
    CountAddedEvents(rest, ChangedKind);
    CountAddedEvents(rest, DeletedKind);
    CountAddedEvents(rest, AddedKind);
  }

  /** Two empty manifests log the header and an all-zero STATUS line only. */
  lemma EmptyManifests(ignores: seq<string>, dirpath: string)
    ensures CompareLog(ignores, [], [], dirpath) == [Analysis(dirpath), Status(0, 0, 0, 0)]
  {
  }

  // ----- comparing a manifest against itself -----

  /** The number of records of `xs[..n]` no ignore pattern matches. */
  function Kept(ignores: seq<string>, xs: seq<Record>, n: nat): nat
    requires n <= |xs|
  {
    if n == 0 then 0 else Kept(ignores, xs, n - 1) + if Ignore(ignores, xs[n - 1].file) then 0 else 1
  }

  /** The length of the run of ignored records at the end of `xs`. */
  function TrailingIgnored(ignores: seq<string>, xs: seq<Record>): (t: nat)
    ensures t <= |xs|
  {
    if xs != [] && Ignore(ignores, xs[|xs| - 1].file) then 1 + TrailingIgnored(ignores, xs[..|xs| - 1]) else 0
  }

  predicate IgnoredBetween(ignores: seq<string>, xs: seq<Record>, lo: nat, hi: nat)
    requires lo <= hi <= |xs|
  {
    forall k {:trigger Ignore(ignores, xs[k].file)} :: lo <= k < hi ==> Ignore(ignores, xs[k].file)
  }

  /** The main loop on `compare(xs, xs)`: the old cursor runs ahead of the
      new one over ignored records only, and both meet on every kept one. */
  predicate SelfState(ignores: seq<string>, xs: seq<Record>, st: Cursor) {
    st.j <= st.i <= |xs| && IgnoredBetween(ignores, xs, st.j, st.i) &&
    (st.j == 0 || !Ignore(ignores, xs[st.j - 1].file) || (st.i < |xs| && !Ignore(ignores, xs[st.i].file))) &&
    st.confirmed == Kept(ignores, xs, st.j) &&
    st.changed == 0 && st.added == 0 && st.deleted == 0 && st.events == []
  }

  lemma {:induction false} KeptSkipsIgnored(ignores: seq<string>, xs: seq<Record>, lo: nat, hi: nat)
    requires lo <= hi <= |xs| && IgnoredBetween(ignores, xs, lo, hi)
    ensures Kept(ignores, xs, hi) == Kept(ignores, xs, lo)
    decreases hi - lo
  {
    if lo < hi {
      KeptSkipsIgnored(ignores, xs, lo, hi - 1);
    }
  }

  lemma SelfStep(ignores: seq<string>, xs: seq<Record>, st: Cursor)
    requires SelfState(ignores, xs, st) && st.i < |xs| && st.j < |xs|
    ensures SelfState(ignores, xs, Step(ignores, xs, xs, st))
  {
    var r := Step(ignores, xs, xs, st);
    if Ignore(ignores, xs[st.i].file) {
    } else if Ignore(ignores, xs[st.j].file) {
      KeptSkipsIgnored(ignores, xs, st.j, st.j + 1);
    } else {
      assert st.j == st.i;
      assert r == st.(i := st.i + 1, j := st.j + 1, confirmed := st.confirmed + 1);
    }
  }

  lemma {:induction false} SelfLoop(ignores: seq<string>, xs: seq<Record>, st: Cursor)
    requires SelfState(ignores, xs, st)
    ensures var r := Loop(ignores, xs, xs, st);
      SelfState(ignores, xs, r) && r.i == |xs|
    decreases |xs| - st.i + |xs| - st.j
  {
    if st.i < |xs| && st.j < |xs| {
      SelfStep(ignores, xs, st);
      SelfLoop(ignores, xs, Step(ignores, xs, xs, st));
    }
  }

  lemma {:induction false} TrailingBlock(ignores: seq<string>, xs: seq<Record>, j: nat)
    requires j <= |xs| && IgnoredBetween(ignores, xs, j, |xs|)
    requires j == 0 || !Ignore(ignores, xs[j - 1].file)
    ensures TrailingIgnored(ignores, xs) == |xs| - j
    decreases |xs|
  {
    if j < |xs| {
      var init := xs[..|xs| - 1];
      assert j == 0 || !Ignore(ignores, init[j - 1].file);
      TrailingBlock(ignores, init, j);
    }
  }

  /** `compare` of a manifest against itself, exactly: every kept record is
      confirmed and nothing is changed or deleted; when the manifest ends in
      a run of `t` ignored records, the drain skips the first of them and
      reports the other `t - 1` as ADDED. */
  lemma SelfCompare(ignores: seq<string>, xs: seq<Record>)
    ensures CompareRun(ignores, xs, xs).confirmed == Kept(ignores, xs, |xs|)
    ensures CompareRun(ignores, xs, xs).changed == 0 && CompareRun(ignores, xs, xs).deleted == 0
    ensures var t := TrailingIgnored(ignores, xs);
      CompareRun(ignores, xs, xs).added == if t == 0 then 0 else t - 1
    ensures TrailingIgnored(ignores, xs) == 0 ==> CompareRun(ignores, xs, xs).events == []
    ensures var t := TrailingIgnored(ignores, xs);
      t != 0 ==> CompareRun(ignores, xs, xs).events == AddedEvents(xs[|xs| - t + 1..])
  {
    SelfLoop(ignores, xs, Start);
    var m := Loop(ignores, xs, xs, Start);
    assert CompareRun(ignores, xs, xs) == Drain(xs, xs, m);
    var t := TrailingIgnored(ignores, xs);
    SelfLoopEnd(ignores, xs, m);
    SelfDrain(xs, m, t);
    SelfDrainEvents(xs, m, t);
  }

  /** The state the main loop leaves: every kept record confirmed, and the
      new cursor at the start of the trailing run of ignored records. */
  lemma SelfLoopEnd(ignores: seq<string>, xs: seq<Record>, m: Cursor)
    requires SelfState(ignores, xs, m) && m.i == |xs|
    ensures m.j <= m.i == |xs| && m.changed == 0 && m.added == 0 && m.deleted == 0 && m.events == []
    ensures m.confirmed == Kept(ignores, xs, |xs|)
    ensures TrailingIgnored(ignores, xs) == |xs| - m.j
  {
    KeptSkipsIgnored(ignores, xs, m.j, |xs|);
    TrailingBlock(ignores, xs, m.j);
  }

  /** The drain after the main loop of `compare(xs, xs)` with nothing logged
      yet, the old side exhausted and the last `t` new records not yet
      visited: the first of them is skipped and the other `t - 1` are
      counted as ADDED. */
  lemma SelfDrain(xs: seq<Record>, m: Cursor, t: nat)
    requires m.j <= m.i == |xs| && m.changed == 0 && m.added == 0 && m.deleted == 0 && m.events == []
    requires t == |xs| - m.j
    ensures Drain(xs, xs, m).confirmed == m.confirmed
    ensures Drain(xs, xs, m).changed == 0 && Drain(xs, xs, m).deleted == 0
    ensures Drain(xs, xs, m).added == (if t == 0 then 0 else t - 1)
  {
  }

  /** ... and logged as ADDED, in order. */
  lemma SelfDrainEvents(xs: seq<Record>, m: Cursor, t: nat)
    requires m.j <= m.i == |xs| && m.events == []
    requires t == |xs| - m.j
    ensures t == 0 ==> Drain(xs, xs, m).events == []
    ensures t != 0 ==> Drain(xs, xs, m).events == AddedEvents(xs[|xs| - t + 1..])
  {
    var r := Drain(xs, xs, m);
    if t == 0 {
      assert |r.events| == |AddedEvents(xs[|xs|..])| == 0;
    } else {
      assert |xs| - t + 1 == m.j + 1;
      assert r.events == [] + AddedEvents(xs[m.j + 1..]);
    }
  }

  /** Hence a manifest whose last record is not ignored compares equal to
      itself: one header line and `STATUS: confirmed <kept> added 0 deleted 0
      changed 0`. */
  lemma SelfCompareQuiet(ignores: seq<string>, xs: seq<Record>, dirpath: string)
    requires xs == [] || !Ignore(ignores, xs[|xs| - 1].file)
    ensures CompareLog(ignores, xs, xs, dirpath) == [Analysis(dirpath), Status(Kept(ignores, xs, |xs|), 0, 0, 0)]
  {
    SelfCompare(ignores, xs);
  }

  // ----- make_sums -----

  /** Every listed file whose checksum is not -1 has its line
      `"<md5>  <fname>"`; with `Manifest.FormatLineParses` it reads back as
      the same `(fname, md5)`. */
  lemma {:induction false} SuccessesHaveLines(mp3mode: bool, root: string, files: seq<(string, Option<seq<bv8>>)>, md5: Md5)
    ensures forall k :: 0 <= k < |files| && SumOf(mp3mode, Join(root, files[k].0), files[k].1, md5).Hex? ==>
      FormatLine(SumOf(mp3mode, Join(root, files[k].0), files[k].1, md5).digest, files[k].0) in SumLines(mp3mode, root, files, md5)
    decreases |files|
  {
    if files != [] {
      var n := |files| - 1;
      var init := files[..n];
      SumStep(mp3mode, root, files, n, md5);
      assert files[..n + 1] == files;
      var before := SumLines(mp3mode, root, init, md5);
      assert SumLines(mp3mode, root, files, md5) ==
        before + LineFor(SumOf(mp3mode, Join(root, files[n].0), files[n].1, md5), files[n].0);
      SuccessesHaveLines(mp3mode, root, init, md5);
      forall k | 0 <= k < |files| && SumOf(mp3mode, Join(root, files[k].0), files[k].1, md5).Hex?
        ensures FormatLine(SumOf(mp3mode, Join(root, files[k].0), files[k].1, md5).digest, files[k].0) in SumLines(mp3mode, root, files, md5)
      {
        if k < n {
          assert init[k] == files[k];
        }
      }
    }
  }

  /** Every line written is that of a listed file whose checksum is not -1. */
  lemma {:induction false} LinesHaveSuccesses(mp3mode: bool, root: string, files: seq<(string, Option<seq<bv8>>)>, md5: Md5)
    ensures forall line :: line in SumLines(mp3mode, root, files, md5) ==>
      exists k :: 0 <= k < |files| && SumOf(mp3mode, Join(root, files[k].0), files[k].1, md5).Hex? &&
        line == FormatLine(SumOf(mp3mode, Join(root, files[k].0), files[k].1, md5).digest, files[k].0)
    decreases |files|
  {
    if files != [] {
      var n := |files| - 1;
      var init := files[..n];
      SumStep(mp3mode, root, files, n, md5);
      assert files[..n + 1] == files;
      LinesHaveSuccesses(mp3mode, root, init, md5);
      assert forall k :: 0 <= k < n ==> init[k] == files[k];
    }
  }
}
