/** `scripts/md5dir.py`: the `Md5dir` object. Its output sink is the
    sequence of events it has logged (one line each); the ignore list is the
    pattern list `set_ignores` loaded. The two manifests `compare` reads are
    given as the text of each file, or `None` when the path is not a file. */
module Md5dir {
  import opened Wrappers
  import opened Manifest
  import opened StringOrder
  import opened Checksum
  import opened Paths
  import Fnmatch

  /** One line written to the output sink. */
  datatype Event =
    | Analysis(dir: string)          // "Analysis of <dir>"
    | Changed(path: string)          // "CHANGED: <path>"
    | Deleted(path: string)          // "DELETED: <path>"
    | Added(path: string)            // "ADDED: <path>"
    | Broken(path: string)           // "BROKEN: <path>"
    | Status(confirmed: nat, added: nat, deleted: nat, changed: nat)
                                     // "STATUS: confirmed N added N deleted N changed N"

  /** How `calc_sum` ends: it returns a hex digest, or -1 after an `IOError`
      it catches, or an `IOError` it does not catch escapes it. */
  datatype SumResult = Hex(digest: Hex32) | Failed | Raised

  /** `ignore(filename)`: the patterns are tried in order, the first match
      answers True. */
  function Ignore(ignores: seq<string>, filename: string): bool
    decreases |ignores|
  {
    if ignores == [] then false
    else if Fnmatch.Fnmatch(filename, ignores[0]) then true
    else Ignore(ignores[1..], filename)
  }

  /** A name is ignored exactly when some pattern of the list matches it. */
  lemma {:induction false} IgnoreIffSomePatternMatches(ignores: seq<string>, filename: string)
    ensures Ignore(ignores, filename) <==> exists k :: 0 <= k < |ignores| && Fnmatch.Fnmatch(filename, ignores[k])
    decreases |ignores|
  {
    if ignores != [] && !Fnmatch.Fnmatch(filename, ignores[0]) {
      IgnoreIffSomePatternMatches(ignores[1..], filename);
      if Ignore(ignores, filename) {
        var k :| 0 <= k < |ignores[1..]| && Fnmatch.Fnmatch(filename, ignores[1..][k]);
        assert Fnmatch.Fnmatch(filename, ignores[k + 1]);
      } else {
        forall k | 0 <= k < |ignores| ensures !Fnmatch.Fnmatch(filename, ignores[k]) {
          if k > 0 {
            assert ignores[k] == ignores[1..][k - 1];
          }
        }
      }
    }
  }

  /** The events `log` writes: none when changes are suppressed. */
  function Shown(suppress: bool, es: seq<Event>): seq<Event> {
    if suppress then [] else es
  }

  /** A header, a body and a trailer logged one after another. */
  lemma ShownFrame(suppress: bool, head: Event, body: seq<Event>, tail: Event)
    ensures Shown(suppress, [head]) + Shown(suppress, body) + Shown(suppress, [tail]) == Shown(suppress, [head] + body + [tail])
  {
  }

  lemma ShownAppend(suppress: bool, xs: seq<Event>, ys: seq<Event>)
    ensures Shown(suppress, xs + ys) == Shown(suppress, xs) + Shown(suppress, ys)
  {
  }

  /** Showing more events after those already shown. */
  lemma ShownExtend(o: seq<Event>, suppress: bool, xs: seq<Event>, ys: seq<Event>)
    ensures o + Shown(suppress, xs) + Shown(suppress, ys) == o + Shown(suppress, xs + ys)
  {
  }

  lemma AppendRegroups(o: seq<Event>, w: seq<Event>, x: seq<Event>, y: seq<Event>, z: seq<Event>)
    ensures o + w + x + y + z == o + (w + (x + y) + z)
  {
  }

  /** Logging one more event extends what is shown by what that event shows. */
  lemma ShownSnoc(suppress: bool, es: seq<Event>, e: Event)
    ensures Shown(suppress, es + [e]) == Shown(suppress, es) + Shown(suppress, [e])
  {
  }

  // ----- compare: the merge-join state and one function per phase -----

  /** The two cursors (`i` into the old records, `j` into the new ones; the
      end of a sequence stands for the -1 sentinel), the four counters, and
      the events logged so far. */
  datatype Cursor = Cursor(i: nat, j: nat, confirmed: nat, changed: nat, added: nat, deleted: nat, events: seq<Event>)

  const Start := Cursor(0, 0, 0, 0, 0, 0, [])

  /** One iteration of the `while True` loop of `compare`, both cursors on a record. */
  function Step(ignores: seq<string>, a: seq<Record>, b: seq<Record>, st: Cursor): (r: Cursor)
    requires st.i < |a| && st.j < |b|
    ensures st.i <= r.i <= st.i + 1 && st.j <= r.j <= st.j + 1 && r.i + r.j > st.i + st.j
    ensures Ignore(ignores, a[st.i].file) ==> r == st.(i := st.i + 1)
    ensures !Ignore(ignores, a[st.i].file) && Ignore(ignores, b[st.j].file) ==> r == st.(j := st.j + 1)
  {
    var pathold := a[st.i].file;
    var pathnew := b[st.j].file;
    if Ignore(ignores, pathold) then st.(i := st.i + 1)
    else if Ignore(ignores, pathnew) then st.(j := st.j + 1)
    else if pathold == pathnew then
      if a[st.i].md5 != b[st.j].md5 then
        st.(i := st.i + 1, j := st.j + 1, changed := st.changed + 1, events := st.events + [Changed(pathold)])
      else
        st.(i := st.i + 1, j := st.j + 1, confirmed := st.confirmed + 1)
    else if Below(pathold, pathnew) then
      st.(i := st.i + 1, deleted := st.deleted + 1, events := st.events + [Deleted(pathold)])
    else
      st.(j := st.j + 1, added := st.added + 1, events := st.events + [Added(pathnew)])
  }

  predicate InRange(a: seq<Record>, b: seq<Record>, st: Cursor) {
    st.i <= |a| && st.j <= |b|
  }

  /** The main loop: step until one cursor reaches the end of its records. */
  function Loop(ignores: seq<string>, a: seq<Record>, b: seq<Record>, st: Cursor): (r: Cursor)
    requires InRange(a, b, st)
    ensures InRange(a, b, r) && (r.i == |a| || r.j == |b|)
    ensures st.i <= r.i && st.j <= r.j
    decreases |a| - st.i + |b| - st.j
  {
    if st.i == |a| || st.j == |b| then st else Loop(ignores, a, b, Step(ignores, a, b, st))
  }

  lemma LoopUnfolds(ignores: seq<string>, a: seq<Record>, b: seq<Record>, st: Cursor)
    requires st.i < |a| && st.j < |b|
    ensures Loop(ignores, a, b, st) == Loop(ignores, a, b, Step(ignores, a, b, st))
  {
  }

  /** One ADDED line per record, in order. */
  function AddedEvents(rs: seq<Record>): seq<Event> {
    seq(|rs|, k requires 0 <= k < |rs| => Added(rs[k].file))
  }

  lemma AddedEventsSnoc(rs: seq<Record>, from: nat, k: nat)
    requires from <= k < |rs|
    ensures AddedEvents(rs[from..k + 1]) == AddedEvents(rs[from..k]) + [Added(rs[k].file)]
  {
    assert AddedEvents(rs[from..k + 1])[k - from] == Added(rs[k].file);
  }

  /** Lines 195-206, after the main loop: when the old records ran out, one
      `neckst` call discards the new record the cursor is on and every later
      new record is ADDED; when the new records ran out, the old record the
      cursor is on is discarded and every later old record is logged and
      counted as ADDED too. No ignore test is made here. */
  function Drain(a: seq<Record>, b: seq<Record>, st: Cursor): (r: Cursor)
    requires InRange(a, b, st)
    ensures r.confirmed == st.confirmed && r.changed == st.changed && r.deleted == st.deleted
    ensures st.added <= r.added && |st.events| <= |r.events| && r.events[..|st.events|] == st.events
  {
    if st.i == |a| then
      var k := if st.j < |b| then st.j + 1 else st.j;
      st.(j := |b|, added := st.added + (|b| - k), events := st.events + AddedEvents(b[k..]))
    else if st.j == |b| then
      st.(i := |a|, added := st.added + (|a| - (st.i + 1)), events := st.events + AddedEvents(a[st.i + 1..]))
    else st
  }

  /** The cursor state at the end of `compare`. */
  function CompareRun(ignores: seq<string>, a: seq<Record>, b: seq<Record>): Cursor {
    Drain(a, b, Loop(ignores, a, b, Start))
  }

  /** Everything `compare` logs, in order. */
  function CompareLog(ignores: seq<string>, a: seq<Record>, b: seq<Record>, dirpath: string): seq<Event> {
    var r := CompareRun(ignores, a, b);
    [Analysis(dirpath)] + r.events + [Status(r.confirmed, r.added, r.deleted, r.changed)]
  }

  // ----- make_sums -----

  /** `calc_sum` hands an `.mp3` file in MP3 mode to `calculateUID` before
      its `try`: the `IOError` of a file that cannot be opened, or of one
      shorter than 128 bytes, is not caught. */
  predicate SumRaises(mp3mode: bool, filepath: string, file: Option<seq<bv8>>) {
    mp3mode && EndsWith(filepath, ".mp3") && !(file.Some? && UidDefined(file.value))
  }

  /** How `calc_sum` ends on a file with contents `file` (`None` when opening
      or reading it raises `IOError`): only uncaught errors escape, only
      unreadable files outside the MP3 path give -1. */
  function SumOf(mp3mode: bool, filepath: string, file: Option<seq<bv8>>, md5: Md5): (r: SumResult)
    ensures r.Raised? <==> SumRaises(mp3mode, filepath, file)
    ensures r.Failed? <==> !(mp3mode && EndsWith(filepath, ".mp3")) && file.None?
    ensures !(mp3mode && EndsWith(filepath, ".mp3")) && file.Some? ==> r == Hex(md5(file.value))
  {
    if mp3mode && EndsWith(filepath, ".mp3") then
      if file.Some? && UidDefined(file.value) then Hex(CalculateUid(file.value, md5)) else Raised
    else if file.None? then Failed
    else Hex(md5(file.value))
  }

  /** The events `calc_sum` logs. */
  function SumEvents(mp3mode: bool, filepath: string, file: Option<seq<bv8>>): seq<Event> {
    if !(mp3mode && EndsWith(filepath, ".mp3")) && file.None? then [Broken(filepath)] else []
  }

  /** Whether `calc_sum` raises on the listed file `e` (relative name,
      contents) under `root`. */
  predicate EntryRaises(mp3mode: bool, root: string, e: (string, Option<seq<bv8>>)) {
    SumRaises(mp3mode, Join(root, e.0), e.1)
  }

  /** The number of files `make_sums` gets through: the position of the
      first file whose `calc_sum` raises, or all of them. */
  function FirstRaise(mp3mode: bool, root: string, files: seq<(string, Option<seq<bv8>>)>): (n: nat)
    ensures n <= |files|
    ensures forall k {:trigger EntryRaises(mp3mode, root, files[k])} :: 0 <= k < n ==> !EntryRaises(mp3mode, root, files[k])
    ensures n < |files| ==> EntryRaises(mp3mode, root, files[n])
    decreases |files|
  {
    if files == [] then 0
    else if EntryRaises(mp3mode, root, files[0]) then 0
    else
      var m := FirstRaise(mp3mode, root, files[1..]);
      assert forall k :: 1 <= k < m + 1 ==> files[k] == files[1..][k - 1];
      1 + m
  }

  /** Among the files `make_sums` reaches, the one whose `calc_sum` raises
      is the one `FirstRaise` names. */
  lemma FirstRaiseAt(mp3mode: bool, root: string, files: seq<(string, Option<seq<bv8>>)>, index: nat)
    requires index <= FirstRaise(mp3mode, root, files) && index < |files|
    ensures EntryRaises(mp3mode, root, files[index]) <==> index == FirstRaise(mp3mode, root, files)
  {
  }

  /** The lines `make_sums` writes, before the external `sort`: one per
      listed file whose checksum is not -1, in walk order. */
  function SumLines(mp3mode: bool, root: string, files: seq<(string, Option<seq<bv8>>)>, md5: Md5): seq<string>
    decreases |files|
  {
    if files == [] then []
    else
      var (fname, file) := files[|files| - 1];
      SumLines(mp3mode, root, files[..|files| - 1], md5) + LineFor(SumOf(mp3mode, Join(root, fname), file, md5), fname)
  }

  /** The line `make_sums` writes for one file: none when the sum is -1. */
  function LineFor(r: SumResult, fname: string): seq<string> {
    if r.Hex? then [FormatLine(r.digest, fname)] else []
  }

  /** The BROKEN events of a `make_sums` run. */
  function SumLogs(mp3mode: bool, root: string, files: seq<(string, Option<seq<bv8>>)>): seq<Event>
    decreases |files|
  {
    if files == [] then []
    else
      var (fname, file) := files[|files| - 1];
      SumLogs(mp3mode, root, files[..|files| - 1]) + SumEvents(mp3mode, Join(root, fname), file)
  }

  /** One more file processed by `make_sums`. */
  lemma SumStep(mp3mode: bool, root: string, files: seq<(string, Option<seq<bv8>>)>, index: nat, md5: Md5)
    requires index < |files|
    ensures SumLines(mp3mode, root, files[..index + 1], md5) == SumLines(mp3mode, root, files[..index], md5) +
      LineFor(SumOf(mp3mode, Join(root, files[index].0), files[index].1, md5), files[index].0)
    ensures SumLogs(mp3mode, root, files[..index + 1]) ==
      SumLogs(mp3mode, root, files[..index]) + SumEvents(mp3mode, Join(root, files[index].0), files[index].1)
  {
    assert files[..index + 1][..index] == files[..index];
  }

  class Md5dir {
    var output: seq<Event>
    const ignores: seq<string>
    const mp3mode: bool
    const suppressChanges: bool

    /** The object as the command line sets it up: a fresh sink, the MP3 and
        suppress flags, and the pattern list loaded by `set_ignores`. */
    constructor (mp3mode: bool, suppressChanges: bool, ignores: seq<string>)
      ensures output == [] && this.mp3mode == mp3mode
      ensures this.suppressChanges == suppressChanges && this.ignores == ignores
    {
      output := [];
      this.mp3mode := mp3mode;
      this.suppressChanges := suppressChanges;
      this.ignores := ignores;
    }

    /** `log(msg)`. */
    method Log(e: Event)
      modifies this`output
      ensures output == old(output) + Shown(suppressChanges, [e])
    {
      if !suppressChanges {
        output := output + [e];
      }
    }

    /** `calc_sum(filepath)` on a file whose contents are `file` (`None`
        when opening or reading it raises `IOError`); `Raised` stands for
        the uncaught `IOError` of `calculateUID`. */
    method CalcSum(filepath: string, file: Option<seq<bv8>>, md5: Md5) returns (r: SumResult)
      modifies this`output
      ensures r == SumOf(mp3mode, filepath, file, md5)
      ensures output == old(output) + Shown(suppressChanges, SumEvents(mp3mode, filepath, file))
    {
      if mp3mode && EndsWith(filepath, ".mp3") {
        if file.Some? && UidDefined(file.value) {
          return Hex(CalculateUid(file.value, md5));
        }
        return Raised;
      }
      match file {
        case None =>
          Log(Broken(filepath));
          r := Failed;
        case Some(content) =>
          var hex := HashFile(content, md5);
          r := Hex(hex);
      }
    }

    /** `make_sums(root, hashfile)` for the files `master_list(root)` lists
        (relative name, contents): the lines written to the hash file before
        it is sorted, and whether an `IOError` escaped, which ends the run at
        the file that raised it (the lines already written stay in the
        file, which is not sorted). */
    method MakeSums(root: string, files: seq<(string, Option<seq<bv8>>)>, md5: Md5) returns (lines: seq<string>, raised: bool)
      modifies this`output
      ensures var n := FirstRaise(mp3mode, root, files);
        raised == (n < |files|) && lines == SumLines(mp3mode, root, files[..n], md5)
      ensures var n := FirstRaise(mp3mode, root, files);
        output == old(output) + Shown(suppressChanges, SumLogs(mp3mode, root, files[..n]))
    {
      ghost var n := FirstRaise(mp3mode, root, files);
      lines := [];
      raised := false;
      var index := 0;
      while index < |files|
        invariant index <= n
        invariant lines == SumLines(mp3mode, root, files[..index], md5)
        invariant output == old(output) + Shown(suppressChanges, SumLogs(mp3mode, root, files[..index]))
      {
        var (fname, file) := files[index];
        SumStep(mp3mode, root, files, index, md5);
        FirstRaiseAt(mp3mode, root, files, index);
        ShownExtend(old(output), suppressChanges, SumLogs(mp3mode, root, files[..index]), SumEvents(mp3mode, Join(root, fname), file));
        var newhash := CalcSum(Join(root, fname), file, md5);
        if newhash.Raised? {
          raised := true;
          return;
        }
        lines := lines + LineFor(newhash, fname);
        index := index + 1;
      }
    }

    /** The `while True` loop of `compare`, up to the point where one
        `neckst` returns -1: the cursors and counters it leaves, and the
        events it logged. */
    method MergeRecords(olds: seq<Record>, news: seq<Record>)
      returns (i: nat, j: nat, confirmed: nat, changed: nat, added: nat, deleted: nat, ghost logged: seq<Event>)
      modifies this`output
      ensures Cursor(i, j, confirmed, changed, added, deleted, logged) == Loop(ignores, olds, news, Start)
      ensures output == old(output) + Shown(suppressChanges, logged)
    {
      confirmed, changed, added, deleted := 0, 0, 0, 0;
      i, j := 0, 0;
      logged := [];
      ghost var goal := Loop(ignores, olds, news, Start);
      while i < |olds| && j < |news|
        invariant i <= |olds| && j <= |news|
        invariant Loop(ignores, olds, news, Cursor(i, j, confirmed, changed, added, deleted, logged)) == goal
        invariant output == old(output) + Shown(suppressChanges, logged)
        decreases |olds| - i + |news| - j
      {
        ghost var next := Step(ignores, olds, news, Cursor(i, j, confirmed, changed, added, deleted, logged));
        LoopUnfolds(ignores, olds, news, Cursor(i, j, confirmed, changed, added, deleted, logged));
        var pathold := olds[i].file;
        var pathnew := news[j].file;
        if Ignore(ignores, pathold) {
          i := i + 1;
        } else if Ignore(ignores, pathnew) {
          j := j + 1;
        } else if pathold == pathnew {
          if olds[i].md5 != news[j].md5 {
            Log(Changed(pathold));
            ShownSnoc(suppressChanges, logged, Changed(pathold));
            logged := logged + [Changed(pathold)];
            changed := changed + 1;
          } else {
            confirmed := confirmed + 1;
          }
          i, j := i + 1, j + 1;
        } else if Below(pathold, pathnew) {
          Log(Deleted(pathold));
          ShownSnoc(suppressChanges, logged, Deleted(pathold));
          logged := logged + [Deleted(pathold)];
          deleted := deleted + 1;
          i := i + 1;
        } else {
          Log(Added(pathnew));
          ShownSnoc(suppressChanges, logged, Added(pathnew));
          logged := logged + [Added(pathnew)];
          added := added + 1;
          j := j + 1;
        }
        assert Cursor(i, j, confirmed, changed, added, deleted, logged) == next;
      }
    }

    /** One of the two drain loops of `compare`: every record of `rs` from
        index `from` on is logged and counted as ADDED. */
    method LogRemainingAsAdded(rs: seq<Record>, from: nat, added: nat) returns (total: nat)
      requires from <= |rs|
      modifies this`output
      ensures total == added + (|rs| - from)
      ensures output == old(output) + Shown(suppressChanges, AddedEvents(rs[from..]))
    {
      total := added;
      var k := from;
      while k < |rs|
        invariant from <= k <= |rs|
        invariant total == added + (k - from)
        invariant output == old(output) + Shown(suppressChanges, AddedEvents(rs[from..k]))
      {
        Log(Added(rs[k].file));
        ShownSnoc(suppressChanges, AddedEvents(rs[from..k]), Added(rs[k].file));
        AddedEventsSnoc(rs, from, k);
        total := total + 1;
        k := k + 1;
      }
      assert rs[from..k] == rs[from..];
    }

    /** Lines 195-206 of `compare`: the drain after the main loop stopped
        in state `merged`. Returns the final ADDED count and the events it
        logged. */
    method DrainRemaining(olds: seq<Record>, news: seq<Record>, i: nat, j: nat, added: nat, ghost merged: Cursor)
      returns (total: nat, ghost drained: seq<Event>)
      requires merged.i == i && merged.j == j && merged.added == added && InRange(olds, news, merged)
      modifies this`output
      ensures Drain(olds, news, merged).events == merged.events + drained
      ensures Drain(olds, news, merged).added == total
      ensures output == old(output) + Shown(suppressChanges, drained)
    {
      total, drained := added, [];
      if i == |olds| {
        var k := j;
        if k < |news| {
          k := k + 1;
        }
        drained := AddedEvents(news[k..]);
        total := LogRemainingAsAdded(news, k, added);
      } else if j == |news| {
        drained := AddedEvents(olds[i + 1..]);
        total := LogRemainingAsAdded(olds, i + 1, added);
      }
    }

    /** `compare(path1, path2, dirpath)`. */
    method Compare(oldManifest: Option<string>, newManifest: Option<string>, dirpath: string)
      modifies this`output
      ensures output == old(output) + Shown(suppressChanges, CompareLog(ignores, GetDict(oldManifest), GetDict(newManifest), dirpath))
    {
      var olds := GetDict(oldManifest);
      var news := GetDict(newManifest);
      Log(Analysis(dirpath));
      var i, j, confirmed, changed, added, deleted, logged := MergeRecords(olds, news);
      ghost var merged := Cursor(i, j, confirmed, changed, added, deleted, logged);
      ghost var drained;
      added, drained := DrainRemaining(olds, news, i, j, added, merged);
      ghost var run := CompareRun(ignores, olds, news);
      assert run.events == logged + drained && run.added == added;
      assert run.confirmed == confirmed && run.changed == changed && run.deleted == deleted;
      Log(Status(confirmed, added, deleted, changed));
      ShownAppend(suppressChanges, logged, drained);
      ShownFrame(suppressChanges, Analysis(dirpath), logged + drained, Status(confirmed, added, deleted, changed));
      AppendRegroups(old(output), Shown(suppressChanges, [Analysis(dirpath)]), Shown(suppressChanges, logged),
        Shown(suppressChanges, drained), Shown(suppressChanges, [Status(confirmed, added, deleted, changed)]));
    }
  }
}
