/** Where the drain of `compare` in `scripts/md5dir.py` departs from what a
    manifest diff evidently means to report, and a corrected drain with the
    diff property proved. */
module CompareFindings {
  import opened Manifest
  import opened StringOrder
  import opened Md5dir
  import Fnmatch
  import Md5dirFacts

  // ----- the corrected drain -----

  /** The records of `rs[i..]` no ignore pattern matches, in order. */
  function KeptFrom(ignores: seq<string>, rs: seq<Record>, i: nat): (r: seq<Record>)
    requires i <= |rs|
    ensures |r| <= |rs| - i
    decreases |rs| - i
  {
    if i == |rs| then []
    else if Ignore(ignores, rs[i].file) then KeptFrom(ignores, rs, i + 1)
    else [rs[i]] + KeptFrom(ignores, rs, i + 1)
  }

  /** One DELETED line per record, in order. */
  function DeletedEvents(rs: seq<Record>): seq<Event> {
    seq(|rs|, k requires 0 <= k < |rs| => Deleted(rs[k].file))
  }

  /** The drain as evidently intended: no record is skipped, the patterns are
      honoured, leftover old records are DELETED and leftover new ones ADDED. */
  function IntendedDrain(ignores: seq<string>, a: seq<Record>, b: seq<Record>, st: Cursor): Cursor
    requires InRange(a, b, st)
  {
    var gone := KeptFrom(ignores, a, st.i);
    var come := KeptFrom(ignores, b, st.j);
    st.(i := |a|, j := |b|, deleted := st.deleted + |gone|, added := st.added + |come|,
        events := st.events + DeletedEvents(gone) + AddedEvents(come))
  }

  /** `compare` with the corrected drain. */
  function IntendedRun(ignores: seq<string>, a: seq<Record>, b: seq<Record>): Cursor {
    IntendedDrain(ignores, a, b, Loop(ignores, a, b, Start))
  }

  function IntendedLog(ignores: seq<string>, a: seq<Record>, b: seq<Record>, dirpath: string): seq<Event> {
    var r := IntendedRun(ignores, a, b);
    [Analysis(dirpath)] + r.events + [Status(r.confirmed, r.added, r.deleted, r.changed)]
  }

  // ----- what the corrected diff reports -----

  /** The order `sort -k 2` leaves a manifest in, with no path listed twice. */
  predicate StrictlySorted(rs: seq<Record>) {
    forall k, l :: 0 <= k < l < |rs| ==> Below(rs[k].file, rs[l].file)
  }

  /** The paths of `rs[i..]` no ignore pattern matches. */
  function PathsFrom(ignores: seq<string>, rs: seq<Record>, i: nat): set<string>
    requires i <= |rs|
    decreases |rs| - i
  {
    if i == |rs| then {}
    else (if Ignore(ignores, rs[i].file) then {} else {rs[i].file}) + PathsFrom(ignores, rs, i + 1)
  }

  /** A path below the record at `j` is not among the paths from `j` on. */
  lemma {:induction false} NotInPathsBelow(ignores: seq<string>, rs: seq<Record>, j: nat, p: string)
    requires StrictlySorted(rs) && j < |rs| && Below(p, rs[j].file)
    ensures p !in PathsFrom(ignores, rs, j)
    decreases |rs| - j
  {
    if p == rs[j].file {
      BelowIrreflexive(p);
    }
    if j + 1 < |rs| {
      BelowTransitive(p, rs[j].file, rs[j + 1].file);
      NotInPathsBelow(ignores, rs, j + 1, p);
    }
  }

  /** The record at `i` is not repeated further on. */
  lemma FirstPathFresh(ignores: seq<string>, rs: seq<Record>, i: nat)
    requires StrictlySorted(rs) && i < |rs|
    ensures rs[i].file !in PathsFrom(ignores, rs, i + 1)
  {
    if i + 1 < |rs| {
      NotInPathsBelow(ignores, rs, i + 1, rs[i].file);
    }
  }

  lemma {:induction false} KeptFromCounts(ignores: seq<string>, rs: seq<Record>, i: nat)
    requires StrictlySorted(rs) && i <= |rs|
    ensures |KeptFrom(ignores, rs, i)| == |PathsFrom(ignores, rs, i)|
    decreases |rs| - i
  {
    if i < |rs| {
      KeptFromCounts(ignores, rs, i + 1);
      FirstPathFresh(ignores, rs, i);
    }
  }

  /** The three tallies the diff must end with, for the cursors at `st`. */
  predicate Accounts(ignores: seq<string>, a: seq<Record>, b: seq<Record>, st: Cursor, deleted: nat, added: nat, common: nat)
    requires InRange(a, b, st)
  {
    var pa := PathsFrom(ignores, a, st.i);
    var pb := PathsFrom(ignores, b, st.j);
    st.deleted + |pa - pb| == deleted && st.added + |pb - pa| == added && st.confirmed + st.changed + |pa * pb| == common
  }

  /** A path both sides list leaves both differences alone. */
  lemma SharedPath(pa: set<string>, pb: set<string>, pa': set<string>, pb': set<string>, p: string)
    requires pa == {p} + pa' && pb == {p} + pb' && p !in pa' && p !in pb'
    ensures |pa - pb| == |pa' - pb'| && |pb - pa| == |pb' - pa'| && |pa * pb| == |pa' * pb'| + 1
  {
    assert pa - pb == pa' - pb';
    assert pb - pa == pb' - pa';
    assert pa * pb == {p} + pa' * pb';
  }

  /** A path only the first side lists adds one to its difference. */
  lemma OneSidedPath(pa: set<string>, pb: set<string>, pa': set<string>, p: string)
    requires pa == {p} + pa' && p !in pa' && p !in pb
    ensures |pa - pb| == |pa' - pb| + 1 && |pb - pa| == |pb - pa'| && |pa * pb| == |pa' * pb|
    ensures |pb * pa| == |pb * pa'|
  {
    assert pa - pb == {p} + (pa' - pb);
    assert pb - pa == pb - pa';
    assert pa * pb == pa' * pb;
    assert pb * pa == pb * pa';
  }

  /** An ignored path under either cursor changes no tally. */
  lemma SkippedAccounts(ignores: seq<string>, a: seq<Record>, b: seq<Record>, st: Cursor, deleted: nat, added: nat, common: nat)
    requires st.i < |a| && st.j < |b|
    requires Ignore(ignores, a[st.i].file) || Ignore(ignores, b[st.j].file)
    requires Accounts(ignores, a, b, st, deleted, added, common)
    ensures Accounts(ignores, a, b, Step(ignores, a, b, st), deleted, added, common)
  {
    if Ignore(ignores, a[st.i].file) {
      assert PathsFrom(ignores, a, st.i) == PathsFrom(ignores, a, st.i + 1);
    } else {
      assert PathsFrom(ignores, b, st.j) == PathsFrom(ignores, b, st.j + 1);
    }
  }

  /** Both cursors on the same kept path: one more confirmed or changed. */
  lemma SharedAccounts(ignores: seq<string>, a: seq<Record>, b: seq<Record>, st: Cursor, deleted: nat, added: nat, common: nat)
    requires StrictlySorted(a) && StrictlySorted(b) && st.i < |a| && st.j < |b|
    requires !Ignore(ignores, a[st.i].file) && a[st.i].file == b[st.j].file
    requires Accounts(ignores, a, b, st, deleted, added, common)
    ensures Accounts(ignores, a, b, Step(ignores, a, b, st), deleted, added, common)
  {
    var r := Step(ignores, a, b, st);
    assert r.i == st.i + 1 && r.j == st.j + 1 && r.deleted == st.deleted && r.added == st.added;
    assert r.confirmed + r.changed == st.confirmed + st.changed + 1;
    var p := a[st.i].file;
    var pa, pb := PathsFrom(ignores, a, st.i), PathsFrom(ignores, b, st.j);
    var pa', pb' := PathsFrom(ignores, a, st.i + 1), PathsFrom(ignores, b, st.j + 1);
    FirstPathFresh(ignores, a, st.i);
    FirstPathFresh(ignores, b, st.j);
    SharedPath(pa, pb, pa', pb', p);
  }

  /** The old cursor on a kept path below the new one: one more deleted. */
  lemma OldOnlyAccounts(ignores: seq<string>, a: seq<Record>, b: seq<Record>, st: Cursor, deleted: nat, added: nat, common: nat)
    requires StrictlySorted(a) && StrictlySorted(b) && st.i < |a| && st.j < |b|
    requires !Ignore(ignores, a[st.i].file) && !Ignore(ignores, b[st.j].file)
    requires a[st.i].file != b[st.j].file && Below(a[st.i].file, b[st.j].file)
    requires Accounts(ignores, a, b, st, deleted, added, common)
    ensures Accounts(ignores, a, b, Step(ignores, a, b, st), deleted, added, common)
  {
    var r := Step(ignores, a, b, st);
    assert r == st.(i := st.i + 1, deleted := st.deleted + 1, events := st.events + [Deleted(a[st.i].file)]);
    var p := a[st.i].file;
    var pa, pb := PathsFrom(ignores, a, st.i), PathsFrom(ignores, b, st.j);
    var pa' := PathsFrom(ignores, a, st.i + 1);
    FirstPathFresh(ignores, a, st.i);
    NotInPathsBelow(ignores, b, st.j, p);
    OneSidedPath(pa, pb, pa', p);
  }

  /** The new cursor on a kept path below the old one: one more added. */
  lemma NewOnlyAccounts(ignores: seq<string>, a: seq<Record>, b: seq<Record>, st: Cursor, deleted: nat, added: nat, common: nat)
    requires StrictlySorted(a) && StrictlySorted(b) && st.i < |a| && st.j < |b|
    requires !Ignore(ignores, a[st.i].file) && !Ignore(ignores, b[st.j].file)
    requires a[st.i].file != b[st.j].file && !Below(a[st.i].file, b[st.j].file)
    requires Accounts(ignores, a, b, st, deleted, added, common)
    ensures Accounts(ignores, a, b, Step(ignores, a, b, st), deleted, added, common)
  {
    var r := Step(ignores, a, b, st);
    assert r == st.(j := st.j + 1, added := st.added + 1, events := st.events + [Added(b[st.j].file)]);
    BelowTotal(a[st.i].file, b[st.j].file);
    var q := b[st.j].file;
    var pa, pb := PathsFrom(ignores, a, st.i), PathsFrom(ignores, b, st.j);
    var pb' := PathsFrom(ignores, b, st.j + 1);
    FirstPathFresh(ignores, b, st.j);
    NotInPathsBelow(ignores, a, st.i, q);
    OneSidedPath(pb, pa, pb', q);
  }

  lemma StepAccounts(ignores: seq<string>, a: seq<Record>, b: seq<Record>, st: Cursor, deleted: nat, added: nat, common: nat)
    requires StrictlySorted(a) && StrictlySorted(b) && st.i < |a| && st.j < |b|
    requires Accounts(ignores, a, b, st, deleted, added, common)
    ensures Accounts(ignores, a, b, Step(ignores, a, b, st), deleted, added, common)
  {
    var p, q := a[st.i].file, b[st.j].file;
    if Ignore(ignores, p) || Ignore(ignores, q) {
      SkippedAccounts(ignores, a, b, st, deleted, added, common);
    } else if p == q {
      SharedAccounts(ignores, a, b, st, deleted, added, common);
    } else if Below(p, q) {
      OldOnlyAccounts(ignores, a, b, st, deleted, added, common);
    } else {
      NewOnlyAccounts(ignores, a, b, st, deleted, added, common);
    }
  }

  lemma {:induction false} LoopAccounts(ignores: seq<string>, a: seq<Record>, b: seq<Record>, st: Cursor, deleted: nat, added: nat, common: nat)
    requires StrictlySorted(a) && StrictlySorted(b) && InRange(a, b, st)
    requires Accounts(ignores, a, b, st, deleted, added, common)
    ensures Accounts(ignores, a, b, Loop(ignores, a, b, st), deleted, added, common)
    decreases |a| - st.i + |b| - st.j
  {
    if st.i < |a| && st.j < |b| {
      StepAccounts(ignores, a, b, st, deleted, added, common);
      LoopAccounts(ignores, a, b, Step(ignores, a, b, st), deleted, added, common);
    }
  }

  /** On two manifests in sorted order, the corrected diff counts as DELETED
      exactly the kept paths only the old manifest lists, as ADDED exactly
      those only the new one lists, and as confirmed or changed exactly those
      both list. */
  lemma IntendedClassifiesEveryPath(ignores: seq<string>, a: seq<Record>, b: seq<Record>)
    requires StrictlySorted(a) && StrictlySorted(b)
    ensures var r := IntendedRun(ignores, a, b);
      var pa := PathsFrom(ignores, a, 0);
      var pb := PathsFrom(ignores, b, 0);
      r.deleted == |pa - pb| && r.added == |pb - pa| && r.confirmed + r.changed == |pa * pb|
  {
    var pa, pb := PathsFrom(ignores, a, 0), PathsFrom(ignores, b, 0);
    LoopAccounts(ignores, a, b, Start, |pa - pb|, |pb - pa|, |pa * pb|);
    var m := Loop(ignores, a, b, Start);
    KeptFromCounts(ignores, a, m.i);
    KeptFromCounts(ignores, b, m.j);
    var ra, rb := PathsFrom(ignores, a, m.i), PathsFrom(ignores, b, m.j);
    if m.i == |a| {
      assert ra == {};
      assert rb - ra == rb && ra - rb == {} && ra * rb == {};
    } else {
      assert rb == {};
      assert ra - rb == ra && rb - ra == {} && ra * rb == {};
    }
  }

  // ----- which paths the corrected diff reports -----

  /** The paths the log's lines of one kind name. */
  function Reported(es: seq<Event>, k: Md5dirFacts.Kind): set<string> {
    set e | e in es && Md5dirFacts.IsKind(e, k) :: e.path
  }

  /** One more line logged: its path joins the set of its kind. */
  lemma LoggedOne(es: seq<Event>, e: Event)
    ensures forall k :: Reported(es + [e], k) == Reported(es, k) + (if Md5dirFacts.IsKind(e, k) then {e.path} else {})
  {
    forall k ensures Reported(es + [e], k) == Reported(es, k) + (if Md5dirFacts.IsKind(e, k) then {e.path} else {}) {
      assert forall x :: x in es + [e] <==> x in es || x == e;
    }
  }

  lemma ReportedOne(e: Event)
    ensures forall k :: Reported([e], k) == if Md5dirFacts.IsKind(e, k) then {e.path} else {}
  {
    forall k ensures Reported([e], k) == if Md5dirFacts.IsKind(e, k) then {e.path} else {} {
      assert forall x :: x in [e] <==> x == e;
    }
  }

  lemma ReportedAppend(xs: seq<Event>, ys: seq<Event>)
    ensures forall k :: Reported(xs + ys, k) == Reported(xs, k) + Reported(ys, k)
  {
    forall k ensures Reported(xs + ys, k) == Reported(xs, k) + Reported(ys, k) {
      assert forall x :: x in xs + ys <==> x in xs || x in ys;
    }
  }

  /** The digest each path of `rs[i..]` that no ignore pattern matches is
      listed with. */
  function DigestsFrom(ignores: seq<string>, rs: seq<Record>, i: nat): map<string, Hex32>
    requires i <= |rs|
    decreases |rs| - i
  {
    if i == |rs| then map[]
    else if Ignore(ignores, rs[i].file) then DigestsFrom(ignores, rs, i + 1)
    else DigestsFrom(ignores, rs, i + 1)[rs[i].file := rs[i].md5]
  }

  lemma {:induction false} DigestsFromKeys(ignores: seq<string>, rs: seq<Record>, i: nat)
    requires i <= |rs|
    ensures DigestsFrom(ignores, rs, i).Keys == PathsFrom(ignores, rs, i)
    decreases |rs| - i
  {
    if i < |rs| {
      DigestsFromKeys(ignores, rs, i + 1);
    }
  }

  /** The paths both maps hold, with different digests. */
  function Differing(ma: map<string, Hex32>, mb: map<string, Hex32>): set<string> {
    set p | p in ma && p in mb && ma[p] != mb[p]
  }

  /** A path new to both maps is differing exactly when its two digests are. */
  lemma DifferingShared(ma: map<string, Hex32>, mb: map<string, Hex32>, p: string, x: Hex32, y: Hex32)
    requires p !in ma && p !in mb
    ensures p !in Differing(ma, mb)
    ensures Differing(ma[p := x], mb[p := y]) == Differing(ma, mb) + (if x != y then {p} else {})
  {
  }

  /** A path only one map holds is never differing. */
  lemma DifferingOneSided(ma: map<string, Hex32>, mb: map<string, Hex32>, p: string, x: Hex32)
    requires p !in mb
    ensures Differing(ma[p := x], mb) == Differing(ma, mb)
    ensures Differing(mb, ma[p := x]) == Differing(mb, ma)
  {
  }

  /** A kept record heads the digests of the rest of a sorted manifest. */
  lemma KeptDigest(ignores: seq<string>, rs: seq<Record>, i: nat)
    requires StrictlySorted(rs) && i < |rs| && !Ignore(ignores, rs[i].file)
    ensures rs[i].file !in DigestsFrom(ignores, rs, i + 1)
    ensures DigestsFrom(ignores, rs, i) == DigestsFrom(ignores, rs, i + 1)[rs[i].file := rs[i].md5]
    ensures PathsFrom(ignores, rs, i) == {rs[i].file} + DigestsFrom(ignores, rs, i + 1).Keys
  {
    KeptHead(ignores, rs, i);
  }

  /** A kept record heads the paths of the rest of a sorted manifest. */
  lemma KeptPath(ignores: seq<string>, rs: seq<Record>, i: nat)
    requires StrictlySorted(rs) && i < |rs| && !Ignore(ignores, rs[i].file)
    ensures rs[i].file !in PathsFrom(ignores, rs, i + 1)
    ensures PathsFrom(ignores, rs, i) == {rs[i].file} + PathsFrom(ignores, rs, i + 1)
  {
    FirstPathFresh(ignores, rs, i);
  }

  /** A kept record heads the rest of a sorted manifest: its path is new,
      and it adds its path and digest to those that follow. */
  lemma KeptHead(ignores: seq<string>, rs: seq<Record>, i: nat)
    requires StrictlySorted(rs) && i < |rs| && !Ignore(ignores, rs[i].file)
    ensures rs[i].file !in PathsFrom(ignores, rs, i + 1)
    ensures PathsFrom(ignores, rs, i) == {rs[i].file} + PathsFrom(ignores, rs, i + 1)
    ensures DigestsFrom(ignores, rs, i) == DigestsFrom(ignores, rs, i + 1)[rs[i].file := rs[i].md5]
    ensures DigestsFrom(ignores, rs, i + 1).Keys == PathsFrom(ignores, rs, i + 1)
  {
    FirstPathFresh(ignores, rs, i);
    DigestsFromKeys(ignores, rs, i + 1);
  }

  /** The DELETED and ADDED paths a diff owes: those logged so far (`del`,
      `add`) together with the kept paths still ahead of the two cursors
      (`pa`, `pb`) that only one side lists give the final sets `gone` and
      `come`. */
  predicate PathsTallied(del: set<string>, add: set<string>, pa: set<string>, pb: set<string>,
                         gone: set<string>, come: set<string>)
  {
    del + (pa - pb) == gone && add + (pb - pa) == come
  }

  /** The CHANGED paths a diff owes: those logged so far (`chg`) together
      with the paths ahead of both cursors whose digests differ (`dif`) give
      the final set `differ`; and none of those logged is still ahead of the
      old cursor (`pa`). */
  predicate ChangesTallied(chg: set<string>, dif: set<string>, pa: set<string>, differ: set<string>) {
    chg + dif == differ && chg !! pa
  }

  /** `PathsTallied` for the cursors at `st`. */
  predicate PathReports(ignores: seq<string>, a: seq<Record>, b: seq<Record>, st: Cursor, gone: set<string>, come: set<string>)
    requires InRange(a, b, st)
  {
    PathsTallied(Reported(st.events, Md5dirFacts.DeletedKind), Reported(st.events, Md5dirFacts.AddedKind),
                 PathsFrom(ignores, a, st.i), PathsFrom(ignores, b, st.j), gone, come)
  }

  /** `ChangesTallied` for the cursors at `st`. */
  predicate ChangeReports(ignores: seq<string>, a: seq<Record>, b: seq<Record>, st: Cursor, differ: set<string>)
    requires InRange(a, b, st)
  {
    ChangesTallied(Reported(st.events, Md5dirFacts.ChangedKind),
                   Differing(DigestsFrom(ignores, a, st.i), DigestsFrom(ignores, b, st.j)),
                   PathsFrom(ignores, a, st.i), differ)
  }

  /** The CHANGED tally counts the CHANGED paths logged so far. */
  predicate ChangedCounted(st: Cursor) {
    st.changed == |Reported(st.events, Md5dirFacts.ChangedKind)|
  }

  /** The step the loop takes from `st`, and the line it logs if any. */
  lemma StepCases(ignores: seq<string>, a: seq<Record>, b: seq<Record>, st: Cursor)
    requires st.i < |a| && st.j < |b|
    ensures var r, p, q := Step(ignores, a, b, st), a[st.i].file, b[st.j].file;
      if Ignore(ignores, p) then r.i == st.i + 1 && r.j == st.j && r.events == st.events && r.changed == st.changed
      else if Ignore(ignores, q) then r.i == st.i && r.j == st.j + 1 && r.events == st.events && r.changed == st.changed
      else if p == q && a[st.i].md5 != b[st.j].md5 then
        r.i == st.i + 1 && r.j == st.j + 1 && r.events == st.events + [Changed(p)] && r.changed == st.changed + 1
      else if p == q then r.i == st.i + 1 && r.j == st.j + 1 && r.events == st.events && r.changed == st.changed
      else if Below(p, q) then r.i == st.i + 1 && r.j == st.j && r.events == st.events + [Deleted(p)] && r.changed == st.changed
      else r.i == st.i && r.j == st.j + 1 && r.events == st.events + [Added(q)] && r.changed == st.changed
  {
  }

  /** An ignored record under either cursor, which `r` passes: the DELETED
      and ADDED sets are kept. */
  lemma SkippedPaths(ignores: seq<string>, a: seq<Record>, b: seq<Record>, st: Cursor, r: Cursor, gone: set<string>, come: set<string>)
    requires st.i < |a| && st.j < |b| && r.events == st.events
    requires (Ignore(ignores, a[st.i].file) && r.i == st.i + 1 && r.j == st.j) ||
             (Ignore(ignores, b[st.j].file) && r.i == st.i && r.j == st.j + 1)
    requires PathReports(ignores, a, b, st, gone, come)
    ensures PathReports(ignores, a, b, r, gone, come)
  {
    if r.i == st.i + 1 {
      assert PathsFrom(ignores, a, r.i) == PathsFrom(ignores, a, st.i);
    } else {
      assert PathsFrom(ignores, b, r.j) == PathsFrom(ignores, b, st.j);
    }
  }

  /** Both cursors on the same kept path, which `r` has passed on both
      sides, logging it as CHANGED or nothing: the DELETED and ADDED sets
      are kept. */
  lemma SharedPaths(ignores: seq<string>, a: seq<Record>, b: seq<Record>, st: Cursor, r: Cursor, gone: set<string>, come: set<string>)
    requires StrictlySorted(a) && StrictlySorted(b) && st.i < |a| && st.j < |b|
    requires !Ignore(ignores, a[st.i].file) && a[st.i].file == b[st.j].file
    requires r.i == st.i + 1 && r.j == st.j + 1
    requires r.events == st.events || r.events == st.events + [Changed(a[st.i].file)]
    requires PathReports(ignores, a, b, st, gone, come)
    ensures PathReports(ignores, a, b, r, gone, come)
  {
    var p := a[st.i].file;
    KeptPath(ignores, a, st.i);
    KeptPath(ignores, b, st.j);
    DropShared(PathsFrom(ignores, a, r.i), PathsFrom(ignores, b, r.j), p);
    if r.events != st.events {
      LoggedOne(st.events, Changed(p));
    }
  }

  /** A path both sides list is in neither difference. */
  lemma DropShared(pa: set<string>, pb: set<string>, p: string)
    requires p !in pa && p !in pb
    ensures ({p} + pa) - ({p} + pb) == pa - pb && ({p} + pb) - ({p} + pa) == pb - pa
  {
  }

  /** Passing a path only the old side lists moves it from the paths ahead
      to the DELETED paths logged. */
  lemma DropOldOnly(del: set<string>, add: set<string>, pa: set<string>, pb: set<string>,
                    p: string, gone: set<string>, come: set<string>)
    requires p !in pa && p !in pb
    requires PathsTallied(del, add, {p} + pa, pb, gone, come)
    ensures PathsTallied(del + {p}, add, pa, pb, gone, come)
  {
    assert ({p} + pa) - pb == (pa - pb) + {p} && pb - ({p} + pa) == pb - pa;
  }

  /** Passing a path only the new side lists moves it from the paths ahead
      to the ADDED paths logged. */
  lemma DropNewOnly(del: set<string>, add: set<string>, pa: set<string>, pb: set<string>,
                    q: string, gone: set<string>, come: set<string>)
    requires q !in pa && q !in pb
    requires PathsTallied(del, add, pa, {q} + pb, gone, come)
    ensures PathsTallied(del, add + {q}, pa, pb, gone, come)
  {
    assert ({q} + pb) - pa == (pb - pa) + {q} && pa - ({q} + pb) == pa - pb;
  }

  /** The old cursor on a kept path the new manifest does not list, which
      `r` passes and logs as DELETED: it joins the DELETED set. */
  lemma OldOnlyPaths(ignores: seq<string>, a: seq<Record>, b: seq<Record>, st: Cursor, r: Cursor, gone: set<string>, come: set<string>)
    requires StrictlySorted(a) && StrictlySorted(b) && st.i < |a| && st.j < |b|
    requires !Ignore(ignores, a[st.i].file) && !Ignore(ignores, b[st.j].file)
    requires a[st.i].file != b[st.j].file && Below(a[st.i].file, b[st.j].file)
    requires r.i == st.i + 1 && r.j == st.j && r.events == st.events + [Deleted(a[st.i].file)]
    requires PathReports(ignores, a, b, st, gone, come)
    ensures PathReports(ignores, a, b, r, gone, come)
  {
    var p := a[st.i].file;
    KeptPath(ignores, a, st.i);
    NotInPathsBelow(ignores, b, st.j, p);
    LoggedOne(st.events, Deleted(p));
    assert Reported(r.events, Md5dirFacts.DeletedKind) == Reported(st.events, Md5dirFacts.DeletedKind) + {p};
    assert Reported(r.events, Md5dirFacts.AddedKind) == Reported(st.events, Md5dirFacts.AddedKind);
    DropOldOnly(Reported(st.events, Md5dirFacts.DeletedKind), Reported(st.events, Md5dirFacts.AddedKind),
                PathsFrom(ignores, a, r.i), PathsFrom(ignores, b, st.j), p, gone, come);
  }

  /** The new cursor on a kept path the old manifest does not list, which
      `r` passes and logs as ADDED: it joins the ADDED set. */
  lemma NewOnlyPaths(ignores: seq<string>, a: seq<Record>, b: seq<Record>, st: Cursor, r: Cursor, gone: set<string>, come: set<string>)
    requires StrictlySorted(a) && StrictlySorted(b) && st.i < |a| && st.j < |b|
    requires !Ignore(ignores, a[st.i].file) && !Ignore(ignores, b[st.j].file)
    requires a[st.i].file != b[st.j].file && !Below(a[st.i].file, b[st.j].file)
    requires r.i == st.i && r.j == st.j + 1 && r.events == st.events + [Added(b[st.j].file)]
    requires PathReports(ignores, a, b, st, gone, come)
    ensures PathReports(ignores, a, b, r, gone, come)
  {
    var q := b[st.j].file;
    BelowTotal(a[st.i].file, q);
    KeptPath(ignores, b, st.j);
    NotInPathsBelow(ignores, a, st.i, q);
    LoggedOne(st.events, Added(q));
    assert Reported(r.events, Md5dirFacts.DeletedKind) == Reported(st.events, Md5dirFacts.DeletedKind);
    assert Reported(r.events, Md5dirFacts.AddedKind) == Reported(st.events, Md5dirFacts.AddedKind) + {q};
    DropNewOnly(Reported(st.events, Md5dirFacts.DeletedKind), Reported(st.events, Md5dirFacts.AddedKind),
                PathsFrom(ignores, a, st.i), PathsFrom(ignores, b, r.j), q, gone, come);
  }

  /** Both cursors on a kept path, which `r` passes on both sides, logging
      it as CHANGED exactly when its digests differ: the CHANGED sets are
      kept. */
  lemma SharedChanges(ignores: seq<string>, a: seq<Record>, b: seq<Record>, st: Cursor, r: Cursor, differ: set<string>)
    requires StrictlySorted(a) && StrictlySorted(b) && st.i < |a| && st.j < |b|
    requires !Ignore(ignores, a[st.i].file) && a[st.i].file == b[st.j].file
    requires r.i == st.i + 1 && r.j == st.j + 1
    requires r.events == if a[st.i].md5 != b[st.j].md5 then st.events + [Changed(a[st.i].file)] else st.events
    requires ChangeReports(ignores, a, b, st, differ)
    ensures ChangeReports(ignores, a, b, r, differ)
  {
    var p, x, y := a[st.i].file, a[st.i].md5, b[st.j].md5;
    KeptDigest(ignores, a, st.i);
    KeptDigest(ignores, b, st.j);
    DigestsFromKeys(ignores, a, r.i);
    var chg := Reported(st.events, Md5dirFacts.ChangedKind);
    if x != y {
      LoggedOne(st.events, Changed(p));
      assert Reported(r.events, Md5dirFacts.ChangedKind) == chg + {p};
    } else {
      assert Reported(r.events, Md5dirFacts.ChangedKind) == chg;
    }
    DropSharedChange(chg, Reported(r.events, Md5dirFacts.ChangedKind),
                     DigestsFrom(ignores, a, r.i), DigestsFrom(ignores, b, r.j), p, x, y, differ);
  }

  /** Passing a shared path `p` moves it from the differing paths ahead to
      the CHANGED paths logged exactly when its two digests differ. */
  lemma DropSharedChange(chg: set<string>, chg2: set<string>, ma: map<string, Hex32>, mb: map<string, Hex32>,
                         p: string, x: Hex32, y: Hex32, differ: set<string>)
    requires p !in ma && p !in mb
    requires ChangesTallied(chg, Differing(ma[p := x], mb[p := y]), ({p} + ma.Keys), differ)
    requires chg2 == chg + (if x != y then {p} else {})
    ensures ChangesTallied(chg2, Differing(ma, mb), ma.Keys, differ)
  {
    DifferingShared(ma, mb, p, x, y);
  }

  /** An ignored record under either cursor, which `r` passes: the CHANGED
      sets are kept. */
  lemma SkippedChanges(ignores: seq<string>, a: seq<Record>, b: seq<Record>, st: Cursor, r: Cursor, differ: set<string>)
    requires st.i < |a| && st.j < |b| && r.events == st.events
    requires (Ignore(ignores, a[st.i].file) && r.i == st.i + 1 && r.j == st.j) ||
             (Ignore(ignores, b[st.j].file) && r.i == st.i && r.j == st.j + 1)
    requires ChangeReports(ignores, a, b, st, differ)
    ensures ChangeReports(ignores, a, b, r, differ)
  {
    if r.i == st.i + 1 {
      assert PathsFrom(ignores, a, r.i) == PathsFrom(ignores, a, st.i);
      assert DigestsFrom(ignores, a, r.i) == DigestsFrom(ignores, a, st.i);
    } else {
      assert DigestsFrom(ignores, b, r.j) == DigestsFrom(ignores, b, st.j);
    }
  }

  /** The old cursor on a kept path the new manifest does not list, which
      `r` passes and logs as DELETED: the CHANGED sets are kept. */
  lemma OldOnlyChanges(ignores: seq<string>, a: seq<Record>, b: seq<Record>, st: Cursor, r: Cursor, differ: set<string>)
    requires StrictlySorted(a) && StrictlySorted(b) && st.i < |a| && st.j < |b|
    requires !Ignore(ignores, a[st.i].file)
    requires a[st.i].file != b[st.j].file && Below(a[st.i].file, b[st.j].file)
    requires r.i == st.i + 1 && r.j == st.j && r.events == st.events + [Deleted(a[st.i].file)]
    requires ChangeReports(ignores, a, b, st, differ)
    ensures ChangeReports(ignores, a, b, r, differ)
  {
    var p := a[st.i].file;
    KeptHead(ignores, a, st.i);
    NotInPathsBelow(ignores, b, st.j, p);
    DigestsFromKeys(ignores, b, st.j);
    LoggedOne(st.events, Deleted(p));
    assert Reported(r.events, Md5dirFacts.ChangedKind) == Reported(st.events, Md5dirFacts.ChangedKind);
    DropOldOnlyChange(Reported(st.events, Md5dirFacts.ChangedKind), DigestsFrom(ignores, a, r.i),
                      DigestsFrom(ignores, b, st.j), p, a[st.i].md5, differ);
  }

  /** The new cursor on a kept path the old manifest does not list, which
      `r` passes and logs as ADDED: the CHANGED sets are kept. */
  lemma NewOnlyChanges(ignores: seq<string>, a: seq<Record>, b: seq<Record>, st: Cursor, r: Cursor, differ: set<string>)
    requires StrictlySorted(a) && StrictlySorted(b) && st.i < |a| && st.j < |b|
    requires !Ignore(ignores, b[st.j].file)
    requires a[st.i].file != b[st.j].file && !Below(a[st.i].file, b[st.j].file)
    requires r.i == st.i && r.j == st.j + 1 && r.events == st.events + [Added(b[st.j].file)]
    requires ChangeReports(ignores, a, b, st, differ)
    ensures ChangeReports(ignores, a, b, r, differ)
  {
    var q := b[st.j].file;
    BelowTotal(a[st.i].file, q);
    KeptHead(ignores, b, st.j);
    NotInPathsBelow(ignores, a, st.i, q);
    DigestsFromKeys(ignores, a, st.i);
    LoggedOne(st.events, Added(q));
    assert Reported(r.events, Md5dirFacts.ChangedKind) == Reported(st.events, Md5dirFacts.ChangedKind);
    DropNewOnlyChange(Reported(st.events, Md5dirFacts.ChangedKind), DigestsFrom(ignores, a, st.i),
                      DigestsFrom(ignores, b, r.j), q, b[st.j].md5, PathsFrom(ignores, a, st.i), differ);
  }

  /** Passing a path only the old side lists leaves the differing paths
      ahead as they were. */
  lemma DropOldOnlyChange(chg: set<string>, ma: map<string, Hex32>, mb: map<string, Hex32>,
                          p: string, x: Hex32, differ: set<string>)
    requires p !in mb
    requires ChangesTallied(chg, Differing(ma[p := x], mb), ({p} + ma.Keys), differ)
    ensures ChangesTallied(chg, Differing(ma, mb), ma.Keys, differ)
  {
    DifferingOneSided(ma, mb, p, x);
  }

  /** Passing a path only the new side lists leaves the differing paths
      ahead as they were. */
  lemma DropNewOnlyChange(chg: set<string>, ma: map<string, Hex32>, mb: map<string, Hex32>,
                          q: string, y: Hex32, pa: set<string>, differ: set<string>)
    requires q !in ma
    requires ChangesTallied(chg, Differing(ma, mb[q := y]), pa, differ)
    ensures ChangesTallied(chg, Differing(ma, mb), pa, differ)
  {
    DifferingOneSided(mb, ma, q, y);
  }

  /** A path not yet reported as CHANGED adds one to their number. */
  lemma CountOne(chg: set<string>, p: string)
    requires p !in chg
    ensures |chg + {p}| == |chg| + 1
  {
  }

  /** A step that logs `p` as CHANGED, with `p` not reported yet, counts it;
      any other step keeps the CHANGED count. */
  lemma StepCounted(st: Cursor, r: Cursor, e: Event)
    requires ChangedCounted(st)
    requires (r.events == st.events && r.changed == st.changed) ||
             (r.events == st.events + [e] && !e.Changed? && r.changed == st.changed) ||
             (r.events == st.events + [e] && e.Changed? && e.path !in Reported(st.events, Md5dirFacts.ChangedKind) && r.changed == st.changed + 1)
    ensures ChangedCounted(r)
  {
    if r.events != st.events {
      LoggedOne(st.events, e);
      if e.Changed? {
        CountOne(Reported(st.events, Md5dirFacts.ChangedKind), e.path);
      }
    }
  }

  /** One step of the loop keeps all three invariants. */
  lemma StepReports(ignores: seq<string>, a: seq<Record>, b: seq<Record>, st: Cursor,
                    gone: set<string>, come: set<string>, differ: set<string>)
    requires StrictlySorted(a) && StrictlySorted(b) && st.i < |a| && st.j < |b|
    requires PathReports(ignores, a, b, st, gone, come) && ChangeReports(ignores, a, b, st, differ) && ChangedCounted(st)
    ensures var r := Step(ignores, a, b, st);
      PathReports(ignores, a, b, r, gone, come) && ChangeReports(ignores, a, b, r, differ) && ChangedCounted(r)
  {
    var r, p, q := Step(ignores, a, b, st), a[st.i].file, b[st.j].file;
    StepCases(ignores, a, b, st);
    if Ignore(ignores, p) || Ignore(ignores, q) {
      SkippedPaths(ignores, a, b, st, r, gone, come);
      SkippedChanges(ignores, a, b, st, r, differ);
      StepCounted(st, r, Analysis(""));
    } else if p == q {
      SharedPaths(ignores, a, b, st, r, gone, come);
      SharedChanges(ignores, a, b, st, r, differ);
      assert p in PathsFrom(ignores, a, st.i);
      StepCounted(st, r, Changed(p));
    } else if Below(p, q) {
      OldOnlyPaths(ignores, a, b, st, r, gone, come);
      OldOnlyChanges(ignores, a, b, st, r, differ);
      StepCounted(st, r, Deleted(p));
    } else {
      NewOnlyPaths(ignores, a, b, st, r, gone, come);
      NewOnlyChanges(ignores, a, b, st, r, differ);
      StepCounted(st, r, Added(q));
    }
  }

  lemma {:induction false} LoopReports(ignores: seq<string>, a: seq<Record>, b: seq<Record>, st: Cursor,
                                       gone: set<string>, come: set<string>, differ: set<string>)
    requires StrictlySorted(a) && StrictlySorted(b) && InRange(a, b, st)
    requires PathReports(ignores, a, b, st, gone, come) && ChangeReports(ignores, a, b, st, differ) && ChangedCounted(st)
    ensures var m := Loop(ignores, a, b, st);
      PathReports(ignores, a, b, m, gone, come) && ChangeReports(ignores, a, b, m, differ) && ChangedCounted(m)
    decreases |a| - st.i + |b| - st.j
  {
    if st.i < |a| && st.j < |b| {
      StepReports(ignores, a, b, st, gone, come, differ);
      LoopReports(ignores, a, b, Step(ignores, a, b, st), gone, come, differ);
    }
  }

  /** The drain's DELETED lines name exactly the kept paths of `rs[i..]`,
      and it logs no line of another kind. */
  lemma {:induction false} DrainedDeleted(ignores: seq<string>, rs: seq<Record>, i: nat)
    requires i <= |rs|
    ensures forall k :: Reported(DeletedEvents(KeptFrom(ignores, rs, i)), k) == if k == Md5dirFacts.DeletedKind then PathsFrom(ignores, rs, i) else {}
    decreases |rs| - i
  {
    if i < |rs| {
      DrainedDeleted(ignores, rs, i + 1);
      var rest := KeptFrom(ignores, rs, i + 1);
      if !Ignore(ignores, rs[i].file) {
        assert DeletedEvents([rs[i]] + rest) == [Deleted(rs[i].file)] + DeletedEvents(rest);
        ReportedAppend([Deleted(rs[i].file)], DeletedEvents(rest));
        ReportedOne(Deleted(rs[i].file));
      }
    } else {
      assert DeletedEvents([]) == [];
    }
  }

  /** The drain's ADDED lines name exactly the kept paths of `rs[i..]`, and
      it logs no line of another kind. */
  lemma {:induction false} DrainedAdded(ignores: seq<string>, rs: seq<Record>, i: nat)
    requires i <= |rs|
    ensures forall k :: Reported(AddedEvents(KeptFrom(ignores, rs, i)), k) == if k == Md5dirFacts.AddedKind then PathsFrom(ignores, rs, i) else {}
    decreases |rs| - i
  {
    if i < |rs| {
      DrainedAdded(ignores, rs, i + 1);
      var rest := KeptFrom(ignores, rs, i + 1);
      if !Ignore(ignores, rs[i].file) {
        assert AddedEvents([rs[i]] + rest) == [Added(rs[i].file)] + AddedEvents(rest);
        ReportedAppend([Added(rs[i].file)], AddedEvents(rest));
        ReportedOne(Added(rs[i].file));
      }
    } else {
      assert AddedEvents([]) == [];
    }
  }

  /** Where the loop stops, one side has no kept path left: the DELETED and
      ADDED paths logged so far and those still ahead make up the sets the
      diff owes. */
  lemma PathsAtEnd(ignores: seq<string>, a: seq<Record>, b: seq<Record>, m: Cursor, gone: set<string>, come: set<string>)
    requires InRange(a, b, m) && (m.i == |a| || m.j == |b|)
    requires PathReports(ignores, a, b, m, gone, come)
    ensures Reported(m.events, Md5dirFacts.DeletedKind) + PathsFrom(ignores, a, m.i) == gone
    ensures Reported(m.events, Md5dirFacts.AddedKind) + PathsFrom(ignores, b, m.j) == come
  {
    var ra, rb := PathsFrom(ignores, a, m.i), PathsFrom(ignores, b, m.j);
    if m.i == |a| {
      assert ra == {} && rb - ra == rb && ra - rb == ra;
    } else {
      assert rb == {} && ra - rb == ra && rb - ra == rb;
    }
  }

  /** Where the loop stops, no path is ahead of both cursors: the CHANGED
      paths logged so far are all the diff owes. */
  lemma ChangesAtEnd(ignores: seq<string>, a: seq<Record>, b: seq<Record>, m: Cursor, differ: set<string>)
    requires InRange(a, b, m) && (m.i == |a| || m.j == |b|)
    requires ChangeReports(ignores, a, b, m, differ)
    ensures Reported(m.events, Md5dirFacts.ChangedKind) == differ
  {
    assert Differing(DigestsFrom(ignores, a, m.i), DigestsFrom(ignores, b, m.j)) == {};
  }

  /** The corrected drain logs the kept paths left on the old side as
      DELETED and those left on the new side as ADDED, and nothing else. */
  lemma DrainReports(ignores: seq<string>, a: seq<Record>, b: seq<Record>, m: Cursor)
    requires InRange(a, b, m)
    ensures var r := IntendedDrain(ignores, a, b, m);
      && Reported(r.events, Md5dirFacts.DeletedKind) == Reported(m.events, Md5dirFacts.DeletedKind) + PathsFrom(ignores, a, m.i)
      && Reported(r.events, Md5dirFacts.AddedKind) == Reported(m.events, Md5dirFacts.AddedKind) + PathsFrom(ignores, b, m.j)
      && Reported(r.events, Md5dirFacts.ChangedKind) == Reported(m.events, Md5dirFacts.ChangedKind)
      && r.changed == m.changed
  {
    var gone, come := KeptFrom(ignores, a, m.i), KeptFrom(ignores, b, m.j);
    DrainedDeleted(ignores, a, m.i);
    DrainedAdded(ignores, b, m.j);
    ReportedAppend(m.events, DeletedEvents(gone));
    ReportedAppend(m.events + DeletedEvents(gone), AddedEvents(come));
  }

  /** The corrected run logs as DELETED exactly the kept paths only the old
      manifest lists, as ADDED exactly those only the new one lists, and as
      CHANGED exactly those both list with different digests, and counts
      the last. */
  lemma IntendedRunReports(ignores: seq<string>, a: seq<Record>, b: seq<Record>)
    requires StrictlySorted(a) && StrictlySorted(b)
    ensures var r := IntendedRun(ignores, a, b);
      var pa, pb := PathsFrom(ignores, a, 0), PathsFrom(ignores, b, 0);
      var differ := Differing(DigestsFrom(ignores, a, 0), DigestsFrom(ignores, b, 0));
      && Reported(r.events, Md5dirFacts.DeletedKind) == pa - pb
      && Reported(r.events, Md5dirFacts.AddedKind) == pb - pa
      && Reported(r.events, Md5dirFacts.ChangedKind) == differ
      && r.changed == |differ|
  {
    var pa, pb := PathsFrom(ignores, a, 0), PathsFrom(ignores, b, 0);
    var differ := Differing(DigestsFrom(ignores, a, 0), DigestsFrom(ignores, b, 0));
    LoopReports(ignores, a, b, Start, pa - pb, pb - pa, differ);
    var m := Loop(ignores, a, b, Start);
    PathsAtEnd(ignores, a, b, m, pa - pb, pb - pa);
    ChangesAtEnd(ignores, a, b, m, differ);
    DrainReports(ignores, a, b, m);
  }

  /** The header and the STATUS line of a log name no path. */
  lemma LogReports(ignores: seq<string>, a: seq<Record>, b: seq<Record>, dirpath: string)
    ensures forall k :: Reported(IntendedLog(ignores, a, b, dirpath), k) == Reported(IntendedRun(ignores, a, b).events, k)
  {
    var r := IntendedRun(ignores, a, b);
    var status := Status(r.confirmed, r.added, r.deleted, r.changed);
    ReportedAppend([Analysis(dirpath)], r.events);
    ReportedAppend([Analysis(dirpath)] + r.events, [status]);
    ReportedOne(Analysis(dirpath));
    ReportedOne(status);
  }

  /** The CHANGED paths are shared paths: the confirmed ones are the rest. */
  lemma SharedSplit(pa: set<string>, pb: set<string>, differ: set<string>, confirmed: nat, changed: nat)
    requires differ <= pa * pb && changed == |differ| && confirmed + changed == |pa * pb|
    ensures confirmed == |(pa * pb) - differ|
  {
    var common := pa * pb;
    assert common == (common - differ) + differ && (common - differ) !! differ;
  }

  /** The STATUS line of the corrected diff on sorted manifests. */
  lemma IntendedStatus(ignores: seq<string>, a: seq<Record>, b: seq<Record>, dirpath: string)
    requires StrictlySorted(a) && StrictlySorted(b)
    ensures var log := IntendedLog(ignores, a, b, dirpath);
      var pa, pb := PathsFrom(ignores, a, 0), PathsFrom(ignores, b, 0);
      var differ := Differing(DigestsFrom(ignores, a, 0), DigestsFrom(ignores, b, 0));
      log[|log| - 1] == Status(|(pa * pb) - differ|, |pb - pa|, |pa - pb|, |differ|)
  {
    var r := IntendedRun(ignores, a, b);
    var pa, pb := PathsFrom(ignores, a, 0), PathsFrom(ignores, b, 0);
    var differ := Differing(DigestsFrom(ignores, a, 0), DigestsFrom(ignores, b, 0));
    IntendedRunReports(ignores, a, b);
    IntendedClassifiesEveryPath(ignores, a, b);
    DigestsFromKeys(ignores, a, 0);
    DigestsFromKeys(ignores, b, 0);
    SharedSplit(pa, pb, differ, r.confirmed, r.changed);
  }

  /** The whole log of the corrected diff on two sorted manifests: its
      DELETED, ADDED and CHANGED lines name exactly the kept paths only the
      old manifest lists, only the new one lists, and both list with
      different digests; the STATUS line counts those, and counts as
      confirmed the other paths both manifests list. */
  lemma IntendedReportsEveryPath(ignores: seq<string>, a: seq<Record>, b: seq<Record>, dirpath: string)
    requires StrictlySorted(a) && StrictlySorted(b)
    ensures var log := IntendedLog(ignores, a, b, dirpath);
      var pa, pb := PathsFrom(ignores, a, 0), PathsFrom(ignores, b, 0);
      var differ := Differing(DigestsFrom(ignores, a, 0), DigestsFrom(ignores, b, 0));
      && Reported(log, Md5dirFacts.DeletedKind) == pa - pb
      && Reported(log, Md5dirFacts.AddedKind) == pb - pa
      && Reported(log, Md5dirFacts.ChangedKind) == differ
      && log[|log| - 1] == Status(|(pa * pb) - differ|, |pb - pa|, |pa - pb|, |differ|)
  {
    IntendedRunReports(ignores, a, b);
    LogReports(ignores, a, b, dirpath);
    IntendedStatus(ignores, a, b, dirpath);
  }

  lemma {:induction false} NothingKeptFrom(ignores: seq<string>, rs: seq<Record>, i: nat)
    requires i <= |rs| && Md5dirFacts.IgnoredBetween(ignores, rs, i, |rs|)
    ensures KeptFrom(ignores, rs, i) == []
    decreases |rs| - i
  {
    if i < |rs| {
      NothingKeptFrom(ignores, rs, i + 1);
    }
  }

  /** With the corrected drain a manifest compared with itself reports no
      change at all, whatever it ends with: every kept record is confirmed and
      only the STATUS line is logged. */
  lemma IntendedSelfCompare(ignores: seq<string>, xs: seq<Record>, dirpath: string)
    ensures IntendedLog(ignores, xs, xs, dirpath) == [Analysis(dirpath), Status(Md5dirFacts.Kept(ignores, xs, |xs|), 0, 0, 0)]
  {
    Md5dirFacts.SelfLoop(ignores, xs, Start);
    var m := Loop(ignores, xs, xs, Start);
    Md5dirFacts.KeptSkipsIgnored(ignores, xs, m.j, |xs|);
    NothingKeptFrom(ignores, xs, m.i);
    NothingKeptFrom(ignores, xs, m.j);
  }

  // ----- inputs that show the drain's departures -----

  const Zero: Hex32 := "00000000000000000000000000000000"

  function R(name: string): Record {
    Record(name, Zero)
  }

  /** Old manifest `a b z`, new manifest `a b`: the drain discards the pending
      old record `z`, so the removal of `z` is neither logged nor counted. */
  lemma DrainDropsPendingRecord(dirpath: string)
    ensures CompareLog([], [R("a"), R("b"), R("z")], [R("a"), R("b")], dirpath) ==
      [Analysis(dirpath), Status(2, 0, 0, 0)]
    ensures IntendedLog([], [R("a"), R("b"), R("z")], [R("a"), R("b")], dirpath) ==
      [Analysis(dirpath), Deleted("z"), Status(2, 0, 1, 0)]
  {
    var a, b := [R("a"), R("b"), R("z")], [R("a"), R("b")];
    var s1 := Step([], a, b, Start);
    assert s1 == Cursor(1, 1, 1, 0, 0, 0, []);
    var s2 := Step([], a, b, s1);
    assert s2 == Cursor(2, 2, 2, 0, 0, 0, []);
    assert Loop([], a, b, Start) == s2;
    assert KeptFrom([], a, 2) == [R("z")];
    assert KeptFrom([], b, 2) == [];
  }

  /** Old manifest `a y z`, new manifest `a`: `y` is discarded and `z`, which
      only the old manifest lists, is logged and counted as ADDED. */
  lemma OldRemainderLabelledAdded(dirpath: string)
    ensures CompareLog([], [R("a"), R("y"), R("z")], [R("a")], dirpath) ==
      [Analysis(dirpath), Added("z"), Status(1, 1, 0, 0)]
    ensures IntendedLog([], [R("a"), R("y"), R("z")], [R("a")], dirpath) ==
      [Analysis(dirpath), Deleted("y"), Deleted("z"), Status(1, 0, 2, 0)]
  {
    var a, b := [R("a"), R("y"), R("z")], [R("a")];
    var s1 := Step([], a, b, Start);
    assert s1 == Cursor(1, 1, 1, 0, 0, 0, []);
    assert Loop([], a, b, Start) == s1;
    assert a[2..] == [R("z")];
    assert KeptFrom([], a, 1) == [R("y"), R("z")];
    assert KeptFrom([], b, 1) == [];
  }

  /** A manifest of one kept record followed by two records `*.tmp` matches. */
  const TmpManifest := [R("a"), R("x.tmp"), R("y.tmp")]

  /** The main loop on it: the old cursor skips both ignored records and the
      new cursor stays after `a`. */
  lemma TmpManifestLoop()
    ensures Loop(["*.tmp"], TmpManifest, TmpManifest, Start) == Cursor(3, 1, 1, 0, 0, 0, [])
  {
    var ignores, xs := ["*.tmp"], TmpManifest;
    TmpPatternMatches();
    var s1 := Step(ignores, xs, xs, Start);
    assert s1 == Cursor(1, 1, 1, 0, 0, 0, []);
    var s2 := Step(ignores, xs, xs, s1);
    assert s2 == Cursor(2, 1, 1, 0, 0, 0, []);
    var s3 := Step(ignores, xs, xs, s2);
    assert s3 == Cursor(3, 1, 1, 0, 0, 0, []);
  }

  lemma TmpManifestAsWritten(dirpath: string)
    ensures CompareLog(["*.tmp"], TmpManifest, TmpManifest, dirpath) == [Analysis(dirpath), Added("y.tmp"), Status(1, 1, 0, 0)]
  {
    TmpManifestLoop();
    assert TmpManifest[2..] == [R("y.tmp")];
  }

  lemma TmpManifestIntended(dirpath: string)
    ensures IntendedLog(["*.tmp"], TmpManifest, TmpManifest, dirpath) == [Analysis(dirpath), Status(1, 0, 0, 0)]
  {
    TmpManifestLoop();
    TmpPatternMatches();
    assert KeptFrom(["*.tmp"], TmpManifest, 3) == [];
    assert KeptFrom(["*.tmp"], TmpManifest, 2) == [];
    assert KeptFrom(["*.tmp"], TmpManifest, 1) == [];
  }

  /** Ignoring `*.tmp`, the manifest `a x.tmp y.tmp` compared with itself:
      the drain skips `x.tmp` but logs and counts the ignored `y.tmp` as
      ADDED. */
  lemma DrainReportsIgnoredRecords(dirpath: string)
    ensures CompareLog(["*.tmp"], TmpManifest, TmpManifest, dirpath) ==
      [Analysis(dirpath), Added("y.tmp"), Status(1, 1, 0, 0)]
    ensures IntendedLog(["*.tmp"], TmpManifest, TmpManifest, dirpath) ==
      [Analysis(dirpath), Status(1, 0, 0, 0)]
  {
    TmpManifestAsWritten(dirpath);
    TmpManifestIntended(dirpath);
  }

  lemma TmpPatternMatches()
    ensures !Ignore(["*.tmp"], "a") && Ignore(["*.tmp"], "x.tmp") && Ignore(["*.tmp"], "y.tmp")
  {
    assert Fnmatch.NoMeta(".tmp");
    Fnmatch.StarSuffixPattern(".tmp", "a");
    Fnmatch.StarSuffixPattern(".tmp", "x.tmp");
    Fnmatch.StarSuffixPattern(".tmp", "y.tmp");
  }
}
