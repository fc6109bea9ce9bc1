/** `scripts/compare.py`: the dictionary-building manifest reader, the
    sorted `#md5dir` writer, the checksum of one file and the pure part of
    `makesums`. The line grammar, the line splitting and the checksum loop
    are shared with `scripts/md5dir.py` and live in `Manifest` and
    `Checksum`. */
module CompareScript {
  import opened Wrappers
  import opened Manifest
  import opened StringOrder
  import opened Checksum
  import opened Paths

  // ----- getDictionary -----

  lemma ToDictSnoc(rs: seq<Record>, r: Record)
    ensures ToDict(rs + [r]) == ToDict(rs)[r.file := r.md5]
  {
    assert (rs + [r])[..|rs|] == rs;
  }

  lemma RecordsSnoc(lines: seq<string>, k: nat)
    requires k < |lines|
    ensures ParseLine(lines[k]).None? ==> Records(lines[..k + 1]) == Records(lines[..k])
    ensures ParseLine(lines[k]).Some? ==> Records(lines[..k + 1]) == Records(lines[..k]) + [ParseLine(lines[k]).value]
  {
    assert lines[..k + 1] == lines[..k] + [lines[k]];
    RecordsAppend(lines[..k], [lines[k]]);
    assert [lines[k]][1..] == [];
  }

  /** `getDictionary(file)`: an empty dictionary when the path is not a file
      (`None`); otherwise every line matching the md5sum grammar sets its
      path to its digest, in file order, so a later line for the same path
      wins. */
  method GetDictionary(file: Option<string>) returns (d: map<string, Hex32>)
    ensures d == ToDict(GetDict(file))
    ensures file.None? ==> d == map[]
  {
    d := map[];
    if file.None? {
      return;
    }
    var lines := Lines(file.value);
    var k := 0;
    while k < |lines|
      invariant k <= |lines|
      invariant d == ToDict(Records(lines[..k]))
    {
      RecordsSnoc(lines, k);
      match ParseLine(lines[k]) {
        case None =>
        case Some(r) =>
          ToDictSnoc(Records(lines[..k]), r);
          d := d[r.file := r.md5];
      }
      k := k + 1;
    }
    assert lines[..k] == lines;
  }

  /** The line a key of the dictionary read from `text` comes from. */
  lemma KeyHasLine(text: string, path: string)
    requires path in ToDict(GetDict(Some(text)))
    ensures exists k :: 0 <= k < |Lines(text)| && ParseLine(Lines(text)[k]).Some? && ParseLine(Lines(text)[k]).value.file == path
  {
    var lines := Lines(text);
    var rs := Records(lines);
    assert GetDict(Some(text)) == rs;
    ToDictKeys(rs, path);
    var m :| 0 <= m < |rs| && rs[m].file == path;
    RecordsAreParsedLines(lines, rs[m]);
    var k :| 0 <= k < |lines| && ParseLine(lines[k]) == Some(rs[m]);
    assert ParseLine(lines[k]).value.file == path;
  }

  /** Every matching line of `text` gives a key of its dictionary. */
  lemma LineGivesKey(text: string, k: nat)
    requires k < |Lines(text)| && ParseLine(Lines(text)[k]).Some?
    ensures ParseLine(Lines(text)[k]).value.file in ToDict(GetDict(Some(text)))
  {
    var lines := Lines(text);
    var rs := Records(lines);
    assert GetDict(Some(text)) == rs;
    var r := ParseLine(lines[k]).value;
    RecordsAreParsedLines(lines, r);
    var m :| 0 <= m < |rs| && rs[m] == r;
    ToDictKeys(rs, r.file);
  }

  /** A path is a key of the dictionary read from `text` exactly when some
      line of `text` matches the grammar with that path. */
  lemma DictionaryKeys(text: string, path: string)
    ensures path in ToDict(GetDict(Some(text))) <==>
      exists k :: 0 <= k < |Lines(text)| && ParseLine(Lines(text)[k]).Some? && ParseLine(Lines(text)[k]).value.file == path
  {
    if path in ToDict(GetDict(Some(text))) {
      KeyHasLine(text, path);
    } else {
      forall k | 0 <= k < |Lines(text)| && ParseLine(Lines(text)[k]).Some?
        ensures ParseLine(Lines(text)[k]).value.file != path
      {
        LineGivesKey(text, k);
      }
    }
  }

  // ----- dict(items) -----

  /** No path occurs twice, as in the items of a dictionary. */
  predicate DistinctNames(rs: seq<Record>) {
    forall k, l :: 0 <= k < l < |rs| ==> rs[k].file != rs[l].file
  }

  /** On items with distinct paths the dictionary maps every path to its own
      digest and has no other key. */
  lemma DistinctDict(rs: seq<Record>)
    requires DistinctNames(rs)
    ensures forall k :: 0 <= k < |rs| ==> rs[k].file in ToDict(rs) && ToDict(rs)[rs[k].file] == rs[k].md5
    ensures forall p :: p in ToDict(rs) ==> exists k :: 0 <= k < |rs| && rs[k].file == p
  {
    forall k | 0 <= k < |rs|
      ensures rs[k].file in ToDict(rs) && ToDict(rs)[rs[k].file] == rs[k].md5
    {
      ToDictLastWins(rs, k);
    }
    forall p | p in ToDict(rs)
      ensures exists k :: 0 <= k < |rs| && rs[k].file == p
    {
      ToDictKeys(rs, p);
    }
  }

  /** The order of items with distinct paths does not matter to the dictionary. */
  lemma SameDict(xs: seq<Record>, ys: seq<Record>)
    requires DistinctNames(xs) && DistinctNames(ys) && multiset(xs) == multiset(ys)
    ensures ToDict(xs) == ToDict(ys)
  {
    DistinctDict(xs);
    DistinctDict(ys);
    forall p | p in ToDict(xs)
      ensures p in ToDict(ys) && ToDict(xs)[p] == ToDict(ys)[p]
    {
      var k :| 0 <= k < |xs| && xs[k].file == p;
      assert xs[k] in multiset(ys);
      var l :| 0 <= l < |ys| && ys[l] == xs[k];
    }
    forall p | p in ToDict(ys)
      ensures p in ToDict(xs)
    {
      var l :| 0 <= l < |ys| && ys[l].file == p;
      assert ys[l] in multiset(xs);
      var k :| 0 <= k < |xs| && xs[k] == ys[l];
    }
    assert ToDict(xs).Keys == ToDict(ys).Keys;
  }

  // ----- sorted(checksums, key=lambda x: x[0]) -----

  /** Puts `x` after every record whose path is not above its own: inserting
      the records from the first to the last this way is a stable sort. */
  function Insert(x: Record, s: seq<Record>): seq<Record>
    decreases |s|
  {
    if s == [] then [x]
    else if Below(x.file, s[0].file) then [x] + s
    else [s[0]] + Insert(x, s[1..])
  }

  /** Python's stable `sorted` keyed on the path. */
  function SortByName(rs: seq<Record>): seq<Record>
    decreases |rs|
  {
    if rs == [] then [] else Insert(rs[|rs| - 1], SortByName(rs[..|rs| - 1]))
  }

  predicate SortedByName(rs: seq<Record>) {
    forall k, l :: 0 <= k < l < |rs| ==> AtMost(rs[k].file, rs[l].file)
  }

  lemma {:induction false} InsertPermutes(x: Record, s: seq<Record>)
    ensures multiset(Insert(x, s)) == multiset(s) + multiset{x}
    decreases |s|
  {
    if s != [] && !Below(x.file, s[0].file) {
      InsertPermutes(x, s[1..]);
      assert s == [s[0]] + s[1..];
    }
  }

  lemma {:induction false} InsertSorted(x: Record, s: seq<Record>)
    requires SortedByName(s)
    ensures SortedByName(Insert(x, s))
    decreases |s|
  {
    if s == [] {
    } else if Below(x.file, s[0].file) {
      forall l | 0 <= l < |s|
        ensures AtMost(x.file, s[l].file)
      {
        if Below(s[l].file, x.file) {
          BelowTransitive(s[l].file, x.file, s[0].file);
          if l == 0 {
            BelowIrreflexive(s[0].file);
          }
        }
      }
    } else {
      var rest := Insert(x, s[1..]);
      InsertSorted(x, s[1..]);
      InsertPermutes(x, s[1..]);
      forall m | 0 <= m < |rest|
        ensures AtMost(s[0].file, rest[m].file)
      {
        assert rest[m] in multiset(s[1..]) + multiset{x};
        if rest[m] != x {
          assert rest[m] in s[1..];
          var l :| 0 <= l < |s[1..]| && s[1..][l] == rest[m];
          assert s[l + 1] == rest[m];
        }
      }
    }
  }

  lemma {:induction false} InsertDistinct(x: Record, s: seq<Record>)
    requires DistinctNames(s) && forall r :: r in s ==> r.file != x.file
    ensures DistinctNames(Insert(x, s))
    decreases |s|
  {
    if s != [] && !Below(x.file, s[0].file) {
      var rest := Insert(x, s[1..]);
      InsertDistinct(x, s[1..]);
      InsertPermutes(x, s[1..]);
      forall m | 0 <= m < |rest|
        ensures s[0].file != rest[m].file
      {
        assert rest[m] in multiset(s[1..]) + multiset{x};
        if rest[m] != x {
          assert rest[m] in s[1..];
          var l :| 0 <= l < |s[1..]| && s[1..][l] == rest[m];
          assert s[l + 1] == rest[m];
        }
      }
    }
  }

  lemma {:induction false} SortByNamePermutes(rs: seq<Record>)
    ensures multiset(SortByName(rs)) == multiset(rs)
    decreases |rs|
  {
    if rs != [] {
      var init, x := rs[..|rs| - 1], rs[|rs| - 1];
      assert multiset(rs) == multiset(init) + multiset{x} by {
        assert rs == init + [x];
      }
      SortByNamePermutes(init);
      InsertPermutes(x, SortByName(init));
    }
  }

  lemma {:induction false} SortByNameSorted(rs: seq<Record>)
    ensures SortedByName(SortByName(rs))
    decreases |rs|
  {
    if rs != [] {
      var init := rs[..|rs| - 1];
      SortByNameSorted(init);
      InsertSorted(rs[|rs| - 1], SortByName(init));
    }
  }

  /** The sort returns the same records, in ascending order of path. */
  lemma SortByNameSorts(rs: seq<Record>)
    ensures multiset(SortByName(rs)) == multiset(rs)
    ensures SortedByName(SortByName(rs))
  {
    SortByNamePermutes(rs);
    SortByNameSorted(rs);
  }

  lemma {:induction false} SortByNameDistinct(rs: seq<Record>)
    requires DistinctNames(rs)
    ensures DistinctNames(SortByName(rs))
    decreases |rs|
  {
    if rs != [] {
      var init, x := rs[..|rs| - 1], rs[|rs| - 1];
      assert DistinctNames(init) by {
        forall k, l | 0 <= k < l < |init| ensures init[k].file != init[l].file {
          assert init[k] == rs[k] && init[l] == rs[l];
        }
      }
      SortByNameDistinct(init);
      SortByNamePermutes(init);
      forall r | r in SortByName(init)
        ensures r.file != x.file
      {
        assert r in multiset(init);
        var k :| 0 <= k < |init| && init[k] == r;
        assert rs[k] == r;
      }
      InsertDistinct(x, SortByName(init));
    }
  }

  // ----- writesums -----

  /** The first line `writesums` writes. */
  function Header(root: string): string {
    "#md5dir " + root + "\n"
  }

  /** One `"<md5>  <fname>\n"` line per record, in order. */
  function FormatLines(rs: seq<Record>): seq<string> {
    seq(|rs|, k requires 0 <= k < |rs| => FormatLine(rs[k].md5, rs[k].file))
  }

  /** The text of the hash file `writesums(root, checksums)` creates. */
  function SumsText(root: string, checksums: seq<Record>): string {
    Header(root) + Concat(FormatLines(SortByName(checksums)))
  }

  lemma {:induction false} ConcatSnoc(lines: seq<string>, line: string)
    ensures Concat(lines + [line]) == Concat(lines) + line
    decreases |lines|
  {
    if lines == [] {
      assert [line][1..] == [];
    } else {
      assert (lines + [line])[1..] == lines[1..] + [line];
      ConcatSnoc(lines[1..], line);
    }
  }

  /** `writesums(root, checksums)`: the header, then one line per item in
      ascending order of path; returns the text written to the file. */
  method WriteSums(root: string, checksums: seq<Record>) returns (text: string)
    ensures text == SumsText(root, checksums)
  {
    var sorted := SortByName(checksums);
    ghost var lines := FormatLines(sorted);
    text := Header(root);
    var k := 0;
    while k < |sorted|
      invariant k <= |sorted|
      invariant text == Header(root) + Concat(lines[..k])
    {
      ConcatSnoc(lines[..k], lines[k]);
      assert lines[..k + 1] == lines[..k] + [lines[k]];
      text := text + FormatLine(sorted[k].md5, sorted[k].file);
      k := k + 1;
    }
    assert lines[..k] == lines;
  }

  lemma HeaderWellFormed(root: string)
    requires NoNewline(root)
    ensures WellFormedLine(Header(root))
  {
    var h := Header(root);
    assert h[..|h| - 1] == "#md5dir " + root;
    forall k | 0 <= k < |h| - 1 ensures h[k] != '\n' {
      if k >= 8 {
        assert h[k] == root[k - 8];
      }
    }
  }

  /** Read back line by line, the file holds the header and then the record
      lines of the items in ascending order of path. */
  lemma WriteSumsLayout(root: string, checksums: seq<Record>)
    requires NoNewline(root) && forall r :: r in checksums ==> NoNewline(r.file)
    ensures Lines(SumsText(root, checksums)) == [Header(root)] + FormatLines(SortByName(checksums))
  {
    var sorted := SortByName(checksums);
    var body := FormatLines(sorted);
    var all := [Header(root)] + body;
    SortByNamePermutes(checksums);
    HeaderWellFormed(root);
    forall k | 0 <= k < |all| ensures WellFormedLine(all[k]) {
      if k > 0 {
        assert sorted[k - 1] in multiset(checksums);
        FormatLineWellFormed(sorted[k - 1].md5, sorted[k - 1].file);
      }
    }
    LinesOfConcat(all);
    assert all[1..] == body;
  }

  lemma {:induction false} RecordsOfFormatLines(rs: seq<Record>)
    requires forall r :: r in rs ==> NoNewline(r.file)
    ensures Records(FormatLines(rs)) == rs
    decreases |rs|
  {
    if rs != [] {
      FormatLineParses(rs[0].md5, rs[0].file);
      assert FormatLines(rs)[1..] == FormatLines(rs[1..]);
      RecordsOfFormatLines(rs[1..]);
      assert rs == [rs[0]] + rs[1..];
    }
  }

  /** Reading the file `writesums` creates gives back the dictionary of the
      items written: digests are 32 lowercase hex digits by their type, and
      neither the root nor any path may contain a newline. */
  lemma WriteSumsRoundTrip(root: string, checksums: seq<Record>)
    requires NoNewline(root) && forall r :: r in checksums ==> NoNewline(r.file)
    requires DistinctNames(checksums)
    ensures GetDict(Some(SumsText(root, checksums))) == SortByName(checksums)
    ensures ToDict(GetDict(Some(SumsText(root, checksums)))) == ToDict(checksums)
  {
    var sorted := SortByName(checksums);
    WriteSumsLayout(root, checksums);
    RecordsAppend([Header(root)], FormatLines(sorted));
    HeaderIsSkipped(root);
    assert [Header(root)][1..] == [];
    SortByNamePermutes(checksums);
    forall r | r in sorted ensures NoNewline(r.file) {
      assert r in multiset(checksums);
    }
    RecordsOfFormatLines(sorted);
    SortByNameDistinct(checksums);
    SameDict(sorted, checksums);
  }

  // ----- calcsum and makesums -----

  /** Whether `calcsum` raises `IOError` on a file with contents `file`
      (`None` when it cannot be opened or read): nothing catches an error
      here, and `calculateUID` also fails on a file of fewer than 128 bytes,
      where it seeks before the start. */
  predicate CalcSumRaises(filepath: string, file: Option<seq<bv8>>, mp3mode: bool) {
    file.None? || (mp3mode && EndsWith(filepath, ".mp3") && !UidDefined(file.value))
  }

  /** `calcsum(filepath, mp3mode)`: `None` when the error escapes, otherwise
      `calculateUID` for an `.mp3` in MP3 mode and the MD5 of the whole file
      for every other file. */
  method CalcSum(filepath: string, file: Option<seq<bv8>>, mp3mode: bool, md5: Md5) returns (r: Option<Hex32>)
    ensures r.None? <==> CalcSumRaises(filepath, file, mp3mode)
    ensures r.Some? ==> r.value == FileDigest(filepath, file.value, mp3mode, md5)
    ensures r.Some? && !(mp3mode && EndsWith(filepath, ".mp3")) ==> r.value == md5(file.value)
  {
    if file.None? {
      return None;
    }
    var content := file.value;
    if mp3mode && EndsWith(filepath, ".mp3") {
      if !UidDefined(content) {
        return None;
      }
      return Some(CalculateUid(content, md5));
    }
    var hex := HashFile(content, md5);
    r := Some(hex);
  }

  /** Whether `calcsum` raises on the listed file `e` (relative name,
      contents) under `root`. */
  predicate Raises(mp3mode: bool, root: string, e: (string, Option<seq<bv8>>)) {
    CalcSumRaises(Join(root, e.0), e.1, mp3mode)
  }

  /** `calcsum` returns on every listed file. */
  predicate AllSummed(mp3mode: bool, root: string, files: seq<(string, Option<seq<bv8>>)>) {
    forall k {:trigger Raises(mp3mode, root, files[k])} :: 0 <= k < |files| ==> !Raises(mp3mode, root, files[k])
  }

  /** The checksum `calcsum` returns for a listed file it does not raise on. */
  function EntryDigest(mp3mode: bool, root: string, e: (string, Option<seq<bv8>>), md5: Md5): Hex32
    requires !Raises(mp3mode, root, e)
  {
    FileDigest(Join(root, e.0), e.1.value, mp3mode, md5)
  }

  /** The `(fname, calcsum(...))` pairs of the listed files, in walk order. */
  function Digests(mp3mode: bool, root: string, files: seq<(string, Option<seq<bv8>>)>, md5: Md5): seq<Record>
    requires AllSummed(mp3mode, root, files)
  {
    seq(|files|, k requires 0 <= k < |files| && AllSummed(mp3mode, root, files) =>
      assert !Raises(mp3mode, root, files[k]);
      Record(files[k].0, EntryDigest(mp3mode, root, files[k], md5)))
  }

  /** One more file summed: the pairs so far gain that file's pair. */
  lemma DigestsSnoc(mp3mode: bool, root: string, files: seq<(string, Option<seq<bv8>>)>, index: nat, md5: Md5)
    requires index < |files| && AllSummed(mp3mode, root, files[..index]) && !Raises(mp3mode, root, files[index])
    ensures AllSummed(mp3mode, root, files[..index + 1])
    ensures Digests(mp3mode, root, files[..index + 1], md5) ==
      Digests(mp3mode, root, files[..index], md5) + [Record(files[index].0, EntryDigest(mp3mode, root, files[index], md5))]
  {
    var pre, post := files[..index], files[..index + 1];
    forall k | 0 <= k < |post| ensures !Raises(mp3mode, root, post[k]) {
      if k < index {
        assert post[k] == pre[k];
      }
    }
    var a, b := Digests(mp3mode, root, post, md5), Digests(mp3mode, root, pre, md5);
    assert forall k :: 0 <= k < index ==> a[k] == b[k] by {
      forall k | 0 <= k < index ensures a[k] == b[k] {
        assert post[k] == pre[k];
      }
    }
  }

  /** `makesums` keeps one entry per listed path: its key set is the set of
      listed paths, and a path listed twice keeps the digest of its last
      listing. */
  lemma MakeSumsEntries(mp3mode: bool, root: string, files: seq<(string, Option<seq<bv8>>)>, md5: Md5)
    requires AllSummed(mp3mode, root, files)
    ensures ToDict(Digests(mp3mode, root, files, md5)).Keys == set k | 0 <= k < |files| :: files[k].0
    ensures forall k :: 0 <= k < |files| && (forall m :: k < m < |files| ==> files[m].0 != files[k].0) ==>
      ToDict(Digests(mp3mode, root, files, md5))[files[k].0] == EntryDigest(mp3mode, root, files[k], md5)
  {
    var rs := Digests(mp3mode, root, files, md5);
    assert |rs| == |files| && forall k :: 0 <= k < |files| ==> rs[k].file == files[k].0;
    forall p ensures p in ToDict(rs) <==> p in set k | 0 <= k < |files| :: files[k].0 {
      ToDictKeys(rs, p);
    }
    forall k | 0 <= k < |files| && (forall m :: k < m < |files| ==> files[m].0 != files[k].0)
      ensures ToDict(rs)[files[k].0] == EntryDigest(mp3mode, root, files[k], md5)
    {
      ToDictLastWins(rs, k);
    }
  }

  /** `makesums(root)` for the files `master_list(root)` lists (relative
      name, contents). When `calcsum` raises on some file the error ends the
      run: no dictionary is returned and the hash file is never opened
      (both `None`). Otherwise: the dictionary of their checksums, and the
      text of the hash file, written from the dictionary's items in whatever
      order `iteritems` yields them. */
  method MakeSums(mp3mode: bool, root: string, files: seq<(string, Option<seq<bv8>>)>, md5: Md5)
    returns (checksums: Option<map<string, Hex32>>, text: Option<string>)
    ensures checksums.None? <==> exists k :: 0 <= k < |files| && Raises(mp3mode, root, files[k])
    ensures text.None? <==> checksums.None?
    ensures checksums.Some? ==> AllSummed(mp3mode, root, files) && checksums.value == ToDict(Digests(mp3mode, root, files, md5))
    ensures text.Some? && checksums.Some? && NoNewline(root) && (forall k :: 0 <= k < |files| ==> NoNewline(files[k].0)) ==>
      ToDict(GetDict(Some(text.value))) == checksums.value
  {
    var dict := map[];
    var index := 0;
    while index < |files|
      invariant index <= |files|
      invariant AllSummed(mp3mode, root, files[..index])
      invariant dict == ToDict(Digests(mp3mode, root, files[..index], md5))
    {
      var (fname, file) := files[index];
      var newhash := CalcSum(Join(root, fname), file, mp3mode, md5);
      if newhash.None? {
        assert Raises(mp3mode, root, files[index]);
        return None, None;
      }
      DigestsSnoc(mp3mode, root, files, index, md5);
      ToDictSnoc(Digests(mp3mode, root, files[..index], md5), Record(fname, newhash.value));
      dict := dict[fname := newhash.value];
      index := index + 1;
    }
    assert files[..index] == files;
    var items := DictItems(dict);
    var written := WriteSums(root, items);
    if NoNewline(root) && forall k :: 0 <= k < |files| ==> NoNewline(files[k].0) {
      forall r | r in items ensures NoNewline(r.file) {
        MakeSumsEntries(mp3mode, root, files, md5);
        assert r.file in dict;
      }
      WriteSumsRoundTrip(root, items);
    }
    checksums, text := Some(dict), Some(written);
  }

  /** Appending a record whose path is not yet there keeps the paths distinct. */
  lemma DistinctSnoc(rs: seq<Record>, x: Record)
    requires DistinctNames(rs) && forall r :: r in rs ==> r.file != x.file
    ensures DistinctNames(rs + [x])
  {
    var t := rs + [x];
    forall k, l | 0 <= k < l < |t| ensures t[k].file != t[l].file {
      assert t[k] == rs[k];
      if l < |rs| {
        assert t[l] == rs[l];
      }
    }
  }

  /** Part way through `iteritems`: `items` holds the entries of `d` whose
      keys are no longer in `rest`, once each, and `rest` is the remainder
      of `d`. */
  predicate ItemsSoFar(d: map<string, Hex32>, items: seq<Record>, rest: map<string, Hex32>) {
    && rest.Keys <= d.Keys && (forall p :: p in rest ==> rest[p] == d[p])
    && DistinctNames(items)
    && (forall r :: r in items ==> r.file in d && r.file !in rest)
    && ToDict(items).Keys + rest.Keys == d.Keys
    && (forall p :: p in ToDict(items) ==> ToDict(items)[p] == d[p])
  }

  /** Taking one more entry out of the remainder. */
  lemma ItemsStep(d: map<string, Hex32>, items: seq<Record>, rest: map<string, Hex32>, p: string)
    requires ItemsSoFar(d, items, rest) && p in rest
    ensures ItemsSoFar(d, items + [Record(p, rest[p])], rest - {p})
  {
    var x := Record(p, rest[p]);
    var items', rest' := items + [x], rest - {p};
    DistinctSnoc(items, x);
    ToDictSnoc(items, x);
    assert ToDict(items').Keys == ToDict(items).Keys + {p};
    assert rest'.Keys == rest.Keys - {p};
    forall r | r in items' ensures r.file in d && r.file !in rest' {
      if r != x {
        assert r in items;
      }
    }
  }

  /** With nothing left, the items are the whole dictionary. */
  lemma ItemsDone(d: map<string, Hex32>, items: seq<Record>)
    requires ItemsSoFar(d, items, map[])
    ensures DistinctNames(items) && ToDict(items) == d
    ensures forall r :: r in items ==> r.file in d
  {
  }

  /** `checksums.iteritems()`: the entries of the dictionary, one per key, in
      an order the model leaves open. */
  method DictItems(d: map<string, Hex32>) returns (items: seq<Record>)
    ensures DistinctNames(items) && ToDict(items) == d
    ensures forall r :: r in items ==> r.file in d
  {
    items := [];
    var rest := d;
    while rest != map[]
      invariant ItemsSoFar(d, items, rest)
      decreases rest.Keys
    {
      var p :| p in rest;
      ItemsStep(d, items, rest, p);
      items := items + [Record(p, rest[p])];
      rest := rest - {p};
    }
    ItemsDone(d, items);
  }
}
