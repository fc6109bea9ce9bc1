/** `calc_sum` in `scripts/md5dir.py` catches `IOError` only around the
    plain MD5 loop: in MP3 mode the call to `calculateUID` for an `.mp3`
    sits outside the `try`, so an `.mp3` that cannot be opened, or that is
    shorter than the 128 bytes the trailer seek needs, ends `make_sums`
    with the error instead of logging `BROKEN` and skipping the file. This
    module exhibits that on a two-file directory and defines the evidently
    intended behaviour, where every failure to read a file is caught. */
module SumFindings {
  import opened Wrappers
  import opened Manifest
  import opened Checksum
  import opened Paths
  import opened Md5dir

  // ----- as written -----

  /** In MP3 mode, an unreadable `a.mp3` listed before a readable `b.ogg`
      ends the run before `b.ogg` is summed: no line is written and no
      `BROKEN` line is logged, although `b.ogg` has a checksum of its own. */
  lemma UnreadableMp3EndsRun(content: seq<bv8>, md5: Md5)
    ensures var files := [("a.mp3", None), ("b.ogg", Some(content))];
      && FirstRaise(true, "music", files) == 0
      && SumLines(true, "music", files[..0], md5) == []
      && SumLogs(true, "music", files[..0]) == []
      && SumOf(true, Join("music", "b.ogg"), Some(content), md5) == Hex(md5(content))
  {
    var files: seq<(string, Option<seq<bv8>>)> := [("a.mp3", None), ("b.ogg", Some(content))];
    assert Join("music", "a.mp3") == "music/a.mp3";
    assert EndsWith("music/a.mp3", ".mp3");
    assert EntryRaises(true, "music", files[0]);
    assert Join("music", "b.ogg") == "music/b.ogg";
    assert !EndsWith("music/b.ogg", ".mp3") by {
      assert "music/b.ogg"[7..] == ".ogg";
    }
  }

  // ----- as intended -----

  /** `calc_sum` with `calculateUID` inside the `try`: a file whose
      checksum cannot be computed logs `BROKEN` and gives -1, whatever its
      kind. */
  function GuardedSumOf(mp3mode: bool, filepath: string, file: Option<seq<bv8>>, md5: Md5): (r: SumResult)
    ensures !r.Raised?
    ensures !SumRaises(mp3mode, filepath, file) ==> r == SumOf(mp3mode, filepath, file, md5)
    ensures SumRaises(mp3mode, filepath, file) ==> r == Failed
  {
    if SumRaises(mp3mode, filepath, file) then Failed else SumOf(mp3mode, filepath, file, md5)
  }

  /** The events the guarded `calc_sum` logs: one `BROKEN` line per failure. */
  function GuardedEvents(mp3mode: bool, filepath: string, file: Option<seq<bv8>>, md5: Md5): seq<Event> {
    if GuardedSumOf(mp3mode, filepath, file, md5).Failed? then [Broken(filepath)] else []
  }

  /** The lines `make_sums` writes with the guarded `calc_sum`: the run
      goes through every listed file. */
  function GuardedSumLines(mp3mode: bool, root: string, files: seq<(string, Option<seq<bv8>>)>, md5: Md5): seq<string>
    decreases |files|
  {
    if files == [] then []
    else
      var (fname, file) := files[|files| - 1];
      GuardedSumLines(mp3mode, root, files[..|files| - 1], md5) + LineFor(GuardedSumOf(mp3mode, Join(root, fname), file, md5), fname)
  }

  /** The `BROKEN` events of a guarded run. */
  function GuardedSumLogs(mp3mode: bool, root: string, files: seq<(string, Option<seq<bv8>>)>, md5: Md5): seq<Event>
    decreases |files|
  {
    if files == [] then []
    else
      var (fname, file) := files[|files| - 1];
      GuardedSumLogs(mp3mode, root, files[..|files| - 1], md5) + GuardedEvents(mp3mode, Join(root, fname), file, md5)
  }

  /** Every listed file is accounted for by a guarded run: it has its
      `"<md5>  <fname>"` line, or its full path is logged as `BROKEN`. */
  lemma {:induction false} GuardedAccountsForEveryFile(mp3mode: bool, root: string, files: seq<(string, Option<seq<bv8>>)>, md5: Md5, k: nat)
    requires k < |files|
    ensures var r := GuardedSumOf(mp3mode, Join(root, files[k].0), files[k].1, md5);
      (r.Hex? && FormatLine(r.digest, files[k].0) in GuardedSumLines(mp3mode, root, files, md5)) ||
      (r.Failed? && Broken(Join(root, files[k].0)) in GuardedSumLogs(mp3mode, root, files, md5))
    decreases |files|
  {
    var n := |files| - 1;
    var init := files[..n];
    if k < n {
      GuardedAccountsForEveryFile(mp3mode, root, init, md5, k);
      assert init[k] == files[k];
    }
  }

  /** When no file raises, the guarded run and the run as written write the
      same lines and log the same events. */
  lemma {:induction false} GuardedAgreesWithoutRaise(mp3mode: bool, root: string, files: seq<(string, Option<seq<bv8>>)>, md5: Md5)
    requires FirstRaise(mp3mode, root, files) == |files|
    ensures GuardedSumLines(mp3mode, root, files, md5) == SumLines(mp3mode, root, files, md5)
    ensures GuardedSumLogs(mp3mode, root, files, md5) == SumLogs(mp3mode, root, files)
    decreases |files|
  {
    if files != [] {
      var n := |files| - 1;
      var init := files[..n];
      assert !EntryRaises(mp3mode, root, files[n]);
      FirstRaisePrefix(mp3mode, root, files, n);
      GuardedAgreesWithoutRaise(mp3mode, root, init, md5);
    }
  }

  /** A prefix of files none of which raises gets through whole. */
  lemma FirstRaisePrefix(mp3mode: bool, root: string, files: seq<(string, Option<seq<bv8>>)>, n: nat)
    requires n <= FirstRaise(mp3mode, root, files)
    ensures FirstRaise(mp3mode, root, files[..n]) == n
  {
  }
}
