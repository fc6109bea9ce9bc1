# md5dir: manifests, checksums and the manifest diff, in Dafny

`md5dir` keeps a GNU `md5sum`-style manifest of every file under a directory
and reports what changed between two runs. This project models the logic of
its two scripts:

- `scripts/md5dir.py`, class `Md5dir`:
  - the merge-join diff `compare`, which walks two manifests with one cursor
    each and logs `CHANGED` / `DELETED` / `ADDED` lines and a final `STATUS`
    line;
  - the `fnmatch`-based `ignore` test;
  - the manifest reader `get_dict`, the line format of `make_sums`;
  - the 1 MiB chunk loop of `calc_sum`, with its `BROKEN` error path, and
    the `IOError` that escapes it in MP3 mode;
  - `calculateUID`, which hashes only the part of an MP3 file between an
    ID3v2 header and an ID3v1 trailer.
- `scripts/compare.py`: the dictionary reader `getDictionary`, the sorted
  writer `writesums` with its `#md5dir` header, `calcsum`, its copy of
  `calculateUID`, and the pure part of `makesums`.

Modules, one per file:

| module | file | what it holds |
|---|---|---|
| `Wrappers` | `wrappers.dfy` | `Option` |
| `Paths` | `paths.dfy` | `str.endswith` and `os.path.join` |
| `StringOrder` | `string_order.dfy` | Python 2 `str` ordering (`<`, `<=`) and its order laws |
| `Fnmatch` | `fnmatch.dfy` | `fnmatch.translate` as a token sequence and whole-name matching |
| `Manifest` | `manifest.dfy` | the `md5line` grammar, line splitting as `for line in f` does it, records, and the last-wins dictionary |
| `Checksum` | `checksum.dfy` | MD5 as an uninterpreted function, the hasher and file objects, the chunk loop, and the `calculateUID` byte range |
| `Md5dir` | `md5dir.dfy` | class `Md5dir` with its output sink, and the functions its methods are proved against (`Step`, `Loop`, `Drain`, `CompareLog`, `SumLines`) |
| `Md5dirFacts` | `md5dir_facts.dfy` | what `compare` and `make_sums` guarantee as written |
| `CompareFindings` | `compare_findings.dfy` | the corrected drain, its diff property, and concrete inputs that show the drain's faults |
| `SumFindings` | `sum_findings.dfy` | a concrete run that the escaping `IOError` ends early, and `calc_sum` with every read error caught |
| `CompareScript` | `compare_script.dfy` | `compare.py`'s reader, sorter, writer, `calcsum` and `makesums` |

How the program's state and effects are represented:

- **Output sink.** The sink `self.output` is a sequence of `Event`s, one per
  logged line, and `suppress_changes` turns `log` into a no-op.
- **Configuration.** The MP3 flag, the suppress flag and the pattern list are
  fixed when the object is built.
- **Files and MD5.** A file is its byte sequence, and a missing or unreadable
  file is `None`. MD5 is a function parameter, `seq<bv8> -> Hex32`.
- **`compare`'s iterators.** The two record iterators become indices into the
  record sequences. An index at the end of its sequence stands for the `-1`
  sentinel.

`compare.py`'s `calculateUID` (scripts/compare.py:125-157) is the same code
as the `md5dir.py` copy, and the same `Checksum` functions model both.

Where the code and its own comments disagree, the model follows the code.
The comments in `calculateUID` describe the ID3v2.4.0 header layout given in
section 3.1 of the ID3v2.4.0 structure document: flags at byte 5, a synchsafe
size at bytes 6-9. The code instead:

- reads the flags from byte 3 (the major version);
- reads the size from bytes 4-7;
- does not mask the high bit of each size byte.

`Checksum.HashedSpan` keeps the code's offsets. Tags built as the code reads
them are skipped correctly (`Checksum.LeadingTagSkipped`), but every
standard header is misread. This is listed under "## Findings", with the
standard reading `Checksum.StandardSpan` beside it.

## Model

| member | source | states |
|---|---|---|
| `StringOrder.Below` | scripts/md5dir.py:185 | Python 2 `<` on `str`: lexicographic by character, a proper prefix first; its order laws are the next rows |
| `StringOrder.BelowIrreflexive` | scripts/md5dir.py:185 | no path is `<` itself |
| `StringOrder.BelowTransitive` | scripts/md5dir.py:185 | Python string `<` is transitive |
| `StringOrder.BelowTotal` | scripts/md5dir.py:185 | of two different paths, one is `<` the other |
| `StringOrder.AtMostTransitive` | scripts/compare.py:179 | `<=` on paths, the order `sorted` uses, is transitive |
| `Fnmatch.Translate` | scripts/md5dir.py:71 | `fnmatch.translate`: `*`, `?`, `[seq]`, `[!seq]` and an unclosed `[` as tokens; its meaning is stated by the `Fnmatch` lemmas below |
| `Fnmatch.Matches` | scripts/md5dir.py:71 | the translated expression must match the whole name |
| `Fnmatch.Fnmatch` | scripts/md5dir.py:71 | `fnmatch.fnmatch(name, pattern)`, case-sensitive as on POSIX |
| `Fnmatch.StarSplits` | scripts/md5dir.py:71 | a leading `*` matches exactly when the rest of the pattern matches some suffix of the name |
| `Fnmatch.LiteralPatternMatchesItself` | scripts/md5dir.py:71 | a pattern without `*`, `?` or `[` matches exactly the name equal to it |
| `Fnmatch.StarSuffixPattern` | scripts/md5dir.py:71 | `*<suffix>` with a literal suffix matches exactly the names ending in that suffix |
| `Fnmatch.StarMatchesEverything` | scripts/md5dir.py:71 | the pattern `*` matches every name |
| `Fnmatch.QuestionMarkMatchesOneCharacter` | scripts/md5dir.py:71 | `?` matches exactly the one-character names |
| `Fnmatch.NegatedBracketComplements` | scripts/md5dir.py:71 | `[!seq]` accepts a character exactly when `[seq]` rejects it |
| `Md5dir.Ignore` | scripts/md5dir.py:69-71 | `ignore(filename)`: `any` over the pattern list; characterised by the next row |
| `Md5dir.IgnoreIffSomePatternMatches` | scripts/md5dir.py:69-71 | a name is ignored iff at least one pattern in the list glob-matches it, so the default empty list ignores nothing |
| `Manifest.ParseLine` | scripts/md5dir.py:80-83 | `md5line.match(line.rstrip(""))` with the regular expression of scripts/md5dir.py:62; its meaning is stated by the next two rows |
| `Manifest.ModeLineParses` | scripts/md5dir.py:62 | a record line in text (`' '`) or binary (`'*'`) mode parses back to its digest and path |
| `Manifest.ParsedLineShape` | scripts/md5dir.py:62 | conversely, a line is accepted only when it is such a record line, with or without its final newline, and the path has no newline |
| `Manifest.HeaderIsSkipped` | scripts/compare.py:84-88 | the `#md5dir <root>` header line never parses as a record |
| `Manifest.FormatLineParses` | scripts/md5dir.py:123 | every line `"<md5>  <fname>\n"` a writer emits parses back to the same `(fname, md5)` when the name has no newline |
| `Manifest.FormatLineWellFormed` | scripts/md5dir.py:123 | such a line ends in its only newline |
| `Manifest.Lines` | scripts/md5dir.py:79 | `for line in f`: each line up to and including its newline, the last one possibly without |
| `Manifest.LinesCoverText` | scripts/md5dir.py:79 | the lines put back together are the whole text |
| `Manifest.LinesEndInNewline` | scripts/md5dir.py:79 | every line but the last ends in its only newline |
| `Manifest.LinesOfConcat` | scripts/md5dir.py:79 | well-formed lines written one after another are read back by `for line in f` as the same lines |
| `Manifest.Records` | scripts/md5dir.py:79-85 | the records of the matching lines, in file order; characterised by the next two rows |
| `Manifest.RecordsAreParsedLines` | scripts/md5dir.py:78-85 | `get_dict` yields a record exactly when some line of the file matches the grammar with that record, and skips the other lines |
| `Manifest.RecordsAppend` | scripts/md5dir.py:79-85 | the records of two consecutive blocks of lines are those of the first block followed by those of the second, so file order is kept |
| `Manifest.GetDict` | scripts/md5dir.py:73-85 | `get_dict`: nothing when the path is not a file, else the records of its lines |
| `Manifest.ToDict` | scripts/compare.py:80-89 | the dictionary built by assigning the records in order; characterised by the next two rows |
| `Manifest.ToDictKeys` | scripts/compare.py:89 | the dictionary's keys are exactly the paths that occur among the records |
| `Manifest.ToDictLastWins` | scripts/compare.py:89 | a path keeps the digest of its last record |
| `Paths.Join` | scripts/md5dir.py:121 | `os.path.join(root, fname)` on POSIX |
| `Paths.JoinShape` | scripts/md5dir.py:121 | the joined path ends with the name and, for a relative name, starts with the root |
| `Paths.JoinKeepsSuffix` | scripts/md5dir.py:131 | `filepath.endswith(".mp3")` on the joined path answers as it does on the listed name |
| `Checksum.Hasher.Update` | scripts/md5dir.py:138 | `update` appends its bytes to the bytes fed so far |
| `Checksum.OpenFile.Read` | scripts/md5dir.py:136 | `read(n)` returns the next at most `n` bytes, and the empty string at end of file |
| `Checksum.HashFile` | scripts/md5dir.py:133-141 | the chunk loop feeds exactly the file's bytes in order, so the digest is the MD5 of the whole file |
| `Checksum.HashedSpan` | scripts/md5dir.py:277-298 | `finish` is `|b| - 128` if and only if the `TAG` trailer is present, and `|b|` if and only if it is absent; `start` is at least 8 exactly when the file begins with `ID3`, else 0 |
| `Checksum.ReadSpan` | scripts/md5dir.py:300-302 | `seek(start); read(finish - start)`: the `finish - start` bytes from `start` when the range is not reversed; otherwise a suffix of the file, the bytes from `start` when `start` is inside the file |
| `Checksum.HashedBytes` | scripts/md5dir.py:277-302 | the bytes `calculateUID` feeds to the hasher: `HashedSpan` read as `ReadSpan` reads it |
| `Checksum.CalculateUid` | scripts/md5dir.py:270-304 | `calculateUID` on a file of at least 128 bytes: the MD5 of `HashedBytes` |
| `Checksum.SizeOf257` | scripts/md5dir.py:291-292 | the size bytes `[0,0,2,1]` decode to 257 |
| `Checksum.LeadingTagStart` | scripts/md5dir.py:284-298 | for a leading tag whose four size bytes decode to the length of its body, with a ten-byte footer exactly when flag 0x10 is set, hashing starts at the first byte after the tag |
| `Checksum.BodySizeVersusSynchsafe` | scripts/md5dir.py:292 | the unmasked decoding agrees with the synchsafe value when every byte is below 0x80, and exceeds it otherwise |
| `Checksum.UntaggedFileHashedWhole` | scripts/md5dir.py:277-304 | with neither tag present the whole file is hashed |
| `Checksum.TaggedStart` | scripts/md5dir.py:284-298 | the offset formula as written: after `ID3`, hashing starts at 8 + the unmasked size of bytes 4-7 + 10 when bit 4 of byte 3 is set |
| `Checksum.LeadingTagSkipped` | scripts/md5dir.py:284-302 | prepending a leading tag laid out as the code reads it (size bytes decoding to the body length, footer present exactly when flag 0x10 is set) to untagged audio leaves the checksum unchanged |
| `Checksum.TrailerContentsIgnored` | scripts/md5dir.py:277-302 | two files of at least 128 bytes that differ only inside their ID3v1 trailers have the same checksum, when the hashed range is not reversed |
| `Checksum.StandardHeaderMisread` | scripts/md5dir.py:284-298 | every standard header with a major version below 16, minor version 0, no flags and a body under 2^14 bytes is read as a tag ending at offset 8, while the standard tag ends at 10 + its synchsafe size |
| `Checksum.Version4HeaderMisread` | scripts/md5dir.py:284-298 | the version 4.0 header with a 257-byte body: hashing starts at 8, not 267 |
| `Checksum.StandardSpan` | scripts/md5dir.py:285-290 | the range read at the offsets the comments give (flags at byte 5, masked synchsafe size at bytes 6-9): same `finish`; `start` is at least 10 exactly after `ID3`, and unchanged without it |
| `Checksum.StandardTagStart` | scripts/md5dir.py:285-298 | read that way, hashing starts right after a standard tag |
| `Checksum.StandardTagSkipped` | scripts/md5dir.py:285-302 | read that way, prepending any standard tag to audio that does not start with `ID3` leaves the checksum unchanged |
| `Checksum.FileDigest` | scripts/md5dir.py:128-141 | the checksum of a readable file: `calculateUID` for an `.mp3` in MP3 mode, the whole-file MD5 otherwise |
| `Checksum.Mp3ModeAgreesOnUntaggedFiles` | scripts/md5dir.py:131-132 | for an untagged file the MP3-mode checksum equals the plain one |
| `Md5dir.Md5dir.constructor` | scripts/md5dir.py:327-333 | a fresh object has an empty sink and the given MP3 flag, suppress flag and patterns |
| `Md5dir.Md5dir.Log` | scripts/md5dir.py:64-67 | `log` appends its line to the sink unless changes are suppressed |
| `Md5dir.SumOf` | scripts/md5dir.py:128-144 | `calc_sum` raises exactly for an `.mp3` in MP3 mode that is unreadable or shorter than 128 bytes; it gives -1 exactly for an unreadable file outside that case; otherwise the whole-file MD5, or `calculateUID` for an `.mp3` in MP3 mode |
| `Md5dir.Md5dir.CalcSum` | scripts/md5dir.py:128-144 | the result is `SumOf`, and the sink gets `BROKEN` exactly when the result is -1; an error from `calculateUID` is not caught |
| `Md5dir.FirstRaise` | scripts/md5dir.py:118-132 | the number of listed files `make_sums` gets through: none of those raises, and the next one, if any, does |
| `Md5dir.FirstRaiseAt` | scripts/md5dir.py:118-132 | among the files reached, the one that raises is the one where the run ends |
| `Md5dir.SumLines` | scripts/md5dir.py:118-123 | the lines `make_sums` writes: one `"<md5>  <fname>"` per file whose checksum is not -1, in walk order; characterised by `Md5dirFacts.SuccessesHaveLines` and `Md5dirFacts.LinesHaveSuccesses` |
| `Md5dir.Md5dir.MakeSums` | scripts/md5dir.py:113-132 | the run stops at the first file whose `calc_sum` raises, and reports that it raised; the lines written and the `BROKEN` lines logged are those of the files before it |
| `Md5dirFacts.SuccessesHaveLines` | scripts/md5dir.py:121-123 | every file whose checksum is not -1 has its line |
| `Md5dirFacts.LinesHaveSuccesses` | scripts/md5dir.py:121-123 | every line written is that of a listed file whose checksum is not -1 |
| `Md5dir.Step` | scripts/md5dir.py:165-193 | one iteration advances at least one cursor by one; an ignored old path, then an ignored new path, is skipped with nothing else changed |
| `Md5dir.Loop` | scripts/md5dir.py:164-193 | the main loop terminates (its measure is the number of records not yet passed, at most `|old|+|new|`), with a cursor at the end of its manifest and neither cursor moved back |
| `Md5dir.Md5dir.MergeRecords` | scripts/md5dir.py:164-193 | the `while True` loop leaves exactly the cursors and counters of `Loop`, and logs its events |
| `Md5dir.Drain` | scripts/md5dir.py:195-206 | of the counters, only `added` changes, and the drain appends events; confirmed, changed and deleted are kept |
| `Md5dirFacts.CountAddedEvents` | scripts/md5dir.py:197-200 | each drained record gives exactly one `ADDED` line and no line of another kind |
| `Md5dir.Md5dir.LogRemainingAsAdded` | scripts/md5dir.py:197-200 | each drain loop logs one `ADDED` per remaining record and counts each |
| `Md5dir.Md5dir.DrainRemaining` | scripts/md5dir.py:195-206 | the drain skips the pending record and reports every later record of the surviving side as `ADDED` |
| `Md5dir.CompareRun` | scripts/md5dir.py:159-206 | the cursors, counters and events of `compare`: the main loop from the start, then the drain |
| `Md5dir.CompareLog` | scripts/md5dir.py:163-208 | the lines `compare` logs: the header, the events of `CompareRun`, the `STATUS` line; characterised by the `Md5dirFacts` rows below |
| `Md5dir.Md5dir.Compare` | scripts/md5dir.py:146-208 | the sink receives the header, the loop's and the drain's reports, and the `STATUS` line |
| `Md5dirFacts.CompareLogShape` | scripts/md5dir.py:163-208 | the log starts with the analysis header, ends with the only `STATUS` line, and holds only reports in between |
| `Md5dirFacts.StepTallies` | scripts/md5dir.py:176-193 | each iteration bumps a counter exactly when it logs the matching line |
| `Md5dirFacts.LoopTallies` | scripts/md5dir.py:164-193 | after the loop, each counter equals the number of lines of its kind |
| `Md5dirFacts.StatusCountsReports` | scripts/md5dir.py:164-208 | the `STATUS` counts of changed, deleted and added equal the numbers of such lines logged |
| `Md5dirFacts.EmptyManifests` | scripts/md5dir.py:159-208 | empty against empty logs only the header and `STATUS: confirmed 0 added 0 deleted 0 changed 0` |
| `Md5dirFacts.SelfCompare` | scripts/md5dir.py:164-208 | a manifest against itself: confirmed is the number of kept records, and nothing is changed or deleted; with `t` trailing ignored records, `t-1` of them are reported `ADDED` |
| `Md5dirFacts.SelfCompareQuiet` | scripts/md5dir.py:164-208 | a manifest against itself whose last record is not ignored reports nothing but the `STATUS` line |
| `CompareFindings.LoopAccounts` | scripts/md5dir.py:164-193 | on sorted manifests, the main loop keeps the paths seen so far classified as in exactly one manifest or in both |
| `CompareFindings.IntendedClassifiesEveryPath` | scripts/md5dir.py:146-208 | with the corrected drain, on sorted manifests, deleted = the number of kept paths only in the old manifest, added = only in the new one, and confirmed + changed = in both |
| `CompareFindings.IntendedRunReports` | scripts/md5dir.py:146-208 | with the corrected drain, on sorted manifests, the `DELETED` lines name exactly the kept paths only the old manifest lists, the `ADDED` lines exactly those only the new one lists, the `CHANGED` lines exactly the shared paths whose digests differ, and `changed` counts them |
| `CompareFindings.IntendedReportsEveryPath` | scripts/md5dir.py:146-208 | the same three path sets for the whole log, whose `STATUS` line counts them and counts as confirmed the shared paths whose digests agree |
| `CompareFindings.LoopReports` | scripts/md5dir.py:164-193 | every step of the main loop keeps the reported `DELETED`, `ADDED` and `CHANGED` paths, together with the kept paths still ahead, equal to the sets the diff owes, and `changed` equal to the number of `CHANGED` paths |
| `CompareFindings.DrainReports` | scripts/md5dir.py:195-206 | the corrected drain reports the old side's remaining kept paths as `DELETED` and the new side's as `ADDED`, and nothing as `CHANGED` |
| `CompareFindings.IntendedSelfCompare` | scripts/md5dir.py:146-208 | with the corrected drain, any manifest against itself reports only the `STATUS` line, confirming every kept record |
| `CompareFindings.DrainDropsPendingRecord` | scripts/md5dir.py:195-202 | old `a b z` against new `a b`: the code reports nothing for `z`; the corrected drain reports `DELETED: z` |
| `CompareFindings.OldRemainderLabelledAdded` | scripts/md5dir.py:201-205 | old `a y z` against new `a`: the code reports `ADDED: z` and drops `y`; the corrected drain reports both as `DELETED` |
| `CompareFindings.DrainReportsIgnoredRecords` | scripts/md5dir.py:195-206 | ignoring `*.tmp`, the manifest `a x.tmp y.tmp` against itself makes the code report `ADDED: y.tmp`; the corrected drain reports nothing |
| `SumFindings.UnreadableMp3EndsRun` | scripts/md5dir.py:118-132 | in MP3 mode, an unreadable `a.mp3` listed before a readable `b.ogg` ends the run with no line written and no `BROKEN` line, although `b.ogg` has a checksum |
| `SumFindings.GuardedSumOf` | scripts/md5dir.py:128-144 | `calc_sum` with `calculateUID` inside the `try`: it never raises, agrees with `SumOf` where that does not raise, and gives -1 where it does |
| `SumFindings.GuardedAccountsForEveryFile` | scripts/md5dir.py:118-144 | with the guarded `calc_sum`, every listed file gets its line or a `BROKEN` line |
| `SumFindings.GuardedAgreesWithoutRaise` | scripts/md5dir.py:118-144 | when no file raises, the guarded run writes and logs exactly what the run as written does |
| `CompareScript.GetDictionary` | scripts/compare.py:78-90 | the loop builds the dictionary of the matching lines in file order; a path that is not a file gives `{}` |
| `CompareScript.DictionaryKeys` | scripts/compare.py:84-89 | a path is a key iff some line of the file matches the grammar with that path |
| `CompareScript.DistinctDict` | scripts/compare.py:186-190 | items with distinct paths form the dictionary mapping each path to its own digest, with no other key |
| `CompareScript.SameDict` | scripts/compare.py:179 | reordering items with distinct paths does not change their dictionary |
| `CompareScript.Insert` | scripts/compare.py:179 | one insertion step: the record goes after every record whose path is not above its own; proved a permutation by `InsertPermutes` and order-keeping by `InsertSorted` |
| `CompareScript.SortByName` | scripts/compare.py:179 | `sorted(checksums, key=lambda x: x[0])`; characterised by the next two rows |
| `CompareScript.SortByNameSorts` | scripts/compare.py:179 | `sorted` returns the same items (a permutation) in ascending order of path |
| `CompareScript.SortByNameDistinct` | scripts/compare.py:179 | sorting keeps the paths distinct |
| `CompareScript.Header` | scripts/compare.py:178 | the first line, `#md5dir <root>`; never read back as a record (`Manifest.HeaderIsSkipped`) |
| `CompareScript.FormatLines` | scripts/compare.py:179-180 | one `"<md5>  <fname>\n"` line per record; characterised by `RecordsOfFormatLines` (the lines read back as the records) and `WriteSumsLayout` |
| `CompareScript.SumsText` | scripts/compare.py:173-181 | the text of the hash file: the header, then the lines of the items sorted by path |
| `CompareScript.WriteSums` | scripts/compare.py:173-181 | the loop writes the header and then one line per item in sorted order |
| `CompareScript.WriteSumsLayout` | scripts/compare.py:178-180 | read back line by line, the file is `#md5dir <root>` and then `"<md5>  <fname>"` for each item in ascending order of path |
| `CompareScript.WriteSumsRoundTrip` | scripts/compare.py:173-181 | `getDictionary` of the written file gives the items back, sorted, and so gives back `dict(items)` |
| `CompareScript.CalcSum` | scripts/compare.py:159-171 | the error escapes exactly when the file cannot be read, or is an `.mp3` under 128 bytes in MP3 mode; otherwise the checksum is `calculateUID` for an `.mp3` in MP3 mode, else the MD5 of the whole file fed in 1 MiB chunks |
| `CompareScript.Digests` | scripts/compare.py:186-189 | when no file raises, one `(fname, checksum)` pair per listed file, in walk order; characterised by `MakeSumsEntries` |
| `CompareScript.MakeSumsEntries` | scripts/compare.py:186-189 | the dictionary has exactly one key per listed path, holding the checksum of its last listing |
| `CompareScript.DictItems` | scripts/compare.py:190 | `iteritems` yields each entry once, with distinct paths, in some order |
| `CompareScript.MakeSums` | scripts/compare.py:183-191 | when `calcsum` raises on some listed file, nothing is returned and no file is written; otherwise the dictionary maps each listed path to its checksum, and, when neither the root nor any listed name contains a newline, reading back the written file gives that dictionary |

## Left out

- Manifest.GetDict: an existing manifest that cannot be opened or read raises `IOError` (scripts/md5dir.py:78, scripts/compare.py:83), which escapes `compare` or `getDictionary` before anything is logged; `Option` models only "not a file", so this error is not modelled.
- `master_list` (both scripts) is a file-system walk with symlink resolution and, in `compare.py`, libmagic type detection. It is I/O, so the listed files arrive as a parameter.
- The external `sort -k 2` run by `make_sums` is a locale-dependent process. Properties that need sorted manifests take `CompareFindings.StrictlySorted` as a precondition.
- `comparemd5dict` in `compare.py` wraps `dictdiff.DictDiffer`, whose source is not part of this model.
- The MD5 algorithm itself is an uninterpreted function.
- `progress` only prints; `verbose` only sets how often `make_sums` calls it (scripts/md5dir.py:118). The `log` of `compare.py` writes each message to stdout or to the `-o` file unless `quiet` is set, and only the left-out `comparemd5dict` calls it.
- Command-line parsing, `add_dirs`, `analyze_dirs` and `two_dir_comp` are temp-file and path plumbing.
- `scripts/main.py` (sending e-mail) and `scripts/configReader.py` (reading a file into a list) are I/O.
- `set_ignores` loads YAML, so the pattern list is a constructor argument and is not reassigned.
- Checksum.CalculateUid: requires at least 128 bytes. On a shorter file `seek(-128, 2)` raises `IOError`; `Md5dir.SumOf` and `CompareScript.CalcSum` model that error where the callers meet it.
- Fnmatch.Translate: a bracket range written backwards (such as `[z-a]`) makes Python's regular-expression compiler raise an error. This is not modelled: `SetItems` keeps such a range and it matches nothing.
- CompareScript.WriteSumsRoundTrip: besides newline-free paths it requires a newline-free root. A newline in the root splits the header, and what follows the newline may parse as a record.
- Md5dir.Md5dir.CalcSum: an `IOError` is modelled as the file's contents being `None`. The code also catches an error raised part-way through reading, after some chunks were fed; this case is not modelled separately because its result (-1 and `BROKEN`) is the same.
- CompareScript.CalcSum: an `IOError` raised part-way through reading escapes like one raised by `open`, so both are the contents being `None`.
- Md5dir.Md5dir.MakeSums: when an error escapes, the hash file keeps the lines already written and is not sorted; the `with` block closes it; the model returns those lines and a flag, not the exception.
- Events stand for the text lines `log` writes; the `%`-formatting of each line is not modelled.

## Findings

| source | as written | input that shows it | evidently intended | confidence | as-written member | corrected member |
|---|---|---|---|---|---|---|
| scripts/md5dir.py:195-196, 201-202 | after the main loop, one `neckst` call discards the record still pending on the surviving side, so it is never reported | old `a b z`, new `a b`: no line for `z`, `STATUS: confirmed 2 added 0 deleted 0 changed 0` | every remaining record is reported | not executed | `CompareFindings.DrainDropsPendingRecord` (on `Md5dir.CompareLog`) | `CompareFindings.IntendedRun`, proved by `CompareFindings.IntendedClassifiesEveryPath` and `CompareFindings.IntendedReportsEveryPath` |
| scripts/md5dir.py:203-205 | records left over on the old side are logged and counted as `ADDED` | old `a y z`, new `a`: `ADDED: z`, `STATUS: confirmed 1 added 1 deleted 0 changed 0` | leftover old records are `DELETED` | not executed | `CompareFindings.OldRemainderLabelledAdded` (on `Md5dir.CompareLog`) | `CompareFindings.IntendedRun`, proved by `CompareFindings.IntendedClassifiesEveryPath` and `CompareFindings.IntendedReportsEveryPath` |
| scripts/md5dir.py:195-206 | the drain applies no ignore test | ignoring `*.tmp`, `a x.tmp y.tmp` against itself: `ADDED: y.tmp` | ignored records are never reported, so a manifest matches itself | not executed | `CompareFindings.DrainReportsIgnoredRecords` and `Md5dirFacts.SelfCompare` | `CompareFindings.IntendedRun`, proved by `CompareFindings.IntendedSelfCompare` |
| scripts/md5dir.py:284-298 | the ID3v2 header is read with the flags at byte 3 and an unmasked size at bytes 4-7, against the layout the comments give (flags at byte 5, synchsafe size at bytes 6-9) | the version 4.0 header `ID3 04 00 00 00 00 02 01` with a 257-byte body: hashing starts at offset 8, inside the header, instead of 267 | hashing starts 10 bytes past the body, 20 with a footer | not executed | `Checksum.StandardHeaderMisread` and `Checksum.Version4HeaderMisread` (on `Checksum.HashedSpan`) | `Checksum.StandardSpan`, proved by `Checksum.StandardTagSkipped` |
| scripts/md5dir.py:131-132 | in MP3 mode, `calculateUID` is called outside the `try` that catches `IOError`, so an unreadable or short `.mp3` ends `make_sums` | MP3 mode, `a.mp3` unreadable, then `b.ogg` readable: no line for `b.ogg`, no `BROKEN` line | the error is logged as `BROKEN`, the file gets -1 and the run goes on | not executed | `SumFindings.UnreadableMp3EndsRun` (on `Md5dir.Md5dir.MakeSums`) | `SumFindings.GuardedSumOf`, proved by `SumFindings.GuardedAccountsForEveryFile` |
