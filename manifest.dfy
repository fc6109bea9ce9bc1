/** The manifest text format shared by both scripts: GNU `md5sum` lines
    `<32 lowercase hex digits> <' ' or '*'><path>`, read line by line with
    the regular expression `^([0-9a-f]{32}) [\ \*](.*)$`; every other line
    (the `#md5dir` header among them) is skipped. */
module Manifest {
  import opened Wrappers

  predicate IsHexDigit(c: char) {
    '0' <= c <= '9' || 'a' <= c <= 'f'
  }

  predicate IsLowerHex32(s: string) {
    |s| == 32 && forall k :: 0 <= k < |s| ==> IsHexDigit(s[k])
  }

  /** A digest as `hexdigest()` renders it and as a manifest line carries it. */
  type Hex32 = s: string | IsLowerHex32(s) witness "00000000000000000000000000000000"

  /** One `{"file": ..., "md5": ...}` entry (also a `(fname, md5)` pair). */
  datatype Record = Record(file: string, md5: Hex32)

  predicate NoNewline(s: string) {
    forall k :: 0 <= k < |s| ==> s[k] != '\n'
  }

  /** `md5line.match(line.rstrip(""))`: `rstrip("")` removes nothing, so the
      line still ends in its newline; `(.*)$` takes the rest of the line,
      which may not contain a newline except as its very last character. */
  function ParseLine(line: string): Option<Record>
  {
    if |line| >= 34 && IsLowerHex32(line[..32]) && line[32] == ' ' && (line[33] == ' ' || line[33] == '*') then
      var rest := line[34..];
      if NoNewline(rest) then Some(Record(rest, line[..32]))
      else if rest[|rest| - 1] == '\n' && NoNewline(rest[..|rest| - 1]) then Some(Record(rest[..|rest| - 1], line[..32]))
      else None
    else None
  }

  /** The line `"%s  %s\n" % (md5, fname)` that both writers emit. */
  function FormatLine(md5: Hex32, fname: string): string {
    md5 + "  " + fname + "\n"
  }

  /** A record line in either `md5sum` mode: text (`' '`) or binary (`'*'`). */
  function ModeLine(md5: Hex32, mode: char, fname: string): string {
    md5 + [' ', mode] + fname + "\n"
  }

  /** Both modes of the grammar read back the digest and the path written. */
  lemma ModeLineParses(md5: Hex32, mode: char, fname: string)
    requires mode == ' ' || mode == '*'
    requires NoNewline(fname)
    ensures ParseLine(ModeLine(md5, mode, fname)) == Some(Record(fname, md5))
  {
    var line := ModeLine(md5, mode, fname);
    assert line[..32] == md5;
    assert line[32] == ' ' && line[33] == mode;
    var rest := line[34..];
    assert rest == fname + "\n";
    assert rest[..|rest| - 1] == fname;
    assert !NoNewline(rest) by {
      assert rest[|rest| - 1] == '\n';
    }
  }

  /** Every line a writer emits parses back to the same `(fname, md5)`. */
  lemma FormatLineParses(md5: Hex32, fname: string)
    requires NoNewline(fname)
    ensures ParseLine(FormatLine(md5, fname)) == Some(Record(fname, md5))
  {
    assert FormatLine(md5, fname) == ModeLine(md5, ' ', fname);
    ModeLineParses(md5, ' ', fname);
  }

  /** Conversely a line is accepted only when it is a record line of one of
      the two modes, with or without its final newline. */
  lemma ParsedLineShape(line: string)
    requires ParseLine(line).Some?
    ensures var r := ParseLine(line).value;
      NoNewline(r.file) &&
      exists mode :: (mode == ' ' || mode == '*') &&
        (line == r.md5 + [' ', mode] + r.file || line == ModeLine(r.md5, mode, r.file))
  {
    var r := ParseLine(line).value;
    var mode := line[33];
    assert line == line[..32] + [' ', mode] + line[34..];
    var rest := line[34..];
    if !NoNewline(rest) {
      assert rest == rest[..|rest| - 1] + "\n";
    }
  }

  /** The `#md5dir` header is never taken for a record. */
  lemma HeaderIsSkipped(root: string)
    ensures ParseLine("#md5dir " + root + "\n") == None
  {
    var line := "#md5dir " + root + "\n";
    if |line| >= 34 {
      assert line[..32][0] == '#';
      assert !IsHexDigit(line[..32][0]);
    }
  }

  /** Length of the first line of `text` as Python's file iteration yields it:
      up to and including the first newline, or the whole rest. */
  function LineLength(text: string): (k: nat)
    requires text != []
    ensures 0 < k <= |text|
    ensures forall m :: 0 <= m < k - 1 ==> text[m] != '\n'
    ensures text[k - 1] == '\n' || k == |text|
    decreases |text|
  {
    if text[0] == '\n' || |text| == 1 then 1 else 1 + LineLength(text[1..])
  }

  /** `for line in f`: the lines of a text, each keeping its newline. */
  function Lines(text: string): seq<string>
    decreases |text|
  {
    if text == [] then []
    else
      var k := LineLength(text);
      [text[..k]] + Lines(text[k..])
  }

  /** A line as the writers produce it: no newline but the final one. */
  predicate WellFormedLine(line: string) {
    line != [] && line[|line| - 1] == '\n' && NoNewline(line[..|line| - 1])
  }

  function Concat(lines: seq<string>): string
    decreases |lines|
  {
    if lines == [] then [] else lines[0] + Concat(lines[1..])
  }

  lemma LinesOfLineThenText(line: string, rest: string)
    requires WellFormedLine(line)
    ensures Lines(line + rest) == [line] + Lines(rest)
  {
    var text := line + rest;
    var k := LineLength(text);
    assert text[|line| - 1] == '\n';
    assert forall m :: 0 <= m < |line| - 1 ==> text[m] == line[..|line| - 1][m];
    assert k == |line|;
    assert text[..k] == line && text[k..] == rest;
  }

  /** Writing well-formed lines one after another and reading the text back
      line by line yields the same lines. */
  lemma {:induction false} LinesOfConcat(lines: seq<string>)
    requires forall k :: 0 <= k < |lines| ==> WellFormedLine(lines[k])
    ensures Lines(Concat(lines)) == lines
    decreases |lines|
  {
    if lines != [] {
      LinesOfLineThenText(lines[0], Concat(lines[1..]));
      LinesOfConcat(lines[1..]);
    }
  }

  /** `for line in f` loses and adds nothing: the lines put back together
      are the text. */
  lemma {:induction false} LinesCoverText(text: string)
    ensures Concat(Lines(text)) == text
    decreases |text|
  {
    if text != [] {
      var k := LineLength(text);
      var ls := Lines(text);
      assert ls == [text[..k]] + Lines(text[k..]);
      assert ls[1..] == Lines(text[k..]);
      LinesCoverText(text[k..]);
      assert text[..k] + text[k..] == text;
    }
  }

  /** Every line `for line in f` yields but the last ends in its only
      newline. */
  lemma {:induction false} LinesEndInNewline(text: string)
    ensures forall k :: 0 <= k < |Lines(text)| - 1 ==> WellFormedLine(Lines(text)[k])
    decreases |text|
  {
    if text != [] {
      var k := LineLength(text);
      var ls := Lines(text);
      var rest := Lines(text[k..]);
      assert ls == [text[..k]] + rest;
      LinesEndInNewline(text[k..]);
      if rest != [] {
        assert text[k..] != [];
        assert text[..k][..k - 1] == text[..k - 1];
        assert WellFormedLine(text[..k]);
      }
      assert forall m :: 1 <= m < |ls| ==> ls[m] == rest[m - 1];
    }
  }

  lemma FormatLineWellFormed(md5: Hex32, fname: string)
    requires NoNewline(fname)
    ensures WellFormedLine(FormatLine(md5, fname))
  {
    var line := FormatLine(md5, fname);
    assert line[..|line| - 1] == md5 + "  " + fname;
    forall k | 0 <= k < |line| - 1 ensures line[k] != '\n' {
      if k < 32 {
        assert line[k] == md5[k] && IsHexDigit(md5[k]);
      } else if k >= 34 {
        assert line[k] == fname[k - 34];
      }
    }
  }

  /** The records of the lines that match the grammar, in file order. */
  function Records(lines: seq<string>): seq<Record>
    decreases |lines|
  {
    if lines == [] then []
    else
      (match ParseLine(lines[0]) case Some(r) => [r] case None => []) + Records(lines[1..])
  }

  lemma {:induction false} RecordsAppend(xs: seq<string>, ys: seq<string>)
    ensures Records(xs + ys) == Records(xs) + Records(ys)
    decreases |xs|
  {
    if xs != [] {
      assert (xs + ys)[1..] == xs[1..] + ys;
      RecordsAppend(xs[1..], ys);
    } else {
      assert xs + ys == ys;
    }
  }

  /** A record is read exactly when some line parses to it. */
  lemma {:induction false} RecordsAreParsedLines(lines: seq<string>, r: Record)
    ensures r in Records(lines) <==> exists k :: 0 <= k < |lines| && ParseLine(lines[k]) == Some(r)
    decreases |lines|
  {
    if lines != [] {
      RecordsAreParsedLines(lines[1..], r);
      if exists k :: 0 <= k < |lines| && ParseLine(lines[k]) == Some(r) {
        var k :| 0 <= k < |lines| && ParseLine(lines[k]) == Some(r);
        if k > 0 {
          assert lines[1..][k - 1] == lines[k];
        }
      }
      if exists k :: 0 <= k < |lines[1..]| && ParseLine(lines[1..][k]) == Some(r) {
        var k :| 0 <= k < |lines[1..]| && ParseLine(lines[1..][k]) == Some(r);
        assert lines[k + 1] == lines[1..][k];
      }
    }
  }

  /** `Md5dir.get_dict`: the records of an existing manifest in file order;
      a path that is not a file (`None`) yields nothing. */
  function GetDict(file: Option<string>): seq<Record> {
    match file
    case None => []
    case Some(text) => Records(Lines(text))
  }

  /** `dict` built by assigning the records in order: a later record for the
      same path overwrites the digest of an earlier one. */
  function ToDict(rs: seq<Record>): map<string, Hex32>
    decreases |rs|
  {
    if rs == [] then map[]
    else ToDict(rs[..|rs| - 1])[rs[|rs| - 1].file := rs[|rs| - 1].md5]
  }

  /** The keys are exactly the paths that occur. */
  lemma {:induction false} ToDictKeys(rs: seq<Record>, path: string)
    ensures path in ToDict(rs) <==> exists k :: 0 <= k < |rs| && rs[k].file == path
    decreases |rs|
  {
    if rs != [] {
      var init := rs[..|rs| - 1];
      ToDictKeys(init, path);
      if exists k :: 0 <= k < |init| && init[k].file == path {
        var k :| 0 <= k < |init| && init[k].file == path;
        assert rs[k] == init[k];
      }
      if exists k :: 0 <= k < |rs| && rs[k].file == path {
        var k :| 0 <= k < |rs| && rs[k].file == path;
        if k < |init| {
          assert init[k] == rs[k];
        }
      }
    }
  }

  /** The digest kept for a path is that of its last record. */
  lemma {:induction false} ToDictLastWins(rs: seq<Record>, k: nat)
    requires k < |rs|
    requires forall m :: k < m < |rs| ==> rs[m].file != rs[k].file
    ensures rs[k].file in ToDict(rs) && ToDict(rs)[rs[k].file] == rs[k].md5
    decreases |rs|
  {
    if k < |rs| - 1 {
      var init := rs[..|rs| - 1];
      assert init[k] == rs[k];
      ToDictLastWins(init, k);
    }
  }
}
