/** Checksum computation shared by both scripts: the 1 MiB read loop of
    `calc_sum` / `calcsum`, and the ID3 tag-skipping range of `calculateUID`.
    MD5 itself is not modelled: it is the parameter `md5`, an arbitrary
    function from the bytes fed to the hasher to the hex digest. */
module Checksum {
  import opened Manifest
  import opened Paths

  /** The digest function `md5.new(); update(...); hexdigest()`. */
  type Md5 = seq<bv8> -> Hex32

  /** Bytes asked for by each `f.read` of the checksum loop. */
  const ChunkSize: nat := 1048576

  /** An `md5` hasher object: only what has been fed to it matters. */
  class Hasher {
    var fed: seq<bv8>

    constructor ()
      ensures fed == []
    {
      fed := [];
    }

    /** `h.update(s)`. */
    method Update(s: seq<bv8>)
      modifies this
      ensures fed == old(fed) + s
    {
      fed := fed + s;
    }

    /** `h.hexdigest()`. */
    function HexDigest(md5: Md5): Hex32
      reads this
    {
      md5(fed)
    }
  }

  /** A file opened with `open(filepath, "rb")`, with its read position. */
  class OpenFile {
    const content: seq<bv8>
    var pos: nat

    constructor (content: seq<bv8>)
      ensures this.content == content && pos == 0
    {
      this.content := content;
      pos := 0;
    }

    /** `f.read(n)`: at most `n` bytes from the current position. */
    method Read(n: nat) returns (chunk: seq<bv8>)
      requires pos <= |content|
      modifies this`pos
      ensures pos == if old(pos) + n <= |content| then old(pos) + n else |content|
      ensures chunk == content[old(pos)..pos]
    {
      var end := if pos + n <= |content| then pos + n else |content|;
      chunk := content[pos..end];
      pos := end;
    }
  }

  /** The loop of `calc_sum` / `calcsum`: read 1 MiB chunks until `read`
      returns the empty string, feeding each to the hasher. The bytes fed are
      exactly the file, in order, so the digest is that of the whole file. */
  method HashFile(content: seq<bv8>, md5: Md5) returns (hex: Hex32)
    ensures hex == md5(content)
  {
    var h := new Hasher();
    var f := new OpenFile(content);
    var s := f.Read(ChunkSize);
    while s != []
      invariant f.content == content && f.pos <= |content|
      invariant h.fed + s == content[..f.pos]
      invariant s == [] ==> f.pos == |content|
      decreases |content| - f.pos + |s|
    {
      h.Update(s);
      s := f.Read(ChunkSize);
    }
    assert content[..|content|] == content;
    hex := h.HexDigest(md5);
  }

  // ----- calculateUID -----

  /** `f.seek(-128, 2); f.read(3) == "TAG"`: an ID3v1 trailer. */
  predicate HasId3v1(b: seq<bv8>)
    requires |b| >= 128
  {
    b[|b| - 128] == 0x54 && b[|b| - 127] == 0x41 && b[|b| - 126] == 0x47
  }

  /** `f.read(3) == "ID3"` at offset 0: an ID3v2 header. */
  predicate HasId3v2(b: seq<bv8>) {
    |b| >= 3 && b[0] == 0x49 && b[1] == 0x44 && b[2] == 0x33
  }

  /** `(bs[0] << 21) + (bs[1] << 14) + (bs[2] << 7) + bs[3]` on Python
      integers: the high bit of each byte is not masked off. */
  function BodySize(b0: bv8, b1: bv8, b2: bv8, b3: bv8): nat {
    b0 as nat * 0x20_0000 + b1 as nat * 0x4000 + b2 as nat * 0x80 + b3 as nat
  }

  /** The `[start, finish)` range `calculateUID` hashes. */
  datatype Span = Span(start: nat, finish: nat)

  /** `finish` is the size, less 128 when an ID3v1 trailer is present.
      `start` is 0, or, after `ID3`, the position reached by reading the
      flags byte at offset 3 and the four size bytes at offsets 4 to 7,
      seeking over the body, and over a 10-byte footer when bit 4 of the
      flags is set. A file shorter than 128 bytes makes `seek(-128, 2)` fail,
      hence the precondition. */
  function HashedSpan(b: seq<bv8>): (sp: Span)
    requires |b| >= 128
    ensures HasId3v1(b) <==> sp.finish == |b| - 128
    ensures !HasId3v1(b) <==> sp.finish == |b|
    ensures HasId3v2(b) <==> sp.start >= 8
    ensures !HasId3v2(b) ==> sp.start == 0
  {
    var finish := if HasId3v1(b) then |b| - 128 else |b|;
    var start :=
      if HasId3v2(b) then 8 + BodySize(b[4], b[5], b[6], b[7]) + (if b[3] & 0x10 != 0 then 10 else 0)
      else 0;
    Span(start, finish)
  }

  /** `calculateUID` returns a digest exactly when `f.seek(-128, 2)` succeeds;
      on a shorter file it raises `IOError`. */
  predicate UidDefined(b: seq<bv8>) {
    |b| >= 128
  }

  /** `f.seek(start); f.read(finish - start)`: a plain read of the range when
      it is not reversed; a negative count reads to the end of the file, and
      nothing is left to read past the end. */
  function ReadSpan(b: seq<bv8>, sp: Span): (r: seq<bv8>)
    requires sp.finish <= |b|
    ensures sp.start <= sp.finish ==> |r| == sp.finish - sp.start && r == b[sp.start..][..|r|]
    ensures sp.start > sp.finish ==> |r| <= |b| && r == b[|b| - |r|..] && (sp.start <= |b| ==> |r| == |b| - sp.start)
  {
    if sp.start <= sp.finish then b[sp.start..sp.finish]
    else if sp.start <= |b| then b[sp.start..]
    else []
  }

  /** The bytes `calculateUID` feeds to the hasher. */
  function HashedBytes(b: seq<bv8>): seq<bv8>
    requires UidDefined(b)
  {
    ReadSpan(b, HashedSpan(b))
  }

  /** `calculateUID(filepath)` for a file with contents `b`. */
  function CalculateUid(b: seq<bv8>, md5: Md5): Hex32
    requires UidDefined(b)
  {
    md5(HashedBytes(b))
  }

  /** The size bytes `[0, 0, 2, 1]` stand for a body of 257 bytes. */
  lemma SizeOf257()
    ensures BodySize(0, 0, 2, 1) == 257
  {
  }

  /** The synchsafe decoding of section 6.2 of the ID3v2.4.0 structure
      document, which masks the high bit of every byte. */
  function SynchsafeSize(b0: bv8, b1: bv8, b2: bv8, b3: bv8): nat {
    BodySize(b0 & 0x7f, b1 & 0x7f, b2 & 0x7f, b3 & 0x7f)
  }

  /** The code agrees with the synchsafe decoding on bytes whose high bit is
      clear, and reads a larger size otherwise. */
  lemma BodySizeVersusSynchsafe(b0: bv8, b1: bv8, b2: bv8, b3: bv8)
    ensures b0 < 0x80 && b1 < 0x80 && b2 < 0x80 && b3 < 0x80 ==> BodySize(b0, b1, b2, b3) == SynchsafeSize(b0, b1, b2, b3)
    ensures !(b0 < 0x80 && b1 < 0x80 && b2 < 0x80 && b3 < 0x80) ==> BodySize(b0, b1, b2, b3) > SynchsafeSize(b0, b1, b2, b3)
  {
    MaskBelow(b0);
    MaskBelow(b1);
    MaskBelow(b2);
    MaskBelow(b3);
  }

  lemma MaskBelow(b: bv8)
    ensures b < 0x80 ==> b & 0x7f == b
    ensures b >= 0x80 ==> (b & 0x7f) as nat == b as nat - 0x80
  {
  }

  /** With neither tag present the whole file is hashed. */
  lemma UntaggedFileHashedWhole(b: seq<bv8>)
    requires |b| >= 128 && !HasId3v1(b) && !HasId3v2(b)
    ensures UidDefined(b) && HashedBytes(b) == b
  {
    assert b[0..][..|b|] == b;
  }

  /** A leading tag laid out as the code reads it: `ID3`, a flags byte, the
      four size bytes, the body and, when bit 4 of the flags is set, a
      10-byte footer. */
  function LeadingTag(flags: bv8, size: seq<bv8>, body: seq<bv8>, footer: seq<bv8>): seq<bv8> {
    [0x49, 0x44, 0x33, flags] + size + body + footer
  }

  /** The shape the code expects: four size bytes that decode to the body
      length, and a footer exactly when bit 4 of the flags is set. */
  predicate TagLayout(flags: bv8, size: seq<bv8>, body: seq<bv8>, footer: seq<bv8>) {
    |size| == 4 && BodySize(size[0], size[1], size[2], size[3]) == |body| &&
    |footer| == if flags & 0x10 != 0 then 10 else 0
  }

  /** Prepending such a tag to an untagged-at-the-front audio stream does not
      change the tag-skipping checksum. */
  lemma LeadingTagSkipped(flags: bv8, size: seq<bv8>, body: seq<bv8>, footer: seq<bv8>, audio: seq<bv8>, md5: Md5)
    requires TagLayout(flags, size, body, footer)
    requires |audio| >= 128 && !HasId3v2(audio)
    ensures UidDefined(LeadingTag(flags, size, body, footer) + audio)
    ensures CalculateUid(LeadingTag(flags, size, body, footer) + audio, md5) == CalculateUid(audio, md5)
  {
    var tag := LeadingTag(flags, size, body, footer);
    var b := tag + audio;
    LeadingTagStart(flags, size, body, footer, audio);
    SameTrailer(tag, audio);
    var fa := HashedSpan(audio).finish;
    assert HashedSpan(b) == Span(|tag|, |tag| + fa);
    assert HashedSpan(audio) == Span(0, fa);
    assert b[|tag|..] == audio;
    assert HashedBytes(b) == audio[..fa] == HashedBytes(audio) by {
      assert audio[0..] == audio;
    }
  }

  lemma LeadingTagStart(flags: bv8, size: seq<bv8>, body: seq<bv8>, footer: seq<bv8>, audio: seq<bv8>)
    requires TagLayout(flags, size, body, footer)
    requires |audio| >= 128
    ensures HashedSpan(LeadingTag(flags, size, body, footer) + audio).start == |LeadingTag(flags, size, body, footer)|
  {
    var tag := LeadingTag(flags, size, body, footer);
    var b := tag + audio;
    var sz := size;
    var head: seq<bv8> := [0x49, 0x44, 0x33, flags] + sz;
    assert tag == head + body + footer;
    assert b[..8] == head by {
      assert b[..|tag|] == tag;
    }
    assert b[0] == 0x49 && b[1] == 0x44 && b[2] == 0x33 && b[3] == flags by {
      assert b[..8][0] == b[0] && b[..8][1] == b[1] && b[..8][2] == b[2] && b[..8][3] == b[3];
    }
    assert b[4] == sz[0] && b[5] == sz[1] && b[6] == sz[2] && b[7] == sz[3] by {
      assert b[..8][4] == b[4] && b[..8][5] == b[5] && b[..8][6] == b[6] && b[..8][7] == b[7];
    }
    TaggedStart(b, |body|, |footer|);
  }

  /** Prepending bytes leaves the ID3v1 test of a long enough file alone. */
  lemma SameTrailer(front: seq<bv8>, audio: seq<bv8>)
    requires |audio| >= 128
    ensures var b := front + audio;
      HasId3v1(b) == HasId3v1(audio) &&
      HashedSpan(b).finish == |front| + HashedSpan(audio).finish
  {
    var b := front + audio;
    assert b[|b| - 128] == audio[|audio| - 128];
    assert b[|b| - 127] == audio[|audio| - 127];
    assert b[|b| - 126] == audio[|audio| - 126];
  }

  /** Where hashing starts once the header bytes are known. */
  lemma TaggedStart(b: seq<bv8>, bodyLen: nat, footerLen: nat)
    requires |b| >= 128 && HasId3v2(b)
    requires BodySize(b[4], b[5], b[6], b[7]) == bodyLen
    requires footerLen == if b[3] & 0x10 != 0 then 10 else 0
    ensures HashedSpan(b).start == 8 + bodyLen + footerLen
  {
  }

  /** Two files that differ only inside their ID3v1 trailers have the same
      tag-skipping checksum, as long as the hashed range is not reversed (a
      reversed range is read to the end of the file, trailer included). */
  lemma TrailerContentsIgnored(b1: seq<bv8>, b2: seq<bv8>, md5: Md5)
    requires |b1| == |b2| >= 128
    requires b1[..|b1| - 128] == b2[..|b2| - 128]
    requires HasId3v1(b1) && HasId3v1(b2)
    requires HashedSpan(b1).start <= HashedSpan(b1).finish
    ensures UidDefined(b2) && CalculateUid(b1, md5) == CalculateUid(b2, md5)
  {
    var n := |b1|;
    if n >= 136 {
      assert forall k :: 0 <= k < 8 ==> b1[k] == b1[..n - 128][k] == b2[..n - 128][k] == b2[k];
    } else {
      // A leading tag would put the start at 8 or later, past the trailer.
      assert !HasId3v2(b1);
      if n >= 131 {
        assert forall k :: 0 <= k < 3 ==> b1[k] == b1[..n - 128][k] == b2[..n - 128][k] == b2[k];
      } else {
        // The trailer's `T` sits at offset 0, 1 or 2, where `ID3` would be.
        assert b2[n - 128] == 0x54;
      }
      assert !HasId3v2(b2);
    }
    assert HashedSpan(b1) == HashedSpan(b2);
    var sp := HashedSpan(b1);
    assert b1[sp.start..sp.finish] == b1[..n - 128][sp.start..sp.finish];
    assert b2[sp.start..sp.finish] == b2[..n - 128][sp.start..sp.finish];
  }

  /** The range section 3.1 of the ID3v2.4.0 structure document prescribes:
      after `ID3` come two version bytes, the flags at offset 5 (bit 4: a
      10-byte footer follows the body) and the synchsafe body size at offsets
      6 to 9, so the tag ends 10 bytes past the body, 20 with a footer. */
  function StandardSpan(b: seq<bv8>): (sp: Span)
    requires |b| >= 128
    ensures sp.finish == HashedSpan(b).finish
    ensures HasId3v2(b) <==> sp.start >= 10
    ensures !HasId3v2(b) ==> sp == HashedSpan(b)
  {
    var start :=
      if HasId3v2(b) then 10 + SynchsafeSize(b[6], b[7], b[8], b[9]) + (if b[5] & 0x10 != 0 then 10 else 0)
      else 0;
    Span(start, HashedSpan(b).finish)
  }

  /** `calculateUID` reading the header at those offsets. */
  function StandardUid(b: seq<bv8>, md5: Md5): Hex32
    requires UidDefined(b)
  {
    md5(ReadSpan(b, StandardSpan(b)))
  }

  /** A standard leading tag: `ID3`, the version, the flags, the four
      synchsafe size bytes, the body and the footer. */
  function StandardTag(version: seq<bv8>, flags: bv8, size: seq<bv8>, body: seq<bv8>, footer: seq<bv8>): seq<bv8> {
    [0x49, 0x44, 0x33] + version + [flags] + size + body + footer
  }

  /** Two version bytes, four size bytes whose synchsafe value is the body
      length, and a footer exactly when bit 4 of the flags is set. */
  predicate StandardLayout(version: seq<bv8>, flags: bv8, size: seq<bv8>, body: seq<bv8>, footer: seq<bv8>) {
    |version| == 2 && |size| == 4 && SynchsafeSize(size[0], size[1], size[2], size[3]) == |body| &&
    |footer| == if flags & 0x10 != 0 then 10 else 0
  }

  /** Read at the standard offsets, hashing starts right after a standard
      tag. */
  lemma StandardTagStart(version: seq<bv8>, flags: bv8, size: seq<bv8>, body: seq<bv8>, footer: seq<bv8>, audio: seq<bv8>)
    requires StandardLayout(version, flags, size, body, footer)
    requires |audio| >= 128
    ensures StandardSpan(StandardTag(version, flags, size, body, footer) + audio).start == |StandardTag(version, flags, size, body, footer)|
  {
    var tag := StandardTag(version, flags, size, body, footer);
    var b := tag + audio;
    var head: seq<bv8> := [0x49, 0x44, 0x33] + version + [flags] + size;
    assert |head| == 10;
    assert tag == head + body + footer;
    assert b[..10] == head by {
      assert b[..|tag|] == tag;
    }
    assert b[0] == 0x49 && b[1] == 0x44 && b[2] == 0x33 && b[5] == flags by {
      assert b[..10][0] == b[0] && b[..10][1] == b[1] && b[..10][2] == b[2] && b[..10][5] == b[5];
    }
    assert b[6] == size[0] && b[7] == size[1] && b[8] == size[2] && b[9] == size[3] by {
      assert b[..10][6] == b[6] && b[..10][7] == b[7] && b[..10][8] == b[8] && b[..10][9] == b[9];
    }
  }

  /** With the header read at the standard offsets, prepending a standard
      tag to untagged-at-the-front audio leaves the checksum unchanged:
      editing the tag cannot change it. */
  lemma StandardTagSkipped(version: seq<bv8>, flags: bv8, size: seq<bv8>, body: seq<bv8>, footer: seq<bv8>, audio: seq<bv8>, md5: Md5)
    requires StandardLayout(version, flags, size, body, footer)
    requires |audio| >= 128 && !HasId3v2(audio)
    ensures UidDefined(StandardTag(version, flags, size, body, footer) + audio)
    ensures StandardUid(StandardTag(version, flags, size, body, footer) + audio, md5) == StandardUid(audio, md5)
  {
    var tag := StandardTag(version, flags, size, body, footer);
    var b := tag + audio;
    StandardTagStart(version, flags, size, body, footer, audio);
    SameTrailer(tag, audio);
    var fa := HashedSpan(audio).finish;
    assert StandardSpan(b) == Span(|tag|, |tag| + fa);
    assert StandardSpan(audio) == Span(0, fa);
    assert b[|tag|..] == audio;
    assert ReadSpan(b, StandardSpan(b)) == audio[..fa] == ReadSpan(audio, StandardSpan(audio)) by {
      assert audio[0..] == audio;
    }
  }

  /** Any header of a major version below 16 with minor version 0, no flags
      and a body under 2^14 bytes (first two synchsafe size bytes zero) is
      misread: the code takes the major version for the flags and the minor
      version, the flags and the first two size bytes for its size bytes,
      reads a body of 0 bytes, and starts hashing at offset 8, inside the
      header, instead of after the tag. Section 3.1 of the ID3v2.4.0
      structure document gives the 10-byte header this layout. */
  lemma StandardHeaderMisread(b: seq<bv8>)
    requires |b| >= 128 && HasId3v2(b)
    requires b[3] < 0x10 && b[4] == 0 && b[5] == 0 && b[6] == 0 && b[7] == 0 && b[8] < 0x80 && b[9] < 0x80
    ensures HashedSpan(b).start == 8
    ensures StandardSpan(b).start == 10 + b[8] as nat * 0x80 + b[9] as nat
  {
    assert b[3] & 0x10 == 0;
    MaskBelow(b[8]);
    MaskBelow(b[9]);
  }

  /** The example of a version 4.0 header with a 257-byte body: hashing
      starts at 8 instead of 267. */
  lemma Version4HeaderMisread(rest: seq<bv8>)
    requires |rest| >= 267
    ensures var b := [0x49, 0x44, 0x33, 0x04, 0x00, 0x00, 0x00, 0x00, 0x02, 0x01] + rest;
      HashedSpan(b).start == 8 && StandardSpan(b).start == 267
  {
    var b: seq<bv8> := [0x49, 0x44, 0x33, 0x04, 0x00, 0x00, 0x00, 0x00, 0x02, 0x01] + rest;
    assert b[..10] == [0x49, 0x44, 0x33, 0x04, 0x00, 0x00, 0x00, 0x00, 0x02, 0x01];
    assert b[0] == 0x49 && b[1] == 0x44 && b[2] == 0x33 && b[3] == 0x04 && b[4] == 0;
    assert b[5] == 0 && b[6] == 0 && b[7] == 0 && b[8] == 2 && b[9] == 1;
    StandardHeaderMisread(b);
  }

  /** `calc_sum` / `calcsum` before their error handling: the tag-skipping
      checksum for `.mp3` files in MP3 mode, the whole-file digest otherwise. */
  function FileDigest(filepath: string, content: seq<bv8>, mp3mode: bool, md5: Md5): Hex32
    requires mp3mode && EndsWith(filepath, ".mp3") ==> UidDefined(content)
  {
    if mp3mode && EndsWith(filepath, ".mp3") then CalculateUid(content, md5) else md5(content)
  }

  /** MP3 mode changes nothing for a file that carries neither tag. */
  lemma Mp3ModeAgreesOnUntaggedFiles(filepath: string, content: seq<bv8>, md5: Md5)
    requires |content| >= 128 && !HasId3v1(content) && !HasId3v2(content)
    ensures UidDefined(content)
    ensures FileDigest(filepath, content, true, md5) == FileDigest(filepath, content, false, md5)
  {
    UntaggedFileHashedWhole(content);
  }
}
