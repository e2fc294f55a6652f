/** The directory lister casdir: a scan over the CAS image in 8-byte chunks
    with a small state machine that remembers what the previous file header
    announced, printing one line per file.

    Directory is the listing as a function of the image; ListDirectory is the
    scanning loop itself, reading through a reused 10-byte buffer and a 6-byte
    file name buffer, proved to produce exactly that listing.
 */
module CasDir {
  import opened CasFormat

  /** What the lister expects behind the next HEADER. */
  datatype Next = NextNone | NextAscii | NextBinary | NextData

  /** A 6-byte MSX file name. */
  type Name = s: seq<bv8> | |s| == 6 witness [0, 0, 0, 0, 0, 0]

  /** One printed line: a file with its kind, the load addresses of a binary
      file, or the offset of a file of unknown type. */
  datatype Entry =
    | AsciiEntry(name: seq<bv8>)
    | BasicEntry(name: seq<bv8>)
    | BinaryEntry(name: seq<bv8>, start: nat, stop: nat, exec: nat)
    | CustomEntry(offset: nat)

  /** The characters a `%.6s` conversion prints from a 6-byte name: those before the first NUL. */
  function Printed(name: seq<bv8>): (r: seq<bv8>)
    ensures |r| <= |name| && r == name[..|r|] && 0 !in r
    ensures |r| < |name| ==> name[|r|] == 0
  {
    if name == [] || name[0] == 0 then [] else [name[0]] + Printed(name[1..])
  }

  /** The lister between two chunks: the read offset in the image, the
      `position` counter, the expected block and the file name buffer. */
  datatype Scan = Scan(cur: nat, position: nat, next: Next, filename: Name)

  /** A read into a buffer holding `prior`: the bytes read replace a prefix
      of it, the rest keeps its contents. */
  function Overwrite(got: seq<bv8>, prior: seq<bv8>): (r: seq<bv8>)
    requires |got| <= |prior|
    ensures |r| == |prior| && r[..|got|] == got && r[|got|..] == prior[|got|..]
  {
    got + prior[|got|..]
  }

  // ---------------------------------------------------------------------------
  // The listing as a function of the image

  /** The skip over ASCII data: whole chunks are consumed, up to and including
      the first one holding 0x1A; returns the read offset and the counter. */
  function SkipAscii(cas: seq<bv8>, cur: nat, position: nat): (r: (nat, nat))
    ensures r.0 >= cur
    decreases if cur <= |cas| then |cas| - cur else 0
  {
    var chunk := ReadAt(cas, cur, 8);
    if |chunk| == 8 && EOF_MARKER !in chunk then SkipAscii(cas, cur + 8, position + 8)
    else (cur + |chunk|, position + 8)
  }

  /** A HEADER while no block is expected: the file header behind it. A known
      type marker is followed by the file name; an unknown one is reported by
      its offset and the read backs up 2 bytes. */
  function FileHeader(cas: seq<bv8>, s: Scan): (r: (Scan, seq<Entry>))
    ensures r.0.cur >= s.cur
    ensures |r.1| <= 1
  {
    var marker := ReadAt(cas, s.cur, 10);
    if |marker| != 10 then (s.(cur := s.cur + |marker|), [])
    else if marker == ASCII_MARKER || marker == BIN_MARKER || marker == BASIC_MARKER then
      NamedFile(cas, s.(cur := s.cur + 10), marker)
    else (s.(cur := s.cur + 8, position := s.position + 8), [CustomEntry(s.position)])
  }

  /** The file name behind a known type marker: ASCII and BASIC files are
      printed at once, a binary file waits for its address block. */
  function NamedFile(cas: seq<bv8>, s: Scan, marker: seq<bv8>): (r: (Scan, seq<Entry>))
    ensures r.0.cur >= s.cur
    ensures |r.1| <= 1
  {
    var got := ReadAt(cas, s.cur, 6);
    var name: Name := Overwrite(got, s.filename);
    var after := Scan(s.cur + |got|, s.position + 16, NextNone, name);
    if marker == ASCII_MARKER then (after.(next := NextAscii), [AsciiEntry(Printed(name))])
    else if marker == BIN_MARKER then (after.(next := NextBinary), [])
    else (after.(next := NextData), [BasicEntry(Printed(name))])
  }

  /** The address block behind the HEADER that follows a binary file header:
      start, stop and exec as little-endian 16-bit fields, exec 0 shown as start. */
  function BinaryInfo(cas: seq<bv8>, s: Scan): (r: (Scan, seq<Entry>))
    ensures r.0.cur >= s.cur
    ensures |r.1| <= 1
  {
    var info := ReadAt(cas, s.cur, 8);
    if |info| == 8 then
      var start := Le16(info[0], info[1]);
      var exec := Le16(info[4], info[5]);
      (s.(cur := s.cur + 8, position := s.position + 8, next := NextNone),
       [BinaryEntry(Printed(s.filename), start, Le16(info[2], info[3]), if exec == 0 then start else exec)])
    else (s.(cur := s.cur + |info|), [])
  }

  /** What a HEADER does, by the expected block. */
  function HeaderStep(cas: seq<bv8>, s: Scan): (r: (Scan, seq<Entry>))
    ensures r.0.cur >= s.cur
    ensures |r.1| <= 1
  {
    match s.next
    case NextNone => FileHeader(cas, s)
    case NextAscii =>
      var skip := SkipAscii(cas, s.cur, s.position);
      (s.(cur := skip.0, position := skip.1, next := NextNone), [])
    case NextBinary => BinaryInfo(cas, s)
    case NextData => (s.(next := NextNone), [])
  }

  /** One pass of the scanning loop, which reads the 8-byte chunk at `cur`. */
  function DirStep(cas: seq<bv8>, s: Scan): (r: (Scan, seq<Entry>))
    requires s.cur + 8 <= |cas|
    ensures r.0.cur >= s.cur + 8
    ensures |r.1| <= 1
  {
    var s' := s.(cur := s.cur + 8, position := s.position + 8);
    if HeaderAt(cas, s.cur) then HeaderStep(cas, s') else (s', [])
  }

  /** The listing printed from state `s` on, until a full chunk can no longer
      be read; at most one line per 8 bytes of the image. */
  function Directory(cas: seq<bv8>, s: Scan): (r: seq<Entry>)
    ensures r != [] ==> s.cur + 8 * |r| <= |cas|
    decreases if s.cur <= |cas| then |cas| - s.cur else 0
  {
    if s.cur + 8 > |cas| then []
    else
      var step := DirStep(cas, s);
      step.1 + Directory(cas, step.0)
  }

  /** The state the lister starts in; `name0` stands for the uninitialised file name buffer. */
  function Start(name0: Name): Scan
  {
    Scan(0, 0, NextNone, name0)
  }

  // ---------------------------------------------------------------------------
  // Properties of the listing

  /** The ASCII skip consumes whole chunks and stops right after the first one
      holding 0x1A, or at the end of the image; HEADERs in between are ignored. */
  lemma {:induction false} SkipAsciiStops(cas: seq<bv8>, cur: nat, position: nat)
    ensures var r := SkipAscii(cas, cur, position);
      (r.0 + 8 <= |cas| ==>
        r.0 >= cur + 8 && (r.0 - cur) % 8 == 0 && r.1 == position + (r.0 - cur) &&
        EOF_MARKER in ReadAt(cas, r.0 - 8, 8)) &&
      (forall k :: cur <= k && k + 8 < r.0 && (k - cur) % 8 == 0 ==> EOF_MARKER !in ReadAt(cas, k, 8))
    decreases if cur <= |cas| then |cas| - cur else 0
  {
    var chunk := ReadAt(cas, cur, 8);
    if |chunk| == 8 && EOF_MARKER !in chunk {
      SkipAsciiStops(cas, cur + 8, position + 8);
      var r := SkipAscii(cas, cur, position);
      forall k | cur <= k && k + 8 < r.0 && (k - cur) % 8 == 0
        ensures EOF_MARKER !in ReadAt(cas, k, 8)
      {
        if k != cur {
          assert cur + 8 <= k && (k - (cur + 8)) % 8 == 0;
        }
      }
    }
  }

  /** Between steps the counter equals the read offset and both are multiples
      of 8, as long as a full chunk can still be read. */
  predicate Aligned(cas: seq<bv8>, s: Scan)
  {
    s.cur + 8 <= |cas| ==> s.cur % 8 == 0 && s.position == s.cur
  }

  /** Every chunk compared with HEADER starts at a multiple of 8: a known file
      header takes 8 + 10 + 6 bytes, an unknown one 8 + 10 - 2, the address
      block of a binary file 8 + 8, the ASCII skip whole chunks. */
  lemma DirStepAligned(cas: seq<bv8>, s: Scan)
    requires s.cur + 8 <= |cas| && Aligned(cas, s)
    ensures Aligned(cas, DirStep(cas, s).0)
  {
    var s' := s.(cur := s.cur + 8, position := s.position + 8);
    if HeaderAt(cas, s.cur) {
      assert DirStep(cas, s) == HeaderStep(cas, s');
      match s.next
      case NextNone => FileHeaderAligned(cas, s');
      case NextAscii => SkipAsciiAligned(cas, s');
      case NextBinary => BinaryInfoAligned(cas, s');
      case NextData =>
    }
  }

  lemma SkipAsciiAligned(cas: seq<bv8>, s: Scan)
    requires s.cur % 8 == 0 && s.position == s.cur && s.next == NextAscii
    ensures Aligned(cas, HeaderStep(cas, s).0)
  {
    SkipAsciiStops(cas, s.cur, s.position);
  }

  lemma BinaryInfoAligned(cas: seq<bv8>, s: Scan)
    requires s.cur % 8 == 0 && s.position == s.cur
    ensures Aligned(cas, BinaryInfo(cas, s).0)
  {
  }

  lemma FileHeaderAligned(cas: seq<bv8>, s: Scan)
    requires s.cur % 8 == 0 && s.position == s.cur
    ensures Aligned(cas, FileHeader(cas, s).0)
  {
    var marker := ReadAt(cas, s.cur, 10);
    if |marker| == 10 && (marker == ASCII_MARKER || marker == BIN_MARKER || marker == BASIC_MARKER) {
      var got := ReadAt(cas, s.cur + 10, 6);
      var r := FileHeader(cas, s).0;
      assert r.cur == s.cur + 10 + |got| && r.position == s.position + 16;
      assert r.cur + 8 <= |cas| ==> |got| == 6;
    }
  }

  /** What a HEADER at offset `h` shows when it yields entry `e`. */
  predicate EntryAt(cas: seq<bv8>, h: nat, e: Entry)
  {
    HeaderAt(cas, h) && h % 8 == 0 &&
    match e
    case AsciiEntry(name) =>
      h + 18 <= |cas| && cas[h + 8..h + 18] == ASCII_MARKER &&
      (h + 24 <= |cas| ==> name == Printed(cas[h + 18..h + 24]))
    case BasicEntry(name) =>
      h + 18 <= |cas| && cas[h + 8..h + 18] == BASIC_MARKER &&
      (h + 24 <= |cas| ==> name == Printed(cas[h + 18..h + 24]))
    case BinaryEntry(_, start, stop, exec) =>
      h + 16 <= |cas| && start == Le16(cas[h + 8], cas[h + 9]) && stop == Le16(cas[h + 10], cas[h + 11]) &&
      exec == (if Le16(cas[h + 12], cas[h + 13]) == 0 then start else Le16(cas[h + 12], cas[h + 13]))
    case CustomEntry(offset) =>
      offset == h + 8 && h + 18 <= |cas| &&
      cas[h + 8..h + 18] != ASCII_MARKER && cas[h + 8..h + 18] != BIN_MARKER && cas[h + 8..h + 18] != BASIC_MARKER
  }

  /** A step prints only for a HEADER at its own offset, and what it prints is read from behind it. */
  lemma DirStepEntries(cas: seq<bv8>, s: Scan)
    requires s.cur + 8 <= |cas| && Aligned(cas, s)
    ensures forall e :: e in DirStep(cas, s).1 ==> EntryAt(cas, s.cur, e)
  {
    var h := s.cur;
    if HeaderAt(cas, h) && s.next == NextNone && h + 18 <= |cas| {
      var marker := cas[h + 8..h + 18];
      assert ReadAt(cas, h + 8, 10) == marker;
      if h + 24 <= |cas| {
        assert ReadAt(cas, h + 18, 6) == cas[h + 18..h + 24];
      }
    }
  }

  lemma {:induction false} DirectoryEntries(cas: seq<bv8>, s: Scan)
    requires Aligned(cas, s)
    ensures forall e :: e in Directory(cas, s) ==> exists h :: EntryAt(cas, h, e)
    decreases if s.cur <= |cas| then |cas| - s.cur else 0
  {
    if s.cur + 8 <= |cas| {
      var step := DirStep(cas, s);
      DirStepEntries(cas, s);
      DirStepAligned(cas, s);
      DirectoryEntries(cas, step.0);
      forall e | e in Directory(cas, s)
        ensures exists h :: EntryAt(cas, h, e)
      {
        if e in step.1 {
          assert EntryAt(cas, s.cur, e);
        }
      }
    }
  }

  /** Every printed line is backed by a HEADER at a multiple of 8 and shows
      what follows it: the marker and name of an ASCII or BASIC file, the
      addresses of a binary file (exec 0 shown as start), or for an unknown
      type the offset of its marker. */
  lemma ListingWitnessed(cas: seq<bv8>, name0: Name)
    ensures forall e :: e in Directory(cas, Start(name0)) ==> exists h :: EntryAt(cas, h, e)
    ensures forall e :: e in Directory(cas, Start(name0)) && e.BinaryEntry? && e.exec == 0 ==> e.start == 0
    ensures forall e :: e in Directory(cas, Start(name0)) && e.BinaryEntry? ==> exists g: nat, h: nat :: BinaryLineFrom(cas, g, h, e)
  {
    DirectoryEntries(cas, Start(name0));
    DirectoryBinaryLines(cas, Start(name0));
  }

  /** A binary file header at a multiple of 8: HEADER, the BIN marker and a whole 6-byte name. */
  predicate BinaryHeaderAt(cas: seq<bv8>, g: nat)
  {
    HeaderAt(cas, g) && g % 8 == 0 && g + 24 <= |cas| && cas[g + 8..g + 18] == BIN_MARKER
  }

  /** While the address block of a binary file is awaited and a chunk can still
      be read, the name buffer holds the name read behind an earlier BIN header. */
  ghost predicate BinaryNamed(cas: seq<bv8>, s: Scan)
  {
    s.next == NextBinary && s.cur + 8 <= |cas| ==>
      exists g: nat :: BinaryHeaderAt(cas, g) && g + 24 <= s.cur && s.filename == cas[g + 18..g + 24]
  }

  /** Binary line `e`, printed for the HEADER at `h`, names the file whose BIN header is at `g`, before `h`. */
  predicate BinaryLineFrom(cas: seq<bv8>, g: nat, h: nat, e: Entry)
  {
    e.BinaryEntry? && EntryAt(cas, h, e) && BinaryHeaderAt(cas, g) && g + 24 <= h &&
    e.name == Printed(cas[g + 18..g + 24])
  }

  /** A HEADER followed by the BIN marker prints nothing: the lister keeps the
      name it read and waits for the address block behind the next HEADER. */
  lemma BinaryHeaderQuiet(cas: seq<bv8>, s: Scan)
    requires s.cur + 18 <= |cas| && s.next == NextNone
    requires HeaderAt(cas, s.cur) && cas[s.cur + 8..s.cur + 18] == BIN_MARKER
    ensures DirStep(cas, s).1 == [] && DirStep(cas, s).0.next == NextBinary
    ensures s.cur + 24 <= |cas| ==> DirStep(cas, s).0.filename == cas[s.cur + 18..s.cur + 24]
  {
    assert ReadAt(cas, s.cur + 8, 10) == BIN_MARKER;
    if s.cur + 24 <= |cas| {
      assert ReadAt(cas, s.cur + 18, 6) == cas[s.cur + 18..s.cur + 24];
    }
  }

  /** Every pass keeps the name buffer tied to the BIN header that set it. */
  lemma DirStepBinaryNamed(cas: seq<bv8>, s: Scan)
    requires s.cur + 8 <= |cas| && Aligned(cas, s) && BinaryNamed(cas, s)
    ensures BinaryNamed(cas, DirStep(cas, s).0)
  {
    var r := DirStep(cas, s).0;
    if r.next == NextBinary && r.cur + 8 <= |cas| {
      var h := s.cur;
      if HeaderAt(cas, h) && s.next == NextNone {
        var marker := ReadAt(cas, h + 8, 10);
        assert |marker| == 10 && marker == BIN_MARKER;
        var got := ReadAt(cas, h + 18, 6);
        assert r.cur == h + 18 + |got| && r.filename == Overwrite(got, s.filename);
        assert |got| == 6;
        assert marker == cas[h + 8..h + 18] && got == cas[h + 18..h + 24];
        assert BinaryHeaderAt(cas, h) && h + 24 <= r.cur && r.filename == cas[h + 18..h + 24];
      } else {
        assert s.next == NextBinary && r.filename == s.filename && s.cur <= r.cur;
        var g: nat :| BinaryHeaderAt(cas, g) && g + 24 <= s.cur && s.filename == cas[g + 18..g + 24];
        assert BinaryHeaderAt(cas, g) && g + 24 <= r.cur && r.filename == cas[g + 18..g + 24];
      }
    }
  }

  /** A file header never prints a binary line: that waits for the address block. */
  lemma FileHeaderNoBinaryLine(cas: seq<bv8>, s: Scan)
    ensures forall e :: e in FileHeader(cas, s).1 ==> !e.BinaryEntry?
  {
  }

  /** The address block prints its line under the name already in the buffer. */
  lemma BinaryInfoName(cas: seq<bv8>, s: Scan)
    ensures forall e :: e in BinaryInfo(cas, s).1 ==> e.BinaryEntry? && e.name == Printed(s.filename)
  {
  }

  /** A pass prints a binary line only in the NEXT_BINARY state, under the name the BIN header left. */
  lemma DirStepBinaryLines(cas: seq<bv8>, s: Scan)
    requires s.cur + 8 <= |cas| && Aligned(cas, s) && BinaryNamed(cas, s)
    ensures forall e :: e in DirStep(cas, s).1 && e.BinaryEntry? ==> exists g: nat :: BinaryLineFrom(cas, g, s.cur, e)
  {
    var s' := s.(cur := s.cur + 8, position := s.position + 8);
    if !HeaderAt(cas, s.cur) {
      assert DirStep(cas, s).1 == [];
    } else if s.next == NextBinary {
      assert DirStep(cas, s) == BinaryInfo(cas, s');
      DirStepEntries(cas, s);
      BinaryInfoName(cas, s');
      var g: nat :| BinaryHeaderAt(cas, g) && g + 24 <= s.cur && s.filename == cas[g + 18..g + 24];
      forall e | e in DirStep(cas, s).1 && e.BinaryEntry?
        ensures exists g: nat :: BinaryLineFrom(cas, g, s.cur, e)
      {
        assert BinaryLineFrom(cas, g, s.cur, e);
      }
    } else if s.next == NextNone {
      assert DirStep(cas, s) == FileHeader(cas, s');
      FileHeaderNoBinaryLine(cas, s');
    } else {
      assert DirStep(cas, s).1 == [];
    }
  }

  /** Every binary line of the listing shows the name behind an earlier BIN header. */
  lemma {:induction false} DirectoryBinaryLines(cas: seq<bv8>, s: Scan)
    requires Aligned(cas, s) && BinaryNamed(cas, s)
    ensures forall e :: e in Directory(cas, s) && e.BinaryEntry? ==> exists g: nat, h: nat :: BinaryLineFrom(cas, g, h, e)
    decreases if s.cur <= |cas| then |cas| - s.cur else 0
  {
    if s.cur + 8 <= |cas| {
      var step := DirStep(cas, s);
      DirStepBinaryLines(cas, s);
      DirStepAligned(cas, s);
      DirStepBinaryNamed(cas, s);
      DirectoryBinaryLines(cas, step.0);
      forall e | e in Directory(cas, s) && e.BinaryEntry?
        ensures exists g: nat, h: nat :: BinaryLineFrom(cas, g, h, e)
      {
        if e in step.1 {
          var g: nat :| BinaryLineFrom(cas, g, s.cur, e);
          assert BinaryLineFrom(cas, g, s.cur, e);
        }
      }
    }
  }

  /** An image without a HEADER at any multiple of 8 lists nothing. */
  lemma {:induction false} HeaderFreeListing(cas: seq<bv8>, s: Scan)
    requires Aligned(cas, s)
    requires forall h :: h % 8 == 0 ==> !HeaderAt(cas, h)
    ensures Directory(cas, s) == []
    decreases if s.cur <= |cas| then |cas| - s.cur else 0
  {
    if s.cur + 8 <= |cas| {
      DirStepAligned(cas, s);
      HeaderFreeListing(cas, DirStep(cas, s).0);
    }
  }

  // ---------------------------------------------------------------------------
  // The scanning loop

  /** fread(dst, 1, n, f) at offset `cur`: the bytes that are there, at most
      n, are copied to the front of dst; returns how many. */
  method Read(cas: seq<bv8>, cur: nat, dst: array<bv8>, n: nat) returns (count: nat)
    requires n <= dst.Length
    modifies dst
    ensures count == |ReadAt(cas, cur, n)|
    ensures dst[..] == Overwrite(ReadAt(cas, cur, n), old(dst[..]))
  {
    var got := ReadAt(cas, cur, n);
    count := |got|;
    for i := 0 to count
      invariant forall j :: 0 <= j < i ==> dst[j] == got[j]
      invariant forall j :: i <= j < dst.Length ==> dst[j] == old(dst[j])
    {
      dst[i] := got[i];
    }
    assert dst[..] == Overwrite(got, old(dst[..])) by {
      var r := Overwrite(got, old(dst[..]));
      forall j | 0 <= j < dst.Length
        ensures dst[..][j] == r[j]
      {
        if j < count {
          assert r[..count][j] == got[j];
        } else {
          assert r[count..][j - count] == old(dst[..])[count..][j - count];
        }
      }
    }
  }

  /** After a full read of 8 bytes, the buffer's first 8 bytes are what was read. */
  lemma ChunkRead(cas: seq<bv8>, cur: nat, buffer: seq<bv8>, prior: seq<bv8>)
    requires |prior| == 10 && |ReadAt(cas, cur, 8)| == 8
    requires buffer == Overwrite(ReadAt(cas, cur, 8), prior)
    ensures buffer[..8] == ReadAt(cas, cur, 8) == cas[cur..cur + 8]
  {
  }

  /** The inner loop of the NEXT_ASCII case: skips chunks up to and including
      the first one holding 0x1A, whatever else they hold. */
  method SkipAsciiData(cas: seq<bv8>, buffer: array<bv8>, cur0: nat, position0: nat)
    returns (cur: nat, position: nat)
    requires buffer.Length == 10
    modifies buffer
    ensures (cur, position) == SkipAscii(cas, cur0, position0)
  {
    cur, position := cur0, position0;
    while true
      invariant SkipAscii(cas, cur, position) == SkipAscii(cas, cur0, position0)
      decreases if cur <= |cas| then |cas| - cur else 0
    {
      var from := cur;
      ghost var prior := buffer[..];
      var got := Read(cas, cur, buffer, 8);
      cur := cur + got;
      if got != 8 {
        break;
      }
      ChunkRead(cas, from, buffer[..], prior);
      if EOF_MARKER in buffer[..8] {
        break;
      }
      position := position + 8;
    }
    position := position + 8;
  }

  /** The NEXT_NONE case: the type marker, then the file name or the report of an unknown type. */
  method ReadFileHeader(cas: seq<bv8>, buffer: array<bv8>, filename: array<bv8>, cur0: nat, position0: nat)
    returns (cur: nat, position: nat, next: Next, printed: seq<Entry>)
    requires buffer.Length == 10 && filename.Length == 6 && buffer != filename
    modifies buffer, filename
    ensures filename.Length == 6
    ensures (Scan(cur, position, next, filename[..]), printed) ==
      FileHeader(cas, Scan(cur0, position0, NextNone, old(filename[..])))
  {
    cur, position, next, printed := cur0, position0, NextNone, [];
    var got := Read(cas, cur, buffer, 10);
    cur := cur + got;
    if got == 10 {
      var marker := buffer[..];
      if marker == ASCII_MARKER || marker == BIN_MARKER || marker == BASIC_MARKER {
        cur, position, next, printed := ReadName(cas, filename, marker, cur, position);
      } else {
        printed := [CustomEntry(position)];
        cur := cur - 2;
        position := position + 8;
      }
    }
  }

  /** The file name behind a known marker, read into the name buffer. */
  method ReadName(cas: seq<bv8>, filename: array<bv8>, marker: seq<bv8>, cur0: nat, position0: nat)
    returns (cur: nat, position: nat, next: Next, printed: seq<Entry>)
    requires filename.Length == 6
    modifies filename
    ensures (Scan(cur, position, next, filename[..]), printed) ==
      NamedFile(cas, Scan(cur0, position0, NextNone, old(filename[..])), marker)
  {
    var n := Read(cas, cur0, filename, 6);
    cur := cur0 + n;
    position := position0 + 16;
    printed := [];
    if marker == ASCII_MARKER {
      next := NextAscii;
      printed := [AsciiEntry(Printed(filename[..]))];
    } else if marker == BIN_MARKER {
      next := NextBinary;
    } else {
      next := NextData;
      printed := [BasicEntry(Printed(filename[..]))];
    }
  }

  /** The NEXT_BINARY case: the three addresses, exec replaced by start when it is 0. */
  method ReadBinaryInfo(cas: seq<bv8>, buffer: array<bv8>, filename: array<bv8>, cur0: nat, position0: nat)
    returns (cur: nat, position: nat, next: Next, printed: seq<Entry>)
    requires buffer.Length == 10 && filename.Length == 6 && buffer != filename
    modifies buffer
    ensures (Scan(cur, position, next, filename[..]), printed) ==
      BinaryInfo(cas, Scan(cur0, position0, NextBinary, filename[..]))
  {
    cur, position, next, printed := cur0, position0, NextBinary, [];
    ghost var prior := buffer[..];
    var got := Read(cas, cur, buffer, 8);
    cur := cur + got;
    if got == 8 {
      ChunkRead(cas, cur0, buffer[..], prior);
      if Le16(buffer[4], buffer[5]) == 0 {
        buffer[4], buffer[5] := buffer[0], buffer[1];
      }
      printed := [BinaryEntry(Printed(filename[..]), Le16(buffer[0], buffer[1]),
                              Le16(buffer[2], buffer[3]), Le16(buffer[4], buffer[5]))];
      position := position + 8;
      next := NextNone;
    }
  }

  /** The case analysis after a HEADER, by the expected block. */
  method AfterHeader(cas: seq<bv8>, buffer: array<bv8>, filename: array<bv8>,
                     cur0: nat, position0: nat, next0: Next)
    returns (cur: nat, position: nat, next: Next, printed: seq<Entry>)
    requires buffer.Length == 10 && filename.Length == 6 && buffer != filename
    modifies buffer, filename
    ensures filename.Length == 6
    ensures (Scan(cur, position, next, filename[..]), printed) ==
      HeaderStep(cas, Scan(cur0, position0, next0, old(filename[..])))
  {
    match next0 {
      case NextNone =>
        cur, position, next, printed := ReadFileHeader(cas, buffer, filename, cur0, position0);
      case NextAscii =>
        cur, position := SkipAsciiData(cas, buffer, cur0, position0);
        next, printed := NextNone, [];
      case NextBinary =>
        cur, position, next, printed := ReadBinaryInfo(cas, buffer, filename, cur0, position0);
      case NextData =>
        cur, position, next, printed := cur0, position0, NextNone, [];
    }
  }

  /** One pass of the scanning loop, after its 8-byte read at `cur0` succeeded. */
  method ListChunk(cas: seq<bv8>, buffer: array<bv8>, filename: array<bv8>, cur0: nat, position0: nat, next0: Next)
    returns (cur: nat, position: nat, next: Next, printed: seq<Entry>)
    requires buffer.Length == 10 && filename.Length == 6 && buffer != filename
    requires cur0 + 8 <= |cas| && buffer[..8] == cas[cur0..cur0 + 8]
    modifies buffer, filename
    ensures filename.Length == 6
    ensures (Scan(cur, position, next, filename[..]), printed) ==
      DirStep(cas, Scan(cur0, position0, next0, old(filename[..])))
  {
    cur, position, next, printed := cur0 + 8, position0 + 8, next0, [];
    if buffer[..8] == HEADER {
      cur, position, next, printed := AfterHeader(cas, buffer, filename, cur, position, next);
    }
  }

  /** One step of the listing moves its output to the printed part. */
  lemma DirectoryStep(cas: seq<bv8>, s: Scan, entries: seq<Entry>, all: seq<Entry>)
    requires s.cur + 8 <= |cas| && entries + Directory(cas, s) == all
    ensures (entries + DirStep(cas, s).1) + Directory(cas, DirStep(cas, s).0) == all
  {
    var step := DirStep(cas, s);
    assert entries + Directory(cas, s) == entries + (step.1 + Directory(cas, step.0));
  }

  /** The main loop of casdir: the listing it prints, exactly Directory from
      the start of the image. */
  method ListDirectory(cas: seq<bv8>, name0: Name) returns (entries: seq<Entry>)
    ensures entries == Directory(cas, Start(name0))
  {
    var buffer := new bv8[10];
    var filename := new bv8[6](i requires 0 <= i < 6 => name0[i]);
    assert filename[..] == name0;
    var cur, position, next := 0, 0, NextNone;
    entries := [];
    while true
      invariant buffer.Length == 10 && filename.Length == 6 && buffer != filename
      invariant entries + Directory(cas, Scan(cur, position, next, filename[..])) == Directory(cas, Start(name0))
      decreases if cur <= |cas| then |cas| - cur else 0
    {
      ghost var s := Scan(cur, position, next, filename[..]);
      ghost var prior := buffer[..];
      var got := Read(cas, cur, buffer, 8);
      if got != 8 {
        assert entries + [] == entries;
        break;
      }
      ChunkRead(cas, cur, buffer[..], prior);
      DirectoryStep(cas, s, entries, Directory(cas, Start(name0)));
      var printed;
      cur, position, next, printed := ListChunk(cas, buffer, filename, cur, position, next);
      entries := entries + printed;
    }
  }
}
