/** The CAS container format and the timing constants of the tape signal.

    A CAS image is a plain byte sequence. Every block is preceded by the
    8-byte HEADER delimiter; a file header block starts with a 10-byte type
    marker (one byte value repeated ten times) and a 6-byte file name.
 */
module CasFormat {

  /** The 8-byte block delimiter. */
  const HEADER: seq<bv8> := [0x1F, 0xA6, 0xDE, 0xBA, 0xCC, 0x13, 0x7D, 0x74]

  /** The 10-byte type markers of ASCII, binary and BASIC files. */
  const ASCII_MARKER: seq<bv8> := [0xEA, 0xEA, 0xEA, 0xEA, 0xEA, 0xEA, 0xEA, 0xEA, 0xEA, 0xEA]
  const BIN_MARKER: seq<bv8>   := [0xD0, 0xD0, 0xD0, 0xD0, 0xD0, 0xD0, 0xD0, 0xD0, 0xD0, 0xD0]
  const BASIC_MARKER: seq<bv8> := [0xD3, 0xD3, 0xD3, 0xD3, 0xD3, 0xD3, 0xD3, 0xD3, 0xD3, 0xD3]

  /** The byte that ends an ASCII file. */
  const EOF_MARKER: bv8 := 0x1A

  /** Audio output: 8-bit mono PCM at 43200 samples per second. */
  const OUTPUT_FREQUENCY: nat := 43200
  /** Silence lengths, in samples. */
  const SHORT_SILENCE: nat := OUTPUT_FREQUENCY
  const LONG_SILENCE: nat := OUTPUT_FREQUENCY * 2
  /** The two FSK tones, in Hz: a 0 bit is one long pulse, a 1 bit two short ones. */
  const LONG_PULSE: nat := 1200
  const SHORT_PULSE: nat := 2400
  /** Synchronisation tones, counted in short pulses at 1200 baud. */
  const SYNC_INITIAL: nat := 16000
  const SYNC_BLOCK: nat := 4000
  /** The same tones counted in 1-bits (two short pulses each), as the in-memory API counts them. */
  const SYNC_INITIAL_BITS: nat := 8000
  const SYNC_BLOCK_BITS: nat := 2000
  /** Capacity of the output staging buffer. */
  const WRITE_BUFFER_SIZE: nat := 16384
  /** Silence sample value: zero amplitude with DC bias 128. */
  const SILENCE_SAMPLE: bv8 := 128

  /** The baud rates the tools support. */
  type Baud = b: nat | b == 1200 || b == 2400 witness 1200

  /** The two pulse frequencies writePulse is called with. */
  type Freq = f: nat | f == LONG_PULSE || f == SHORT_PULSE witness LONG_PULSE

  /** True when the 8 bytes at offset `k` can be read and equal HEADER. */
  predicate HeaderAt(cas: seq<bv8>, k: nat)
  {
    k + 8 <= |cas| && cas[k..k + 8] == HEADER
  }

  /** No 8 consecutive bytes of `bs` spell HEADER. */
  predicate ContainsNoHeader(bs: seq<bv8>)
  {
    forall k :: 0 <= k && k + 8 <= |bs| ==> !HeaderAt(bs, k)
  }

  /** The file kinds the converter distinguishes; binary and BASIC files are one kind. */
  datatype FileType = Ascii | Binary | Unknown

  /** Classifies a 10-byte type marker. */
  function IdentifyFileType(marker: seq<bv8>): (t: FileType)
    requires |marker| == 10
    ensures t == Ascii <==> marker == ASCII_MARKER
    ensures t == Binary <==> marker == BIN_MARKER || marker == BASIC_MARKER
    ensures t == Unknown <==> marker != ASCII_MARKER && marker != BIN_MARKER && marker != BASIC_MARKER
  {
    if marker == ASCII_MARKER then Ascii
    else if marker == BIN_MARKER || marker == BASIC_MARKER then Binary
    else Unknown
  }

  /** Ten copies of one byte value. */
  function Uniform(v: bv8): (m: seq<bv8>)
    ensures |m| == 10 && forall i :: 0 <= i < 10 ==> m[i] == v
  {
    seq(10, _ => v)
  }

  /** Every known marker is one byte repeated ten times; a uniform marker is
      classified by its byte alone, and a marker that is not uniform is unknown. */
  lemma ClassifyByMarkerByte(marker: seq<bv8>)
    requires |marker| == 10
    ensures forall v: bv8 :: marker == Uniform(v) ==>
      IdentifyFileType(marker) ==
        (if v == 0xEA then Ascii else if v == 0xD0 || v == 0xD3 then Binary else Unknown)
    ensures (forall v: bv8 :: marker != Uniform(v)) ==> IdentifyFileType(marker) == Unknown
  {
    assert ASCII_MARKER == Uniform(0xEA);
    assert BIN_MARKER == Uniform(0xD0);
    assert BASIC_MARKER == Uniform(0xD3);
    forall v: bv8 | marker == Uniform(v)
      ensures IdentifyFileType(marker) ==
        (if v == 0xEA then Ascii else if v == 0xD0 || v == 0xD3 then Binary else Unknown)
    {
      if v != 0xEA { assert marker[0] != ASCII_MARKER[0]; }
      if v != 0xD0 { assert marker[0] != BIN_MARKER[0]; }
      if v != 0xD3 { assert marker[0] != BASIC_MARKER[0]; }
    }
  }

  /** A little-endian 16-bit field. */
  function Le16(lo: bv8, hi: bv8): (r: nat)
    ensures r < 0x1_0000
    ensures r % 256 == lo as nat && r / 256 == hi as nat
  {
    lo as nat + 256 * hi as nat
  }

  /** The bytes a read of up to `n` bytes at offset `k` returns: fewer near the end, none past it. */
  function ReadAt(cas: seq<bv8>, k: nat, n: nat): (r: seq<bv8>)
    ensures |r| <= n
    ensures k + n <= |cas| ==> r == cas[k..k + n]
    ensures k + n > |cas| ==> r == if k < |cas| then cas[k..] else []
  {
    if k + n <= |cas| then cas[k..k + n]
    else if k < |cas| then cas[k..]
    else []
  }
}
