/** The FSK tape signal as values: which pulses a silence, a sync tone or a
    framed byte consists of, and which samples each pulse is made of.

    A pulse is one sine cycle read from a 360-entry table. Its length in
    samples is OUTPUT_FREQUENCY / (baud * f / 1200); with baud and f both in
    {1200, 2400} that is an exact integer (36, 18 or 9), and so is the table
    step 360 / length. The table values come from floating-point `sin` and are
    taken here as a parameter.
 */
module Fsk {
  import opened CasFormat

  /** A 360-entry sine table, one 8-bit sample per degree. */
  type SineTable = t: seq<bv8> | |t| == 360 witness seq(360, _ => SILENCE_SAMPLE)

  // ---------------------------------------------------------------------------
  // Pulse length and table index arithmetic

  /** Samples in one pulse of frequency `f` at `baud`. */
  function PulseLength(baud: Baud, f: Freq): nat
  {
    if baud == 1200 && f == LONG_PULSE then 36
    else if baud == 2400 && f == SHORT_PULSE then 9
    else 18
  }

  /** The pulse length is OUTPUT_FREQUENCY / (baud * f / 1200), and that
      quotient is exact: no fraction of a sample is dropped. */
  lemma PulseLengthExact(baud: Baud, f: Freq)
    ensures PulseLength(baud, f) == OUTPUT_FREQUENCY * 1200 / (baud * f)
    ensures PulseLength(baud, f) * baud * f == OUTPUT_FREQUENCY * 1200
  {
  }

  /** Table entries skipped between two samples of a pulse. */
  function TableStep(baud: Baud, f: Freq): nat
  {
    if PulseLength(baud, f) == 36 then 10 else if PulseLength(baud, f) == 18 then 20 else 40
  }

  /** The step is 360 / length, again without remainder. */
  lemma TableStepExact(baud: Baud, f: Freq)
    ensures TableStep(baud, f) == 360 / PulseLength(baud, f)
    ensures TableStep(baud, f) * PulseLength(baud, f) == 360
  {
  }

  /** The table index of sample `n` of a pulse never needs wrapping: one pulse
      walks the whole table exactly once. */
  lemma TableIndexInRange(baud: Baud, f: Freq, n: nat)
    requires n < PulseLength(baud, f)
    ensures n * TableStep(baud, f) < 360
    ensures TableStep(baud, f) * PulseLength(baud, f) == 360
  {
    var len, step := PulseLength(baud, f), TableStep(baud, f);
    assert n * step <= (len - 1) * step == 360 - step;
  }

  /** The samples of one pulse: sample n is the table entry n * step. */
  function PulseSamples(table: SineTable, baud: Baud, f: Freq): (r: seq<bv8>)
    ensures |r| == PulseLength(baud, f)
  {
    seq(PulseLength(baud, f), n requires 0 <= n < PulseLength(baud, f) =>
      TableIndexInRange(baud, f, n);
      table[n * TableStep(baud, f)])
  }

  /** The samples of a sequence of pulses, one after the other. */
  function ToneSamples(table: SineTable, baud: Baud, tones: seq<Freq>): seq<bv8>
  {
    if tones == [] then []
    else PulseSamples(table, baud, tones[0]) + ToneSamples(table, baud, tones[1..])
  }

  /** Total sample count of a pulse sequence. */
  function ToneLength(baud: Baud, tones: seq<Freq>): nat
  {
    if tones == [] then 0 else PulseLength(baud, tones[0]) + ToneLength(baud, tones[1..])
  }

  lemma {:induction false} ToneSamplesAppend(table: SineTable, baud: Baud, a: seq<Freq>, b: seq<Freq>)
    ensures ToneSamples(table, baud, a + b) == ToneSamples(table, baud, a) + ToneSamples(table, baud, b)
  {
    if a == [] {
      assert a + b == b;
    } else {
      assert (a + b)[0] == a[0] && (a + b)[1..] == a[1..] + b;
      ToneSamplesAppend(table, baud, a[1..], b);
    }
  }

  lemma {:induction false} ToneLengthAppend(baud: Baud, a: seq<Freq>, b: seq<Freq>)
    ensures ToneLength(baud, a + b) == ToneLength(baud, a) + ToneLength(baud, b)
  {
    if a == [] {
      assert a + b == b;
    } else {
      assert (a + b)[0] == a[0] && (a + b)[1..] == a[1..] + b;
      ToneLengthAppend(baud, a[1..], b);
    }
  }

  lemma {:induction false} ToneSamplesLength(table: SineTable, baud: Baud, tones: seq<Freq>)
    ensures |ToneSamples(table, baud, tones)| == ToneLength(baud, tones)
  {
    if tones != [] {
      ToneSamplesLength(table, baud, tones[1..]);
    }
  }

  // ---------------------------------------------------------------------------
  // Silence and synchronisation

  /** `s` samples of zero amplitude. */
  function Silence(s: nat): (r: seq<bv8>)
    ensures |r| == s
    ensures forall i :: 0 <= i < |r| ==> r[i] == SILENCE_SAMPLE
  {
    seq(s, _ => SILENCE_SAMPLE)
  }

  /** `n` copies of one pulse. */
  function Pulses(f: Freq, n: nat): (r: seq<Freq>)
    ensures |r| == n
    ensures forall i :: 0 <= i < n ==> r[i] == f
  {
    seq(n, _ => f)
  }

  /** Short pulses in a sync tone of `s` pulses counted at 1200 baud: the count
      scales with the baud rate so that the tone lasts as long. */
  function SyncPulses(s: nat, baud: Baud): (n: nat)
    ensures n >= s
  {
    if baud == 1200 then s else 2 * s
  }

  /** The count is s * baud / 1200, exactly. */
  lemma SyncPulsesExact(s: nat, baud: Baud)
    ensures SyncPulses(s, baud) == s * baud / 1200
    ensures SyncPulses(s, baud) * 1200 == s * baud
  {
  }

  function SyncTones(s: nat, baud: Baud): seq<Freq>
  {
    Pulses(SHORT_PULSE, SyncPulses(s, baud))
  }

  lemma {:induction false} PulsesLength(baud: Baud, f: Freq, n: nat)
    ensures ToneLength(baud, Pulses(f, n)) == n * PulseLength(baud, f)
  {
    if n > 0 {
      assert Pulses(f, n)[1..] == Pulses(f, n - 1);
      PulsesLength(baud, f, n - 1);
    }
  }

  /** A sync tone lasts 18 samples per 1200-baud pulse whatever the baud rate. */
  lemma SyncDuration(s: nat, baud: Baud)
    ensures ToneLength(baud, SyncTones(s, baud)) == 18 * s
  {
    PulsesLength(baud, SHORT_PULSE, SyncPulses(s, baud));
  }

  // ---------------------------------------------------------------------------
  // Bits and serial byte framing

  /** A 0 bit is one long pulse, a 1 bit two short pulses. */
  function BitTones(bit: bool): (r: seq<Freq>)
    ensures |r| == if bit then 2 else 1
  {
    if bit then [SHORT_PULSE, SHORT_PULSE] else [LONG_PULSE]
  }

  /** Samples in one bit-time. */
  function BitTime(baud: Baud): nat
  {
    if baud == 1200 then 36 else 18
  }

  /** A bit-time is OUTPUT_FREQUENCY / baud samples, exactly. */
  lemma BitTimeExact(baud: Baud)
    ensures BitTime(baud) == OUTPUT_FREQUENCY / baud
    ensures BitTime(baud) * baud == OUTPUT_FREQUENCY
  {
  }

  /** A 0 bit and a 1 bit last exactly one bit-time each. */
  lemma BitDuration(baud: Baud, bit: bool)
    ensures ToneLength(baud, BitTones(bit)) == BitTime(baud)
  {
    var tones := BitTones(bit);
    assert ToneLength(baud, tones[1..]) == if bit then PulseLength(baud, SHORT_PULSE) else 0;
  }

  /** The low `k` bits of `v`, least significant first. */
  function DataTones(v: nat, k: nat): seq<Freq>
  {
    if k == 0 then [] else BitTones(v % 2 == 1) + DataTones(v / 2, k - 1)
  }

  /** The two stop bits. */
  const STOP_TONES: seq<Freq> := BitTones(true) + BitTones(true)

  /** One serial frame: a 0 start bit, eight data bits LSB first, two 1 stop bits. */
  function ByteTones(b: bv8): seq<Freq>
  {
    BitTones(false) + DataTones(b as nat, 8) + STOP_TONES
  }

  /** k data bits are k to 2k pulses: one for each 0 bit, two for each 1 bit. */
  lemma {:induction false} DataTonesCount(v: nat, k: nat)
    ensures k <= |DataTones(v, k)| <= 2 * k
  {
    if k > 0 {
      DataTonesCount(v / 2, k - 1);
    }
  }

  /** A frame opens with the one long pulse of the start bit, closes with the
      four short pulses of the stop bits, and has 13 to 21 pulses in all. */
  lemma ByteFrameShape(b: bv8)
    ensures 13 <= |ByteTones(b)| <= 21
    ensures ByteTones(b)[0] == LONG_PULSE
    ensures ByteTones(b)[|ByteTones(b)| - 4..] == Pulses(SHORT_PULSE, 4)
  {
    DataTonesCount(b as nat, 8);
  }

  lemma {:induction false} DataDuration(baud: Baud, v: nat, k: nat)
    ensures ToneLength(baud, DataTones(v, k)) == k * BitTime(baud)
  {
    if k > 0 {
      DataDuration(baud, v / 2, k - 1);
      BitDuration(baud, v % 2 == 1);
      ToneLengthAppend(baud, BitTones(v % 2 == 1), DataTones(v / 2, k - 1));
    }
  }

  /** Every byte takes 11 bit-times whatever its value: 396 samples at 1200 baud, 198 at 2400. */
  lemma ByteDuration(table: SineTable, baud: Baud, b: bv8)
    ensures |ToneSamples(table, baud, ByteTones(b))| == 11 * BitTime(baud)
    ensures |ToneSamples(table, baud, ByteTones(b))| == if baud == 1200 then 396 else 198
  {
    DataDuration(baud, b as nat, 8);
    BitDuration(baud, false);
    BitDuration(baud, true);
    ToneLengthAppend(baud, BitTones(false), DataTones(b as nat, 8));
    ToneLengthAppend(baud, BitTones(false) + DataTones(b as nat, 8), STOP_TONES);
    ToneLengthAppend(baud, BitTones(true), BitTones(true));
    ToneSamplesLength(table, baud, ByteTones(b));
  }

  // ---------------------------------------------------------------------------
  // Decoding: the framing can be read back

  function Pow2(k: nat): (p: nat)
    ensures p >= 1
  {
    if k == 0 then 1 else 2 * Pow2(k - 1)
  }

  datatype Option<T> = None | Some(value: T)

  /** Reads `k` bits, least significant first, from the front of a pulse sequence. */
  function DecodeData(tones: seq<Freq>, k: nat): Option<(nat, seq<Freq>)>
  {
    if k == 0 then Some((0, tones))
    else if |tones| >= 1 && tones[0] == LONG_PULSE then
      match DecodeData(tones[1..], k - 1)
      case None => None
      case Some((v, rest)) => Some((2 * v, rest))
    else if |tones| >= 2 && tones[0] == SHORT_PULSE && tones[1] == SHORT_PULSE then
      match DecodeData(tones[2..], k - 1)
      case None => None
      case Some((v, rest)) => Some((1 + 2 * v, rest))
    else None
  }

  /** Reads one serial frame: start bit, eight data bits, two stop bits and nothing else. */
  function DecodeByte(tones: seq<Freq>): Option<nat>
  {
    if |tones| >= 1 && tones[0] == LONG_PULSE then
      match DecodeData(tones[1..], 8)
      case Some((v, rest)) => if rest == STOP_TONES then Some(v) else None
      case None => None
    else None
  }

  lemma {:induction false} DecodeDataTones(v: nat, k: nat, rest: seq<Freq>)
    requires v < Pow2(k)
    ensures DecodeData(DataTones(v, k) + rest, k) == Some((v, rest))
  {
    if k == 0 {
      assert DataTones(v, k) + rest == rest;
    } else {
      var bit := BitTones(v % 2 == 1);
      var tail := DataTones(v / 2, k - 1) + rest;
      assert DataTones(v, k) + rest == bit + tail;
      assert v / 2 < Pow2(k - 1);
      DecodeDataTones(v / 2, k - 1, rest);
      if v % 2 == 1 {
        assert (bit + tail)[0] == SHORT_PULSE && (bit + tail)[1] == SHORT_PULSE;
        assert (bit + tail)[2..] == tail;
      } else {
        assert (bit + tail)[0] == LONG_PULSE;
        assert (bit + tail)[1..] == tail;
      }
    }
  }

  lemma ByteWidth()
    ensures Pow2(8) == 256
  {
  }

  /** Framing round trip: the pulses of a byte decode back to that byte. */
  lemma FramingRoundTrip(b: bv8)
    ensures DecodeByte(ByteTones(b)) == Some(b as nat)
  {
    var data := DataTones(b as nat, 8);
    var frame := ByteTones(b);
    var body := data + STOP_TONES;
    assert frame == [LONG_PULSE] + body by {
      assert BitTones(false) == [LONG_PULSE];
    }
    assert frame[0] == LONG_PULSE && frame[1..] == body;
    assert DecodeData(body, 8) == Some((b as nat, STOP_TONES)) by {
      ByteWidth();
      DecodeDataTones(b as nat, 8, STOP_TONES);
    }
    DecodeFramed(frame, b as nat);
  }

  /** A start bit, data that decodes to `v`, and exactly the stop bits. */
  lemma DecodeFramed(tones: seq<Freq>, v: nat)
    requires |tones| >= 1 && tones[0] == LONG_PULSE
    requires DecodeData(tones[1..], 8) == Some((v, STOP_TONES))
    ensures DecodeByte(tones) == Some(v)
  {
  }

  /** Hence framing is injective: two different bytes never share a pulse sequence. */
  lemma FramingInjective(a: bv8, b: bv8)
    requires a != b
    ensures ByteTones(a) != ByteTones(b)
  {
    FramingRoundTrip(a);
    FramingRoundTrip(b);
  }

  // ---------------------------------------------------------------------------
  // Bytes as samples

  function ByteSamples(table: SineTable, baud: Baud, b: bv8): seq<bv8>
  {
    ToneSamples(table, baud, ByteTones(b))
  }

  /** The samples of a run of bytes, each framed in turn. */
  function BytesSamples(table: SineTable, baud: Baud, bs: seq<bv8>): seq<bv8>
  {
    if bs == [] then [] else ByteSamples(table, baud, bs[0]) + BytesSamples(table, baud, bs[1..])
  }

  lemma {:induction false} BytesSamplesAppend(table: SineTable, baud: Baud, a: seq<bv8>, b: seq<bv8>)
    ensures BytesSamples(table, baud, a + b) == BytesSamples(table, baud, a) + BytesSamples(table, baud, b)
  {
    if a == [] {
      assert a + b == b;
    } else {
      assert (a + b)[0] == a[0] && (a + b)[1..] == a[1..] + b;
      BytesSamplesAppend(table, baud, a[1..], b);
    }
  }

  /** A run of n bytes lasts exactly 11 n bit-times. */
  lemma {:induction false} BytesDuration(table: SineTable, baud: Baud, bs: seq<bv8>)
    ensures |BytesSamples(table, baud, bs)| == 11 * BitTime(baud) * |bs|
  {
    if bs != [] {
      ByteDuration(table, baud, bs[0]);
      BytesDuration(table, baud, bs[1..]);
    }
  }

  /** The 1-bit counts of the in-memory API give the same tone: n one-bits are 2n short pulses. */
  lemma {:induction false} OneBitsAreShortPulses(n: nat)
    ensures Repeat(BitTones(true), n) == Pulses(SHORT_PULSE, 2 * n)
  {
    if n > 0 {
      OneBitsAreShortPulses(n - 1);
      assert Pulses(SHORT_PULSE, 2 * n) == BitTones(true) + Pulses(SHORT_PULSE, 2 * (n - 1));
    }
  }

  function Repeat(tones: seq<Freq>, n: nat): seq<Freq>
  {
    if n == 0 then [] else tones + Repeat(tones, n - 1)
  }

  /** SYNC_INITIAL_BITS and SYNC_BLOCK_BITS one-bits are the SYNC_INITIAL and SYNC_BLOCK tones. */
  lemma SyncBitCountsAgree()
    ensures Repeat(BitTones(true), SYNC_INITIAL_BITS) == SyncTones(SYNC_INITIAL, 1200)
    ensures Repeat(BitTones(true), SYNC_BLOCK_BITS) == SyncTones(SYNC_BLOCK, 1200)
  {
    OneBitsAreShortPulses(SYNC_INITIAL_BITS);
    OneBitsAreShortPulses(SYNC_BLOCK_BITS);
  }
}
