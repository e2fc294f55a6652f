/** The synthesizer as the source runs it: counting loops that push samples
    one at a time through the write buffer, each proved to append exactly the
    samples its specification function in module Fsk describes; and writeData,
    which transmits a block of the CAS image up to the next HEADER.
 */
module Synth {
  import opened CasFormat
  import opened Fsk
  import opened Buffering

  // ---------------------------------------------------------------------------
  // Sample writers

  /** writeSilence: `s` samples of value 128. */
  method WriteSilence(wb: WriteBuffer, s: nat)
    requires wb.Valid()
    modifies wb, wb.buffer
    ensures wb.Valid()
    ensures wb.Contents == old(wb.Contents) + Silence(s)
  {
    for n := 0 to s
      invariant wb.Valid()
      invariant wb.Contents == old(wb.Contents) + Silence(n)
    {
      wb.PutByte(SILENCE_SAMPLE);
      assert Silence(n + 1) == Silence(n) + [SILENCE_SAMPLE];
    }
  }

  /** writePulse: one sine cycle, sample n read from table entry n * (360 / length). */
  method WritePulse(wb: WriteBuffer, table: SineTable, baud: Baud, f: Freq)
    requires wb.Valid()
    modifies wb, wb.buffer
    ensures wb.Valid()
    ensures wb.Contents == old(wb.Contents) + PulseSamples(table, baud, f)
  {
    var length := PulseLength(baud, f);
    var step := TableStep(baud, f);
    ghost var pulse := PulseSamples(table, baud, f);
    for n := 0 to length
      invariant wb.Valid()
      invariant wb.Contents == old(wb.Contents) + pulse[..n]
    {
      TableIndexInRange(baud, f, n);
      var index := n * step;
      wb.PutByte(table[index]);
      assert pulse[..n + 1] == pulse[..n] + [table[index]];
    }
    assert pulse[..length] == pulse;
  }

  lemma ToneSamplesSnoc(table: SineTable, baud: Baud, tones: seq<Freq>, f: Freq)
    ensures ToneSamples(table, baud, tones + [f]) == ToneSamples(table, baud, tones) + PulseSamples(table, baud, f)
  {
    ToneSamplesAppend(table, baud, tones, [f]);
    assert [f][1..] == [];
  }

  /** `n` pulses of frequency `f`, one after the other. */
  method WritePulses(wb: WriteBuffer, table: SineTable, baud: Baud, f: Freq, n: nat)
    requires wb.Valid()
    modifies wb, wb.buffer
    ensures wb.Valid()
    ensures wb.Contents == old(wb.Contents) + ToneSamples(table, baud, Pulses(f, n))
  {
    for i := 0 to n
      invariant wb.Valid()
      invariant wb.Contents == old(wb.Contents) + ToneSamples(table, baud, Pulses(f, i))
    {
      ghost var sent := ToneSamples(table, baud, Pulses(f, i));
      WritePulse(wb, table, baud, f);
      assert ToneSamples(table, baud, Pulses(f, i + 1)) == sent + PulseSamples(table, baud, f) by {
        ToneSamplesSnoc(table, baud, Pulses(f, i), f);
        assert Pulses(f, i + 1) == Pulses(f, i) + [f];
      }
      Assoc3(old(wb.Contents), sent, PulseSamples(table, baud, f));
    }
  }

  /** writeSync: SyncPulses(s, baud) short pulses. */
  method WriteSync(wb: WriteBuffer, table: SineTable, baud: Baud, s: nat)
    requires wb.Valid()
    modifies wb, wb.buffer
    ensures wb.Valid()
    ensures wb.Contents == old(wb.Contents) + ToneSamples(table, baud, SyncTones(s, baud))
  {
    WritePulses(wb, table, baud, SHORT_PULSE, SyncPulses(s, baud));
  }

  /** One bit: a long pulse for 0, two short pulses for 1. */
  method WriteBit(wb: WriteBuffer, table: SineTable, baud: Baud, bit: bool)
    requires wb.Valid()
    modifies wb, wb.buffer
    ensures wb.Valid()
    ensures wb.Contents == old(wb.Contents) + ToneSamples(table, baud, BitTones(bit))
  {
    if bit {
      WritePulse(wb, table, baud, SHORT_PULSE);
      WritePulse(wb, table, baud, SHORT_PULSE);
      ToneSamplesSnoc(table, baud, [SHORT_PULSE], SHORT_PULSE);
      ToneSamplesSnoc(table, baud, [], SHORT_PULSE);
    } else {
      WritePulse(wb, table, baud, LONG_PULSE);
      ToneSamplesSnoc(table, baud, [], LONG_PULSE);
    }
  }

  /** writeByte: start bit, the eight data bits least significant first, two stop bits. */
  method WriteByte(wb: WriteBuffer, table: SineTable, baud: Baud, b: bv8)
    requires wb.Valid()
    modifies wb, wb.buffer
    ensures wb.Valid()
    ensures wb.Contents == old(wb.Contents) + ByteSamples(table, baud, b)
  {
    WriteBit(wb, table, baud, false);
    ghost var sent: seq<Freq> := BitTones(false);
    var v: nat := b as nat;
    ghost var rest := DataTones(v, 8);
    for i := 0 to 8
      invariant wb.Valid()
      invariant wb.Contents == old(wb.Contents) + ToneSamples(table, baud, sent)
      invariant rest == DataTones(v, 8 - i)
      invariant sent + rest == BitTones(false) + DataTones(b as nat, 8)
    {
      ghost var before := wb.Contents;
      WriteBit(wb, table, baud, v % 2 == 1);
      ghost var bit := BitTones(v % 2 == 1);
      rest := FrameStep(table, baud, old(wb.Contents), before, wb.Contents, sent, bit, rest, v, 8 - i);
      sent := sent + bit;
      v := v / 2;
    }
    // Two stop bits: four short pulses.
    ghost var before := wb.Contents;
    WritePulses(wb, table, baud, SHORT_PULSE, 4);
    StopStep(table, baud, old(wb.Contents), before, wb.Contents, sent, rest, b);
  }

  /** One data bit of writeByte's loop: the bit's pulses extend what was sent. */
  lemma FrameStep(table: SineTable, baud: Baud, out0: seq<bv8>, out1: seq<bv8>, out2: seq<bv8>,
                  sent: seq<Freq>, bit: seq<Freq>, rest: seq<Freq>, v: nat, k: nat)
    returns (rest': seq<Freq>)
    requires k > 0 && bit == BitTones(v % 2 == 1) && rest == DataTones(v, k)
    requires out1 == out0 + ToneSamples(table, baud, sent)
    requires out2 == out1 + ToneSamples(table, baud, bit)
    ensures rest' == DataTones(v / 2, k - 1)
    ensures out2 == out0 + ToneSamples(table, baud, sent + bit)
    ensures (sent + bit) + rest' == sent + rest
  {
    var x, y := ToneSamples(table, baud, sent), ToneSamples(table, baud, bit);
    assert ToneSamples(table, baud, sent + bit) == x + y by {
      ToneSamplesAppend(table, baud, sent, bit);
    }
    Assoc3(out0, x, y);
    rest' := DataTones(v / 2, k - 1);
    assert rest == bit + rest';
    Assoc3(sent, bit, rest');
  }

  /** The two stop bits, four short pulses, complete the frame. */
  lemma StopStep(table: SineTable, baud: Baud, out0: seq<bv8>, out1: seq<bv8>, out2: seq<bv8>,
                 sent: seq<Freq>, rest: seq<Freq>, b: bv8)
    requires out1 == out0 + ToneSamples(table, baud, sent)
    requires rest == [] && sent + rest == BitTones(false) + DataTones(b as nat, 8)
    requires out2 == out1 + ToneSamples(table, baud, Pulses(SHORT_PULSE, 4))
    ensures out2 == out0 + ByteSamples(table, baud, b)
  {
    var x, y := ToneSamples(table, baud, sent), ToneSamples(table, baud, STOP_TONES);
    assert ToneSamples(table, baud, ByteTones(b)) == x + y by {
      assert sent + STOP_TONES == ByteTones(b) by {
        assert sent + rest == sent;
      }
      ToneSamplesAppend(table, baud, sent, STOP_TONES);
    }
    assert Pulses(SHORT_PULSE, 4) == STOP_TONES;
    Assoc3(out0, x, y);
  }

  lemma Assoc3<T>(a: seq<T>, b: seq<T>, c: seq<T>)
    ensures (a + b) + c == a + (b + c)
  {
  }

  lemma Assoc4<T>(a: seq<T>, b: seq<T>, c: seq<T>, d: seq<T>)
    ensures ((a + b) + c) + d == a + (b + c + d)
  {
  }

  // ---------------------------------------------------------------------------
  // writeData: transmit one block

  /** Where writeData stops and whether it saw the end-of-file byte. */
  datatype Block = Block(end: nat, eof: bool)

  function Max(a: nat, b: nat): nat { if a < b then b else a }

  /** Whether a 0x1A at offset k of a block starting at `pos` raises the eof
      flag: it does for a byte sent from a full 8-byte window and for the first
      byte of the short tail, but not for the later tail bytes. */
  predicate EofCounted(cas: seq<bv8>, pos: nat, k: nat)
  {
    k + 8 <= |cas| || k == pos || k + 7 == |cas|
  }

  /** The block writeData transmits from `pos`: every byte up to the next HEADER,
      or to the end of the image when no HEADER follows. */
  function ScanBlock(cas: seq<bv8>, pos: nat): (r: Block)
    decreases |cas| - pos
    ensures pos <= r.end <= Max(pos, |cas|)
  {
    if pos + 8 <= |cas| then
      if HeaderAt(cas, pos) then Block(pos, false)
      else
        var rest := ScanBlock(cas, pos + 1);
        Block(rest.end, cas[pos] == EOF_MARKER || rest.eof)
    else if pos < |cas| then Block(|cas|, cas[pos] == EOF_MARKER)
    else Block(pos, false)
  }

  /** writeData stops at the first HEADER at or after `pos`, which it does not
      transmit, or at the end of the image when there is none. */
  lemma {:induction false} ScanBlockStops(cas: seq<bv8>, pos: nat)
    ensures HeaderAt(cas, ScanBlock(cas, pos).end) || ScanBlock(cas, pos).end == Max(pos, |cas|)
    ensures forall k :: pos <= k < ScanBlock(cas, pos).end ==> !HeaderAt(cas, k)
    decreases |cas| - pos
  {
    if pos + 8 <= |cas| && !HeaderAt(cas, pos) {
      ScanBlockStops(cas, pos + 1);
    }
  }

  /** The eof flag is raised exactly when a counted byte of the block is 0x1A. */
  lemma {:induction false} ScanBlockEof(cas: seq<bv8>, pos: nat)
    ensures ScanBlock(cas, pos).eof <==>
      exists k :: pos <= k < ScanBlock(cas, pos).end && k < |cas| && cas[k] == EOF_MARKER && EofCounted(cas, pos, k)
    decreases |cas| - pos
  {
    if pos + 8 <= |cas| && !HeaderAt(cas, pos) {
      ScanBlockEof(cas, pos + 1);
      forall k | pos + 1 <= k
        ensures EofCounted(cas, pos, k) <==> EofCounted(cas, pos + 1, k)
      {
      }
    }
  }

  /** A 0x1A never stops transmission: the block ends only at a HEADER or at the end. */
  lemma EofDoesNotStop(cas: seq<bv8>, pos: nat)
    requires pos + 8 <= |cas| && !HeaderAt(cas, pos) && cas[pos] == EOF_MARKER
    ensures ScanBlock(cas, pos).end > pos && ScanBlock(cas, pos).eof
  {
  }

  /** The bytes writeData transmits from `pos`. */
  function BlockBytes(cas: seq<bv8>, pos: nat): (bs: seq<bv8>)
    ensures |bs| == ScanBlock(cas, pos).end - pos
    ensures pos < ScanBlock(cas, pos).end ==> bs == cas[pos..ScanBlock(cas, pos).end]
  {
    ReadAt(cas, pos, ScanBlock(cas, pos).end - pos)
  }

  /** The HEADER that ends a block is not part of it: no HEADER is ever
      transmitted, whole or straddling the block. */
  lemma BlockHasNoHeader(cas: seq<bv8>, pos: nat)
    ensures ContainsNoHeader(BlockBytes(cas, pos))
  {
    ScanBlockStops(cas, pos);
    var bs, end := BlockBytes(cas, pos), ScanBlock(cas, pos).end;
    forall k | 0 <= k && k + 8 <= |bs|
      ensures !HeaderAt(bs, k)
    {
      assert pos < end <= |cas| && bs == cas[pos..end];
      SubSlice(cas, pos, end, k, 8);
      assert !HeaderAt(cas, pos + k);
    }
  }

  lemma SubSlice<T>(s: seq<T>, a: nat, b: nat, k: nat, n: nat)
    requires a <= b <= |s| && k + n <= b - a
    ensures s[a..b][k..k + n] == s[a + k..a + k + n]
  {
    var u, w := s[a..b][k..k + n], s[a + k..a + k + n];
    assert forall i :: 0 <= i < n ==> u[i] == w[i];
  }

  lemma BytesSamplesSingle(table: SineTable, baud: Baud, b: bv8)
    ensures BytesSamples(table, baud, [b]) == ByteSamples(table, baud, b)
  {
    assert [b][1..] == [];
  }

  lemma ScanAtHeader(cas: seq<bv8>, position: nat)
    requires ReadAt(cas, position, 8) == HEADER
    ensures HeaderAt(cas, position) && ScanBlock(cas, position) == Block(position, false)
  {
  }

  lemma ScanAtWindow(cas: seq<bv8>, position: nat)
    requires |ReadAt(cas, position, 8)| == 8 && ReadAt(cas, position, 8) != HEADER
    ensures position + 8 <= |cas| && ReadAt(cas, position, 8)[0] == cas[position]
    ensures ScanBlock(cas, position) ==
      Block(ScanBlock(cas, position + 1).end, cas[position] == EOF_MARKER || ScanBlock(cas, position + 1).eof)
  {
  }

  lemma ScanAtTail(cas: seq<bv8>, position: nat)
    requires |ReadAt(cas, position, 8)| < 8
    ensures ScanBlock(cas, position) ==
      Block(position + |ReadAt(cas, position, 8)|, |ReadAt(cas, position, 8)| > 0 && cas[position] == EOF_MARKER)
    ensures |ReadAt(cas, position, 8)| > 0 ==> ReadAt(cas, position, 8)[0] == cas[position]
    ensures !HeaderAt(cas, position + |ReadAt(cas, position, 8)|)
  {
  }

  /** The samples of the image bytes at offsets [i, j), as writeData sends them. */
  function Transmitted(table: SineTable, baud: Baud, cas: seq<bv8>, i: nat, j: nat): seq<bv8>
  {
    if i <= j <= |cas| then BytesSamples(table, baud, cas[i..j]) else []
  }

  /** Growing a slice by one byte on the right adds that byte's samples. */
  lemma SliceSamples(table: SineTable, baud: Baud, cas: seq<bv8>, i: nat, j: nat)
    requires i < j <= |cas|
    ensures BytesSamples(table, baud, cas[i..j]) == BytesSamples(table, baud, cas[i..j - 1]) + ByteSamples(table, baud, cas[j - 1])
  {
    SliceSnoc(cas, i, j);
    BytesSamplesSnoc(table, baud, cas[i..j - 1], cas[j - 1]);
  }

  lemma SliceSnoc<T>(s: seq<T>, i: nat, j: nat)
    requires i < j <= |s|
    ensures s[i..j] == s[i..j - 1] + [s[j - 1]]
  {
  }

  lemma BytesSamplesSnoc(table: SineTable, baud: Baud, bs: seq<bv8>, b: bv8)
    ensures BytesSamples(table, baud, bs + [b]) == BytesSamples(table, baud, bs) + ByteSamples(table, baud, b)
  {
    BytesSamplesAppend(table, baud, bs, [b]);
    BytesSamplesSingle(table, baud, b);
  }

  lemma SendStep(table: SineTable, baud: Baud, cas: seq<bv8>, pos: nat, k: nat, start: seq<bv8>, out: seq<bv8>)
    requires pos <= k < |cas|
    requires out == start + Transmitted(table, baud, cas, pos, k)
    ensures out + ByteSamples(table, baud, cas[k]) == start + Transmitted(table, baud, cas, pos, k + 1)
  {
    SliceSamples(table, baud, cas, pos, k + 1);
    Assoc3(start, Transmitted(table, baud, cas, pos, k), ByteSamples(table, baud, cas[k]));
  }

  lemma BlockTransmitted(table: SineTable, baud: Baud, cas: seq<bv8>, pos: nat)
    ensures BytesSamples(table, baud, BlockBytes(cas, pos)) == Transmitted(table, baud, cas, pos, ScanBlock(cas, pos).end)
  {
    var e := ScanBlock(cas, pos).end;
    if pos < e {
    } else {
      assert BlockBytes(cas, pos) == [];
    }
  }

  /** Transmits a run of bytes in order. */
  method WriteBytes(wb: WriteBuffer, table: SineTable, baud: Baud, bytes: seq<bv8>)
    requires wb.Valid()
    modifies wb, wb.buffer
    ensures wb.Valid()
    ensures wb.Contents == old(wb.Contents) + BytesSamples(table, baud, bytes)
  {
    for i := 0 to |bytes|
      invariant wb.Valid()
      invariant wb.Contents == old(wb.Contents) + BytesSamples(table, baud, bytes[..i])
    {
      WriteByte(wb, table, baud, bytes[i]);
      assert bytes[..i + 1] == bytes[..i] + [bytes[i]];
      BytesSamplesAppend(table, baud, bytes[..i], [bytes[i]]);
      BytesSamplesSingle(table, baud, bytes[i]);
      Assoc3(old(wb.Contents), BytesSamples(table, baud, bytes[..i]), ByteSamples(table, baud, bytes[i]));
    }
    assert bytes[..|bytes|] == bytes;
  }

  /** At the short tail, the block is what the window loop sent followed by the tail. */
  lemma BlockAtTail(cas: seq<bv8>, pos: nat, position: nat, tail: seq<bv8>)
    requires pos <= position && (position == pos || position + 7 <= |cas|)
    requires tail == ReadAt(cas, position, 8) && |tail| < 8
    requires ScanBlock(cas, pos).end == position + |tail|
    ensures pos < |cas| ==> position <= |cas| && BlockBytes(cas, pos) == cas[pos..position] + tail
    ensures pos >= |cas| ==> position == pos && tail == [] && BlockBytes(cas, pos) == []
  {
    if pos < |cas| {
      assert tail == cas[position..];
      assert cas[pos..] == cas[pos..position] + cas[position..];
    }
  }

  lemma TailBlock(table: SineTable, baud: Baud, cas: seq<bv8>, pos: nat, position: nat,
                  tail: seq<bv8>, start: seq<bv8>, mid: seq<bv8>, out: seq<bv8>)
    requires pos <= position && (position == pos || position + 7 <= |cas|)
    requires tail == ReadAt(cas, position, 8) && |tail| < 8
    requires ScanBlock(cas, pos).end == position + |tail|
    requires mid == start + Transmitted(table, baud, cas, pos, position)
    requires out == mid + BytesSamples(table, baud, tail)
    ensures out == start + BytesSamples(table, baud, BlockBytes(cas, pos))
  {
    BlockAtTail(cas, pos, position, tail);
    var t, u := Transmitted(table, baud, cas, pos, position), BytesSamples(table, baud, tail);
    assert BytesSamples(table, baud, BlockBytes(cas, pos)) == t + u by {
      if pos < |cas| {
        BytesSamplesAppend(table, baud, cas[pos..position], tail);
      }
    }
    Assoc3(start, t, u);
  }

  /** A full window that is not a HEADER: its first byte is sent and the scan moves on by one. */
  lemma WindowStep(table: SineTable, baud: Baud, cas: seq<bv8>, pos: nat, position: nat,
                   start: seq<bv8>, out: seq<bv8>)
    requires |ReadAt(cas, position, 8)| == 8 && ReadAt(cas, position, 8) != HEADER
    requires pos <= position && ScanBlock(cas, position).end == ScanBlock(cas, pos).end
    requires out == start + Transmitted(table, baud, cas, pos, position)
    ensures position + 8 <= |cas| && ReadAt(cas, position, 8)[0] == cas[position]
    ensures ScanBlock(cas, position + 1).end == ScanBlock(cas, pos).end
    ensures ScanBlock(cas, position).eof == (cas[position] == EOF_MARKER || ScanBlock(cas, position + 1).eof)
    ensures out + ByteSamples(table, baud, cas[position]) == start + Transmitted(table, baud, cas, pos, position + 1)
  {
    ScanAtWindow(cas, position);
    SendStep(table, baud, cas, pos, position, start, out);
  }

  /** One full window that is not a HEADER: its first byte goes out and the scan moves on by one. */
  method SendWindow(wb: WriteBuffer, table: SineTable, baud: Baud, cas: seq<bv8>, ghost pos: nat,
                    position: nat, b: bv8, ghost start: seq<bv8>)
    requires wb.Valid()
    requires |ReadAt(cas, position, 8)| == 8 && ReadAt(cas, position, 8) != HEADER
    requires b == ReadAt(cas, position, 8)[0]
    requires pos <= position && ScanBlock(cas, position).end == ScanBlock(cas, pos).end
    requires wb.Contents == start + Transmitted(table, baud, cas, pos, position)
    modifies wb, wb.buffer
    ensures wb.Valid()
    ensures position + 8 <= |cas| && b == cas[position]
    ensures ScanBlock(cas, position + 1).end == ScanBlock(cas, pos).end
    ensures ScanBlock(cas, position).eof == (b == EOF_MARKER || ScanBlock(cas, position + 1).eof)
    ensures wb.Contents == start + Transmitted(table, baud, cas, pos, position + 1)
  {
    WindowStep(table, baud, cas, pos, position, start, wb.Contents);
    WriteByte(wb, table, baud, b);
  }

  /** The short read at the end of the image goes out byte by byte; it ends the block. */
  method WriteTail(wb: WriteBuffer, table: SineTable, baud: Baud, cas: seq<bv8>, ghost pos: nat,
                   position: nat, tail: seq<bv8>, ghost start: seq<bv8>)
    requires wb.Valid()
    requires tail == ReadAt(cas, position, 8) && |tail| < 8
    requires pos <= position && (position == pos || position + 7 <= |cas|)
    requires ScanBlock(cas, position).end == ScanBlock(cas, pos).end
    requires wb.Contents == start + Transmitted(table, baud, cas, pos, position)
    modifies wb, wb.buffer
    ensures wb.Valid()
    ensures position + |tail| == ScanBlock(cas, pos).end && !HeaderAt(cas, position + |tail|)
    ensures ScanBlock(cas, position).eof == (|tail| > 0 && tail[0] == EOF_MARKER)
    ensures wb.Contents == start + BytesSamples(table, baud, BlockBytes(cas, pos))
  {
    ScanAtTail(cas, position);
    ghost var mid := wb.Contents;
    WriteBytes(wb, table, baud, tail);
    TailBlock(table, baud, cas, pos, position, tail, start, mid, wb.Contents);
  }

  /** writeData stops in front of a HEADER: the block ends there and all of it was sent. */
  lemma HeaderStop(table: SineTable, baud: Baud, cas: seq<bv8>, pos: nat, position: nat,
                   start: seq<bv8>, out: seq<bv8>)
    requires ReadAt(cas, position, 8) == HEADER
    requires ScanBlock(cas, position).end == ScanBlock(cas, pos).end
    requires out == start + Transmitted(table, baud, cas, pos, position)
    ensures HeaderAt(cas, position) && position == ScanBlock(cas, pos).end
    ensures !ScanBlock(cas, position).eof
    ensures out == start + BytesSamples(table, baud, BlockBytes(cas, pos))
  {
    ScanAtHeader(cas, position);
    BlockTransmitted(table, baud, cas, pos);
  }

  /** writeData: transmits from `pos` until a HEADER or the end of the image. */
  method WriteData(wb: WriteBuffer, table: SineTable, baud: Baud, cas: seq<bv8>, pos: nat)
    returns (position: nat, eof: bool, streamEof: bool)
    requires wb.Valid()
    modifies wb, wb.buffer
    ensures wb.Valid()
    ensures position == ScanBlock(cas, pos).end && eof == ScanBlock(cas, pos).eof
    ensures streamEof <==> !HeaderAt(cas, position)
    ensures wb.Contents == old(wb.Contents) + BytesSamples(table, baud, BlockBytes(cas, pos))
  {
    eof, streamEof := false, false;
    position := pos;
    var buffer: seq<bv8>;
    while true
      invariant wb.Valid()
      invariant pos <= position && (position == pos || position + 7 <= |cas|)
      invariant ScanBlock(cas, position).end == ScanBlock(cas, pos).end
      invariant eof ==> ScanBlock(cas, pos).eof
      invariant !eof ==> ScanBlock(cas, pos).eof == ScanBlock(cas, position).eof
      invariant wb.Contents == old(wb.Contents) + Transmitted(table, baud, cas, pos, position)
      decreases |cas| - position
    {
      buffer := ReadAt(cas, position, 8);
      if |buffer| != 8 {
        break;
      }
      if buffer == HEADER {
        // the read succeeded, so the stream's end-of-file indicator stays clear
        HeaderStop(table, baud, cas, pos, position, old(wb.Contents), wb.Contents);
        return;
      }
      SendWindow(wb, table, baud, cas, pos, position, buffer[0], old(wb.Contents));
      if buffer[0] == EOF_MARKER {
        eof := true;
      }
      position := position + 1;
    }
    // The short tail at the end of the image; the short read set the
    // stream's end-of-file indicator.
    streamEof := true;
    WriteTail(wb, table, baud, cas, pos, position, buffer, old(wb.Contents));
    if |buffer| > 0 && buffer[0] == EOF_MARKER {
      eof := true;
    }
    position := position + |buffer|;
  }
}
