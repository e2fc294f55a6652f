/** The conversion driver of cas2wav: a scan over the CAS image that skips
    bytes until a HEADER, classifies the file behind it, and sends each block
    with its leader (a silence and a synchronisation tone) to the synthesizer.

    The specification is a sequence of events; Render turns it into samples.
    Convert is the driver loop itself, proved to write exactly the rendered
    events and to report exactly their diagnostics.
 */
module Cas2Wav {
  import opened CasFormat
  import opened Buffering
  import Fsk
  import Synth

  /** The non-fatal messages the driver prints. */
  datatype Diagnostic = SkippingData | UnknownTypeLongHeader | UnknownTypeInitialSync

  /** What the driver asks of the synthesizer, in order. */
  datatype Event =
    | Silence(samples: nat)
    | Sync(pulses: nat)
    | Data(bytes: seq<bv8>)
    | Diag(message: Diagnostic)

  function EventSamples(table: Fsk.SineTable, baud: Baud, e: Event): seq<bv8>
  {
    match e
    case Silence(n) => Fsk.Silence(n)
    case Sync(n) => Fsk.ToneSamples(table, baud, Fsk.SyncTones(n, baud))
    case Data(bs) => Fsk.BytesSamples(table, baud, bs)
    case Diag(_) => []
  }

  /** The audio the events produce. */
  function Render(table: Fsk.SineTable, baud: Baud, es: seq<Event>): seq<bv8>
  {
    if es == [] then [] else EventSamples(table, baud, es[0]) + Render(table, baud, es[1..])
  }

  /** The diagnostics among the events, in order. */
  function Diagnostics(es: seq<Event>): seq<Diagnostic>
  {
    if es == [] then []
    else (if es[0].Diag? then [es[0].message] else []) + Diagnostics(es[1..])
  }

  lemma {:induction false} RenderAppend(table: Fsk.SineTable, baud: Baud, a: seq<Event>, b: seq<Event>)
    ensures Render(table, baud, a + b) == Render(table, baud, a) + Render(table, baud, b)
  {
    if a == [] {
      assert a + b == b;
    } else {
      assert (a + b)[0] == a[0] && (a + b)[1..] == a[1..] + b;
      RenderAppend(table, baud, a[1..], b);
    }
  }

  lemma {:induction false} DiagnosticsAppend(a: seq<Event>, b: seq<Event>)
    ensures Diagnostics(a + b) == Diagnostics(a) + Diagnostics(b)
  {
    if a == [] {
      assert a + b == b;
    } else {
      assert (a + b)[0] == a[0] && (a + b)[1..] == a[1..] + b;
      DiagnosticsAppend(a[1..], b);
    }
  }

  lemma RenderSnoc(table: Fsk.SineTable, baud: Baud, es: seq<Event>, e: Event)
    ensures Render(table, baud, es + [e]) == Render(table, baud, es) + EventSamples(table, baud, e)
    ensures Diagnostics(es + [e]) == Diagnostics(es) + (if e.Diag? then [e.message] else [])
  {
    RenderAppend(table, baud, es, [e]);
    DiagnosticsAppend(es, [e]);
    assert [e][1..] == [];
  }

  // ---------------------------------------------------------------------------
  // The driver, one scan position at a time

  /** The silence before the first block of a file: `stime` seconds when
      positive, computed in 32-bit arithmetic, otherwise LONG_SILENCE. */
  function FirstGap(stime: int): (n: nat)
    ensures stime <= 0 ==> n == LONG_SILENCE
    ensures 0 < stime && OUTPUT_FREQUENCY * stime < 0x1_0000_0000 ==> n == OUTPUT_FREQUENCY * stime
    ensures n < 0x1_0000_0000
  {
    if stime > 0 then (OUTPUT_FREQUENCY * stime) % 0x1_0000_0000 else LONG_SILENCE
  }

  /** The leader and the block that follow a HEADER ending at `p`. */
  function BlockEvents(cas: seq<bv8>, gap: nat, sync: nat, p: nat): seq<Event>
  {
    [Silence(gap), Sync(sync), Data(Synth.BlockBytes(cas, p))]
  }

  /** The continuation blocks of an ASCII file, after a block that ended at
      `from`: each skips the HEADER at `from`, sends a short leader and one
      block, and the next follows only if that block raised no eof flag and
      stopped at another HEADER. Returns the events and where scanning resumes. */
  function AsciiBlocks(cas: seq<bv8>, from: nat): (r: (seq<Event>, nat))
    ensures r.1 >= from + 8
    decreases if from <= |cas| then |cas| - from else 0
  {
    var q := from + 8;
    var blk := Synth.ScanBlock(cas, q);
    var events := BlockEvents(cas, SHORT_SILENCE, SYNC_BLOCK, q);
    if !blk.eof && HeaderAt(cas, blk.end) then
      var rest := AsciiBlocks(cas, blk.end);
      (events + rest.0, rest.1)
    else (events, blk.end)
  }

  /** One pass of the driver loop: what it emits and where it goes on. */
  datatype Step = Step(next: nat, events: seq<Event>)

  /** An ASCII file whose first block starts at `p`: a long leader, the first
      block, and the continuation blocks. */
  function AsciiFile(cas: seq<bv8>, p: nat, stime: int): Step
  {
    var rest := AsciiBlocks(cas, Synth.ScanBlock(cas, p).end);
    Step(rest.1, BlockEvents(cas, FirstGap(stime), SYNC_INITIAL, p) + rest.0)
  }

  /** A binary or BASIC file: the header block, then exactly one more block
      after the next HEADER. */
  function BinaryFile(cas: seq<bv8>, p: nat, stime: int): Step
  {
    var q := Synth.ScanBlock(cas, p).end + 8;
    Step(Synth.ScanBlock(cas, q).end,
         BlockEvents(cas, FirstGap(stime), SYNC_INITIAL, p) + BlockEvents(cas, SHORT_SILENCE, SYNC_BLOCK, q))
  }

  /** A single block sent after a diagnostic, with the given silence. */
  function SingleBlock(cas: seq<bv8>, p: nat, d: Diagnostic, gap: nat): Step
  {
    Step(Synth.ScanBlock(cas, p).end, [Diag(d)] + BlockEvents(cas, gap, SYNC_INITIAL, p))
  }

  /** The file behind a HEADER that ends at `p`, chosen by its type marker. */
  function FileStep(cas: seq<bv8>, p: nat, stime: int): (r: Step)
    ensures r.next >= p && r.events != []
  {
    if p + 10 <= |cas| then
      match IdentifyFileType(cas[p..p + 10])
      case Ascii => AsciiFile(cas, p, stime)
      case Binary => BinaryFile(cas, p, stime)
      case Unknown => SingleBlock(cas, p, UnknownTypeLongHeader, LONG_SILENCE)
    else SingleBlock(cas, p, UnknownTypeInitialSync, FirstGap(stime))
  }

  function ConvStep(cas: seq<bv8>, pos: nat, stime: int): (r: Step)
    requires pos + 8 <= |cas|
    ensures r.next > pos
    ensures HeaderAt(cas, pos) ==> r.next >= pos + 8
    ensures r.events != []
  {
    if HeaderAt(cas, pos) then FileStep(cas, pos + 8, stime)
    else Step(pos + 1, [Diag(SkippingData)])
  }

  /** Everything the driver emits from `pos` until fewer than 8 bytes remain:
      nothing exactly when no pass of the loop runs. */
  function Conversion(cas: seq<bv8>, pos: nat, stime: int): (r: seq<Event>)
    ensures r == [] <==> pos + 8 > |cas|
    decreases if pos <= |cas| then |cas| - pos + 1 else 0
  {
    if pos + 8 > |cas| then []
    else
      var st := ConvStep(cas, pos, stime);
      st.events + Conversion(cas, st.next, stime)
  }

  // ---------------------------------------------------------------------------
  // The driver loop

  /** A leader and its block render to the silence, the synchronisation tone
      and the block's bytes. */
  lemma RenderBlock(table: Fsk.SineTable, baud: Baud, cas: seq<bv8>, gap: nat, sync: nat, p: nat)
    ensures Render(table, baud, BlockEvents(cas, gap, sync, p)) ==
      Fsk.Silence(gap) + Fsk.ToneSamples(table, baud, Fsk.SyncTones(sync, baud)) +
      Fsk.BytesSamples(table, baud, Synth.BlockBytes(cas, p))
  {
    var a, b, c := Silence(gap), Sync(sync), Data(Synth.BlockBytes(cas, p));
    var sa, sb, sc := EventSamples(table, baud, a), EventSamples(table, baud, b), EventSamples(table, baud, c);
    assert Render(table, baud, [c]) == sc by {
      assert [c][1..] == [];
    }
    assert Render(table, baud, [b, c]) == sb + sc by {
      assert [b, c][1..] == [c];
    }
    assert Render(table, baud, [a, b, c]) == sa + (sb + sc) by {
      assert [a, b, c][1..] == [b, c];
    }
    Synth.Assoc3(sa, sb, sc);
  }

  /** A leader and its block carry no diagnostic. */
  lemma BlockQuiet(cas: seq<bv8>, gap: nat, sync: nat, p: nat)
    ensures Diagnostics(BlockEvents(cas, gap, sync, p)) == []
  {
    var a, b, c := Silence(gap), Sync(sync), Data(Synth.BlockBytes(cas, p));
    assert [c][1..] == [];
    assert [b, c][1..] == [c];
    assert [a, b, c][1..] == [b, c];
    assert Diagnostics([c]) == [];
    assert Diagnostics([b, c]) == [];
  }

  /** One leader and one block: silence, synchronisation tone, writeData. */
  method SendBlock(wb: WriteBuffer, table: Fsk.SineTable, baud: Baud, cas: seq<bv8>,
                   gap: nat, sync: nat, pos: nat)
    returns (position: nat, eof: bool, streamEof: bool)
    requires wb.Valid()
    modifies wb, wb.buffer
    ensures wb.Valid()
    ensures wb.Contents == old(wb.Contents) + Render(table, baud, BlockEvents(cas, gap, sync, pos))
    ensures position == Synth.ScanBlock(cas, pos).end && eof == Synth.ScanBlock(cas, pos).eof
    ensures streamEof <==> !HeaderAt(cas, position)
  {
    Synth.WriteSilence(wb, gap);
    Synth.WriteSync(wb, table, baud, sync);
    position, eof, streamEof := Synth.WriteData(wb, table, baud, cas, pos);
    RenderBlock(table, baud, cas, gap, sync, pos);
    Synth.Assoc4(old(wb.Contents), Fsk.Silence(gap), Fsk.ToneSamples(table, baud, Fsk.SyncTones(sync, baud)),
      Fsk.BytesSamples(table, baud, Synth.BlockBytes(cas, pos)));
  }

  /** AsciiBlocks one block at a time: the block after the HEADER at `from`,
      then the rest of the chain when that block neither raised the eof flag
      nor ran into the end of the image. */
  lemma AsciiUnfold(cas: seq<bv8>, from: nat)
    ensures var blk := Synth.ScanBlock(cas, from + 8);
      var events := BlockEvents(cas, SHORT_SILENCE, SYNC_BLOCK, from + 8);
      if !blk.eof && HeaderAt(cas, blk.end)
      then blk.end <= |cas| && AsciiBlocks(cas, from) == (events + AsciiBlocks(cas, blk.end).0, AsciiBlocks(cas, blk.end).1)
      else AsciiBlocks(cas, from) == (events, blk.end)
  {
  }

  /** The do-while continuation of an ASCII file, after a block that ended at `from`. */
  method SendAsciiBlocks(wb: WriteBuffer, table: Fsk.SineTable, baud: Baud, cas: seq<bv8>, from: nat)
    returns (position: nat)
    requires wb.Valid() && from <= |cas|
    modifies wb, wb.buffer
    ensures wb.Valid()
    ensures wb.Contents == old(wb.Contents) + Render(table, baud, AsciiBlocks(cas, from).0)
    ensures position == AsciiBlocks(cas, from).1
  {
    ghost var chain := AsciiBlocks(cas, from);
    ghost var sent: seq<Event> := [];
    position := from;
    var more := true;
    while more
      invariant wb.Valid()
      invariant wb.Contents == old(wb.Contents) + Render(table, baud, sent)
      invariant more ==> (position <= |cas| &&
        sent + AsciiBlocks(cas, position).0 == chain.0 && AsciiBlocks(cas, position).1 == chain.1)
      invariant !more ==> sent == chain.0 && position == chain.1
      decreases more, if position <= |cas| then |cas| - position else 0
    {
      ghost var before := wb.Contents;
      AsciiUnfold(cas, position);
      position := position + 8;
      ghost var events := BlockEvents(cas, SHORT_SILENCE, SYNC_BLOCK, position);
      var eof, streamEof;
      position, eof, streamEof := SendBlock(wb, table, baud, cas, SHORT_SILENCE, SYNC_BLOCK, position);
      more := !eof && !streamEof;
      Extend(table, baud, sent, events, old(wb.Contents), before, wb.Contents, [], []);
      if more {
        Synth.Assoc3(sent, events, AsciiBlocks(cas, position).0);
      }
      sent := sent + events;
    }
  }

  /** The ASCII branch: a long leader and the first block, then the continuation blocks. */
  method SendAsciiFile(wb: WriteBuffer, table: Fsk.SineTable, baud: Baud, cas: seq<bv8>, p: nat, stime: int)
    returns (position: nat)
    requires wb.Valid() && p <= |cas|
    modifies wb, wb.buffer
    ensures wb.Valid()
    ensures wb.Contents == old(wb.Contents) + Render(table, baud, AsciiFile(cas, p, stime).events)
    ensures position == AsciiFile(cas, p, stime).next
  {
    var eof, streamEof;
    position, eof, streamEof := SendBlock(wb, table, baud, cas, FirstGap(stime), SYNC_INITIAL, p);
    ghost var mid := wb.Contents;
    position := SendAsciiBlocks(wb, table, baud, cas, position);
    Extend(table, baud, BlockEvents(cas, FirstGap(stime), SYNC_INITIAL, p),
      AsciiBlocks(cas, Synth.ScanBlock(cas, p).end).0, old(wb.Contents), mid, wb.Contents, [], []);
  }

  /** The samples of a binary file are those of its two blocks, one after the other. */
  lemma BinaryFileRender(table: Fsk.SineTable, baud: Baud, cas: seq<bv8>, p: nat, stime: int)
    ensures var q := Synth.ScanBlock(cas, p).end + 8;
      Render(table, baud, BinaryFile(cas, p, stime).events) ==
        Render(table, baud, BlockEvents(cas, FirstGap(stime), SYNC_INITIAL, p)) +
        Render(table, baud, BlockEvents(cas, SHORT_SILENCE, SYNC_BLOCK, q)) &&
      BinaryFile(cas, p, stime).next == Synth.ScanBlock(cas, q).end
  {
    var q := Synth.ScanBlock(cas, p).end + 8;
    var first, second := BlockEvents(cas, FirstGap(stime), SYNC_INITIAL, p), BlockEvents(cas, SHORT_SILENCE, SYNC_BLOCK, q);
    assert BinaryFile(cas, p, stime) == Step(Synth.ScanBlock(cas, q).end, first + second);
    RenderAppend(table, baud, first, second);
  }

  /** The binary and BASIC branch: the header block, then one block after the next HEADER. */
  method SendBinaryFile(wb: WriteBuffer, table: Fsk.SineTable, baud: Baud, cas: seq<bv8>, p: nat, stime: int)
    returns (position: nat)
    requires wb.Valid()
    modifies wb, wb.buffer
    ensures wb.Valid()
    ensures wb.Contents == old(wb.Contents) + Render(table, baud, BinaryFile(cas, p, stime).events)
    ensures position == BinaryFile(cas, p, stime).next
  {
    var eof, streamEof;
    position, eof, streamEof := SendBlock(wb, table, baud, cas, FirstGap(stime), SYNC_INITIAL, p);
    ghost var mid := wb.Contents;
    var q := position + 8;
    ghost var first, second := BlockEvents(cas, FirstGap(stime), SYNC_INITIAL, p), BlockEvents(cas, SHORT_SILENCE, SYNC_BLOCK, q);
    assert BinaryFile(cas, p, stime) == Step(Synth.ScanBlock(cas, q).end, first + second);
    position, eof, streamEof := SendBlock(wb, table, baud, cas, SHORT_SILENCE, SYNC_BLOCK, q);
    Extend(table, baud, first, second, old(wb.Contents), mid, wb.Contents, [], []);
  }

  /** The diagnostic before a single block adds no samples. */
  lemma SingleBlockParts(table: Fsk.SineTable, baud: Baud, cas: seq<bv8>, p: nat, d: Diagnostic, gap: nat)
    ensures Render(table, baud, SingleBlock(cas, p, d, gap).events) == Render(table, baud, BlockEvents(cas, gap, SYNC_INITIAL, p))
    ensures Diagnostics(SingleBlock(cas, p, d, gap).events) == [d]
  {
    var block := BlockEvents(cas, gap, SYNC_INITIAL, p);
    assert Render(table, baud, [Diag(d)]) == [] && Diagnostics([Diag(d)]) == [d] by {
      assert [Diag(d)][1..] == [];
    }
    assert Diagnostics(block) == [] by {
      BlockQuiet(cas, gap, SYNC_INITIAL, p);
    }
    RenderAppend(table, baud, [Diag(d)], block);
    DiagnosticsAppend([Diag(d)], block);
  }

  /** The two fallback branches: a diagnostic, then one block after the given silence. */
  method SendSingleBlock(wb: WriteBuffer, table: Fsk.SineTable, baud: Baud, cas: seq<bv8>, p: nat,
                         d: Diagnostic, gap: nat)
    returns (position: nat, note: Diagnostic)
    requires wb.Valid()
    modifies wb, wb.buffer
    ensures wb.Valid()
    ensures wb.Contents == old(wb.Contents) + Render(table, baud, SingleBlock(cas, p, d, gap).events)
    ensures [note] == Diagnostics(SingleBlock(cas, p, d, gap).events)
    ensures position == SingleBlock(cas, p, d, gap).next
  {
    note := d;
    var eof, streamEof;
    position, eof, streamEof := SendBlock(wb, table, baud, cas, gap, SYNC_INITIAL, p);
    SingleBlockParts(table, baud, cas, p, d, gap);
  }

  /** An ASCII file raises no diagnostic. */
  lemma {:induction false} AsciiBlocksQuiet(cas: seq<bv8>, from: nat)
    ensures Diagnostics(AsciiBlocks(cas, from).0) == []
    decreases if from <= |cas| then |cas| - from else 0
  {
    var q := from + 8;
    var blk := Synth.ScanBlock(cas, q);
    var events := BlockEvents(cas, SHORT_SILENCE, SYNC_BLOCK, q);
    BlockQuiet(cas, SHORT_SILENCE, SYNC_BLOCK, q);
    if !blk.eof && HeaderAt(cas, blk.end) {
      AsciiBlocksQuiet(cas, blk.end);
      DiagnosticsAppend(events, AsciiBlocks(cas, blk.end).0);
    }
  }

  /** ASCII, binary and BASIC files raise no diagnostic. */
  lemma AsciiFileQuiet(cas: seq<bv8>, p: nat, stime: int)
    ensures Diagnostics(AsciiFile(cas, p, stime).events) == []
  {
    BlockQuiet(cas, FirstGap(stime), SYNC_INITIAL, p);
    AsciiBlocksQuiet(cas, Synth.ScanBlock(cas, p).end);
    DiagnosticsAppend(BlockEvents(cas, FirstGap(stime), SYNC_INITIAL, p),
      AsciiBlocks(cas, Synth.ScanBlock(cas, p).end).0);
  }

  lemma BinaryFileQuiet(cas: seq<bv8>, p: nat, stime: int)
    ensures Diagnostics(BinaryFile(cas, p, stime).events) == []
  {
    var q := Synth.ScanBlock(cas, p).end + 8;
    BlockQuiet(cas, FirstGap(stime), SYNC_INITIAL, p);
    BlockQuiet(cas, SHORT_SILENCE, SYNC_BLOCK, q);
    DiagnosticsAppend(BlockEvents(cas, FirstGap(stime), SYNC_INITIAL, p),
      BlockEvents(cas, SHORT_SILENCE, SYNC_BLOCK, q));
  }

  /** The HEADER branch of the driver loop: classify the file behind the
      HEADER at `pos` by its 10-byte type marker and send it. */
  method SendFile(wb: WriteBuffer, table: Fsk.SineTable, baud: Baud, cas: seq<bv8>, pos: nat, stime: int)
    returns (position: nat, notes: seq<Diagnostic>)
    requires wb.Valid() && pos + 8 <= |cas|
    modifies wb, wb.buffer
    ensures wb.Valid()
    ensures wb.Contents == old(wb.Contents) + Render(table, baud, FileStep(cas, pos + 8, stime).events)
    ensures notes == Diagnostics(FileStep(cas, pos + 8, stime).events)
    ensures position == FileStep(cas, pos + 8, stime).next
  {
    position := pos + 8;
    ghost var p := position;
    var marker := ReadAt(cas, position, 10);
    if |marker| == 10 {
      assert marker == cas[p..p + 10];
      if marker == ASCII_MARKER {
        assert FileStep(cas, p, stime) == AsciiFile(cas, p, stime);
        position := SendAsciiFile(wb, table, baud, cas, position, stime);
        notes := [];
        AsciiFileQuiet(cas, p, stime);
      } else if marker == BIN_MARKER || marker == BASIC_MARKER {
        assert FileStep(cas, p, stime) == BinaryFile(cas, p, stime);
        position := SendBinaryFile(wb, table, baud, cas, position, stime);
        notes := [];
        BinaryFileQuiet(cas, p, stime);
      } else {
        assert FileStep(cas, p, stime) == SingleBlock(cas, p, UnknownTypeLongHeader, LONG_SILENCE);
        var note;
        position, note := SendSingleBlock(wb, table, baud, cas, position, UnknownTypeLongHeader, LONG_SILENCE);
        notes := [note];
      }
    } else {
      assert FileStep(cas, p, stime) == SingleBlock(cas, p, UnknownTypeInitialSync, FirstGap(stime));
      var note;
      position, note := SendSingleBlock(wb, table, baud, cas, position, UnknownTypeInitialSync, FirstGap(stime));
      notes := [note];
    }
  }

  /** Appending one step's events to what was already sent keeps the audio
      and the diagnostics in step with the events. */
  lemma Extend(table: Fsk.SineTable, baud: Baud, done: seq<Event>, events: seq<Event>,
               base: seq<bv8>, out0: seq<bv8>, out1: seq<bv8>, diags: seq<Diagnostic>, notes: seq<Diagnostic>)
    requires out0 == base + Render(table, baud, done) && out1 == out0 + Render(table, baud, events)
    ensures out1 == base + Render(table, baud, done + events)
    ensures diags == Diagnostics(done) && notes == Diagnostics(events) ==> diags + notes == Diagnostics(done + events)
  {
    RenderAppend(table, baud, done, events);
    DiagnosticsAppend(done, events);
    Synth.Assoc3(base, Render(table, baud, done), Render(table, baud, events));
  }

  /** One step of the driver loop moves a prefix of the conversion to the sent part. */
  lemma Advance(cas: seq<bv8>, pos: nat, stime: int, done: seq<Event>, all: seq<Event>)
    requires pos + 8 <= |cas| && done + Conversion(cas, pos, stime) == all
    ensures (done + ConvStep(cas, pos, stime).events) + Conversion(cas, ConvStep(cas, pos, stime).next, stime) == all
  {
    var step := ConvStep(cas, pos, stime);
    Synth.Assoc3(done, step.events, Conversion(cas, step.next, stime));
  }

  /** One pass of the driver loop at `pos`, where at least 8 bytes remain:
      a HEADER starts a file, anything else is skipped one byte at a time. */
  method ScanStep(wb: WriteBuffer, table: Fsk.SineTable, baud: Baud, cas: seq<bv8>, pos: nat, stime: int)
    returns (position: nat, notes: seq<Diagnostic>)
    requires wb.Valid() && pos + 8 <= |cas|
    modifies wb, wb.buffer
    ensures wb.Valid()
    ensures wb.Contents == old(wb.Contents) + Render(table, baud, ConvStep(cas, pos, stime).events)
    ensures notes == Diagnostics(ConvStep(cas, pos, stime).events)
    ensures position == ConvStep(cas, pos, stime).next
  {
    var buffer := cas[pos..pos + 8];
    if buffer == HEADER {
      position, notes := SendFile(wb, table, baud, cas, pos, stime);
    } else {
      notes := [SkippingData];
      position := pos + 1;
      assert [Diag(SkippingData)][1..] == [];
    }
  }

  /** The main loop of cas2wav: returns the audio samples (the WAV body) and
      the diagnostics printed, exactly those of Conversion from offset 0. */
  method Convert(table: Fsk.SineTable, baud: Baud, cas: seq<bv8>, stime: int)
    returns (wav: seq<bv8>, diags: seq<Diagnostic>)
    ensures wav == Render(table, baud, Conversion(cas, 0, stime))
    ensures diags == Diagnostics(Conversion(cas, 0, stime))
  {
    var wb := new WriteBuffer([]);
    diags := [];
    var position: nat := 0;
    ghost var done: seq<Event> := [];
    while position + 8 <= |cas|
      invariant wb.Valid()
      invariant wb.Contents == [] + Render(table, baud, done) && diags == Diagnostics(done)
      invariant done + Conversion(cas, position, stime) == Conversion(cas, 0, stime)
      decreases if position <= |cas| then |cas| - position + 1 else 0
    {
      ghost var step := ConvStep(cas, position, stime);
      Advance(cas, position, stime, done, Conversion(cas, 0, stime));
      ghost var before := wb.Contents;
      var notes;
      position, notes := ScanStep(wb, table, baud, cas, position, stime);
      Extend(table, baud, done, step.events, [], before, wb.Contents, diags, notes);
      diags := diags + notes;
      done := done + step.events;
    }
    assert wb.Contents == Render(table, baud, done);
    assert done == Conversion(cas, 0, stime) by {
      assert Conversion(cas, position, stime) == [];
      assert done + [] == done;
    }
    wb.Flush();
    wav := wb.file;
  }

  // ---------------------------------------------------------------------------
  // Properties of the conversion

  /** `n` reports of skipped data. */
  function Skips(n: nat): (es: seq<Event>)
    ensures |es| == n
  {
    seq(n, _ => Diag(SkippingData))
  }

  /** Skipped bytes produce no audio, only their reports. */
  lemma {:induction false} SkipsAreSilent(table: Fsk.SineTable, baud: Baud, n: nat)
    ensures Render(table, baud, Skips(n)) == []
    ensures Diagnostics(Skips(n)) == seq(n, _ => SkippingData)
  {
    if n > 0 {
      assert Skips(n)[0] == Diag(SkippingData) && Skips(n)[1..] == Skips(n - 1);
      SkipsAreSilent(table, baud, n - 1);
      assert [SkippingData] + seq(n - 1, _ => SkippingData) == seq(n, _ => SkippingData);
    }
  }

  /** Without a HEADER from `pos` on, every offset that still has 8 bytes
      behind it is reported and skipped, and nothing else happens: the last 7
      bytes of the image are never reported. */
  lemma {:induction false} HeaderFreeImage(cas: seq<bv8>, pos: nat, stime: int)
    requires forall k :: pos <= k ==> !HeaderAt(cas, k)
    ensures Conversion(cas, pos, stime) == Skips(if pos + 8 <= |cas| then |cas| - 7 - pos else 0)
    decreases if pos <= |cas| then |cas| - pos + 1 else 0
  {
    if pos + 8 <= |cas| {
      HeaderFreeImage(cas, pos + 1, stime);
      assert [Diag(SkippingData)] + Skips(|cas| - 8 - pos) == Skips(|cas| - 7 - pos);
    }
  }

  /** No transmitted block contains a HEADER. */
  predicate NoHeaderSent(es: seq<Event>)
  {
    forall i :: 0 <= i < |es| && es[i].Data? ==> ContainsNoHeader(es[i].bytes)
  }

  lemma NoHeaderSentAppend(a: seq<Event>, b: seq<Event>)
    requires NoHeaderSent(a) && NoHeaderSent(b)
    ensures NoHeaderSent(a + b)
  {
    forall i | 0 <= i < |a + b| && (a + b)[i].Data?
      ensures ContainsNoHeader((a + b)[i].bytes)
    {
      if i < |a| {
        assert (a + b)[i] == a[i];
      } else {
        assert (a + b)[i] == b[i - |a|];
      }
    }
  }

  lemma BlockSendsNoHeader(cas: seq<bv8>, gap: nat, sync: nat, p: nat)
    ensures NoHeaderSent(BlockEvents(cas, gap, sync, p))
  {
    Synth.BlockHasNoHeader(cas, p);
  }

  lemma {:induction false} AsciiBlocksSendNoHeader(cas: seq<bv8>, from: nat)
    ensures NoHeaderSent(AsciiBlocks(cas, from).0)
    decreases if from <= |cas| then |cas| - from else 0
  {
    var q := from + 8;
    var blk := Synth.ScanBlock(cas, q);
    var events := BlockEvents(cas, SHORT_SILENCE, SYNC_BLOCK, q);
    BlockSendsNoHeader(cas, SHORT_SILENCE, SYNC_BLOCK, q);
    if !blk.eof && HeaderAt(cas, blk.end) {
      AsciiBlocksSendNoHeader(cas, blk.end);
      NoHeaderSentAppend(events, AsciiBlocks(cas, blk.end).0);
    }
  }

  /** The kind of file behind a HEADER that ends at `p`; a truncated marker counts as unknown. */
  function MarkerKind(cas: seq<bv8>, p: nat): FileType
  {
    if p + 10 <= |cas| then IdentifyFileType(cas[p..p + 10]) else Unknown
  }

  /** FileStep by kind. */
  lemma FileCases(cas: seq<bv8>, p: nat, stime: int)
    ensures MarkerKind(cas, p) == Ascii ==> FileStep(cas, p, stime) == AsciiFile(cas, p, stime)
    ensures MarkerKind(cas, p) == Binary ==> FileStep(cas, p, stime) == BinaryFile(cas, p, stime)
    ensures MarkerKind(cas, p) == Unknown ==> (FileStep(cas, p, stime) ==
      if p + 10 <= |cas| then SingleBlock(cas, p, UnknownTypeLongHeader, LONG_SILENCE)
      else SingleBlock(cas, p, UnknownTypeInitialSync, FirstGap(stime)))
  {
  }

  lemma AsciiFileSendsNoHeader(cas: seq<bv8>, p: nat, stime: int)
    ensures NoHeaderSent(AsciiFile(cas, p, stime).events)
  {
    var end := Synth.ScanBlock(cas, p).end;
    BlockSendsNoHeader(cas, FirstGap(stime), SYNC_INITIAL, p);
    AsciiBlocksSendNoHeader(cas, end);
    NoHeaderSentAppend(BlockEvents(cas, FirstGap(stime), SYNC_INITIAL, p), AsciiBlocks(cas, end).0);
  }

  lemma BinaryFileSendsNoHeader(cas: seq<bv8>, p: nat, stime: int)
    ensures NoHeaderSent(BinaryFile(cas, p, stime).events)
  {
    var q := Synth.ScanBlock(cas, p).end + 8;
    BlockSendsNoHeader(cas, FirstGap(stime), SYNC_INITIAL, p);
    BlockSendsNoHeader(cas, SHORT_SILENCE, SYNC_BLOCK, q);
    NoHeaderSentAppend(BlockEvents(cas, FirstGap(stime), SYNC_INITIAL, p), BlockEvents(cas, SHORT_SILENCE, SYNC_BLOCK, q));
  }

  lemma SingleBlockSendsNoHeader(cas: seq<bv8>, p: nat, d: Diagnostic, gap: nat)
    ensures NoHeaderSent(SingleBlock(cas, p, d, gap).events)
  {
    BlockSendsNoHeader(cas, gap, SYNC_INITIAL, p);
    NoHeaderSentAppend([Diag(d)], BlockEvents(cas, gap, SYNC_INITIAL, p));
  }

  lemma FileSendsNoHeader(cas: seq<bv8>, p: nat, stime: int)
    ensures NoHeaderSent(FileStep(cas, p, stime).events)
  {
    FileCases(cas, p, stime);
    match MarkerKind(cas, p)
    case Ascii => AsciiFileSendsNoHeader(cas, p, stime);
    case Binary => BinaryFileSendsNoHeader(cas, p, stime);
    case Unknown =>
      SingleBlockSendsNoHeader(cas, p, UnknownTypeLongHeader, LONG_SILENCE);
      SingleBlockSendsNoHeader(cas, p, UnknownTypeInitialSync, FirstGap(stime));
  }

  /** The 8 bytes of a HEADER are never transmitted: every block the driver
      sends starts behind one and stops in front of the next. */
  lemma {:induction false} ConversionSendsNoHeader(cas: seq<bv8>, pos: nat, stime: int)
    ensures NoHeaderSent(Conversion(cas, pos, stime))
    decreases if pos <= |cas| then |cas| - pos + 1 else 0
  {
    if pos + 8 <= |cas| {
      var st := ConvStep(cas, pos, stime);
      if HeaderAt(cas, pos) {
        FileSendsNoHeader(cas, pos + 8, stime);
      }
      ConversionSendsNoHeader(cas, st.next, stime);
      NoHeaderSentAppend(st.events, Conversion(cas, st.next, stime));
    }
  }

  /** A leader and its block last the silence, 18 samples per sync pulse
      counted at 1200 baud, and 11 bit-times per byte. */
  lemma BlockDuration(table: Fsk.SineTable, baud: Baud, cas: seq<bv8>, gap: nat, sync: nat, p: nat)
    ensures |Render(table, baud, BlockEvents(cas, gap, sync, p))| ==
      gap + 18 * sync + 11 * Fsk.BitTime(baud) * |Synth.BlockBytes(cas, p)|
  {
    RenderBlock(table, baud, cas, gap, sync, p);
    Fsk.SyncDuration(sync, baud);
    Fsk.ToneSamplesLength(table, baud, Fsk.SyncTones(sync, baud));
    Fsk.BytesDuration(table, baud, Synth.BlockBytes(cas, p));
  }

  /** Every file opens with a long leader and the block behind its HEADER: the
      silence is the -s time (or LONG_SILENCE) except after an unrecognised
      marker, which always gets LONG_SILENCE. */
  lemma FilePreamble(cas: seq<bv8>, p: nat, stime: int)
    ensures var es := FileStep(cas, p, stime).events;
      var lead := if es[0].Diag? then es[1..] else es;
      var unknownMarker := p + 10 <= |cas| && MarkerKind(cas, p) == Unknown;
      |lead| >= 3 &&
      lead[0] == Silence(if unknownMarker then LONG_SILENCE else FirstGap(stime)) &&
      lead[1] == Sync(SYNC_INITIAL) && lead[2] == Data(Synth.BlockBytes(cas, p))
  {
    var end := Synth.ScanBlock(cas, p).end;
    var first := BlockEvents(cas, FirstGap(stime), SYNC_INITIAL, p);
    FileCases(cas, p, stime);
    match MarkerKind(cas, p)
    case Ascii =>
      assert (first + AsciiBlocks(cas, end).0)[..3] == first;
    case Binary =>
      assert (first + BlockEvents(cas, SHORT_SILENCE, SYNC_BLOCK, end + 8))[..3] == first;
    case Unknown =>
  }

  /** The payloads of the Data events, in order. */
  function Blocks(es: seq<Event>): seq<seq<bv8>>
  {
    if es == [] then [] else (if es[0].Data? then [es[0].bytes] else []) + Blocks(es[1..])
  }

  lemma {:induction false} BlocksAppend(a: seq<Event>, b: seq<Event>)
    ensures Blocks(a + b) == Blocks(a) + Blocks(b)
  {
    if a == [] {
      assert a + b == b;
    } else {
      assert (a + b)[0] == a[0] && (a + b)[1..] == a[1..] + b;
      BlocksAppend(a[1..], b);
    }
  }

  lemma BlockEventsBlocks(cas: seq<bv8>, gap: nat, sync: nat, p: nat)
    ensures Blocks(BlockEvents(cas, gap, sync, p)) == [Synth.BlockBytes(cas, p)]
  {
    var a, b, c := Silence(gap), Sync(sync), Data(Synth.BlockBytes(cas, p));
    assert Blocks([c]) == [c.bytes] by {
      assert [c][1..] == [];
    }
    assert Blocks([b, c]) == [c.bytes] by {
      assert [b, c][1..] == [c];
    }
    assert [a, b, c][1..] == [b, c];
  }

  /** The ASCII continuation sends at least one block, even when the first
      block raised the eof flag, and stops after a block that raised the flag
      or did not end at a HEADER. */
  lemma {:induction false} AsciiChainEnds(cas: seq<bv8>, from: nat)
    ensures |AsciiBlocks(cas, from).0| >= 3
    ensures AsciiBlocks(cas, from).0[..3] == BlockEvents(cas, SHORT_SILENCE, SYNC_BLOCK, from + 8)
    ensures exists q :: (from + 8 <= q && Synth.ScanBlock(cas, q).end == AsciiBlocks(cas, from).1 &&
      (Synth.ScanBlock(cas, q).eof || !HeaderAt(cas, Synth.ScanBlock(cas, q).end)))
    decreases if from <= |cas| then |cas| - from else 0
  {
    var q := from + 8;
    var blk := Synth.ScanBlock(cas, q);
    var events := BlockEvents(cas, SHORT_SILENCE, SYNC_BLOCK, q);
    if !blk.eof && HeaderAt(cas, blk.end) {
      AsciiChainEnds(cas, blk.end);
      assert (events + AsciiBlocks(cas, blk.end).0)[..3] == events;
    }
  }

  lemma AsciiFileBlocks(cas: seq<bv8>, p: nat, stime: int)
    ensures var bs := Blocks(AsciiFile(cas, p, stime).events);
      |bs| >= 2 && bs[0] == Synth.BlockBytes(cas, p)
  {
    var end := Synth.ScanBlock(cas, p).end;
    var first, rest := BlockEvents(cas, FirstGap(stime), SYNC_INITIAL, p), AsciiBlocks(cas, end).0;
    BlockEventsBlocks(cas, FirstGap(stime), SYNC_INITIAL, p);
    AsciiChainEnds(cas, end);
    BlockEventsBlocks(cas, SHORT_SILENCE, SYNC_BLOCK, end + 8);
    assert |Blocks(rest)| >= 1 by {
      assert rest == rest[..3] + rest[3..];
      BlocksAppend(rest[..3], rest[3..]);
    }
    BlocksAppend(first, rest);
  }

  lemma BinaryFileBlocks(cas: seq<bv8>, p: nat, stime: int)
    ensures Blocks(BinaryFile(cas, p, stime).events) ==
      [Synth.BlockBytes(cas, p), Synth.BlockBytes(cas, Synth.ScanBlock(cas, p).end + 8)]
  {
    var q := Synth.ScanBlock(cas, p).end + 8;
    BlockEventsBlocks(cas, FirstGap(stime), SYNC_INITIAL, p);
    BlockEventsBlocks(cas, SHORT_SILENCE, SYNC_BLOCK, q);
    BlocksAppend(BlockEvents(cas, FirstGap(stime), SYNC_INITIAL, p), BlockEvents(cas, SHORT_SILENCE, SYNC_BLOCK, q));
  }

  lemma SingleBlockBlocks(cas: seq<bv8>, p: nat, d: Diagnostic, gap: nat)
    ensures Blocks(SingleBlock(cas, p, d, gap).events) == [Synth.BlockBytes(cas, p)]
  {
    BlockEventsBlocks(cas, gap, SYNC_INITIAL, p);
    BlocksAppend([Diag(d)], BlockEvents(cas, gap, SYNC_INITIAL, p));
    assert Blocks([Diag(d)]) == [] by {
      assert [Diag(d)][1..] == [];
    }
  }

  /** How many blocks each kind of file sends: one after an unknown or
      truncated marker, exactly two for a binary or BASIC file (the second one
      after the next HEADER), and at least two for an ASCII file. */
  lemma FileBlocks(cas: seq<bv8>, p: nat, stime: int)
    ensures var bs := Blocks(FileStep(cas, p, stime).events);
      (MarkerKind(cas, p) == Unknown ==> bs == [Synth.BlockBytes(cas, p)]) &&
      (MarkerKind(cas, p) == Binary ==>
        bs == [Synth.BlockBytes(cas, p), Synth.BlockBytes(cas, Synth.ScanBlock(cas, p).end + 8)]) &&
      (MarkerKind(cas, p) == Ascii ==> |bs| >= 2 && bs[0] == Synth.BlockBytes(cas, p))
  {
    FileCases(cas, p, stime);
    match MarkerKind(cas, p)
    case Ascii => AsciiFileBlocks(cas, p, stime);
    case Binary => BinaryFileBlocks(cas, p, stime);
    case Unknown =>
      SingleBlockBlocks(cas, p, UnknownTypeLongHeader, LONG_SILENCE);
      SingleBlockBlocks(cas, p, UnknownTypeInitialSync, FirstGap(stime));
  }
}
