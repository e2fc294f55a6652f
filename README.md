# castools: the CAS-to-WAV encoder and the CAS directory lister

This project models the core of castools, a set of tools for MSX cassette
images. It covers three parts.

- **The CAS container.** A CAS image is a byte sequence in which an 8-byte
  HEADER delimiter comes before every block. A file header block starts with
  a 10-byte type marker (ASCII, binary or BASIC) and a 6-byte file name.
- **The FSK synthesizer.** It turns bytes into 8-bit PCM samples at
  43200 Hz. Each byte is one serial frame: a 0 start bit, eight data bits
  least significant first, and two 1 stop bits. A 0 bit is one 1200 Hz
  sine pulse and a 1 bit is two 2400 Hz pulses. Silences (value 128) and
  synchronisation tones (runs of short pulses) go between blocks. Samples
  go through a 16 KiB staging buffer that is flushed when full and once at
  the end.
- **The two drivers.**
  - cas2wav scans the image for HEADERs, classifies the file behind each
    one, and sends every block with its leader (a silence and a sync tone).
    Bytes outside any file are skipped one at a time, each with a
    diagnostic.
  - casdir walks the image in 8-byte chunks. A four-state machine tells it
    what the next HEADER introduces, and it prints one line per file.

Every part has two layers.

- **Specification functions** work on values. Examples are
  `Fsk.ByteTones`, `Synth.ScanBlock`, `Cas2Wav.Conversion` and
  `CasDir.Directory`.
- **Imperative methods** follow the C code loop by loop.
  - `Buffering.WriteBuffer` is a class over a fixed array.
  - The sample writers, `writeData`, the cas2wav main loop and the casdir
    loop are methods with loop invariants.
  - Each method is proved to produce exactly what its specification
    function says.
  - The properties of the tools are lemmas about the specification
    functions. Examples: the byte framing decodes back, no HEADER is ever
    transmitted, every listed line is backed by the bytes behind a HEADER,
    and durations are exact.

Modules:

| file | module | models |
|---|---|---|
| cas_format.dfy | `CasFormat` | the constants of caslib.h and lib/caslib.h, HEADER and the type markers, the FileType classification |
| write_buffer.dfy | `Buffering` | initWriteBuffer, putByte, flushWriteBuffer |
| fsk.dfy | `Fsk` | the pulse, bit, byte, silence and sync signals as values, with a decoder as an independent reference |
| synth.dfy | `Synth` | writeSilence, writePulse, writeSync, writeByte, writeData |
| cas2wav.dfy | `Cas2Wav` | the cas2wav main loop |
| casdir.dfy | `CasDir` | the casdir listing loop |

External effects become parameters.

- **Sine table.** The table comes from floating-point `sin` and is a
  360-entry parameter.
- **Baud rate.** The global `BAUDRATE` is a parameter restricted to 1200
  and 2400.
- **Silence time.** The `-s` time (`stime`) is an integer parameter.
- **Input and output.**
  - The input file is the image as a byte sequence.
  - A read of n bytes at an offset is `CasFormat.ReadAt`: fewer bytes near
    the end, none past it.
  - `fseek` is the choice of the next offset.
  - The output file is the sequence of bytes handed to `fwrite`.
- **End of file.** `feof` after `writeData` holds exactly when `writeData`
  stopped on a short read rather than at a HEADER. `Synth.WriteData`
  returns it as `streamEof`.
- **Diagnostics.** The cas2wav messages are the values of the
  `Diagnostic` datatype. The casdir output lines are values of `Entry`.
  Names are printed up to the first NUL, as a `%.6s` conversion does.

Two facts about the code shape the model.

- **Skipped bytes.** The loop of cas2wav.c:123-194 runs only while 8 bytes
  can still be read. A stretch with no HEADER from pos to the end of the
  image of |cas| bytes therefore gives |cas| - 7 - pos skip reports (when
  pos + 8 <= |cas|), and the last 7 bytes are never reported
  (`Cas2Wav.HeaderFreeImage`).
- **Sync counts.** caslib.h counts sync tones in short pulses (16000 and
  4000). lib/caslib.h counts them in 1-bits (8000 and 2000).
  - `Synth.WriteSync` follows caslib.c.
  - `Fsk.SyncBitCountsAgree` proves that the two counts give the same tone.

## Model

| member | source | states |
|---|---|---|
| CasFormat.IdentifyFileType | lib/caslib.h:194-200 | a 10-byte marker is Ascii exactly when it is the ASCII marker, Binary exactly when it is the BIN or BASIC marker, Unknown exactly otherwise (all three directions) |
| CasFormat.ClassifyByMarkerByte | caslib.c:19-21 | every known marker is one byte repeated ten times; a uniform marker is classified by that byte alone (0xEA ASCII, 0xD0/0xD3 binary) and a non-uniform one is always unknown |
| CasFormat.Le16 | casdir.c:41-43 | a little-endian 16-bit field is below 65536 and its low and high bytes are recovered by `% 256` and `/ 256` |
| CasFormat.ReadAt | cas2wav.c:133 | a read of n bytes returns at most n: exactly the n bytes when they are there, the rest of the image near its end, nothing past it |
| Buffering.WriteBuffer.constructor | caslib.c:27-31 | the staging area starts empty in front of the file; nothing is pending |
| Buffering.WriteBuffer.Flush | caslib.c:34-40 | the staged bytes are appended to the file in order, nothing stays staged, the logical contents do not change, and an empty stage writes nothing |
| Buffering.WriteBuffer.PutByte | caslib.c:43-48 | the logical contents grow by exactly the byte; the file is untouched until the stage fills, and then all contents reach the file and the stage is empty |
| Fsk.PulseLengthExact | caslib.c:86 | the pulse length is OUTPUT_FREQUENCY / (baud * f / 1200) and that division leaves no remainder for both baud rates and both tones |
| Fsk.TableStepExact | caslib.c:89 | the table step is 360 / length, exactly: one pulse covers the table once |
| Fsk.TableIndexInRange | caslib.c:92-95 | every table index n * step of a pulse is below 360, so no wrap-around is needed |
| Fsk.PulseLength | caslib.c:86 | the samples in one pulse (36, 18 or 9); PulseLengthExact proves it equals OUTPUT_FREQUENCY / (baud * f / 1200) with no remainder |
| Fsk.PulseSamples | caslib.c:92-97 | one pulse has exactly PulseLength samples (36, 18 or 9) |
| Fsk.ToneSamplesLength | caslib.c:77-98 | the samples of a pulse sequence number exactly the sum of the pulse lengths |
| Fsk.Silence | caslib.c:51-55 | a silence of s samples is s copies of 128 |
| Fsk.SyncPulsesExact | caslib.c:104 | the sync pulse count is s * baud / 1200, exactly, so the float scaling and its truncation lose nothing |
| Fsk.SyncPulses | caslib.c:104 | the sync pulse count is never below the 1200-baud count; SyncPulsesExact proves it is s * baud / 1200 exactly |
| Fsk.SyncDuration | caslib.c:101-106 | a sync tone of s pulses lasts 18 * s samples at either baud rate |
| Fsk.BitTones | caslib.c:116-123 | a 1 bit is two pulses, a 0 bit one pulse |
| Fsk.BitTimeExact | lib/caslib.h:43-47 | a bit-time is OUTPUT_FREQUENCY / baud samples, exactly |
| Fsk.BitDuration | lib/caslib.h:43-47 | a 0 bit (one long pulse) and a 1 bit (two short pulses) last the same single bit-time |
| Fsk.ByteTones | caslib.c:109-131 | the frame of a byte: start bit, eight data bits least significant first, two stop bits; FramingRoundTrip and FramingInjective prove it decodes back to the byte, ByteFrameShape states its shape |
| Fsk.DataTonesCount | caslib.c:115-126 | k data bits are between k and 2k pulses (one per 0 bit, two per 1 bit) |
| Fsk.ByteFrameShape | caslib.c:109-131 | a frame has 13 to 21 pulses, opens with the long start pulse and closes with the four short stop pulses |
| Fsk.DataDuration | caslib.c:115-126 | k data bits last k bit-times whatever their values |
| Fsk.ByteDuration | caslib.c:109-131 | every byte lasts 11 bit-times: 396 samples at 1200 baud, 198 at 2400 |
| Fsk.DecodeDataTones | caslib.c:115-126 | the pulses of the low k bits of v, sent least significant first, decode back to v and leave the rest of the stream untouched |
| Fsk.FramingRoundTrip | caslib.c:109-131 | the frame writeByte sends for b (start bit, 8 data bits, 2 stop bits) decodes back to b |
| Fsk.DecodeFramed | caslib.c:111-130 | a long start pulse, data that decodes to v and exactly the two stop bits form the frame of v |
| Fsk.FramingInjective | caslib.c:109-131 | two different bytes never produce the same pulse sequence |
| Fsk.BytesDuration | caslib.c:143-154 | a run of n bytes lasts exactly 11 * n bit-times |
| Fsk.OneBitsAreShortPulses | lib/caslib.h:49-53 | n one-bits are exactly 2n short pulses |
| Fsk.SyncBitCountsAgree | lib/caslib.h:49-53 | 8000 and 2000 one-bits are exactly the SYNC_INITIAL and SYNC_BLOCK tones of 16000 and 4000 short pulses |
| Synth.WriteSilence | caslib.c:51-55 | the loop appends exactly s silence samples through the buffer |
| Synth.WritePulse | caslib.c:77-98 | the loop appends exactly the pulse: sample n is table entry n * step, for PulseLength samples |
| Synth.WritePulses | caslib.c:104-105 | n writePulse calls append the samples of n pulses |
| Synth.WriteSync | caslib.c:101-106 | appends exactly the sync tone: SyncPulses(s, baud) short pulses |
| Synth.WriteBit | caslib.c:116-123 | appends the samples of one bit: two short pulses for 1, one long pulse for 0 |
| Synth.WriteByte | caslib.c:109-131 | appends exactly the samples of b's serial frame, which decode back to b (FramingRoundTrip) |
| Synth.FrameStep | caslib.c:115-126 | one data-bit pass of writeByte's loop extends the sent frame by that bit and leaves the remaining higher bits to send |
| Synth.StopStep | caslib.c:129-130 | the four short pulses after the data bits complete the byte's frame |
| Synth.ScanBlock | caslib.c:143-158 | the block from pos ends between pos and the end of the image |
| Synth.ScanBlockStops | caslib.c:143-145 | the block ends at a HEADER or at the end of the image, and no HEADER starts inside it |
| Synth.ScanBlockEof | caslib.c:146-156 | the eof flag is raised exactly when a byte sent from a full window, or the first byte of the short tail, is 0x1A (both directions) |
| Synth.EofDoesNotStop | caslib.c:146-149 | a 0x1A raises the eof flag but does not end the block |
| Synth.BlockBytes | caslib.c:143-158 | the block's bytes are the image bytes from pos up to where the scan stops |
| Synth.BlockHasNoHeader | caslib.c:143-145 | no 8 consecutive bytes of a transmitted block spell HEADER, not even across the stop point |
| Synth.WriteBytes | caslib.c:153-154 | the tail loop appends the frames of the bytes in order |
| Synth.WindowStep | caslib.c:143-149 | a full window that is not a HEADER sends its first byte and the block's end and eof flag carry over to the next offset |
| Synth.SendWindow | caslib.c:146-149 | one pass of writeData's loop appends the first byte's frame and keeps the sent part equal to the image bytes from pos |
| Synth.TailBlock | caslib.c:153-158 | what the loop sent followed by the short tail is the whole block |
| Synth.WriteTail | caslib.c:153-158 | the short tail goes out byte by byte, ends the block (no HEADER follows), and raises eof exactly for a leading 0x1A |
| Synth.HeaderStop | caslib.c:144-145 | writeData stopping at a HEADER has sent the whole block, and the stop raises no eof flag |
| Synth.WriteData | caslib.c:134-161 | appends exactly the frames of the block's bytes, returns the block's end and eof flag, and reports end of file exactly when it did not stop at a HEADER |
| Cas2Wav.FirstGap | cas2wav.c:139 | the first silence is LONG_SILENCE unless stime > 0, then 43200 * stime samples when that fits 32 bits, always below 2^32 |
| Cas2Wav.AsciiBlocks | cas2wav.c:144-151 | scanning resumes at least 8 bytes (the skipped HEADER) further on |
| Cas2Wav.FileStep | cas2wav.c:133-185 | the file behind a HEADER emits something and never moves the scan back; FileCases, FileBlocks, FilePreamble and FileSendsNoHeader state which branch runs and what it sends |
| Cas2Wav.ConvStep | cas2wav.c:123-194 | each pass of the main loop advances the scan, by the whole HEADER when one is found |
| Cas2Wav.Conversion | cas2wav.c:121-194 | the driver emits nothing exactly when fewer than 8 bytes remain; Convert, ConversionSendsNoHeader and HeaderFreeImage state what the whole run writes and reports |
| Cas2Wav.RenderBlock | cas2wav.c:139-141 | a leader and its block render to the silence, the sync tone and the block's frames, in that order |
| Cas2Wav.SendBlock | cas2wav.c:146-149 | writeSilence, writeSync and writeData append exactly the rendered leader and block and return where the block ended |
| Cas2Wav.AsciiUnfold | cas2wav.c:144-151 | the ASCII continuation sends one block and goes on only when that block raised no eof flag and stopped at a HEADER |
| Cas2Wav.SendAsciiBlocks | cas2wav.c:144-151 | the do-while loop appends exactly the continuation chain and stops where the chain says |
| Cas2Wav.SendAsciiFile | cas2wav.c:136-153 | an ASCII file is a long leader with the first block, then the continuation chain |
| Cas2Wav.BinaryFileRender | cas2wav.c:155-166 | a binary or BASIC file renders as its header block's leader and block followed by one more block after the next HEADER |
| Cas2Wav.SendBinaryFile | cas2wav.c:155-166 | the binary branch appends exactly the samples of the binary file (its two leaders and blocks, by BinaryFileRender) and resumes after the second block |
| Cas2Wav.SingleBlockParts | cas2wav.c:168-185 | a fallback branch renders as one block and reports exactly its one diagnostic |
| Cas2Wav.SendSingleBlock | cas2wav.c:168-185 | the unknown-type branches print their diagnostic and send one block with an initial sync |
| Cas2Wav.AsciiBlocksQuiet | cas2wav.c:144-151 | the ASCII continuation prints nothing |
| Cas2Wav.AsciiFileQuiet | cas2wav.c:136-153 | an ASCII file prints nothing |
| Cas2Wav.BinaryFileQuiet | cas2wav.c:155-166 | a binary or BASIC file prints nothing |
| Cas2Wav.SendFile | cas2wav.c:125-186 | the HEADER branch classifies the marker and appends exactly the file's samples and diagnostics |
| Cas2Wav.ScanStep | cas2wav.c:123-193 | one loop pass either sends a file (at a HEADER) or reports one skipped byte and moves on by one |
| Cas2Wav.Convert | cas2wav.c:121-197 | the main loop writes exactly the rendered conversion of the image and prints exactly its diagnostics, all flushed at the end |
| Cas2Wav.SkipsAreSilent | cas2wav.c:187-191 | skipped bytes produce no audio, only their reports |
| Cas2Wav.HeaderFreeImage | cas2wav.c:123-194 | without a HEADER from pos on, the converter only reports skips, one for each offset with 8 bytes behind it, so the last 7 bytes are not reported |
| Cas2Wav.BlockSendsNoHeader | cas2wav.c:139-141 | the block of a leader contains no HEADER |
| Cas2Wav.AsciiBlocksSendNoHeader | cas2wav.c:144-151 | no block of the ASCII continuation contains a HEADER |
| Cas2Wav.FileCases | cas2wav.c:133-185 | which branch runs: the ASCII marker, the BIN or BASIC marker, an unknown marker with a long leader, or a short marker read with the -s leader |
| Cas2Wav.AsciiFileSendsNoHeader | cas2wav.c:136-153 | no block of an ASCII file contains a HEADER |
| Cas2Wav.BinaryFileSendsNoHeader | cas2wav.c:155-166 | no block of a binary file contains a HEADER |
| Cas2Wav.SingleBlockSendsNoHeader | cas2wav.c:168-185 | the fallback block contains no HEADER |
| Cas2Wav.FileSendsNoHeader | cas2wav.c:133-185 | whatever the marker, no block of the file contains a HEADER |
| Cas2Wav.ConversionSendsNoHeader | cas2wav.c:121-194 | the whole conversion never transmits the 8 bytes of a HEADER in any block |
| Cas2Wav.BlockDuration | cas2wav.c:139-141 | a leader and block last gap + 18 * sync + 11 bit-times per byte samples |
| Cas2Wav.FilePreamble | cas2wav.c:133-185 | every file opens with a silence (the -s time, or LONG_SILENCE after an unknown marker), the initial sync tone and the block behind its HEADER, after at most one diagnostic |
| Cas2Wav.AsciiChainEnds | cas2wav.c:144-151 | the continuation sends at least one block, even after an eof flag, and ends after a block that raised the flag or did not stop at a HEADER |
| Cas2Wav.AsciiFileBlocks | cas2wav.c:136-153 | an ASCII file sends at least two blocks, the first being the one behind its HEADER |
| Cas2Wav.BinaryFileBlocks | cas2wav.c:155-166 | a binary file sends exactly two blocks: the one behind its HEADER and the one after the next HEADER |
| Cas2Wav.SingleBlockBlocks | cas2wav.c:168-185 | a fallback branch sends exactly one block |
| Cas2Wav.FileBlocks | cas2wav.c:133-185 | the number of blocks by kind: one for an unknown type, exactly two for binary or BASIC, at least two for ASCII |
| CasDir.Printed | casdir.c:80 | the printed name is the prefix of the 6-byte name before its first NUL, and contains no NUL |
| CasDir.Overwrite | casdir.c:79 | a short read replaces only a prefix of the buffer; the rest keeps its earlier contents |
| CasDir.SkipAscii | casdir.c:110-117 | the ASCII skip never moves the read offset back |
| CasDir.FileHeader | casdir.c:73-107 | the file-header case never moves the read offset back, including the 2-byte back-up after an unknown marker |
| CasDir.NamedFile | casdir.c:77-97 | reading the name behind a known marker never moves the read offset back |
| CasDir.BinaryInfo | casdir.c:120-133 | the address block case never moves the read offset back |
| CasDir.HeaderStep | casdir.c:71-138 | no case of the state machine moves the read offset back |
| CasDir.DirStep | casdir.c:64-139 | each pass of the loop advances by at least the 8-byte chunk it read |
| CasDir.Directory | casdir.c:62-140 | the listing has at most one line per 8 bytes of the image; DirectoryEntries, ListingWitnessed and DirectoryBinaryLines state what backs each line |
| CasDir.SkipAsciiStops | casdir.c:111-114 | the ASCII skip consumes whole chunks and stops right after the first one holding 0x1A, or at the end of the image |
| CasDir.DirStepAligned | casdir.c:64-139 | every chunk the lister compares with HEADER starts at a multiple of 8, and the position counter equals the read offset |
| CasDir.SkipAsciiAligned | casdir.c:110-117 | after the ASCII skip the scan is still 8-aligned |
| CasDir.BinaryInfoAligned | casdir.c:120-133 | after the address block the scan is still 8-aligned |
| CasDir.FileHeaderAligned | casdir.c:73-107 | after a file header (10 + 6 bytes, or 10 - 2 for an unknown marker) the scan is still 8-aligned |
| CasDir.EntryAt | casdir.c:69-133 | the line a HEADER at h can produce, read from the bytes behind it; DirStepEntries and ListingWitnessed prove every printed line satisfies it |
| CasDir.DirStepEntries | casdir.c:69-139 | a pass prints only for a HEADER at its own offset, and what it prints is read from behind that HEADER |
| CasDir.DirectoryEntries | casdir.c:62-140 | every printed line is backed by a HEADER in the image |
| CasDir.ListingWitnessed | casdir.c:62-140 | every line is backed by a HEADER at a multiple of 8: the marker and name of an ASCII or BASIC file, the addresses of a binary file (exec 0 shown as start), or for an unknown type the offset of its marker; an exec of 0 is only shown when start is 0; a binary line's name is the one behind an earlier aligned BIN header |
| CasDir.BinaryHeaderQuiet | casdir.c:84-89 | a HEADER followed by the BIN marker prints nothing, sets the expected block to the address block and keeps the name read behind the marker |
| CasDir.DirStepBinaryNamed | casdir.c:79-89 | while the address block is awaited, the name buffer holds the name behind an earlier aligned BIN header |
| CasDir.DirStepBinaryLines | casdir.c:120-133 | a pass prints a binary line only in the NEXT_BINARY state, under the name of an earlier BIN header |
| CasDir.DirectoryBinaryLines | casdir.c:62-140 | every binary line of the listing shows the name behind an aligned BIN header that comes before the line's own HEADER |
| CasDir.HeaderFreeListing | casdir.c:64-69 | an image without a HEADER at any multiple of 8 lists nothing |
| CasDir.Read | casdir.c:75 | fread copies the available bytes, at most n, to the front of the buffer and returns how many |
| CasDir.SkipAsciiData | casdir.c:110-117 | the inner while loop ends exactly where the ASCII skip does, with the counter it gives |
| CasDir.ReadFileHeader | casdir.c:73-107 | the NEXT_NONE case reads the marker and then the name or the unknown-type report, exactly as FileHeader |
| CasDir.ReadName | casdir.c:77-97 | the name read behind a known marker sets the expected block and prints ASCII and BASIC files at once |
| CasDir.ReadBinaryInfo | casdir.c:120-133 | the NEXT_BINARY case prints start, stop and exec (start when exec is 0) and changes only the read buffer |
| CasDir.AfterHeader | casdir.c:71-138 | the switch on the expected block does exactly what HeaderStep says |
| CasDir.ListChunk | casdir.c:64-139 | one pass of the loop after a full read does exactly what DirStep says |
| CasDir.ListDirectory | casdir.c:62-140 | the loop prints exactly the listing Directory gives from the start of the image |

## Left out

- The sine table values: init_sine_table computes them with floating-point
  `sin`, so the table is a parameter of every sample function.
- The floating-point formulas for pulse length, table step and sync pulse
  count are modelled as integer tables. `Fsk.PulseLengthExact`,
  `Fsk.TableStepExact` and `Fsk.SyncPulsesExact` prove that the tables are
  the exact quotients, so truncation loses nothing.
- File handling (fopen, fclose, ftell, fwrite errors) and the WAV header
  written before the samples and updated after them (cas2wav.c:119 and
  cas2wav.c:199-206): the model returns the sample bytes of the WAV body.
- Command-line parsing and usage text (cas2wav.c:60-102, casdir.c:49-60):
  the baud rate and the -s time are parameters.
- The text of the diagnostics and of the listing lines: they are abstract
  values. The `%.4x` and `%.6x` number formatting is not modelled; numbers
  are naturals.
- The in-memory declarations of lib/caslib.h (writeData over a byte buffer,
  initWriteBuffer with a baud rate, getFileSize, updateWavHeader) have no
  implementation in the modelled files. Only their constants, FileType and
  identifyFileType are modelled.
- Integer widths: `position` (uint32_t in cas2wav, long in casdir) and
  image offsets are unbounded naturals. Images of 4 GiB or more are
  outside the model.
- Cas2Wav.FirstGap: `OUTPUT_FREQUENCY*stime` overflows a C int when stime
  is 49711 or more, which is undefined behaviour. The model takes the
  product modulo 2^32, as the conversion to uint32_t would. For stime from
  49711 to 99420 the C product overflows but the model's value is still
  43200 * stime, because that is below 2^32; the contract pins 43200 * stime
  over that whole range, so the model chooses the wrapped reading there.
- Output streams: the `Diagnostic` sequence merges the "unknown file type"
  reports that cas2wav prints on stdout (cas2wav.c:170-181) and the
  "skipping unhandled data" reports it prints on stderr (cas2wav.c:189).
  The split between the two streams is not modelled; their order within
  the run is.
- Buffering.WriteBuffer.Flush: fwrite is assumed to accept every byte;
  short writes are not modelled.
- CasDir.ListDirectory: the filename array is uninitialised until the
  first name is read; its initial contents are the parameter `name0`.
- The decomposition of the C functions into helper methods (SendWindow,
  WriteTail, ReadName, ListChunk and others) is a proof device; each
  helper does one step of the C code in the same order.
