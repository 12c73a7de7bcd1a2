# GBA music bank to XM: a verified model of the codec core

This project models, in Dafny, the binary codec at the heart of the
Engine Software GBA music-bank tools:

- the song model shared by both formats (cells of five bytes, rows, patterns);
- the fixed byte layouts of the music bank's records and of the
  FastTracker II Extended Module (XM) records;
- the music-bank decoder, which reads the bank header, the song-offset
  table, the contiguous instruments, and each song's patterns with their
  row-offset tables and 5-bits-per-channel row bitmasks;
- the bank scanner, which accepts or rejects every 4-aligned base address
  of a file;
- the XM reader and the XM writer, including the per-cell pack and unpack;
- the conversion of a bank song into an XM module: envelope flags,
  in-place delta coding of the sample data, instrument and sample names,
  and the pass that strips the samples of unused instruments;
- the stream alignment and the command-line number parsers.

A file is a byte sequence (`seq<byte>`, bytes as the integers 0..255), and
a stream is that sequence plus a position. A read past the end is an
explicit `Err(TruncatedInput)`. A seek past the end is allowed, as in C; the
next read of at least one byte fails there, and a read of no bytes succeeds. Every loop of the source is a `method` with its loop
invariants. Each method is proved equal to a specification function written
step by step, in the style of the source's reads. The properties are proved
about those functions: encodings read back exactly (record by record, cell by
cell, and for a whole written module), where each part of a bank lies, what
the scanner accepts, what the converter keeps, and what the strip pass drops.

Modules, one per file:

- `Bytes` (bytes.dfy): the stream, little-endian values, and sequential reads
  (`Repeat`) with their generic lemmas.
- `Words` (words.dfy): u16 arrays and envelope points.
- `Misc` (misc.dfy): `falign` and the number parsers.
- `Song` (song.dfy): the shared cell, row and pattern.
- `GbaRecords` (gba_records.dfy): the bank records' byte layouts.
- `GbaBank` (gba_bank.dfy): the bank decoder.
- `GbaLayout` (gba_layout.dfy): where the decoder finds each part of a bank.
- `GbaFind` (gba_find.dfy): the scanner.
- `XmRecords` (xm_records.dfy): the XM records' byte layouts.
- `XmPacking` (xm_packing.dfy): the pattern cell packing.
- `XmFile` (xm_file.dfy): the XM module and the reader.
- `XmSave` (xm_save.dfy): the writer.
- `XmRoundTrip` (xm_roundtrip.dfy): the reader undoes the writer.
- `Gba2Xm` (gba2xm.dfy): the conversion and the strip pass.

## Model

| member | source | states |
|---|---|---|
| Song.EmptyRow | src/common.h:7-18 | a row sized to `channels` holds exactly that many cells, each the default cell with all five fields 0 |
| Song.WithField | src/common.h:7-13 | setting field k of a cell changes that field only; every other field keeps its value |
| Song.CellExtensional | src/common.h:7-13 | a cell is nothing but its five byte fields: two cells with equal fields are equal |
| Words.ParseEncodeWords | src/common-gba.h:17-20 | a u16 array read back from its little-endian bytes gives the same array |
| Words.EncodeParseWords | src/common-gba.h:17-20 | bytes of even length re-encode to themselves after being read as u16 words |
| Words.PointsOfBytesOfPoints | src/common-gba.h:17-20 | twelve (x, y) points stored as 48 bytes read back as the same points |
| Words.PointsBytesOfBytes | src/common-xm.h:10-13 | any 48 bytes are the encoding of the twelve points read from them |
| GbaRecords.BankHeaderRoundTrip | src/common-gba.h:9-14 | the 4-byte bank header (u16 version, u8 instrument count, u8 song count) reads back from its bytes |
| GbaRecords.BankHeaderBytesOf | src/common-gba.h:9-14 | every 4 bytes are the encoding of the bank header read from them |
| GbaRecords.ReadBankHeaderIff | src/common-gba.h:9-14 | the bank header read at a position is `h` exactly when the 4 bytes there encode `h` |
| GbaRecords.EnvelopeRoundTrip | src/common-gba.h:23-31 | a 52-byte envelope (four u8 markers, 12 points) reads back from its bytes |
| GbaRecords.EnvelopeBytesOf | src/common-gba.h:23-31 | every 52 bytes are the encoding of the envelope read from them |
| GbaRecords.InstrumentHeaderRoundTrip | src/common-gba.h:34-47 | the 124-byte instrument header, with its fields in declaration order and the signed bytes in two's complement, reads back from its bytes |
| GbaRecords.InstrumentHeaderBytesOf | src/common-gba.h:34-47 | every 124 bytes are the encoding of the instrument header read from them |
| GbaRecords.ReadInstrumentHeaderIff | src/common-gba.h:34-47 | the instrument header read at a position is `h` exactly when the 124 bytes there encode `h` |
| GbaRecords.SongHeaderBytesOf | src/common-gba.h:50-58 | the six u8 song-header fields are exactly the 6 bytes, in declaration order |
| GbaRecords.ReadSongHeaderIff | src/common-gba.h:50-58 | the song header read at a position is `h` exactly when the 6 bytes there encode `h` |
| GbaRecords.ReadBankHeader | src/common-gba.cpp:9 | the bank header read succeeds exactly when 4 bytes remain |
| Bytes.ReadBytes | src/misc.h:22-30 | a read of `count` items succeeds exactly when it asks for none or they all lie in the file, and then it gives `count` bytes, the ones at the position |
| Bytes.ReadBytesAt | src/misc.h:22-30 | the bytes that lie at a position are what a read of their length there gives |
| Bytes.ReadU16 | src/misc.h:10-15 | a 2-byte read succeeds exactly when 2 bytes remain, and the value's little-endian bytes are the ones there |
| Bytes.ReadU32 | src/misc.h:10-15 | a 4-byte read succeeds exactly when 4 bytes remain, and the value's little-endian bytes are the ones there |
| Bytes.ReadU32OfBytes | src/misc.h:40-42 | the little-endian bytes of a u32 read back as that u32 |
| GbaBank.MaskLength | src/common-gba.cpp:65 | a row bitmask has the fewest whole bytes that hold 5 bits per channel |
| GbaBank.Bits | src/common-gba.cpp:77-93 | bit j of a bitmask is the test `mask[j / 8] & (0x80 >> (j % 8))`, most significant bit first |
| GbaBank.RankMonotone | src/common-gba.cpp:67-97 | the number of present fields before a field never decreases along the row |
| GbaBank.RowSpecMeaning | src/common-gba.cpp:63-97 | a row read (`RowSpec`) succeeds exactly when it has no channels (an empty bitmask, nothing read) or its bitmask and the bytes it selects lie in the file, and then its cells are the `RowCells` its bitmask selects (`RowSpec` itself ensures `channelCount` cells) |
| GbaBank.ReadIfPresent | src/common-gba.cpp:77-80 | a field with its bit set reads the next byte: the read fails exactly when that byte is past the end |
| GbaBank.DecodeCell | src/common-gba.cpp:67-96 | the five field tests of one channel give that channel's cell and leave the stream after its present bytes |
| GbaBank.DecodeCells | src/common-gba.cpp:67-97 | the channel loop gives cell c from bits 5c to 5c+4; it fails only on truncation, and exactly when there is a channel and the present bytes run past the end |
| GbaBank.DecodeRow | src/common-gba.cpp:63-97 | the row decode (bitmask, then the channel loop) returns what `RowSpec` specifies |
| GbaBank.RowEntryAt | src/common-gba.cpp:52-63 | a row-offset entry yields a row of `channelCount` cells, and the stream returns to just past the 4-byte entry |
| GbaBank.RowEntryStrided | src/common-gba.cpp:50-99 | each row-offset entry moves the stream exactly 4 bytes, so the offset table is read sequentially |
| GbaBank.DecodeRowEntry | src/common-gba.cpp:52-99 | one turn of the row loop: the offset, the row it points at or the empty row for 0, then the return to the saved position |
| GbaBank.DecodePattern | src/common-gba.cpp:45-100 | the row count, alignment to 4, and the row loop give the pattern and the position after its offset table |
| GbaBank.DecodePatterns | src/common-gba.cpp:41-101 | the pattern loop reads each pattern where the previous one's offset table ended |
| GbaBank.PatternAt | src/common-gba.cpp:45-50 | a pattern without room for its u16 row count fails with truncation; a read pattern has exactly as many rows as that count |
| GbaBank.SongAt | src/common-gba.cpp:29-41 | a read song has the header read at base plus offset, the `songLength` order bytes after alignment, and its patterns after a second alignment |
| GbaBank.DecodeSong | src/common-gba.cpp:29-102 | the song decode returns what `SongAt` specifies |
| GbaBank.DecodeSongPatterns | src/common-gba.cpp:39-101 | the patterns of a song, read from the aligned position after the order |
| GbaBank.InstrumentAt | src/common-gba.cpp:17-22 | an instrument read succeeds exactly when its 124-byte header and `sampleLength` sample bytes fit; the next one starts at the following multiple of 4 |
| GbaBank.DecodeInstrument | src/common-gba.cpp:17-22 | one turn of the instrument loop returns what `InstrumentAt` specifies |
| GbaBank.DecodeInstruments | src/common-gba.cpp:13-23 | the instrument loop reads each instrument where the previous one's alignment ended |
| GbaBank.SongsOf | src/common-gba.cpp:25-31 | song i of the bank is the song read at the base plus offset i, for every i |
| GbaBank.DecodeSongs | src/common-gba.cpp:25-103 | the song loop succeeds exactly when every song is readable, and returns song i from offset i |
| GbaBank.DecodeOffsets | src/common-gba.cpp:11 | the song-offset table is `songCount` u32 values in a row |
| GbaBank.U32Strided | src/common-gba.cpp:11 | each offset-table entry is 4 bytes after the previous one |
| GbaBank.BankAt | src/common-gba.cpp:5-104 | a read bank has the header at the base, the offset table after it, and its songs at the offsets |
| GbaBank.DecodeBank | src/common-gba.cpp:5-104 | the bank constructor returns what `BankAt` specifies, failing exactly where a read runs past the end |
| GbaLayout.RowShape | src/common-gba.cpp:63-97 | a read row of no channels has no cells; any other read row is its `MaskLength`-byte bitmask, then the cells that bitmask selects |
| GbaLayout.CellField | src/common-gba.cpp:69-96 | field k of the cell built from bits j..j+4 is the value of bit j+k |
| GbaLayout.PresentByte | src/common-gba.cpp:77-96 | a set bit selects the byte after those of all earlier set bits; a clear bit gives 0 |
| GbaLayout.CellFields | src/common-gba.cpp:67-97 | field k of channel c is present iff bit 5c+k is set, and is then the byte after all earlier present fields; otherwise it is 0 |
| GbaLayout.ZeroOffsetRow | src/common-gba.cpp:53-59 | a row offset of 0 gives `channelCount` zero cells, and the result depends on nothing but the entry's 4 bytes |
| GbaLayout.PatternEnd | src/common-gba.cpp:45-55 | a pattern is a u16 row count, alignment to 4, then `rowCount` u32 entries; it ends right after that table |
| GbaLayout.PatternWidth | src/common-gba.cpp:48-53 | every row of a read pattern holds exactly `channelCount` cells |
| GbaLayout.SongPatternsWidth | src/common-gba.cpp:39-53 | a song's patterns number `patternCount`, and each is `channelCount` wide |
| GbaLayout.SongLayout | src/common-gba.cpp:29-48 | a song is its 6-byte header at base plus offset, then `songLength` order bytes after alignment (an empty order may lie past the end), then `patternCount` patterns of width `channelCount` |
| GbaLayout.InstrumentLayout | src/common-gba.cpp:19-21 | an instrument is its 124-byte header, then `sampleLength` sample bytes; the next position is the following multiple of 4 |
| GbaLayout.OffsetTable | src/common-gba.cpp:11 | offset i is the u32 at pos+4i, and the table ends 4·count bytes after pos |
| GbaLayout.BankLayout | src/common-gba.cpp:9-31 | a bank is its 4-byte header, `songCount` u32 offsets right after it, and song i read at the base plus offset i |
| GbaLayout.InstrumentsContiguous | src/common-gba.cpp:13-23 | the first instrument starts right after the offset table, and each next one where the previous one's alignment ended |
| GbaFind.CheckedInstrument | src/gbafind.cpp:61-69 | an instrument passes exactly when its header reads and both envelopes have at most 12 points (skipping the sample bytes is a seek, which cannot fail); the next position is the end of the sample, aligned to 4 |
| GbaFind.CheckInstrument | src/gbafind.cpp:61-69 | one turn of the instrument loop agrees with `CheckedInstrument`, both in the verdict and in the header and next position |
| GbaFind.CheckInstruments | src/gbafind.cpp:58-72 | `instsValid` is true exactly when every instrument passes in turn, and the stream then ends after the last one |
| GbaFind.ClearLow2 | src/gbafind.cpp:89 | `x & 0xfffffffc` is the multiple of 4 in (x-4, x], so it equals x exactly when x is 4-aligned |
| GbaFind.CheckIncreasing | src/gbafind.cpp:79-83 | the monotonicity flag is true exactly when each offset is larger than the one before it |
| GbaFind.CheckSong | src/gbafind.cpp:86-111 | one song passes exactly when its offset is 4-aligned and inside the file, its header reads with five nonzero fields, and its order reads with every entry below `patternCount` |
| GbaFind.CheckSongs | src/gbafind.cpp:85-113 | `songsValid` is true exactly when every song passes |
| GbaFind.CheckCandidate | src/gbafind.cpp:42-113 | all checks of one base address in the source's order: version 0x0121, nonzero counts, the offset table, the instruments, the first offset past them, increasing offsets, the songs |
| GbaFind.ShortHeaderRejected | src/gbafind.cpp:44-47 | a candidate whose 4-byte header does not fit in the file is rejected |
| GbaFind.SongPlausible | src/gbafind.cpp:86-111 | a plausible song offset is a multiple of 4 inside the file, and the 6-byte song header at the base plus it lies in the file |
| GbaFind.Accepts | src/gbafind.cpp:42-113 | an accepted base has a bank header with version 0x0121 and nonzero counts, and its whole song-offset table lies in the file |
| GbaFind.OffsetTableEnd | src/gbafind.cpp:53-56 | an offset table that reads in full ends 4 bytes per entry on, inside the file |
| GbaFind.AcceptedSongsAfterInstruments | src/gbafind.cpp:74-90 | in an accepted bank every song starts at or after the end of the instruments, every offset is 4-aligned and in the file, and the offsets strictly increase |
| GbaFind.IncreasingFromFirst | src/gbafind.cpp:79-83 | in an increasing table every offset after the first exceeds the first |
| GbaFind.AcceptedAmongMeaning | src/gbafind.cpp:40 | the accepted candidates among the first k are the accepted multiples of 4 below 4k, each once, in ascending order |
| GbaFind.Scan | src/gbafind.cpp:40-126 | the scan over a file reports exactly the accepted base addresses, in the order they are tried |
| GbaFind.FoundMeaning | src/gbafind.cpp:40-126 | every reported offset is a 4-aligned accepted offset inside the file, reported in strictly ascending order, and every such offset is reported |
| XmRecords.XmHeaderRoundTrip | src/common-xm.h:16-33 | the 336-byte module header (id, names, the 0x1a byte, the u16/u32 fields, the 256-byte order table) reads back from its bytes |
| XmRecords.XmHeaderBytesOf | src/common-xm.h:16-33 | every 336 bytes are the encoding of the module header read from them |
| XmRecords.ReadXmHeaderIff | src/common-xm.h:16-33 | the module header read at a position is `h` exactly when the 336 bytes there encode it |
| XmRecords.PatternHeaderRoundTrip | src/common-xm.h:37-43 | the packed 9-byte pattern header reads back from its bytes |
| XmRecords.PatternHeaderBytesOf | src/common-xm.h:37-43 | every 9 bytes are the encoding of the pattern header read from them |
| XmRecords.ReadPatternHeaderIff | src/common-xm.h:37-43 | the pattern header read at a position is `h` exactly when the 9 bytes there encode it |
| XmRecords.XmInstrumentHeaderRoundTrip | src/common-xm.h:48-54 | the packed 29-byte instrument header with its 22-byte name reads back from its bytes |
| XmRecords.XmInstrumentHeaderBytesOf | src/common-xm.h:48-54 | every 29 bytes are the encoding of the instrument header read from them |
| XmRecords.ReadXmInstrumentHeaderIff | src/common-xm.h:48-54 | the instrument header read at a position is `h` exactly when the 29 bytes there encode it |
| XmRecords.ExtHeaderRoundTrip | src/common-xm.h:59-81 | the packed 214-byte extended header (96-entry note table, 12 + 12 points, fourteen byte fields, fadeout, reserved) reads back from its bytes |
| XmRecords.ExtHeaderBytesOf | src/common-xm.h:59-81 | every 214 bytes are the encoding of the extended header read from them |
| XmRecords.ReadExtHeaderIff | src/common-xm.h:59-81 | the extended header read at a position is `e` exactly when the 214 bytes there encode it |
| XmRecords.SampleHeaderRoundTrip | src/common-xm.h:86-98 | the packed 40-byte sample header with its 22-byte name reads back from its bytes |
| XmRecords.SampleHeaderBytesOf | src/common-xm.h:86-98 | every 40 bytes are the encoding of the sample header read from them |
| XmRecords.ReadSampleHeaderIff | src/common-xm.h:86-98 | the sample header read at a position is `h` exactly when the 40 bytes there encode it |
| XmPacking.HighFlag | src/common-xm.cpp:50 | a control byte has bit 0x80 set exactly when it is at least 0x80 |
| XmPacking.PackCellForms | src/common-xm.cpp:168-192 | the writer uses the five raw bytes exactly when all five fields are nonzero; otherwise a control byte of at least 0x80 followed by the nonzero fields; an empty cell is the single byte 0x80 |
| XmPacking.ControlFlags | src/common-xm.cpp:168-185 | the compact control byte has bit 0x80 set, and flag 0x01/0x02/0x04/0x08/0x10 set exactly when note/inst/vol/effect/param is nonzero |
| XmPacking.UnpackCell | src/common-xm.cpp:49-65 | one cell read consumes between 1 and 6 bytes, all inside the file |
| XmPacking.UnpackPackCell | src/common-xm.cpp:49-65 | the bytes the writer emits for a cell whose raw form has a note below 0x80 unpack to the same cell and are consumed exactly |
| XmPacking.RawCellBack | src/common-xm.cpp:58-65 | a first byte below 0x80 is the note, and the next four bytes are inst, vol, effect and param |
| XmPacking.CompactCellBack | src/common-xm.cpp:50-57 | a control byte with the high bit set pulls one byte per set flag into note, inst, vol, effect and param in that order; the others stay 0 |
| XmPacking.UnpackMisreadsHighNote | src/common-xm.cpp:49-65 | a cell with all fields nonzero and note 0x80 is written raw but read back as a different cell |
| XmPacking.NoFlagsReadNothing | src/common-xm.cpp:52-56 | with no flag set, the compact form reads no byte and leaves every field 0 |
| XmPacking.PackCell | src/common-xm.cpp:168-192 | a cell packs to one to six bytes |
| XmPacking.PackRow | src/common-xm.cpp:164-193 | a row packs to one to six bytes per cell |
| XmPacking.PatternBytes | src/common-xm.cpp:196-203 | a written pattern is its 9-byte header followed by its packed rows |
| XmPacking.PackRowEmpty | src/common-xm.cpp:164-193 | only a row without cells packs to no bytes |
| XmPacking.RowAt | src/common-xm.cpp:41-66 | a row read has exactly `channelCount` cells |
| XmPacking.PatternAt | src/common-xm.cpp:33-68 | every row of a read pattern holds exactly `channelCount` cells |
| XmPacking.PatternAtEmpty | src/common-xm.cpp:41-43 | a pattern whose packed size is 0 reads as `rowCount` rows of `channelCount` zero cells, and only its 9-byte header is consumed |
| XmPacking.PatternAtPacked | src/common-xm.cpp:33-68 | a pattern whose header declares packed data is the `rowCount` rows read right after its header |
| XmPacking.NoPackedData | src/common-xm.cpp:161-200 | a pattern with no packed bytes is all empty rows, so reading it back as `rowCount` empty rows loses nothing |
| XmPacking.UnpackPackRow | src/common-xm.cpp:45-66 | a row of packable cells reads back from its packed bytes, consuming them exactly |
| XmPacking.UnpackPackRows | src/common-xm.cpp:37-68 | rows of `channelCount` packable cells read back from their packed bytes |
| XmPacking.SavedHeaderBack | src/common-xm.cpp:196-203 | the written pattern header (size 9, packing 0, row count and packed size) reads back, and the packed data follows it |
| XmPacking.SavedHeaderFields | src/common-xm.cpp:199-200 | the written row count and packed size are the true ones when they fit 16 bits |
| XmPacking.PatternRoundTrip | src/common-xm.cpp:161-204 | an encodable pattern reads back from what the writer emits for it, which it consumes exactly |
| XmPacking.NoteOnlyRowSize | src/common-xm.cpp:183-192 | a note-only cell packs to 2 bytes, so a row of n of them packs to 2n bytes |
| XmPacking.WrappedPackedSize | src/common-xm.cpp:196-200 | one row of 32768 note-only cells packs to 65536 bytes, written as packed size 0, and reads back as one empty row |
| XmPacking.DecodeField | src/common-xm.cpp:52-56 | one flag test of the compact form reads one byte into that field and leaves the other fields unchanged |
| XmPacking.DecodeFlagged | src/common-xm.cpp:51-57 | the five flag tests after a control byte agree with `UnpackFlagged` |
| XmPacking.DecodeCell | src/common-xm.cpp:47-65 | the reader's cell decode agrees with `UnpackCell` |
| XmPacking.DecodeRow | src/common-xm.cpp:39-66 | the reader's channel loop agrees with `RowAt` |
| XmPacking.DecodePattern | src/common-xm.cpp:31-68 | the reader's row loop agrees with `PatternAt` |
| XmPacking.DecodePatterns | src/common-xm.cpp:27-69 | the reader's pattern loop reads each pattern where the previous one's packed data ended |
| XmPacking.PresenceOf | src/common-xm.cpp:168-173 | OR-ing the flags of the nonzero fields gives the presence bits, a value below 0x20 |
| XmPacking.PushIfNonzero | src/common-xm.cpp:187-191 | a field is appended exactly when it is nonzero |
| XmPacking.EncodeCell | src/common-xm.cpp:166-192 | the writer's cell encoding agrees with `PackCell` |
| XmPacking.EncodePattern | src/common-xm.cpp:161-204 | a written pattern is its header, with the row count and packed size cut to 16 bits, then its packed rows |
| XmFile.ZeroExtHeader | src/common-xm.cpp:82-85 | the extended header of a sample-less instrument has its fixed array sizes, all zero |
| XmFile.ExtHeaderAt | src/common-xm.cpp:82-85 | the extended header is read right after the instrument header only when `sampleCount > 0` |
| XmFile.SampleHeaderAt | src/common-xm.cpp:94 | a sample header read succeeds exactly when 40 bytes remain, and moves the stream by 40 |
| XmFile.SampleBodies | src/common-xm.cpp:98-113 | the sample bodies yield one body per header |
| XmFile.SamplesOf | src/common-xm.cpp:100-112 | sample i takes its fields from header i and its data from body i |
| XmFile.XmInstrumentAt | src/common-xm.cpp:77-113 | an instrument read consists of its 29-byte header, the sample headers at `instHeaderPos + headerSize`, then all the sample bodies |
| XmFile.DecodeSampleHeaders | src/common-xm.cpp:90-95 | every sample header is read, one after another, before any sample body |
| XmFile.DecodeSamples | src/common-xm.cpp:97-113 | the body loop reads `sampleLength` bytes per sample and pairs each body with its header |
| XmFile.SampleBodiesStop | src/common-xm.cpp:98-113 | a body read that fails stops the whole instrument with the same error |
| XmFile.DecodeInstrument | src/common-xm.cpp:75-113 | one turn of the instrument loop agrees with `XmInstrumentAt` |
| XmFile.DecodeInstruments | src/common-xm.cpp:71-114 | the instrument loop reads each instrument where the previous one's last sample body ended |
| XmFile.ReadModule | src/common-xm.cpp:10-115 | a read module has the header read at 0, the patterns read from `60 + headerSize`, and the instruments after the last pattern |
| XmFile.DecodeModule | src/common-xm.cpp:10-115 | the reader agrees with `ReadModule` |
| XmSave.Prefixed | src/common-xm.cpp:117-266 | output written before a step is kept both on success and on abort |
| XmSave.Padded | src/common-xm.cpp:128-129 | a name that fits is copied into its field, and the rest of the field is zero |
| XmSave.PaddedFull | src/common-xm.cpp:221-222 | a name that fills its field exactly is stored unchanged |
| XmSave.OrderTable | src/common-xm.cpp:152-157 | the 256-byte order table starts with the order; its tail is whatever the uninitialised header held |
| XmSave.SavedXmHeader | src/common-xm.cpp:119-158 | the header built by the writer has the fixed sizes of its name fields and its order table |
| XmSave.SavedInstrumentHeader | src/common-xm.cpp:208-226 | the instrument header built by the writer has a 22-byte name field |
| XmSave.InstrumentHead | src/common-xm.cpp:208-234 | the bytes before the sample headers number exactly the header size written: 29, plus 214 when there are samples |
| XmSave.SampleHeadersOutcome | src/common-xm.cpp:236-259 | the sample headers are written whole exactly when every sample name fits; otherwise the writer stops at the first long name, keeping the headers before it |
| XmSave.InstrumentWritten | src/common-xm.cpp:206-265 | an instrument is written whole (header, extended header if it has samples, sample headers, then sample data) exactly when its names fit |
| XmSave.InstrumentAborted | src/common-xm.cpp:216-254 | otherwise the writer stops at its first long name, instrument name first |
| XmSave.InstrumentsWritten | src/common-xm.cpp:206-265 | the instruments are written whole exactly when every one fits |
| XmSave.InstrumentsAborted | src/common-xm.cpp:206-265 | otherwise the writer stops at the first instrument that does not fit, after writing every one before it |
| XmSave.SavedSampleHeader | src/common-xm.cpp:238-256 | the sample header is well formed, stores the data length when it fits 32 bits, and holds the name zero-padded when it fits |
| XmSave.SaveModuleAsWritten | src/common-xm.cpp:117-266 | the writer stops before writing anything exactly when the module name, the tracker name or the order is too long; otherwise everything it writes starts with the header and all the patterns |
| XmSave.SaveModule | src/common-xm.cpp:117-266 | the corrected writer refuses a module whose counts do not fit before writing anything, and writes only modules whose counts fit |
| XmSave.SaveOutcome | src/common-xm.cpp:117-266 | the writer writes the whole module exactly when every name and the order fit; otherwise it stops at the first check that fails, with nothing written for the module's own three checks |
| XmSave.SampleHeadersStop | src/common-xm.cpp:250-254 | once a sample name stops the writer, the later samples change nothing |
| XmSave.InstrumentsStop | src/common-xm.cpp:216-254 | once an instrument stops the writer, the later instruments change nothing |
| XmSave.WriteSampleHeaders | src/common-xm.cpp:236-259 | the sample-header loop agrees with `SaveSampleHeaders` |
| XmSave.WriteSampleData | src/common-xm.cpp:261-264 | the sample-data loop writes every sample's data in order |
| XmSave.WriteInstrument | src/common-xm.cpp:208-264 | one instrument agrees with `SaveInstrument` |
| XmSave.WritePatterns | src/common-xm.cpp:161-204 | the pattern loop writes every pattern's header and packed data in order |
| XmSave.WriteInstruments | src/common-xm.cpp:206-265 | the instrument loop agrees with `SaveInstruments` |
| XmSave.Save | src/common-xm.cpp:117-266 | the writer agrees with `SaveModuleAsWritten` |
| XmSave.OrderTableBytes | src/common-xm.cpp:157-159 | the order table sits at bytes 80 to 336 of the written header |
| XmSave.OrderByteWritten | src/common-xm.cpp:152-159 | byte 80+i of a written module is entry i of the order table |
| XmSave.OrderTailUndefined | src/common-xm.cpp:119-157 | as written, two saves of the same module can differ in the order-table tail |
| XmSave.OrderTailZero | src/common-xm.cpp:152-157 | the corrected writer zero-fills the order-table tail |
| XmSave.SaveModuleOutcome | src/common-xm.cpp:117-266 | the corrected writer succeeds exactly when every count and name fits, and then writes the source's bytes with a zero order tail |
| XmRoundTrip.NormalSamples | src/common-xm.cpp:110 | each sample reads back with its name padded to the 22-byte field |
| XmRoundTrip.SampleHeadersBack | src/common-xm.cpp:92-95 | the written sample headers read back one after another |
| XmRoundTrip.SampleBodiesBack | src/common-xm.cpp:98-113 | the sample bodies read back as the samples' data when every length fits 32 bits |
| XmRoundTrip.SamplesOfSaved | src/common-xm.cpp:100-112 | the saved headers paired with the data give the samples back, with padded names |
| XmRoundTrip.InstrumentHeaderBack | src/common-xm.cpp:78 | the written instrument header reads back |
| XmRoundTrip.ExtHeaderBack | src/common-xm.cpp:82-85 | an instrument with samples has its extended header read back right after its header |
| XmRoundTrip.InstrumentLayout | src/common-xm.cpp:227-264 | a written instrument is its head, then its sample headers, then its sample data |
| XmRoundTrip.InstrumentRoundTrip | src/common-xm.cpp:73-114 | a written instrument whose names and counts fit reads back whole, up to the end of its last sample body |
| XmRoundTrip.InstrumentsBack | src/common-xm.cpp:71-114 | the written instruments read back one after another |
| XmRoundTrip.PatternsBack | src/common-xm.cpp:27-69 | the written patterns read back one after another |
| XmRoundTrip.ModuleLayout | src/common-xm.cpp:159-265 | a written module is the header at 0, the patterns right after it, then the instruments to the end |
| XmRoundTrip.ModuleRoundTrip | src/common-xm.cpp:10-115 | a module whose names and counts fit and whose patterns are encodable reads back as itself, with names padded, whatever the order tail holds |
| XmRoundTrip.SaveAsWrittenRoundTrip | src/common-xm.cpp:117-266 | whatever the source's writer manages to write then reads back as the module, when every count fits and every pattern's packed rows read back |
| XmRoundTrip.SaveRoundTrip | src/common-xm.cpp:117-266 | whatever the corrected writer writes reads back as the module, when its patterns are readable |
| Misc.Align | src/misc.cpp:4-12 | `falign` moves to a multiple of `align` less than `align` ahead, and does not move an aligned position |
| Misc.AlignLeast | src/misc.cpp:4-12 | the aligned position is the least multiple of `align` at or above the position |
| Misc.DigitValue | src/misc.cpp:22-37 | a character has a digit value exactly when it is 0-9, or A-F or a-f in base 16 |
| Misc.PositionalBound | src/misc.cpp:14-60 | n digits have a value below base^n |
| Misc.HornerIsPositional | src/misc.cpp:18-38 | the loop's running value multiplies by the base and adds each digit, giving the positional value of the digits |
| Misc.ParseDigits | src/misc.cpp:14-60 | the digit loop succeeds exactly when every character is a digit, with the positional value; otherwise it stops at the first non-digit |
| Misc.TryParseHex | src/misc.cpp:14-40 | exactly 0-9, A-F and a-f are accepted, giving the base-16 value; otherwise false at the first other character |
| Misc.TryParseDecimal | src/misc.cpp:42-60 | exactly 0-9 are accepted, giving the base-10 value; otherwise false at the first other character |
| Misc.TryParseNumber | src/misc.cpp:62-74 | digits after "0x" are parsed as hexadecimal when the string is longer than 2; anything else is parsed as decimal |
| Misc.NumberEdgeCases | src/misc.cpp:62-74 | "" parses as 0, "0x" and "0X1" are rejected, and "0x1F" is 31 |
| Gba2Xm.DecodedHeadersWellFormed | src/common-gba.cpp:15-23 | every instrument header of a decoded bank has its fixed-size arrays, so the conversion may take any decoded bank |
| Gba2Xm.HexDigit | src/gba2xm.cpp:28 | a value below 16 becomes the lower-case hex digit with that value |
| Gba2Xm.Hex02 | src/gba2xm.cpp:28 | `{:02x}` gives at least two lower-case hex digits, exactly two below 0x100 |
| Gba2Xm.HexDigitsValue | src/gba2xm.cpp:28 | the minimal hex digits of n parse back to n |
| Gba2Xm.Hex02Value | src/gba2xm.cpp:28 | the `{:02x}` text of n parses back to n |
| Gba2Xm.Ascii | src/gba2xm.cpp:28 | a text held as bytes has one byte per character, each the character's code |
| Gba2Xm.NamesCarryNumber | src/gba2xm.cpp:28 | the names are "Instrument " and "Sample " followed by the number in hex, which parses back; below 0x100 they are 13 and 9 bytes and fit their 22-byte fields |
| Gba2Xm.EnvelopeType | src/gba2xm.cpp:48-56 | the envelope type has bit 0x01 iff pointCount ≠ 0, bit 0x02 iff sustain ≠ 0xFF, bit 0x04 iff loopEnd ≠ 0xFF, and no other bit |
| Gba2Xm.EnvelopesCarried | src/gba2xm.cpp:32-63 | both envelopes (points, point counts, sustain, loop start, loop end) and the fadeout come through unchanged; each type is derived by `EnvelopeType`; the note table is all 0 |
| Gba2Xm.ConvertSample | src/gba2xm.cpp:65-81 | the sample type is 0x01 iff the loop length is nonzero, and 0 otherwise |
| Gba2Xm.Delta | src/gba2xm.cpp:84-87 | delta coding keeps the length of the data |
| Gba2Xm.Undelta | src/gba2xm.cpp:84-87 | the running sum mod 256 keeps the length of the data |
| Gba2Xm.UndeltaDelta | src/gba2xm.cpp:84-87 | the running sum mod 256 undoes the delta coding |
| Gba2Xm.DeltaUndelta | src/gba2xm.cpp:84-87 | the delta coding undoes the running sum, so coding is a bijection |
| Gba2Xm.DeltaEncode | src/gba2xm.cpp:84-87 | the backward in-place loop leaves the array equal to the delta coding of its old contents: each byte minus its original predecessor |
| Gba2Xm.ConvertInstruments | src/gba2xm.cpp:22-93 | one XM instrument per bank instrument, in bank order, instrument i converted with its index |
| Gba2Xm.ConvertedInstrument | src/gba2xm.cpp:22-92 | instrument i is named "Instrument NN" with NN = i+1, has type 0, and has exactly one sample iff the bank sample is non-empty; that sample's data decodes back to the bank sample |
| Gba2Xm.ConvertOne | src/gba2xm.cpp:24-92 | one instrument, with its sample coded in place in a buffer, agrees with `ConvertInstrument` |
| Gba2Xm.Convert | src/gba2xm.cpp:8-96 | the converter agrees with `Converted`: empty names, restart position from loopPoint, channel count, frequency flags 0, tickrate, tempo, order and patterns copied, and one converted instrument per bank instrument |
| Gba2Xm.ConvertedRoundTrip | src/gba2xm.cpp:8-96 | a converted song, once named, is saved and reads back as itself when its counts fit and its patterns are readable |
| Gba2Xm.CellsUseIff | src/gba2xm.cpp:156-158 | a row's cells use instrument k+1 exactly when some cell has inst = k+1 |
| Gba2Xm.RowsUseIff | src/gba2xm.cpp:155-158 | rows use instrument k+1 exactly when some cell of some row has inst = k+1 |
| Gba2Xm.PatternsUseIff | src/gba2xm.cpp:154-158 | patterns use instrument k+1 exactly when some cell of some row of some pattern has inst = k+1 |
| Gba2Xm.MarkCells | src/gba2xm.cpp:156-158 | the cell loop sets flag k when a cell plays instrument k+1, and keeps flags already set |
| Gba2Xm.MarkRows | src/gba2xm.cpp:155-158 | the row loop marks every instrument its cells play |
| Gba2Xm.MarkPatterns | src/gba2xm.cpp:154-158 | the pattern loop marks every instrument any cell plays |
| Gba2Xm.UsedInstruments | src/gba2xm.cpp:153-158 | the 256 flags start false, and flag k ends true exactly when some cell plays instrument k+1 |
| Gba2Xm.StrippedInstruments | src/gba2xm.cpp:159-161 | instrument i keeps its samples when some cell plays it and loses them otherwise; nothing else changes |
| Gba2Xm.StripUnusedSamples | src/gba2xm.cpp:152-161 | the strip pass agrees with `Stripped` |
| Gba2Xm.StrippedSamples | src/gba2xm.cpp:159-161 | stripping keeps each instrument's name, type and extended header, and its samples exactly when some cell uses it; the count and the patterns are unchanged |
| Gba2Xm.StripIdempotent | src/gba2xm.cpp:152-161 | stripping twice is stripping once |
| Gba2Xm.StrippedNamesFit | src/gba2xm.cpp:159-161 | stripping keeps every name within its field |
| Gba2Xm.StrippedCountsFit | src/gba2xm.cpp:159-161 | stripping keeps every count within its field |
| Gba2Xm.StrippedStillSaves | src/gba2xm.cpp:159-171 | a module that saves still saves after stripping, and readable patterns stay readable |
| Gba2Xm.ConvertedThenStripped | src/gba2xm.cpp:147-161 | after conversion and stripping, instrument i has a sample exactly when the bank sample is non-empty and some cell of the song plays instrument i+1 |

## Left out

- The command-line plumbing of the three programs is not modelled, since it has no algorithmic content. This covers argument checks, `fopen`/`fclose`, the cart four-character code read at 0xAC, the masking of the bank address to 24 bits, output file naming, the module and tracker names set by `main`, and every printed message. `ConvertedRoundTrip` takes the two names as parameters instead.
- The dump programs `gbaprint.cpp` and `xmprint.cpp` are not part of this model: they only format text.
- The `read`, `write`, `readArray` and `writeArray` templates of `misc.h` are not modelled. They become explicit reads over the byte sequence that fail on truncation, and writes that append bytes. Where the source's `read` would ignore a short read and use stale memory, the model fails.
- The model has no real `fseek` and no host file. A seek past the end changes only the position. The next read there fails if it asks for at least one byte, and a read of no bytes (an empty array) succeeds. Both programs that seek past the end (the scanner and the decoders) behave that way in C, apart from the values a short C read leaves behind.
- `exit(1)` on an over-long name or order is modelled as `Aborted(failure, written)`, carrying the bytes already written. The instrument and sample names are checked only when the writer reaches them, after the header and every pattern are out. A name failure is therefore not all-or-nothing, and the model follows the code here.
- Host endianness and struct padding are not modelled. Every record is little-endian with the byte layout its `static_assert` pins.
- Misc.TryParseHex: the 64-bit `int64_t` result is not modelled. Results are unbounded integers, so very long digit strings do not overflow.
- Misc.TryParseDecimal: the same; no 64-bit overflow.
- Misc.TryParseNumber: the partial value left in `*result` on failure is not stated. Its two parsers do state it.
- XmFile.ZeroExtHeader: an instrument without samples never has its extended header written. The reader gets it from `resize`, which zeroes it. The converter's `XMInstrument xmInst;` leaves it uninitialised. The model uses zeros in both places.
- XmFile.ReadModule: a song length above 256 makes the source copy past the end of the 256-byte order table, which is undefined. The model refuses it with `Err(UnsupportedLayout)`.
- Gba2Xm.StripUnusedSamples: requires at most 256 instruments. The source indexes a 256-entry table by instrument, so more would be out of bounds; a converted bank has at most 255.
- Gba2Xm.ConvertedRoundTrip: requires the patterns to be readable, that is, encodable cells and 16-bit counts. In a real bank nothing guarantees this.
- GbaFind.Scan: requires a file of at most 0xFFFF_FFFC bytes. The source steps a 32-bit `baseAddr` by 4, which never exceeds a longer file's length, so the loop would not end.
- Sample data is kept as the raw bytes that hold the signed 8-bit samples, and the delta coding works mod 256. This equals the source's `int8_t` subtraction with wrap-around.
- The instrument headers of a decoded bank hold their fixed-size arrays: 12 envelope points, and the 96-entry note table on the XM side. The conversion requires this (`HeadersWellFormed`), and every decoded bank meets it (`Gba2Xm.DecodedHeadersWellFormed`).
- Concurrency, floating point and foreign calls do not occur in this core.

## Findings

| source | as written | input that shows it | evidently intended | confidence | as-written member | corrected member |
|---|---|---|---|---|---|---|
| src/common-xm.cpp:119-157 | `xmHeader` is not initialised, and only the first `songLength` bytes of the 256-byte order table are set, so the table's tail is written from whatever memory held | any module with fewer than 256 order entries: two saves differ at byte 80 + songLength when the stack held different bytes | the tail of the order table written as zeros, so a save is a function of the module | not executed | XmSave.OrderTailUndefined | XmSave.OrderTailZero |
| src/common-xm.cpp:196-200 | `rowCount` and `packedDataSize` are stored in 16-bit fields without a check, so a larger value wraps | one pattern of a single row of 32768 cells holding only note 1: it packs to 65536 bytes, written as packed size 0, and is read back as one empty row | a module whose counts do not fit refused, and every written module read back as itself | not executed | XmPacking.WrappedPackedSize | XmSave.SaveModuleOutcome |
