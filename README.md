# w3grs replay decoder, modelled in Dafny

This project models the byte-level decoding pipeline of w3grs, a reader for
Warcraft III replay files. The pipeline runs in four stages:

- **The container walk** reads the raw file: a zero-terminated watermark, a
  reserved i32, the 16-byte header, the 20-byte subheader, and then data
  blocks up to the end of the file. Each block has a 12-byte block header
  followed by `size` content bytes.
- **Inflation** inflates every block and joins the outputs in stream order
  into one decompressed buffer.
- **The buffer decode** works through that buffer on one forward-moving
  cursor:
  - the host's player record;
  - the game name and the private string;
  - the masked map-settings string, de-masked by `decode_game_meta_data`
    and bit-decoded by `read_mapmetadata`;
  - the classic player loop (lead byte 22);
  - the `25` sentinel test that decides whether a Reforged record list
    follows;
  - the slot table and a short trailer.
- **The event stream** follows the trailer. `gamedata::parse` walks it one
  opcode at a time until the cursor reaches the end of the buffer.

Every read is specified twice:

- a pure function of (buffer, position) that yields the decoded value and
  the next position, or an error;
- an imperative method on a `Cursor` class (`const data`, `var pos`) that
  performs the source's reads one at a time and is proved to agree with
  that function.

The loops are `while`/`for` loops with invariants:

- The record loops are `read_blocks`, the zero-terminated readers, the
  classic and Reforged loops, the slot loop and the event dispatcher. Each
  invariant says the function of the starting position equals the records
  collected so far followed by the function of the current position.
- The de-mask pass keeps, for the input read so far, the length of the
  output and where each output byte came from.
- The bit reader keeps the value of the bits read so far.
- The inflate loop keeps the joined output of the blocks inflated so far.

Each `.unwrap()` that panics in the source becomes a failure of the model:

- `UnexpectedEof` when a read or seek passes the end of the buffer;
- `DecompressionFailure` when the inflate codec rejects a block.

Modules:

- `Bytes` is the cursor, little-endian integers and zero-terminated reads.
- `Container` is the header, subheader and data blocks.
- `MapMeta` is de-masking, bit fields and the settings record.
- `Roster` covers player records, the classic loop, Reforged records and
  slot records.
- `GameData` is the event-stream dispatcher and its handlers.
- `Replay` is the whole of `parse`.

The model follows the code where it reads values and drops them:

- The trailer after the slot table is a u32 (the random seed) and two u8,
  the second of them the start-spot count (`src/lib.rs:342-344`). All three
  are dropped.
- The chat handler reads the message text and drops it, so the model's
  event record carries only the opcode and the number of bytes spanned.

## Model

| member | source | states |
|---|---|---|
| Bytes.LEOfToLE | src/lib.rs:296 | decoding the n-byte little-endian encoding of any v < 256^n gives v back |
| Bytes.ToLEOfLE | src/lib.rs:296 | encoding a decoded byte string at its own width gives the same bytes back, so the little-endian reading is injective per width |
| Bytes.Signed | src/lib.rs:157 | two's-complement reading of an n-byte value: in [-2^(8n-1), 2^(8n-1)), non-negative exactly when the unsigned value is below 2^(8n-1), and either equal to it or 2^(8n) less |
| Bytes.BytesAt | src/lib.rs:229 | an n-byte read succeeds iff n bytes remain; it yields exactly `data[pos..pos+n]` and advances by n |
| Bytes.U8At | src/lib.rs:96 | a u8 read succeeds iff a byte remains, yields that byte and advances by one |
| Bytes.UIntAt | src/lib.rs:224 | an unsigned n-byte read succeeds iff n bytes remain; its value is the little-endian number of those bytes, below 256^n, and it advances by n |
| Bytes.SIntAt | src/lib.rs:121-124 | a signed n-byte read succeeds iff n bytes remain, advances by n, and its value is the two's-complement reading `Signed(LE(data[pos..pos+n]), n)`, within the signed range of n bytes |
| Bytes.SeekAt | src/lib.rs:143 | `set_rpos` as a checked seek: it succeeds iff the target is within the buffer, and then the position is the target |
| Bytes.ZeroTerminatedAt | src/lib.rs:94-118 | on success the cursor advances by the returned length + 1, and the byte just before the new position is the 0x00 terminator |
| Bytes.ZeroTerminatedContent | src/lib.rs:110-118 | the returned bytes are exactly the input bytes before the terminator, and none of them is 0x00 |
| Bytes.ZeroTerminatedOk | src/lib.rs:94-118 | the read succeeds iff some 0x00 byte lies at or after the start; with none it fails |
| Bytes.ZeroTerminatedPrefix | src/lib.rs:94-118 | the read depends only on the bytes up to and including its terminator |
| Bytes.ZeroTerminatedTruncated | src/lib.rs:94-118 | cutting the buffer anywhere before the terminator makes the read fail; it does not return a shorter string |
| Bytes.Cursor.constructor | src/lib.rs:295 | a new cursor over the given bytes, at position 0 |
| Bytes.Cursor.ReadBytes | src/lib.rs:229 | the in-place n-byte read agrees with BytesAt, in value and new position |
| Bytes.Cursor.ReadU8 | src/lib.rs:96 | the in-place u8 read agrees with U8At |
| Bytes.Cursor.ReadUInt | src/lib.rs:224 | `read_u16`/`read_u32`/`read_u64` agree with UIntAt |
| Bytes.Cursor.ReadSInt | src/lib.rs:121-124 | `read_i8`/`read_i16`/`read_i32` agree with SIntAt |
| Bytes.Cursor.Seek | src/lib.rs:143 | the in-place seek agrees with SeekAt |
| Bytes.Cursor.ReadZeroTerminated | src/lib.rs:94-118 | the byte-by-byte loop until a 0x00 agrees with ZeroTerminatedAt |
| Container.HeaderAt | src/lib.rs:120-133 | the header is four little-endian i32 at offsets 0, 4, 8, 12; it occupies exactly 16 bytes and fails iff fewer remain |
| Container.SubheaderAt | src/lib.rs:135-154 | the subheader is the 4 identifier bytes, an i32 version, an i16 build number, 2 skipped bytes, an i32 length and 4 skipped bytes; it occupies exactly 20 bytes and fails iff fewer remain |
| Container.BlockAt | src/lib.rs:224-235 | a block consumes exactly 12 + size bytes; `size` is the u16 at offset 0, the decompressed size is the u16 at offset 4, and the content is the `size` bytes after the 12-byte block header; it fails iff they do not fit |
| Container.BlocksFrom | src/lib.rs:221-238 | on success the loop ends at the buffer length, the blocks span exactly the rest of the buffer, and each block's content has length `size` |
| Container.BlocksTile | src/lib.rs:221-238 | the returned blocks tile the rest of the buffer: each block header starts where the previous content ends |
| Container.TiledInOrder | src/lib.rs:235 | blocks are in stream order: block i lies at the sum of the earlier blocks' spans, with its content right after its 12-byte block header |
| Container.ContainerOf | src/lib.rs:294-301 | on success the watermark string was read, the header is at 4 bytes past it, the subheader 16 bytes later, and the blocks run from 20 bytes after that to the end of the file |
| Container.ReadHeader | src/lib.rs:120-133 | the four in-place i32 reads agree with HeaderAt |
| Container.ReadSubheader | src/lib.rs:135-154 | the in-place reads and the two seeks agree with SubheaderAt |
| Container.ReadBlocks | src/lib.rs:221-238 | the `while rpos < len` loop agrees with BlocksFrom |
| Container.ParseContainer | src/lib.rs:294-301 | the container walk over the raw bytes yields exactly ContainerOf |
| MapMeta.Unmask | src/lib.rs:84-88 | the rule for one payload byte: decremented by one (wrapping at 0) when its mask bit is clear, unchanged otherwise; reference definition, no contract of its own |
| MapMeta.DeMasked | src/lib.rs:76-92 | reference definition of the de-mask: each group of 8 loses its leading mask byte and its payload bytes are unmasked; DeMaskedIndex, MaskBitZeroIgnored and NoUnderflow state its properties, DeMask is proved equal to it |
| MapMeta.UnmaskGroup | src/lib.rs:84-88 | each payload byte of a group is decremented iff its mask bit (its index within the group) is clear |
| MapMeta.SourceIndexClosed | src/lib.rs:80-83 | output byte j comes from input index 8*(j/7) + j%7 + 1, which is never a mask position |
| MapMeta.DeMaskedIndex | src/lib.rs:76-92 | the output has length n - ceil(n/8); output byte j is input byte SourceIndex(j), not a mask index, de-masked with the mask byte heading its group |
| MapMeta.MaskBitZeroIgnored | src/lib.rs:84 | inputs that differ only in bit 0 of their mask bytes de-mask to the same output, so bit 0 is never consulted |
| MapMeta.NoUnderflow | src/lib.rs:85 | when no input byte is 0, each output byte equals its source byte minus 1 exactly when the mask bit is clear, as integers (no wrap) |
| MapMeta.DeMask | src/lib.rs:76-92 | the one-pass loop with a running mask byte computes exactly DeMasked |
| MapMeta.BitsAt | src/lib.rs:182 | an n-bit read is below 2^n |
| MapMeta.BitReader.constructor | src/lib.rs:178 | a bit reader at bit 0 of the given bytes |
| MapMeta.BitReader.ReadBit | src/lib.rs:181 | returns bit `bit` of the stream (most significant first in each byte) and advances by one bit |
| MapMeta.BitReader.ReadBits | src/lib.rs:182 | returns the next n bits as a number, first bit most significant, and advances by n bits |
| MapMeta.FieldsOf | src/lib.rs:180-197 | reference definition of the speed and the 24 flag bits read most significant bit first, with `fixedTeams` the 2-bit group compared with 3; FieldLayout states where each field sits |
| MapMeta.MapMetadataOf | src/lib.rs:177-219 | the decode succeeds iff at least 13 bytes precede two zero-terminated strings starting at offset 13; speed is byte 0; the map path starts at offset 13 and the creator right after its terminator |
| MapMeta.FieldLayout | src/lib.rs:180-197 | the flags occupy exactly bytes 1..3 at the stated bit positions; `fixedTeams` holds iff the 2-bit group at line 189 equals 3 |
| MapMeta.StringsIndependentOfFields | src/lib.rs:198-202 | changing bytes 0..12 (speed, flags, reserved bytes, checksum) changes neither whether the decode succeeds nor the two strings |
| MapMeta.ReadFirstFlagByte | src/lib.rs:181-187 | reads bits 0-7 into teams-together, observer mode (2 bits), default visibility, always visible, map explored and hide terrain, and skips bit 7 |
| MapMeta.ReadSecondFlagByte | src/lib.rs:189-190 | fixed teams is whether bits 8-9 equal 3; bits 10-15 are skipped |
| MapMeta.ReadThirdFlagByte | src/lib.rs:192-197 | reads referees (bit 17), random races (21), random hero (22) and full shared unit control (23) |
| MapMeta.ReadFields | src/lib.rs:180-197 | the 24 bit reads yield exactly FieldsOf of the speed and the three flag bytes |
| MapMeta.ReadMapMetadata | src/lib.rs:177-219 | `read_mapmetadata` on its own cursor yields exactly MapMetadataOf |
| Roster.PlayerRecordAt | src/lib.rs:156-169 | a player record spans at least 3 bytes and the id is an i8 |
| Roster.PlayerRecordLayout | src/lib.rs:156-169 | the record advances by 1 + (\|name\|+1) + 1 + k, where k is 1, 2 or 8 for tags 1, 2, 8 and 0 otherwise; the id is the first byte read as i8; the name is the zero-free run after it |
| Roster.ReadPlayerRecord | src/lib.rs:156-169 | `read_playerrecord` agrees with PlayerRecordAt |
| Roster.ClassicEntryAt | src/lib.rs:326-328 | one classic entry succeeds iff the player record does and 4 bytes follow it; its value is PlayerRecordAt's record and it ends exactly 4 bytes after that record |
| Roster.ReadClassicEntry | src/lib.rs:326-328 | the in-place entry read agrees with ClassicEntryAt |
| Roster.ClassicFrom | src/lib.rs:325-329 | on success the loop consumed its terminating lead byte, which is not 22; a first lead byte other than 22 yields no record and consumes one byte |
| Roster.ClassicEmpty | src/lib.rs:325 | the loop yields no record iff the first lead byte is not 22 |
| Roster.ClassicCons | src/lib.rs:325-329 | a lead byte of 22 yields one record, the entry after it, followed by the records read from the end of that entry |
| Roster.ReadClassicRecords | src/lib.rs:325-329 | the `while read_u8() == 22` loop agrees with ClassicFrom |
| Roster.ReforgedRecordAt | src/lib.rs:245-255 | after each record the position is the one just after the length byte plus `record_length`, whatever the name and clan lengths |
| Roster.ReforgedRecordLayout | src/lib.rs:245-254 | the id is the byte after the skipped byte; the name and clan are the length-prefixed runs at their offsets, each fitting in the buffer |
| Roster.ReforgedFrom | src/lib.rs:244-262 | on success the loop consumed at least its final lead byte and stays within the buffer |
| Roster.ReforgedStops | src/lib.rs:244 | the loop ends without a further record iff the lead byte is 25 or 24 records were read, and that lead byte is consumed either way |
| Roster.ReforgedAt | src/lib.rs:240-264 | `parse_reforged_metadata` skips 12 bytes: its first lead byte is the one at pos + 12, and the list is empty iff that byte is 25 |
| Roster.ReforgedBound | src/lib.rs:243-256 | from attempt count a, the loop returns at most 24 - a records |
| Roster.ReforgedAtBound | src/lib.rs:240-264 | `parse_reforged_metadata` returns at most 24 records |
| Roster.ReadPrefixed | src/lib.rs:250-251 | a length byte and that many bytes |
| Roster.ReadReforgedRecord | src/lib.rs:245-255 | the record's reads in source order, then the seek to the record end, agree with ReforgedRecordAt |
| Roster.ReadReforgedRecords | src/lib.rs:243-262 | the loop with its attempt counter agrees with ReforgedFrom |
| Roster.ParseReforgedMetadata | src/lib.rs:240-264 | `parse_reforged_metadata` agrees with ReforgedAt |
| Roster.SlotOf | src/lib.rs:266-285 | reference definition of the 9-byte slot layout: player id at offset 0, status at 2, team at 4, color at 5, race at 6, AI strength at 7, handicap at 8; offsets 1 and 3 (the computer flag) are dropped |
| Roster.SlotRecordAt | src/lib.rs:266-285 | a slot record consumes exactly 9 bytes and fails iff fewer remain |
| Roster.SlotsAt | src/lib.rs:338-341 | `count` slots succeed iff 9*count bytes remain; they consume exactly that many and return count records |
| Roster.SlotsIndexed | src/lib.rs:266-285 | slot i is the 9 bytes at pos + 9i: player id, skipped byte, status, computer flag (dropped), team, color, race, AI strength, handicap |
| Roster.ReadSlotRecord | src/lib.rs:266-285 | the nine u8 reads in source order agree with SlotRecordAt |
| Roster.ReadSlotRecords | src/lib.rs:338-341 | the `for x in 0..count` loop agrees with SlotsAt |
| GameData.RecordAt | src/gamedata/mod.rs:7-19 | each record consumes at least its opcode byte, so the cursor only moves forward, and stays within the buffer |
| GameData.EventsFrom | src/gamedata/mod.rs:5-21 | on success the final position equals the buffer length |
| GameData.EventsCover | src/gamedata/mod.rs:6-20 | the records tile the rest of the buffer exactly, and each spans at least one byte |
| GameData.FixedSizes | src/gamedata/mod.rs:9-17 | 0x1a, 0x1b, 0x1c consume 1+4 bytes, 0x23 consumes 1+10, 0x2f consumes 1+8, 0x17 consumes 1+13; each fails iff its payload does not fit |
| GameData.TimeslotSize | src/gamedata/mod.rs:28-31 | 0x1f consumes 1 + 2 + L bytes, L the little-endian u16 after the opcode; it fails iff those do not fit |
| GameData.Unknown22Size | src/gamedata/mod.rs:23-26 | 0x22 consumes 1 + 1 + L bytes, L the byte after the opcode; it fails iff those do not fit |
| GameData.ChatSize | src/gamedata/mod.rs:44-51 | 0x20 succeeds iff the message start (3 bytes on, 4 more iff the flags are 0x20) is in the buffer and a zero-terminated message follows it; it then consumes opcode, declared length, flags, the optional 4 bytes, the message and its terminator |
| GameData.ChatIgnoresDeclaredLength | src/gamedata/mod.rs:45 | changing the declared length byte of a chat message changes nothing about the record |
| GameData.OtherOpcodeSize | src/gamedata/mod.rs:18 | any other opcode consumes only its own byte |
| GameData.RecordTruncated | src/gamedata/mod.rs:25 | a record cut short by the end of the buffer is a failure, not a silent stop |
| GameData.ConsumeBytes | src/gamedata/mod.rs:33-35 | succeeds iff n bytes remain, and then advances by n |
| GameData.ParseTimeslot | src/gamedata/mod.rs:28-31 | reads a u16 L and then L bytes, or fails when either does not fit |
| GameData.ParseUnknown22 | src/gamedata/mod.rs:23-26 | reads a u8 L and then L bytes, or fails when either does not fit |
| GameData.ParseLeaveGame | src/gamedata/mod.rs:37-42 | consumes exactly 13 bytes, or fails when fewer remain |
| GameData.ParseChatMessage | src/gamedata/mod.rs:44-51 | consumes the length and flags bytes, 4 bytes iff the flags are 0x20, then the zero-terminated message |
| GameData.ParseRecord | src/gamedata/mod.rs:7-19 | the opcode read and its handler agree with RecordAt |
| GameData.Parse | src/gamedata/mod.rs:5-21 | the `while rpos < len` dispatcher loop agrees with EventsFrom |
| Replay.InflateAll | src/lib.rs:302-308 | if inflation fails, the error is a decompression failure |
| Replay.InflateAllJoins | src/lib.rs:302-308 | inflation succeeds iff every block inflates, and then yields the blocks' outputs joined in stream order |
| Replay.DecompressionFailsFrom | src/lib.rs:306 | once a prefix of the blocks fails to inflate, the whole list fails |
| Replay.InflateBlocks | src/lib.rs:302-308 | the loop that inflates and appends block by block yields exactly InflateAll |
| Replay.SkipAt | src/lib.rs:322-324 | bytes read and dropped succeed iff they remain, and advance by their count |
| Replay.EncodedSettingsAt | src/lib.rs:319-324 | the settings are `read_mapmetadata(decode_game_meta_data(s))` for the zero-terminated string s at pos, and the stage ends exactly 12 bytes after s's terminator |
| Replay.SettingsAt | src/lib.rs:317-324 | two zero-terminated strings (game name, private string) are read, and the settings are EncodedSettingsAt of the third string, right after them |
| Replay.PreambleAt | src/lib.rs:310-324 | the host is the player record at offset 5 (after the dropped u32 and u8), and the settings and end position are SettingsAt's from the end of that record |
| Replay.ReforgedBranchAt | src/lib.rs:330-335 | the sentinel byte is always consumed, by the branch test or by the Reforged decode |
| Replay.SlotTableAt | src/lib.rs:336-341 | after 2 skipped bytes, the count byte gives exactly the number of slot records returned |
| Replay.LobbyAt | src/lib.rs:325-341 | the roster and the slot table consume at least one byte and end inside the buffer |
| Replay.TrailerAt | src/lib.rs:342-347 | the 6 trailing bytes are present, and the event stream then ends exactly at the end of the buffer |
| Replay.RosterExclusive | src/lib.rs:325-335 | the byte after the classic loop (the rewound lead byte) is not 22; a non-empty Reforged list means it was not 25; if it is 25 then it is consumed and no Reforged list is read |
| Replay.SlotCount | src/lib.rs:336-341 | the slot count is the byte 2 after the Reforged branch, and exactly that many slots are returned |
| Replay.PreambleMetadata | src/lib.rs:312-324 | the settings are the third zero-terminated string after the host record at offset 5, de-masked and read by `read_mapmetadata`, and the preamble ends 12 bytes after that string's terminator |
| Replay.GameMetadata | src/lib.rs:321 | the decode's `metadata` is the preamble's settings |
| Replay.LobbyReforgedBound | src/lib.rs:330-335 | whichever branch the sentinel takes, at most 24 Reforged records are kept |
| Replay.GameRoster | src/lib.rs:314-335 | the player records are the host record followed by one record per classic entry, and at most 24 Reforged records are kept |
| Replay.GameOf | src/lib.rs:310-347 | reference definition of the buffer decode: preamble, lobby and trailer in order; the result's players are the host followed by the classic records; no contract of its own, ParseDecompressed is proved equal to it |
| Replay.ReplayOf | src/lib.rs:294-358 | reference definition of the whole decode: container walk, inflation of all blocks in order, buffer decode; ReplayStages and CorruptBlockFails state its properties, ParseReplay is proved equal to it |
| Replay.TrailerCovers | src/gamedata/mod.rs:6-20 | after the trailer, the event records tile the rest of the buffer, each at least one byte |
| Replay.GameEndsWithEvents | src/lib.rs:342-347 | a successful decode has its event stream, after the 6 trailer bytes, running to the end of the buffer |
| Replay.ReplayStages | src/lib.rs:294-358 | a successful decode is the container walk, every block inflated, and the buffer decode of the outputs joined in order; header and subheader come from the container |
| Replay.CorruptBlockFails | src/lib.rs:303-308 | one block the codec rejects makes the whole decode fail with a decompression failure |
| Replay.ReadEncodedSettings | src/lib.rs:319-324 | the string read, the de-mask, `read_mapmetadata` and three u32 reads agree with EncodedSettingsAt |
| Replay.SkipWords | src/lib.rs:322-324 | three u32 reads consume 12 bytes, or fail |
| Replay.ReadSettings | src/lib.rs:317-324 | the in-place reads agree with SettingsAt |
| Replay.ReadPreamble | src/lib.rs:310-324 | the in-place reads from position 0 agree with PreambleAt |
| Replay.ReadReforgedBranch | src/lib.rs:332-335 | the sentinel read, the rewind and the Reforged decode agree with ReforgedBranchAt |
| Replay.ReadSlotTable | src/lib.rs:336-341 | the seek, the count read and the slot loop agree with SlotTableAt |
| Replay.ReadLobby | src/lib.rs:325-341 | the classic loop, the one-byte rewind, the branch and the slot table agree with LobbyAt |
| Replay.ReadTrailer | src/lib.rs:342-347 | the trailer reads and the event dispatcher agree with TrailerAt |
| Replay.ParseDecompressed | src/lib.rs:310-347 | the decode of a decompressed buffer yields exactly GameOf |
| Replay.ParseReplay | src/lib.rs:294-358 | the decode of the raw file bytes, with the given codec, yields exactly ReplayOf |

## Left out

- File I/O. The entry points take the file's bytes (`ParseReplay`) or the decompressed buffer (`ParseDecompressed`) in place of a file name. Opening and reading the file (src/lib.rs:290-292) is I/O.
- Zlib inflation. The codec is foreign, so it is a parameter `inflate` mapping a block's content to its output or to `Corrupt`; the model only proves that the buffer is the in-order join of the per-block outputs.
- Timing and printing (`Instant::now`, `elapsed`, `println!`), which have no effect on the result.
- UTF-8 decoding. Names, clans, the map path, the creator and the game identifier are byte sequences. The lossy conversion of `read_zero_terminated` and the panicking `from_utf8(..).expect` of `read_subheader` and `read_string_of_length` are not modelled. A non-UTF-8 identifier, name or clan that panics in the source decodes normally here.
- The bit order of bytebuffer's `read_bit`/`read_bits`. That library is not part of this model. The model assumes the first bit read is the most significant bit of each byte.
- `set_rpos` clamping. A seek beyond the end of the buffer is a failure here, where bytebuffer would clamp. Every such seek in the source is followed by a read that fails anyway, except the subheader's trailing 4-byte skip.
- Values the source reads and drops are not part of any result: the watermark, the reserved fields, the game name, the private string, the checksum, the slot computer flag, the random seed and the start-spot count. Only their byte counts are modelled.
- MapMeta.Unmask: a decrement of a 0 byte wraps to 255, as an unchecked `u8` subtraction does in a release build; a debug build would panic instead. `NoUnderflow` shows that it cannot happen on the input `parse` passes, since a zero-terminated read yields no 0 byte.
- GameData.Parse: `gamedata::parse` returns nothing. The model returns, for each event, its opcode and the number of bytes it spans, so its contract can say how far each handler reads. The chat text and the leave-game fields are dropped as in the source.
- The fixture-based test in src/lib.rs needs a replay file that is not part of this model.
