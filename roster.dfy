/**
 * The player roster in the decompressed buffer: classic player records,
 * the Reforged player list and the lobby slot records (src/lib.rs,
 * `read_playerrecord`, `parse_reforged_metadata`, `parse_slot_record` and
 * the loops of `parse` around them).
 */
module Roster {
  import opened Bytes

  /** A classic player record: a signed id and the player's name. */
  datatype PlayerRecord = PlayerRecord(id: int, name: seq<byte>)

  /** A Reforged player record; name and clan are raw bytes (UTF-8 is not modelled). */
  datatype ReforgedPlayerRecord = ReforgedPlayerRecord(id: byte, name: seq<byte>, clan: seq<byte>)

  /** One lobby slot; the computer flag is read but not kept, as in the source. */
  datatype SlotRecord = SlotRecord(
    playerId: byte,
    status: byte,
    teamId: byte,
    color: byte,
    raceFlag: byte,
    aiStrength: byte,
    handicapFlag: byte)

  // ---------------------------------------------------------------------
  // read_playerrecord

  /** The number of extra bytes that follow the record's tag byte. */
  function TagExtra(tag: byte): nat
  {
    if tag == 1 then 1 else if tag == 2 then 2 else if tag == 8 then 8 else 0
  }

  /**
   * `read_playerrecord`: an i8 id, the zero-terminated name, a tag byte and
   * 1, 2 or 8 further bytes for the tags 1, 2 and 8 (none for other tags).
   */
  function PlayerRecordAt(data: seq<byte>, pos: nat): (r: Result<Parsed<PlayerRecord>>)
    ensures r.Ok? ==> pos + 3 <= r.value.next <= |data| && -128 <= r.value.value.id < 128
  {
    if pos >= |data| then Err(UnexpectedEof)
    else
      var name :- ZeroTerminatedAt(data, pos + 1);
      var tagAt := name.next;
      if tagAt >= |data| || tagAt + 1 + TagExtra(data[tagAt]) > |data| then Err(UnexpectedEof)
      else Ok(Parsed(PlayerRecord(Signed(data[pos] as nat, 1), name.value), tagAt + 1 + TagExtra(data[tagAt])))
  }

  /**
   * A record read advances by `1 + (|name| + 1) + 1 + k`, where `k` is the
   * tag's extra byte count; the id is the first byte as an i8 and the name
   * is the zero-free run after it.
   */
  lemma PlayerRecordLayout(data: seq<byte>, pos: nat)
    requires PlayerRecordAt(data, pos).Ok?
    ensures var record := PlayerRecordAt(data, pos).value;
      var name := record.value.name;
      var tagAt := pos + 1 + |name| + 1;
      && tagAt < |data|
      && record.next == pos + 1 + (|name| + 1) + 1 + TagExtra(data[tagAt])
      && record.value.id == Signed(data[pos] as nat, 1)
      && data[pos + 1..pos + 1 + |name|] == name && NoZero(name)
      && data[tagAt - 1] == 0
  {
    ZeroTerminatedContent(data, pos + 1);
  }

  method ReadPlayerRecord(cur: Cursor) returns (r: Result<PlayerRecord>)
    requires cur.Valid()
    modifies cur
    ensures cur.Valid() && cur.Follows(r, PlayerRecordAt(cur.data, old(cur.pos)))
  {
    var id :- cur.ReadSInt(1);
    var name :- cur.ReadZeroTerminated();
    var addData :- cur.ReadU8();
    if addData == 1 {
      var _ :- cur.ReadU8();
    } else if addData == 2 {
      var _ :- cur.ReadUInt(2);
    } else if addData == 8 {
      var _ :- cur.ReadUInt(8);
    }
    return Ok(PlayerRecord(id, name));
  }

  // ---------------------------------------------------------------------
  // The classic loop of `parse`

  /** One entry of the classic loop: a player record and a skipped u32. */
  function ClassicEntryAt(data: seq<byte>, pos: nat): (r: Result<Parsed<PlayerRecord>>)
    ensures r.Ok? ==> pos + 7 <= r.value.next <= |data|
    ensures r.Ok? <==> PlayerRecordAt(data, pos).Ok? && PlayerRecordAt(data, pos).value.next + 4 <= |data|
    ensures r.Ok? ==> r.value.value == PlayerRecordAt(data, pos).value.value && r.value.next == PlayerRecordAt(data, pos).value.next + 4
  {
    var record :- PlayerRecordAt(data, pos);
    if record.next + 4 > |data| then Err(UnexpectedEof) else Ok(Parsed(record.value, record.next + 4))
  }

  method ReadClassicEntry(cur: Cursor) returns (r: Result<PlayerRecord>)
    requires cur.Valid()
    modifies cur
    ensures cur.Valid() && cur.Follows(r, ClassicEntryAt(cur.data, old(cur.pos)))
  {
    var record :- ReadPlayerRecord(cur);
    var _ :- cur.ReadUInt(4);
    return Ok(record);
  }

  /**
   * `while read_u8() == 22 { read_playerrecord; read_u32 }`: every lead
   * byte is consumed, including the one that ends the loop.
   */
  function ClassicFrom(data: seq<byte>, pos: nat): (r: Result<Parsed<seq<PlayerRecord>>>)
    ensures r.Ok? ==> pos < r.value.next <= |data| && data[r.value.next - 1] != 22
    ensures pos < |data| && data[pos] != 22 ==> r == Ok(Parsed([], pos + 1))
    decreases |data| - pos
  {
    if pos >= |data| then Err(UnexpectedEof)
    else if data[pos] != 22 then Ok(Parsed([], pos + 1))
    else
      var entry :- ClassicEntryAt(data, pos + 1);
      Prepend([entry.value], ClassicFrom(data, entry.next))
  }

  /**
   * A lead byte of 22 yields one record: the entry after it, followed by
   * whatever the loop reads from the end of that entry on.
   */
  lemma ClassicCons(data: seq<byte>, pos: nat)
    requires ClassicFrom(data, pos).Ok? && data[pos] == 22
    ensures ClassicEntryAt(data, pos + 1).Ok?
    ensures var entry := ClassicEntryAt(data, pos + 1).value;
      && ClassicFrom(data, entry.next).Ok?
      && ClassicFrom(data, pos).value.value == [entry.value] + ClassicFrom(data, entry.next).value.value
      && ClassicFrom(data, pos).value.next == ClassicFrom(data, entry.next).value.next
  {}

  /** The loop yields no record exactly when the first lead byte is not 22. */
  lemma ClassicEmpty(data: seq<byte>, pos: nat)
    requires ClassicFrom(data, pos).Ok?
    ensures ClassicFrom(data, pos).value.value == [] <==> data[pos] != 22
  {}

  /** One more entry read: the records so far grow by it and the rest starts after it. */
  lemma ClassicAdvance(data: seq<byte>, start: nat, records: seq<PlayerRecord>, here: nat, entry: Parsed<PlayerRecord>)
    requires here < |data| && data[here] == 22
    requires ClassicEntryAt(data, here + 1) == Ok(entry)
    requires ClassicFrom(data, start) == Prepend(records, ClassicFrom(data, here))
    ensures ClassicFrom(data, start) == Prepend(records + [entry.value], ClassicFrom(data, entry.next))
  {
    assert ClassicFrom(data, here) == Prepend([entry.value], ClassicFrom(data, entry.next));
    PrependTwice(records, [entry.value], ClassicFrom(data, entry.next));
  }

  lemma ClassicStepErr(data: seq<byte>, here: nat, e: Error)
    requires here < |data| && data[here] == 22
    requires ClassicEntryAt(data, here + 1) == Err(e)
    ensures ClassicFrom(data, here) == Err(e)
  {}

  method ReadClassicRecords(cur: Cursor) returns (r: Result<seq<PlayerRecord>>)
    requires cur.Valid()
    modifies cur
    ensures cur.Valid() && cur.Follows(r, ClassicFrom(cur.data, old(cur.pos)))
  {
    ghost var start := cur.pos;
    ghost var leadAt := cur.pos;
    var records: seq<PlayerRecord> := [];
    PrependEmpty(ClassicFrom(cur.data, start));
    var lead :- cur.ReadU8();
    while lead == 22
      invariant cur.Valid() && cur.pos == leadAt + 1 && cur.data[leadAt] == lead
      invariant ClassicFrom(cur.data, start) == Prepend(records, ClassicFrom(cur.data, leadAt))
      decreases |cur.data| - cur.pos
    {
      var entry := ReadClassicEntry(cur);
      if entry.Err? {
        ClassicStepErr(cur.data, leadAt, entry.error);
        return Err(entry.error);
      }
      ClassicAdvance(cur.data, start, records, leadAt, Parsed(entry.value, cur.pos));
      records := records + [entry.value];
      leadAt := cur.pos;
      lead :- cur.ReadU8();
    }
    assert records + [] == records;
    return Ok(records);
  }

  // ---------------------------------------------------------------------
  // parse_reforged_metadata

  /** The bytes `data[a..b]`, index by index. */
  function Field(data: seq<byte>, a: nat, b: nat): seq<byte>
    requires a <= b <= |data|
  {
    seq(b - a, i requires 0 <= i < b - a => data[a + i])
  }

  lemma FieldIsSlice(data: seq<byte>, a: nat, b: nat)
    requires a <= b <= |data|
    ensures Field(data, a, b) == data[a..b]
  {}

  /**
   * The layout of one Reforged record after its lead byte: a length byte
   * `L`, then a skipped byte, the id, a skipped byte, the name length and the
   * name, a skipped byte, the clan length and the clan. The record ends `L`
   * bytes after the length byte wherever the fields ended (a seek, which
   * moves back when the fields overran `L`).
   */
  function ReforgedRecordAt(data: seq<byte>, pos: nat): (r: Result<Parsed<ReforgedPlayerRecord>>)
    ensures r.Ok? ==> pos < |data| && r.value.next == pos + 1 + data[pos] as nat <= |data|
  {
    if pos + 5 > |data| then Err(UnexpectedEof)
    else
      var nameEnd := pos + 5 + data[pos + 4] as nat;
      if nameEnd + 2 > |data| then Err(UnexpectedEof)
      else
        var clanEnd := nameEnd + 2 + data[nameEnd + 1] as nat;
        var recordEnd := pos + 1 + data[pos] as nat;
        if clanEnd > |data| || recordEnd > |data| then Err(UnexpectedEof)
        else Ok(Parsed(ReforgedPlayerRecord(data[pos + 2], Field(data, pos + 5, nameEnd), Field(data, nameEnd + 2, clanEnd)), recordEnd))
  }

  /** The number of records the Reforged loop reads at most. */
  const MaxReforgedRecords: nat := 24

  /**
   * The loop `while read_u8() != 25 && attempts < 24`: the lead byte is read
   * (and consumed) before the cap is checked, so even the stop at the cap
   * needs one more byte.
   */
  function ReforgedFrom(data: seq<byte>, pos: nat, attempts: nat): (r: Result<Parsed<seq<ReforgedPlayerRecord>>>)
    requires attempts <= MaxReforgedRecords
    ensures r.Ok? ==> pos < r.value.next <= |data|
    decreases MaxReforgedRecords - attempts
  {
    if pos >= |data| then Err(UnexpectedEof)
    else if data[pos] == 25 || attempts >= MaxReforgedRecords then Ok(Parsed([], pos + 1))
    else
      var record :- ReforgedRecordAt(data, pos + 1);
      Prepend([record.value], ReforgedFrom(data, record.next, attempts + 1))
  }

  /**
   * The loop ends with no further record exactly when the lead byte is 25
   * or the cap is reached, and that lead byte is consumed either way.
   */
  lemma ReforgedStops(data: seq<byte>, pos: nat, attempts: nat)
    requires attempts <= MaxReforgedRecords && ReforgedFrom(data, pos, attempts).Ok?
    ensures var r := ReforgedFrom(data, pos, attempts).value;
      && (r.value == [] <==> data[pos] == 25 || attempts == MaxReforgedRecords)
      && (r.value == [] ==> r.next == pos + 1)
  {}

  /** A record's id is its third byte, and its name and clan are the length-prefixed runs. */
  lemma ReforgedRecordLayout(data: seq<byte>, pos: nat)
    requires ReforgedRecordAt(data, pos).Ok?
    ensures var record := ReforgedRecordAt(data, pos).value.value;
      var nameEnd := pos + 5 + data[pos + 4] as nat;
      && nameEnd + 2 <= |data|
      && nameEnd + 2 + data[nameEnd + 1] as nat <= |data|
      && record.id == data[pos + 2]
      && record.name == data[pos + 5..nameEnd]
      && record.clan == data[nameEnd + 2..nameEnd + 2 + data[nameEnd + 1] as nat]
  {
    var nameEnd := pos + 5 + data[pos + 4] as nat;
    FieldIsSlice(data, pos + 5, nameEnd);
    FieldIsSlice(data, nameEnd + 2, nameEnd + 2 + data[nameEnd + 1] as nat);
  }

  /** `parse_reforged_metadata`: skip 12 bytes, then at most 24 records. */
  function ReforgedAt(data: seq<byte>, pos: nat): (r: Result<Parsed<seq<ReforgedPlayerRecord>>>)
    ensures r.Ok? ==> pos + 12 < r.value.next <= |data|
    ensures r.Ok? ==> pos + 12 < |data| && (r.value.value == [] <==> data[pos + 12] == 25)
  {
    var skip :- SeekAt(data, pos + 12);
    ReforgedFrom(data, skip.next, 0)
  }

  /** The loop stops after at most 24 records, whatever the bytes say. */
  lemma {:induction false} ReforgedBound(data: seq<byte>, pos: nat, attempts: nat)
    requires attempts <= MaxReforgedRecords && ReforgedFrom(data, pos, attempts).Ok?
    ensures |ReforgedFrom(data, pos, attempts).value.value| <= MaxReforgedRecords - attempts
    decreases MaxReforgedRecords - attempts
  {
    if pos < |data| && data[pos] != 25 && attempts < MaxReforgedRecords {
      var record := ReforgedRecordAt(data, pos + 1).value;
      ReforgedBound(data, record.next, attempts + 1);
    }
  }

  /** `parse_reforged_metadata` yields at most 24 records. */
  lemma ReforgedAtBound(data: seq<byte>, pos: nat)
    requires ReforgedAt(data, pos).Ok?
    ensures |ReforgedAt(data, pos).value.value| <= MaxReforgedRecords
  {
    ReforgedBound(data, pos + 12, 0);
  }

  /** A length byte and that many bytes (how the name and the clan are read). */
  method ReadPrefixed(cur: Cursor) returns (r: Result<seq<byte>>)
    requires cur.Valid()
    modifies cur
    ensures cur.Valid()
    ensures var p := old(cur.pos);
      if p < |cur.data| && p + 1 + cur.data[p] as nat <= |cur.data|
      then r == Ok(Field(cur.data, p + 1, p + 1 + cur.data[p] as nat)) && cur.pos == p + 1 + cur.data[p] as nat
      else r == Err(UnexpectedEof)
  {
    var length :- cur.ReadU8();
    var bytes :- cur.ReadBytes(length as nat);
    FieldIsSlice(cur.data, cur.pos - |bytes|, cur.pos);
    return Ok(bytes);
  }

  method ReadReforgedRecord(cur: Cursor) returns (r: Result<ReforgedPlayerRecord>)
    requires cur.Valid()
    modifies cur
    ensures cur.Valid() && cur.Follows(r, ReforgedRecordAt(cur.data, old(cur.pos)))
  {
    var recordLength :- cur.ReadU8();
    var recordEnd := cur.pos + recordLength as nat;
    var _ :- cur.ReadU8();
    var id :- cur.ReadU8();
    var _ :- cur.ReadU8();
    var name :- ReadPrefixed(cur);
    var _ :- cur.ReadU8();
    var clanName :- ReadPrefixed(cur);
    var _ :- cur.Seek(recordEnd);
    return Ok(ReforgedPlayerRecord(id, name, clanName));
  }

  lemma ReforgedStepOk(data: seq<byte>, here: nat, attempts: nat, record: Parsed<ReforgedPlayerRecord>)
    requires attempts < MaxReforgedRecords && here < |data| && data[here] != 25
    requires ReforgedRecordAt(data, here + 1) == Ok(record)
    ensures ReforgedFrom(data, here, attempts) == Prepend([record.value], ReforgedFrom(data, record.next, attempts + 1))
  {}

  /** One more record read: the records so far grow by it and the rest starts after it. */
  lemma ReforgedAdvance(data: seq<byte>, start: nat, result: seq<ReforgedPlayerRecord>, here: nat, attempts: nat,
                        record: Parsed<ReforgedPlayerRecord>)
    requires attempts < MaxReforgedRecords && here < |data| && data[here] != 25
    requires ReforgedRecordAt(data, here + 1) == Ok(record)
    requires ReforgedFrom(data, start, 0) == Prepend(result, ReforgedFrom(data, here, attempts))
    ensures ReforgedFrom(data, start, 0) == Prepend(result + [record.value], ReforgedFrom(data, record.next, attempts + 1))
  {
    ReforgedStepOk(data, here, attempts, record);
    PrependTwice(result, [record.value], ReforgedFrom(data, record.next, attempts + 1));
  }

  lemma ReforgedStepErr(data: seq<byte>, here: nat, attempts: nat, e: Error)
    requires attempts < MaxReforgedRecords && here < |data| && data[here] != 25
    requires ReforgedRecordAt(data, here + 1) == Err(e)
    ensures ReforgedFrom(data, here, attempts) == Err(e)
  {}

  /** The record loop of `parse_reforged_metadata`, from the first lead byte on. */
  method ReadReforgedRecords(cur: Cursor) returns (r: Result<seq<ReforgedPlayerRecord>>)
    requires cur.Valid()
    modifies cur
    ensures cur.Valid() && cur.Follows(r, ReforgedFrom(cur.data, old(cur.pos), 0))
  {
    var result: seq<ReforgedPlayerRecord> := [];
    ghost var start := cur.pos;
    ghost var leadAt := cur.pos;
    var attempts := 0;
    PrependEmpty(ReforgedFrom(cur.data, start, 0));
    var lead :- cur.ReadU8();
    while lead != 25 && attempts < MaxReforgedRecords
      invariant cur.Valid() && cur.pos == leadAt + 1 && cur.data[leadAt] == lead
      invariant attempts <= MaxReforgedRecords
      invariant ReforgedFrom(cur.data, start, 0) == Prepend(result, ReforgedFrom(cur.data, leadAt, attempts))
      decreases MaxReforgedRecords - attempts
    {
      var record := ReadReforgedRecord(cur);
      if record.Err? {
        ReforgedStepErr(cur.data, leadAt, attempts, record.error);
        return Err(record.error);
      }
      ReforgedAdvance(cur.data, start, result, leadAt, attempts, Parsed(record.value, cur.pos));
      attempts := attempts + 1;
      result := result + [record.value];
      leadAt := cur.pos;
      lead :- cur.ReadU8();
    }
    assert result + [] == result;
    return Ok(result);
  }

  method ParseReforgedMetadata(cur: Cursor) returns (r: Result<seq<ReforgedPlayerRecord>>)
    requires cur.Valid()
    modifies cur
    ensures cur.Valid() && cur.Follows(r, ReforgedAt(cur.data, old(cur.pos)))
  {
    var _ :- cur.Seek(cur.pos + 12);
    r := ReadReforgedRecords(cur);
  }

  // ---------------------------------------------------------------------
  // parse_slot_record and the slot loop

  /** The 9-byte slot layout: player id, skipped, status, computer flag, team, color, race, AI strength, handicap. */
  function SlotOf(data: seq<byte>, at: nat): SlotRecord
    requires at + 9 <= |data|
  {
    SlotRecord(data[at], data[at + 2], data[at + 4], data[at + 5], data[at + 6], data[at + 7], data[at + 8])
  }

  /** A slot record occupies nine bytes; there is no other failure than running out of them. */
  function SlotRecordAt(data: seq<byte>, pos: nat): (r: Result<Parsed<SlotRecord>>)
    ensures r.Ok? <==> pos + 9 <= |data|
    ensures r.Ok? ==> r.value.next == pos + 9
  {
    if pos + 9 <= |data| then Ok(Parsed(SlotOf(data, pos), pos + 9)) else Err(UnexpectedEof)
  }

  /** `count` slot records in a row: slot `i` is the 9 bytes at `pos + 9 * i`. */
  function SlotsAt(data: seq<byte>, pos: nat, count: nat): (r: Result<Parsed<seq<SlotRecord>>>)
    requires pos <= |data|
    ensures r.Ok? <==> pos + 9 * count <= |data|
    ensures r.Ok? ==> r.value.next == pos + 9 * count && |r.value.value| == count
    decreases count
  {
    if count == 0 then Ok(Parsed([], pos))
    else
      var slot :- SlotRecordAt(data, pos);
      Prepend([slot.value], SlotsAt(data, slot.next, count - 1))
  }

  /** Slot `i` is the 9 bytes at `pos + 9 * i`. */
  lemma {:induction false} SlotsIndexed(data: seq<byte>, pos: nat, count: nat, i: nat)
    requires pos <= |data| && SlotsAt(data, pos, count).Ok? && i < count
    ensures pos + 9 * i + 9 <= |data| && SlotsAt(data, pos, count).value.value[i] == SlotOf(data, pos + 9 * i)
    decreases count
  {
    if i > 0 {
      SlotsIndexed(data, pos + 9, count - 1, i - 1);
    }
  }

  method ReadSlotRecord(cur: Cursor) returns (r: Result<SlotRecord>)
    requires cur.Valid()
    modifies cur
    ensures cur.Valid() && cur.Follows(r, SlotRecordAt(cur.data, old(cur.pos)))
  {
    var playerId :- cur.ReadU8();
    var _ :- cur.ReadU8();
    var status :- cur.ReadU8();
    var _ :- cur.ReadU8();
    var teamId :- cur.ReadU8();
    var color :- cur.ReadU8();
    var raceFlag :- cur.ReadU8();
    var aiStrength :- cur.ReadU8();
    var handicapFlag :- cur.ReadU8();
    return Ok(SlotRecord(playerId, status, teamId, color, raceFlag, aiStrength, handicapFlag));
  }

  /** `for x in 0..slot_record_count { slot_records.push(parse_slot_record(..)) }`. */
  method ReadSlotRecords(cur: Cursor, count: nat) returns (r: Result<seq<SlotRecord>>)
    requires cur.Valid()
    modifies cur
    ensures cur.Valid() && cur.Follows(r, SlotsAt(cur.data, old(cur.pos), count))
  {
    ghost var start := cur.pos;
    var slotRecords: seq<SlotRecord> := [];
    PrependEmpty(SlotsAt(cur.data, start, count));
    for x := 0 to count
      invariant cur.Valid()
      invariant SlotsAt(cur.data, start, count) == Prepend(slotRecords, SlotsAt(cur.data, cur.pos, count - x))
    {
      var slot := ReadSlotRecord(cur);
      if slot.Err? {
        return Err(slot.error);
      }
      PrependTwice(slotRecords, [slot.value], SlotsAt(cur.data, cur.pos, count - x - 1));
      slotRecords := slotRecords + [slot.value];
    }
    assert slotRecords + [] == slotRecords;
    return Ok(slotRecords);
  }
}
