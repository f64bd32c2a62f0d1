/**
 * The game-event stream that follows the roster in the decompressed buffer
 * (src/gamedata/mod.rs): a loop that reads a one-byte opcode and lets a
 * handler consume the bytes of that record, until the read position reaches
 * the end of the buffer. The handlers only advance the cursor; the model
 * records, for each record, its opcode and the number of bytes it spans.
 */
module GameData {
  import opened Bytes

  /** One record of the stream: its opcode and how many bytes it spans, opcode included. */
  datatype Record = Record(opcode: byte, size: nat)

  /** The payload size of the opcodes whose handler consumes a fixed number of bytes. */
  function FixedPayload(opcode: byte): nat
  {
    if opcode == 0x1a || opcode == 0x1b || opcode == 0x1c then 4
    else if opcode == 0x23 then 10
    else if opcode == 0x2f then 8
    else if opcode == 0x17 then 13
    else 0
  }

  predicate IsFixed(opcode: byte)
  {
    opcode in {0x1a, 0x1b, 0x1c, 0x23, 0x2f, 0x17}
  }

  /** A record of `1 + n` bytes starting at `pos`, if it fits. */
  function Spanning(data: seq<byte>, pos: nat, n: nat): Result<Parsed<Record>>
    requires pos < |data|
  {
    if pos + 1 + n <= |data| then Ok(Parsed(Record(data[pos], 1 + n), pos + 1 + n)) else Err(UnexpectedEof)
  }

  /**
   * The record at `pos`, as the dispatcher and its handlers read it:
   * - 0x1a, 0x1b, 0x1c: 4 bytes; 0x23: 10 bytes; 0x2f: 8 bytes; 0x17: 4
   *   reason bytes, a player id, 4 result bytes and 4 skipped bytes;
   * - 0x1f: a u16 length and that many bytes;
   * - 0x22: a u8 length and that many bytes;
   * - 0x20: a length byte that is read and ignored, a flags byte, 4 more
   *   bytes when the flags are 0x20, then a zero-terminated message;
   * - any other opcode: nothing beyond the opcode.
   */
  function RecordAt(data: seq<byte>, pos: nat): (r: Result<Parsed<Record>>)
    requires pos < |data|
    ensures r.Ok? ==> r.value.value.opcode == data[pos] && r.value.next == pos + r.value.value.size
    ensures r.Ok? ==> pos < r.value.next <= |data|
  {
    var opcode := data[pos];
    if IsFixed(opcode) then Spanning(data, pos, FixedPayload(opcode))
    else if opcode == 0x1f then
      if pos + 3 > |data| then Err(UnexpectedEof)
      else Spanning(data, pos, 2 + data[pos + 1] as nat + 256 * data[pos + 2] as nat)
    else if opcode == 0x22 then
      if pos + 2 > |data| then Err(UnexpectedEof)
      else Spanning(data, pos, 1 + data[pos + 1] as nat)
    else if opcode == 0x20 then
      if pos + 3 > |data| then Err(UnexpectedEof)
      else
        var messageAt := pos + 3 + (if data[pos + 2] == 0x20 then 4 else 0);
        if messageAt > |data| then Err(UnexpectedEof)
        else
          var message :- ZeroTerminatedAt(data, messageAt);
          Ok(Parsed(Record(opcode, message.next - pos), message.next))
    else Ok(Parsed(Record(opcode, 1), pos + 1))
  }

  /** `gamedata::parse`: records until the read position reaches the end. */
  function EventsFrom(data: seq<byte>, pos: nat): (r: Result<Parsed<seq<Record>>>)
    requires pos <= |data|
    ensures r.Ok? ==> r.value.next == |data|
    decreases |data| - pos
  {
    if pos == |data| then Ok(Parsed([], pos))
    else
      var record :- RecordAt(data, pos);
      Prepend([record.value], EventsFrom(data, record.next))
  }

  /** The total number of bytes the records span. */
  function TotalSize(records: seq<Record>): nat
  {
    if records == [] then 0 else records[0].size + TotalSize(records[1..])
  }

  // ---------------------------------------------------------------------
  // Properties

  /** The records of a successful parse tile the rest of the buffer exactly, each at least one byte. */
  lemma {:induction false} EventsCover(data: seq<byte>, pos: nat)
    requires pos <= |data| && EventsFrom(data, pos).Ok?
    ensures pos + TotalSize(EventsFrom(data, pos).value.value) == |data|
    ensures forall i :: 0 <= i < |EventsFrom(data, pos).value.value| ==> EventsFrom(data, pos).value.value[i].size >= 1
    decreases |data| - pos
  {
    if pos < |data| {
      var record := RecordAt(data, pos).value;
      EventsCover(data, record.next);
      var rest := EventsFrom(data, record.next).value.value;
      assert EventsFrom(data, pos).value.value == [record.value] + rest;
      assert ([record.value] + rest)[1..] == rest;
    }
  }

  /** The fixed-size opcodes span their opcode and a fixed payload, and fail when it does not fit. */
  lemma FixedSizes(data: seq<byte>, pos: nat)
    requires pos < |data| && IsFixed(data[pos])
    ensures RecordAt(data, pos).Ok? <==> pos + 1 + FixedPayload(data[pos]) <= |data|
    ensures RecordAt(data, pos).Ok? ==> RecordAt(data, pos).value.value.size == 1 + FixedPayload(data[pos])
    ensures data[pos] in {0x1a, 0x1b, 0x1c} ==> FixedPayload(data[pos]) == 4
    ensures data[pos] == 0x23 ==> FixedPayload(data[pos]) == 10
    ensures data[pos] == 0x2f ==> FixedPayload(data[pos]) == 8
    ensures data[pos] == 0x17 ==> FixedPayload(data[pos]) == 4 + 1 + 4 + 4
  {}

  /** A timeslot spans its opcode, a little-endian u16 length `L` and `L` bytes. */
  lemma TimeslotSize(data: seq<byte>, pos: nat)
    requires pos + 3 <= |data| && data[pos] == 0x1f
    ensures var length := LE(data[pos + 1..pos + 3]);
      && (RecordAt(data, pos).Ok? <==> pos + 3 + length <= |data|)
      && (RecordAt(data, pos).Ok? ==> RecordAt(data, pos).value.value.size == 1 + 2 + length)
  {
    var two := data[pos + 1..pos + 3];
    assert two[1..][1..] == [];
    assert LE(two) == data[pos + 1] as nat + 256 * data[pos + 2] as nat;
  }

  /** Record 0x22 spans its opcode, a length byte `L` and `L` bytes. */
  lemma Unknown22Size(data: seq<byte>, pos: nat)
    requires pos + 2 <= |data| && data[pos] == 0x22
    ensures RecordAt(data, pos).Ok? <==> pos + 2 + data[pos + 1] as nat <= |data|
    ensures RecordAt(data, pos).Ok? ==> RecordAt(data, pos).value.value.size == 1 + 1 + data[pos + 1] as nat
  {}

  /**
   * A chat message spans the opcode, the declared length byte, the flags, 4
   * bytes more when the flags are 0x20, and the zero-terminated message.
   */
  lemma ChatSize(data: seq<byte>, pos: nat)
    requires pos + 3 <= |data| && data[pos] == 0x20
    ensures var messageAt := pos + 3 + (if data[pos + 2] == 0x20 then 4 else 0);
      RecordAt(data, pos).Ok? <==> messageAt <= |data| && ZeroTerminatedAt(data, messageAt).Ok?
    ensures var messageAt := pos + 3 + (if data[pos + 2] == 0x20 then 4 else 0);
      RecordAt(data, pos).Ok? ==>
        && messageAt <= |data|
        && ZeroTerminatedAt(data, messageAt).Ok?
        && RecordAt(data, pos).value.value.size == 3 + (if data[pos + 2] == 0x20 then 4 else 0)
             + |ZeroTerminatedAt(data, messageAt).value.value| + 1
  {}

  /** The declared length byte of a chat message has no effect on how far the record reaches. */
  lemma ChatIgnoresDeclaredLength(data: seq<byte>, pos: nat, declared: byte)
    requires pos + 3 <= |data| && data[pos] == 0x20
    ensures RecordAt(data[pos + 1 := declared], pos) == RecordAt(data, pos)
  {
    var other := data[pos + 1 := declared];
    var messageAt := pos + 3 + (if data[pos + 2] == 0x20 then 4 else 0);
    if messageAt <= |data| {
      ZeroTerminatedUnchanged(data, other, messageAt);
    }
  }

  /** A zero-terminated read sees only the bytes from its start on. */
  lemma {:induction false} ZeroTerminatedUnchanged(data: seq<byte>, other: seq<byte>, pos: nat)
    requires |data| == |other| && pos <= |data|
    requires forall i :: pos <= i < |data| ==> data[i] == other[i]
    ensures ZeroTerminatedAt(data, pos) == ZeroTerminatedAt(other, pos)
    decreases |data| - pos
  {
    if pos < |data| && data[pos] != 0 {
      ZeroTerminatedUnchanged(data, other, pos + 1);
    }
  }

  /** Any other opcode spans its own byte only. */
  lemma OtherOpcodeSize(data: seq<byte>, pos: nat)
    requires pos < |data| && !IsFixed(data[pos]) && data[pos] !in {0x1f, 0x22, 0x20}
    ensures RecordAt(data, pos) == Ok(Parsed(Record(data[pos], 1), pos + 1))
  {}

  /** A record cut short by the end of the buffer is a failure, not a shorter record. */
  lemma RecordTruncated(data: seq<byte>, pos: nat, cut: nat)
    requires pos < cut <= |data|
    requires RecordAt(data, pos).Ok? && cut < RecordAt(data, pos).value.next
    ensures RecordAt(data[..cut], pos).Err?
  {
    var opcode := data[pos];
    var short := data[..cut];
    if opcode == 0x20 && pos + 3 <= cut {
      var messageAt := pos + 3 + (if data[pos + 2] == 0x20 then 4 else 0);
      if messageAt <= cut {
        ZeroTerminatedTruncated(data, messageAt, cut);
      }
    }
  }

  // ---------------------------------------------------------------------
  // The handlers and the dispatcher loop

  /** `consume_bytes(n)`: `n` bytes read and dropped. */
  method ConsumeBytes(cur: Cursor, n: nat) returns (r: Result<()>)
    requires cur.Valid()
    modifies cur
    ensures cur.Valid()
    ensures if old(cur.pos) + n <= |cur.data| then r == Ok(()) && cur.pos == old(cur.pos) + n else r == Err(UnexpectedEof)
  {
    var _ :- cur.ReadBytes(n);
    return Ok(());
  }

  /** `parse_timeslot`: a u16 length and that many bytes. */
  method ParseTimeslot(cur: Cursor) returns (r: Result<()>)
    requires cur.Valid()
    modifies cur
    ensures cur.Valid()
    ensures var p := old(cur.pos);
      if p + 2 <= |cur.data| && p + 2 + cur.data[p] as nat + 256 * cur.data[p + 1] as nat <= |cur.data|
      then r == Ok(()) && cur.pos == p + 2 + cur.data[p] as nat + 256 * cur.data[p + 1] as nat
      else r == Err(UnexpectedEof)
  {
    ghost var p := cur.pos;
    var byteCount :- cur.ReadUInt(2);
    var two := cur.data[p..p + 2];
    assert two[1..][1..] == [];
    assert byteCount == LE(two) == cur.data[p] as nat + 256 * cur.data[p + 1] as nat;
    r := ConsumeBytes(cur, byteCount);
  }

  /** `parse_unknown_22`: a u8 length and that many bytes. */
  method ParseUnknown22(cur: Cursor) returns (r: Result<()>)
    requires cur.Valid()
    modifies cur
    ensures cur.Valid()
    ensures var p := old(cur.pos);
      if p < |cur.data| && p + 1 + cur.data[p] as nat <= |cur.data|
      then r == Ok(()) && cur.pos == p + 1 + cur.data[p] as nat
      else r == Err(UnexpectedEof)
  {
    var length :- cur.ReadU8();
    r := ConsumeBytes(cur, length as nat);
  }

  /** `parse_leave_game`: 4 reason bytes, a player id, 4 result bytes, 4 skipped bytes. */
  method ParseLeaveGame(cur: Cursor) returns (r: Result<()>)
    requires cur.Valid()
    modifies cur
    ensures cur.Valid()
    ensures if old(cur.pos) + 13 <= |cur.data| then r == Ok(()) && cur.pos == old(cur.pos) + 13 else r == Err(UnexpectedEof)
  {
    var _ :- cur.ReadBytes(4);   // reason
    var _ :- cur.ReadU8();       // player id
    var _ :- cur.ReadBytes(4);   // result
    var _ :- cur.ReadBytes(4);
    return Ok(());
  }

  /** `parse_chat_message`: declared length (unused), flags, 4 bytes when the flags are 0x20, message. */
  method ParseChatMessage(cur: Cursor) returns (r: Result<()>)
    requires cur.Valid()
    modifies cur
    ensures cur.Valid()
    ensures var p := old(cur.pos);
      if p + 2 > |cur.data| then r == Err(UnexpectedEof)
      else
        var messageAt := p + 2 + (if cur.data[p + 1] == 0x20 then 4 else 0);
        if messageAt > |cur.data| then r == Err(UnexpectedEof)
        else cur.Follows(r, Unit(ZeroTerminatedAt(cur.data, messageAt)))
  {
    var _ :- cur.ReadU8();
    var flags :- cur.ReadU8();
    if flags == 0x20 {
      var _ :- cur.ReadBytes(4);
    }
    var message := cur.ReadZeroTerminated();
    if message.Err? {
      return Err(message.error);
    }
    return Ok(());
  }

  /** A parse result with its value dropped. */
  function Unit<T>(s: Result<Parsed<T>>): (r: Result<Parsed<()>>)
    ensures r.Ok? <==> s.Ok?
    ensures r.Ok? ==> r.value.next == s.value.next
    ensures r.Err? ==> r.error == s.error
  {
    match s
    case Ok(p) => Ok(Parsed((), p.next))
    case Err(e) => Err(e)
  }

  /** One iteration of the dispatcher: the opcode and its handler. */
  method ParseRecord(cur: Cursor) returns (r: Result<Record>)
    requires cur.Valid() && cur.pos < |cur.data|
    modifies cur
    ensures cur.Valid() && cur.Follows(r, RecordAt(cur.data, old(cur.pos)))
  {
    var start := cur.pos;
    var opcode := cur.ReadU8();   // cannot fail: the loop condition leaves a byte
    var id := opcode.value;
    var handled: Result<()>;
    if id == 0x1a || id == 0x1b || id == 0x1c {
      handled := ConsumeBytes(cur, 4);
    } else if id == 0x1f {
      handled := ParseTimeslot(cur);
    } else if id == 0x17 {
      handled := ParseLeaveGame(cur);
    } else if id == 0x20 {
      handled := ParseChatMessage(cur);
    } else if id == 0x22 {
      handled := ParseUnknown22(cur);
    } else if id == 0x23 {
      handled := ConsumeBytes(cur, 10);
    } else if id == 0x2f {
      handled := ConsumeBytes(cur, 8);
    } else {
      handled := Ok(());
    }
    if handled.Err? {
      return Err(handled.error);
    }
    return Ok(Record(id, cur.pos - start));
  }

  lemma EventsAdvance(data: seq<byte>, start: nat, records: seq<Record>, here: nat, record: Parsed<Record>)
    requires here < |data| && start <= |data|
    requires RecordAt(data, here) == Ok(record)
    requires EventsFrom(data, start) == Prepend(records, EventsFrom(data, here))
    ensures EventsFrom(data, start) == Prepend(records + [record.value], EventsFrom(data, record.next))
  {
    PrependTwice(records, [record.value], EventsFrom(data, record.next));
  }

  /** `gamedata::parse`: `while rpos < len { dispatch one record }`. */
  method Parse(cur: Cursor) returns (r: Result<seq<Record>>)
    requires cur.Valid()
    modifies cur
    ensures cur.Valid() && cur.Follows(r, EventsFrom(cur.data, old(cur.pos)))
  {
    ghost var start := cur.pos;
    var records: seq<Record> := [];
    PrependEmpty(EventsFrom(cur.data, start));
    while cur.pos < |cur.data|
      invariant cur.Valid()
      invariant EventsFrom(cur.data, start) == Prepend(records, EventsFrom(cur.data, cur.pos))
      decreases |cur.data| - cur.pos
    {
      ghost var here := cur.pos;
      var record := ParseRecord(cur);
      if record.Err? {
        return Err(record.error);
      }
      EventsAdvance(cur.data, start, records, here, Parsed(record.value, cur.pos));
      records := records + [record.value];
    }
    assert records + [] == records;
    return Ok(records);
  }
}
