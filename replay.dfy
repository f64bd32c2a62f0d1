/**
 * The whole decode of `parse` (src/lib.rs): the container walk over the raw
 * file bytes, the in-order inflation of the data blocks, and the decode of
 * the decompressed buffer (host record, game strings, masked map settings,
 * roster, slots, trailer and the game-event stream).
 */
module Replay {
  import opened Bytes
  import Container
  import MapMeta
  import Roster
  import GameData

  /** What an inflate codec makes of one compressed block. */
  datatype Inflation = Inflated(bytes: seq<byte>) | Corrupt

  /** The decoder's result, as `ParserResult`. */
  datatype ParserResult = ParserResult(
    header: Container.Header,
    subheader: Container.Subheader,
    metadata: MapMeta.MapMetadata,
    slotRecords: seq<Roster.SlotRecord>,
    playerRecords: seq<Roster.PlayerRecord>,
    reforgedPlayerRecords: seq<Roster.ReforgedPlayerRecord>)

  /** The part of the decompressed buffer before the classic player loop. */
  datatype Preamble = Preamble(host: Roster.PlayerRecord, metadata: MapMeta.MapMetadata)

  /** The roster: classic records after the host, Reforged records, lobby slots. */
  datatype Lobby = Lobby(
    classic: seq<Roster.PlayerRecord>,
    reforged: seq<Roster.ReforgedPlayerRecord>,
    slots: seq<Roster.SlotRecord>)

  /** What the decode of the decompressed buffer yields. */
  datatype Game = Game(
    metadata: MapMeta.MapMetadata,
    slotRecords: seq<Roster.SlotRecord>,
    playerRecords: seq<Roster.PlayerRecord>,
    reforgedPlayerRecords: seq<Roster.ReforgedPlayerRecord>)

  // ---------------------------------------------------------------------
  // Inflation of the data blocks

  /** The blocks inflated one by one and joined in stream order; one bad block fails the whole. */
  function InflateAll(blocks: seq<Container.DataBlock>, inflate: seq<byte> -> Inflation): (r: Result<seq<byte>>)
    ensures r.Err? ==> r.error == DecompressionFailure
    decreases |blocks|
  {
    if blocks == [] then Ok([])
    else
      var front :- InflateAll(blocks[..|blocks| - 1], inflate);
      match inflate(blocks[|blocks| - 1].content)
      case Inflated(out) => Ok(front + out)
      case Corrupt => Err(DecompressionFailure)
  }

  /** The concatenation of the blocks' inflated bytes. */
  function Joined(blocks: seq<Container.DataBlock>, inflate: seq<byte> -> Inflation): seq<byte>
    requires forall i :: 0 <= i < |blocks| ==> inflate(blocks[i].content).Inflated?
  {
    if blocks == [] then [] else inflate(blocks[0].content).bytes + Joined(blocks[1..], inflate)
  }

  /** Inflation succeeds exactly when every block inflates, and then yields their outputs in order. */
  lemma {:induction false} InflateAllJoins(blocks: seq<Container.DataBlock>, inflate: seq<byte> -> Inflation)
    ensures InflateAll(blocks, inflate).Ok? <==> forall i :: 0 <= i < |blocks| ==> inflate(blocks[i].content).Inflated?
    ensures InflateAll(blocks, inflate).Ok? ==> InflateAll(blocks, inflate).value == Joined(blocks, inflate)
    decreases |blocks|
  {
    if blocks != [] {
      var front := blocks[..|blocks| - 1];
      var last := blocks[|blocks| - 1];
      InflateAllJoins(front, inflate);
      assert forall i :: 0 <= i < |front| ==> front[i] == blocks[i];
      if InflateAll(blocks, inflate).Ok? {
        JoinedSnoc(front, last, inflate);
        assert front + [last] == blocks;
      }
    }
  }

  lemma {:induction false} JoinedSnoc(front: seq<Container.DataBlock>, last: Container.DataBlock, inflate: seq<byte> -> Inflation)
    requires forall i :: 0 <= i < |front| ==> inflate(front[i].content).Inflated?
    requires inflate(last.content).Inflated?
    ensures forall i :: 0 <= i < |front + [last]| ==> inflate((front + [last])[i].content).Inflated?
    ensures Joined(front + [last], inflate) == Joined(front, inflate) + inflate(last.content).bytes
    decreases |front|
  {
    var all := front + [last];
    assert forall i :: 0 <= i < |all| ==> all[i] == if i < |front| then front[i] else last;
    if front == [] {
      assert all[1..] == [];
    } else {
      assert all[1..] == front[1..] + [last];
      assert forall i :: 0 <= i < |front[1..]| ==> front[1..][i] == front[i + 1];
      JoinedSnoc(front[1..], last, inflate);
    }
  }

  /** The loop of `parse` that inflates every block and appends its output. */
  method InflateBlocks(blocks: seq<Container.DataBlock>, inflate: seq<byte> -> Inflation) returns (r: Result<seq<byte>>)
    ensures r == InflateAll(blocks, inflate)
  {
    var out: seq<byte> := [];
    for i := 0 to |blocks|
      invariant InflateAll(blocks[..i], inflate) == Ok(out)
    {
      assert blocks[..i + 1][..i] == blocks[..i];
      match inflate(blocks[i].content)
      case Corrupt =>
        DecompressionFailsFrom(blocks, i + 1, inflate);
        return Err(DecompressionFailure);
      case Inflated(out2) =>
        out := out + out2;
    }
    assert blocks[..|blocks|] == blocks;
    return Ok(out);
  }

  /** Once a prefix of the blocks fails to inflate, so does every longer prefix. */
  lemma {:induction false} DecompressionFailsFrom(blocks: seq<Container.DataBlock>, i: nat, inflate: seq<byte> -> Inflation)
    requires i <= |blocks| && InflateAll(blocks[..i], inflate).Err?
    ensures InflateAll(blocks, inflate).Err?
    decreases |blocks| - i
  {
    if i < |blocks| {
      assert blocks[..i + 1][..i] == blocks[..i];
      DecompressionFailsFrom(blocks, i + 1, inflate);
    } else {
      assert blocks[..i] == blocks;
    }
  }

  // ---------------------------------------------------------------------
  // The decompressed buffer

  /** Bytes that are read and dropped: they fail exactly like a seek past them. */
  function SkipAt(data: seq<byte>, pos: nat, n: nat): (r: Result<Parsed<()>>)
    ensures r.Ok? <==> pos + n <= |data|
    ensures r.Ok? ==> r.value.next == pos + n
  {
    SeekAt(data, pos + n)
  }

  /**
   * The masked map settings: a zero-terminated string, decoded by the
   * de-mask and read as the settings record, then three u32 that are dropped.
   */
  function EncodedSettingsAt(data: seq<byte>, pos: nat): (r: Result<Parsed<MapMeta.MapMetadata>>)
    ensures r.Ok? ==> pos + 13 <= r.value.next <= |data|
    ensures r.Ok? ==> ZeroTerminatedAt(data, pos).Ok? && r.value.next == ZeroTerminatedAt(data, pos).value.next + 12
    ensures r.Ok? ==>
      && MapMeta.MapMetadataOf(MapMeta.DeMasked(ZeroTerminatedAt(data, pos).value.value)).Ok?
      && r.value.value == MapMeta.MapMetadataOf(MapMeta.DeMasked(ZeroTerminatedAt(data, pos).value.value)).value
  {
    var encoded :- ZeroTerminatedAt(data, pos);
    var metadata :- MapMeta.MapMetadataOf(MapMeta.DeMasked(encoded.value));
    var words :- SkipAt(data, encoded.next, 12);
    Ok(Parsed(metadata, words.next))
  }

  /** The game name and the private string, both dropped, then the masked settings. */
  function SettingsAt(data: seq<byte>, pos: nat): (r: Result<Parsed<MapMeta.MapMetadata>>)
    ensures r.Ok? ==> pos + 15 <= r.value.next <= |data|
    ensures r.Ok? ==>
      && ZeroTerminatedAt(data, pos).Ok?
      && ZeroTerminatedAt(data, ZeroTerminatedAt(data, pos).value.next).Ok?
      && Ok(r.value) == EncodedSettingsAt(data, ZeroTerminatedAt(data, ZeroTerminatedAt(data, pos).value.next).value.next)
  {
    var gameName :- ZeroTerminatedAt(data, pos);
    var privateString :- ZeroTerminatedAt(data, gameName.next);
    EncodedSettingsAt(data, privateString.next)
  }

  /** From the start of the buffer: a u32 and a u8 (dropped), the host's player record, the settings. */
  function PreambleAt(data: seq<byte>): (r: Result<Parsed<Preamble>>)
    ensures r.Ok? ==> 5 < r.value.next <= |data|
    ensures r.Ok? ==>
      && Roster.PlayerRecordAt(data, 5).Ok?
      && r.value.value.host == Roster.PlayerRecordAt(data, 5).value.value
      && SettingsAt(data, Roster.PlayerRecordAt(data, 5).value.next) == Ok(Parsed(r.value.value.metadata, r.value.next))
  {
    if |data| < 5 then Err(UnexpectedEof)
    else
      var host :- Roster.PlayerRecordAt(data, 5);
      var settings :- SettingsAt(data, host.next);
      Ok(Parsed(Preamble(host.value, settings.value), settings.next))
  }

  /**
   * What follows the classic loop. The loop consumed its terminating lead
   * byte; the decoder steps back onto it and reads it again as the Reforged
   * sentinel. A sentinel of 25 is consumed and no Reforged list follows;
   * any other sentinel is given back once more and the Reforged list is
   * parsed from that byte on.
   */
  function ReforgedBranchAt(data: seq<byte>, sentinelAt: nat): (r: Result<Parsed<seq<Roster.ReforgedPlayerRecord>>>)
    requires sentinelAt < |data|
    ensures r.Ok? ==> sentinelAt < r.value.next <= |data|
  {
    if data[sentinelAt] != 25 then Roster.ReforgedAt(data, sentinelAt) else Ok(Parsed([], sentinelAt + 1))
  }

  /** Two dropped bytes, the slot count, then that many slot records. */
  function SlotTableAt(data: seq<byte>, pos: nat): (r: Result<Parsed<seq<Roster.SlotRecord>>>)
    ensures r.Ok? ==> pos + 3 <= r.value.next <= |data|
    ensures r.Ok? ==> |r.value.value| == data[pos + 2] as nat
  {
    if pos + 3 > |data| then Err(UnexpectedEof) else Roster.SlotsAt(data, pos + 3, data[pos + 2] as nat)
  }

  /** The classic loop, the Reforged branch and the slot table. */
  function LobbyAt(data: seq<byte>, pos: nat): (r: Result<Parsed<Lobby>>)
    ensures r.Ok? ==> pos < r.value.next <= |data|
  {
    var classic :- Roster.ClassicFrom(data, pos);
    var reforged :- ReforgedBranchAt(data, classic.next - 1);
    var slots :- SlotTableAt(data, reforged.next);
    Ok(Parsed(Lobby(classic.value, reforged.value, slots.value), slots.next))
  }

  /**
   * The random seed (u32), a u8 and the start-spot count (u8), all dropped,
   * then the event stream, which must reach the end of the buffer.
   */
  function TrailerAt(data: seq<byte>, pos: nat): (r: Result<Parsed<seq<GameData.Record>>>)
    ensures r.Ok? ==> pos + 6 <= |data| && r.value.next == |data|
  {
    if pos + 6 > |data| then Err(UnexpectedEof) else GameData.EventsFrom(data, pos + 6)
  }

  /** The decompressed buffer: preamble, lobby, trailer. */
  function GameOf(data: seq<byte>): (r: Result<Game>)
  {
    var preamble :- PreambleAt(data);
    var lobby :- LobbyAt(data, preamble.next);
    var trailer :- TrailerAt(data, lobby.next);
    Ok(Game(preamble.value.metadata, lobby.value.slots, [preamble.value.host] + lobby.value.classic, lobby.value.reforged))
  }

  /** The whole decode: container, inflation, decompressed buffer. */
  function ReplayOf(raw: seq<byte>, inflate: seq<byte> -> Inflation): (r: Result<ParserResult>)
  {
    var container :- Container.ContainerOf(raw);
    var buffer :- InflateAll(container.blocks, inflate);
    var game :- GameOf(buffer);
    Ok(ParserResult(container.header, container.subheader, game.metadata, game.slotRecords,
      game.playerRecords, game.reforgedPlayerRecords))
  }

  // ---------------------------------------------------------------------
  // Properties of the decode

  /**
   * The Reforged list and the sentinel exclude each other: a non-empty
   * list means the byte after the classic loop was not 25; a sentinel of
   * 25 means an empty list and the sentinel consumed.
   */
  lemma RosterExclusive(data: seq<byte>, pos: nat)
    requires LobbyAt(data, pos).Ok?
    ensures var classic := Roster.ClassicFrom(data, pos).value;
      var sentinelAt := classic.next - 1;
      var lobby := LobbyAt(data, pos).value.value;
      && pos <= sentinelAt < |data|
      && lobby.classic == classic.value
      && data[sentinelAt] != 22
      && (lobby.reforged != [] ==> data[sentinelAt] != 25 && lobby.reforged == Roster.ReforgedAt(data, sentinelAt).value.value)
      && (data[sentinelAt] == 25 ==> lobby.reforged == [] && ReforgedBranchAt(data, sentinelAt) == Ok(Parsed([], sentinelAt + 1)))
  {}

  /** The slot count is the byte two after the Reforged branch, and there are that many slots. */
  lemma SlotCount(data: seq<byte>, pos: nat)
    requires LobbyAt(data, pos).Ok?
    ensures var classic := Roster.ClassicFrom(data, pos).value;
      var branch := ReforgedBranchAt(data, classic.next - 1).value;
      && branch.next + 2 < |data|
      && |LobbyAt(data, pos).value.value.slots| == data[branch.next + 2] as nat
  {}

  /**
   * The host comes first among the player records, the classic records
   * follow in stream order, and at most 24 Reforged records are kept.
   */
  lemma GameRoster(data: seq<byte>)
    requires GameOf(data).Ok?
    ensures var game := GameOf(data).value;
      var preamble := PreambleAt(data).value;
      var lobby := LobbyAt(data, preamble.next).value.value;
      && Roster.PlayerRecordAt(data, 5).Ok?
      && |game.playerRecords| == 1 + |lobby.classic|
      && game.playerRecords[0] == Roster.PlayerRecordAt(data, 5).value.value
      && game.playerRecords[1..] == lobby.classic
      && game.reforgedPlayerRecords == lobby.reforged
      && |game.reforgedPlayerRecords| <= Roster.MaxReforgedRecords
  {
    var preamble := PreambleAt(data).value;
    var lobby := LobbyAt(data, preamble.next).value.value;
    LobbyReforgedBound(data, preamble.next);
    assert ([preamble.value.host] + lobby.classic)[1..] == lobby.classic;
  }

  /** The roster keeps at most 24 Reforged records, whichever branch the sentinel takes. */
  lemma LobbyReforgedBound(data: seq<byte>, pos: nat)
    requires LobbyAt(data, pos).Ok?
    ensures |LobbyAt(data, pos).value.value.reforged| <= Roster.MaxReforgedRecords
  {
    var classic := Roster.ClassicFrom(data, pos).value;
    var sentinelAt := classic.next - 1;
    if data[sentinelAt] != 25 {
      Roster.ReforgedAtBound(data, sentinelAt);
    }
  }

  /**
   * The settings of the preamble are those of the third zero-terminated
   * string after the host record at offset 5 (after the game name and the
   * private string): that string de-masked and read as the settings record.
   */
  lemma PreambleMetadata(data: seq<byte>)
    requires PreambleAt(data).Ok?
    ensures Roster.PlayerRecordAt(data, 5).Ok?
    ensures var gameName := ZeroTerminatedAt(data, Roster.PlayerRecordAt(data, 5).value.next);
      && gameName.Ok?
      && var privateString := ZeroTerminatedAt(data, gameName.value.next);
      && privateString.Ok?
      && var encoded := ZeroTerminatedAt(data, privateString.value.next);
      && encoded.Ok?
      && MapMeta.MapMetadataOf(MapMeta.DeMasked(encoded.value.value)).Ok?
      && PreambleAt(data).value.value.metadata == MapMeta.MapMetadataOf(MapMeta.DeMasked(encoded.value.value)).value
      && PreambleAt(data).value.next == encoded.value.next + 12
  {}

  /** The decode's settings are the preamble's, so they come from the third string after the host record. */
  lemma GameMetadata(data: seq<byte>)
    requires GameOf(data).Ok?
    ensures PreambleAt(data).Ok?
    ensures GameOf(data).value.metadata == PreambleAt(data).value.value.metadata
  {
    var preamble := PreambleAt(data).value;
    assert LobbyAt(data, preamble.next).Ok?;
  }

  /** The event records after the trailer tile the rest of the buffer, each at least one byte long. */
  lemma TrailerCovers(data: seq<byte>, pos: nat)
    requires TrailerAt(data, pos).Ok?
    ensures var events := TrailerAt(data, pos).value.value;
      && pos + 6 + GameData.TotalSize(events) == |data|
      && forall i :: 0 <= i < |events| ==> events[i].size >= 1
  {
    GameData.EventsCover(data, pos + 6);
  }

  /** A decode succeeds only if the event stream after the slot table and trailer runs to the end of the buffer. */
  lemma GameEndsWithEvents(data: seq<byte>)
    requires GameOf(data).Ok?
    ensures var lobbyEnd := LobbyAt(data, PreambleAt(data).value.next).value.next;
      && TrailerAt(data, lobbyEnd).Ok?
      && lobbyEnd + 6 + GameData.TotalSize(TrailerAt(data, lobbyEnd).value.value) == |data|
  {
    TrailerCovers(data, LobbyAt(data, PreambleAt(data).value.next).value.next);
  }

  /**
   * A successful decode is the container walk, every block inflated, and the
   * decode of the blocks' outputs joined in stream order; header and
   * subheader come from the container, the rest from the joined buffer.
   */
  lemma ReplayStages(raw: seq<byte>, inflate: seq<byte> -> Inflation)
    requires ReplayOf(raw, inflate).Ok?
    ensures Container.ContainerOf(raw).Ok?
    ensures var container := Container.ContainerOf(raw).value;
      && (forall i :: 0 <= i < |container.blocks| ==> inflate(container.blocks[i].content).Inflated?)
      && var game := GameOf(Joined(container.blocks, inflate));
      && game.Ok?
      && ReplayOf(raw, inflate).value == ParserResult(container.header, container.subheader,
           game.value.metadata, game.value.slotRecords, game.value.playerRecords, game.value.reforgedPlayerRecords)
  {
    InflateAllJoins(Container.ContainerOf(raw).value.blocks, inflate);
  }

  /** One block that does not inflate fails the whole decode with a decompression failure. */
  lemma CorruptBlockFails(raw: seq<byte>, inflate: seq<byte> -> Inflation, i: nat)
    requires Container.ContainerOf(raw).Ok?
    requires i < |Container.ContainerOf(raw).value.blocks|
    requires inflate(Container.ContainerOf(raw).value.blocks[i].content).Corrupt?
    ensures ReplayOf(raw, inflate) == Err(DecompressionFailure)
  {
    InflateAllJoins(Container.ContainerOf(raw).value.blocks, inflate);
  }

  // ---------------------------------------------------------------------
  // The decoder over a cursor

  method ReadEncodedSettings(cur: Cursor) returns (r: Result<MapMeta.MapMetadata>)
    requires cur.Valid()
    modifies cur
    ensures cur.Valid() && cur.Follows(r, EncodedSettingsAt(cur.data, old(cur.pos)))
  {
    var encoded :- cur.ReadZeroTerminated();
    var decoded := MapMeta.DeMask(encoded);
    var metadata :- MapMeta.ReadMapMetadata(decoded);
    var _ :- SkipWords(cur);
    return Ok(metadata);
  }

  /** Three u32 read and dropped. */
  method SkipWords(cur: Cursor) returns (r: Result<()>)
    requires cur.Valid()
    modifies cur
    ensures cur.Valid() && cur.Follows(r, SkipAt(cur.data, old(cur.pos), 12))
  {
    var _ :- cur.ReadUInt(4);
    var _ :- cur.ReadUInt(4);
    var _ :- cur.ReadUInt(4);
    return Ok(());
  }

  method ReadSettings(cur: Cursor) returns (r: Result<MapMeta.MapMetadata>)
    requires cur.Valid()
    modifies cur
    ensures cur.Valid() && cur.Follows(r, SettingsAt(cur.data, old(cur.pos)))
  {
    var _ :- cur.ReadZeroTerminated();  // game name
    var _ :- cur.ReadZeroTerminated();  // private string
    r := ReadEncodedSettings(cur);
  }

  method ReadPreamble(cur: Cursor) returns (r: Result<Preamble>)
    requires cur.Valid() && cur.pos == 0
    modifies cur
    ensures cur.Valid() && cur.Follows(r, PreambleAt(cur.data))
  {
    var _ :- cur.ReadUInt(4);
    var _ :- cur.ReadU8();
    var host :- Roster.ReadPlayerRecord(cur);
    var metadata :- ReadSettings(cur);
    return Ok(Preamble(host, metadata));
  }

  method ReadReforgedBranch(cur: Cursor) returns (r: Result<seq<Roster.ReforgedPlayerRecord>>)
    requires cur.Valid() && cur.pos < |cur.data|
    modifies cur
    ensures cur.Valid() && cur.Follows(r, ReforgedBranchAt(cur.data, old(cur.pos)))
  {
    var sentinel := cur.ReadU8();
    if sentinel.value != 25 {
      var _ := cur.Seek(cur.pos - 1);
      r := Roster.ParseReforgedMetadata(cur);
    } else {
      r := Ok([]);
    }
  }

  method ReadSlotTable(cur: Cursor) returns (r: Result<seq<Roster.SlotRecord>>)
    requires cur.Valid()
    modifies cur
    ensures cur.Valid() && cur.Follows(r, SlotTableAt(cur.data, old(cur.pos)))
  {
    var _ :- cur.Seek(cur.pos + 2);
    var count :- cur.ReadU8();
    r := Roster.ReadSlotRecords(cur, count as nat);
  }

  method ReadLobby(cur: Cursor) returns (r: Result<Lobby>)
    requires cur.Valid()
    modifies cur
    ensures cur.Valid() && cur.Follows(r, LobbyAt(cur.data, old(cur.pos)))
  {
    var classic :- Roster.ReadClassicRecords(cur);
    var _ := cur.Seek(cur.pos - 1);
    var reforged :- ReadReforgedBranch(cur);
    var slots :- ReadSlotTable(cur);
    return Ok(Lobby(classic, reforged, slots));
  }

  method ReadTrailer(cur: Cursor) returns (r: Result<seq<GameData.Record>>)
    requires cur.Valid()
    modifies cur
    ensures cur.Valid() && cur.Follows(r, TrailerAt(cur.data, old(cur.pos)))
  {
    var _ :- cur.ReadUInt(4);  // random seed
    var _ :- cur.ReadU8();
    var _ :- cur.ReadU8();     // start spot count
    r := GameData.Parse(cur);
  }

  /** `parse` from the decompressed buffer on. */
  method ParseDecompressed(buffer: seq<byte>) returns (r: Result<Game>)
    ensures r == GameOf(buffer)
  {
    var cur := new Cursor(buffer);
    var preamble :- ReadPreamble(cur);
    var lobby :- ReadLobby(cur);
    var _ :- ReadTrailer(cur);
    return Ok(Game(preamble.metadata, lobby.slots, [preamble.host] + lobby.classic, lobby.reforged));
  }

  /** `parse`, with the file's bytes in hand and the inflate codec as a parameter. */
  method ParseReplay(raw: seq<byte>, inflate: seq<byte> -> Inflation) returns (r: Result<ParserResult>)
    ensures r == ReplayOf(raw, inflate)
  {
    var container :- Container.ParseContainer(raw);
    var buffer :- InflateBlocks(container.blocks, inflate);
    var game :- ParseDecompressed(buffer);
    return Ok(ParserResult(container.header, container.subheader, game.metadata, game.slotRecords,
      game.playerRecords, game.reforgedPlayerRecords));
  }
}
