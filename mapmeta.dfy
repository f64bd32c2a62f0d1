/**
 * Map metadata: the masked byte string that follows the host's player
 * record is first de-masked (`decode_game_meta_data`), then read as a
 * fixed settings layout with bit fields followed by two zero-terminated
 * strings (`read_mapmetadata`), both in src/lib.rs.
 */
module MapMeta {
  import opened Bytes

  // ---------------------------------------------------------------------
  // De-masking

  /**
   * Bit `k` of `x`, bit 0 being the least significant: what `x & (1 << k) != 0`
   * tests for a `u8`.
   */
  predicate BitOf(x: nat, k: nat)
  {
    if k == 0 then x % 2 == 1 else BitOf(x / 2, k - 1)
  }

  /**
   * The rule for one payload byte `b` whose group mask is `mask` and whose
   * position in its 8-byte group is `bit`: a clear mask bit means the byte
   * was stored one higher than its value. The decrement wraps, as an
   * unchecked `u8` subtraction does.
   */
  function Unmask(mask: byte, bit: nat, b: byte): byte
    requires 0 < bit < 8
  {
    if !BitOf(mask as nat, bit) then (if b == 0 then 255 else b - 1) else b
  }

  /** Input byte `i` (not a mask byte) de-masked with the mask byte that heads its group. */
  function Unmasked(data: seq<byte>, i: nat): byte
    requires i < |data| && i % 8 != 0
  {
    Unmask(data[i - i % 8], i % 8, data[i])
  }

  /** The number of payload bytes in `n` masked bytes: all but one per started group of 8. */
  function DeMaskedLength(n: nat): nat
  {
    n - (n + 7) / 8
  }

  /**
   * The input index that output byte `j` comes from: group `j / 7`, payload
   * byte `j % 7` within it (SourceIndexClosed gives the closed form).
   */
  function SourceIndex(j: nat): nat
  {
    if j < 7 then j + 1 else SourceIndex(j - 7) + 8
  }

  lemma {:induction false} SourceIndexClosed(j: nat)
    ensures SourceIndex(j) == 8 * (j / 7) + j % 7 + 1
  {
    if j >= 7 {
      SourceIndexClosed(j - 7);
      assert j / 7 == (j - 7) / 7 + 1 && j % 7 == (j - 7) % 7;
    }
  }

  /** One group's payload bytes, the first at position `bit` within the group. */
  function UnmaskGroup(mask: byte, bytes: seq<byte>, bit: nat): (r: seq<byte>)
    requires 0 < bit && bit + |bytes| <= 8
    ensures |r| == |bytes|
    ensures forall t :: 0 <= t < |bytes| ==> r[t] == Unmask(mask, bit + t, bytes[t])
    decreases |bytes|
  {
    if bytes == [] then [] else [Unmask(mask, bit, bytes[0])] + UnmaskGroup(mask, bytes[1..], bit + 1)
  }

  /**
   * The de-masked bytes, group by group: each group of 8 starts with its
   * mask byte, which is dropped; the last group may be shorter.
   */
  function DeMasked(data: seq<byte>): seq<byte>
    decreases |data|
  {
    if data == [] then []
    else
      var g := if |data| < 8 then |data| else 8;
      UnmaskGroup(data[0], data[1..g], 1) + DeMasked(data[g..])
  }

  lemma DeMaskedLengthStep(n: nat)
    requires n >= 8
    ensures DeMaskedLength(n) == 7 + DeMaskedLength(n - 8)
  {
    assert (n + 7) / 8 == (n - 8 + 7) / 8 + 1;
  }

  lemma UnmaskedShift(data: seq<byte>, i: nat)
    requires |data| >= 8 && i + 8 < |data| && i % 8 != 0
    ensures Unmasked(data[8..], i) == Unmasked(data, i + 8)
  {
    assert (i + 8) % 8 == i % 8;
  }

  /** `out` holds, at each index `j`, input byte SourceIndex(j) of `data` de-masked. */
  ghost predicate Indexed(data: seq<byte>, out: seq<byte>)
  {
    && |out| == DeMaskedLength(|data|)
    && forall j :: 0 <= j < |out| ==>
      SourceIndex(j) < |data| && SourceIndex(j) % 8 != 0 && out[j] == Unmasked(data, SourceIndex(j))
  }

  /** A group's payload bytes followed by the later groups' output are indexed over the whole input. */
  lemma IndexedCons(data: seq<byte>, g: nat, head: seq<byte>, rest: seq<byte>)
    requires 0 < g <= |data| && g == (if |data| < 8 then |data| else 8)
    requires head == UnmaskGroup(data[0], data[1..g], 1)
    requires Indexed(data[g..], rest)
    ensures Indexed(data, head + rest)
  {
    if g == 8 {
      DeMaskedLengthStep(|data|);
    }
    forall j | 0 <= j < |head + rest|
      ensures SourceIndex(j) < |data| && SourceIndex(j) % 8 != 0
      ensures (head + rest)[j] == Unmasked(data, SourceIndex(j))
    {
      if j >= |head| {
        assert (head + rest)[j] == rest[j - 7];
        UnmaskedShift(data, SourceIndex(j - 7));
      }
    }
  }

  lemma {:induction false} DeMaskedIndexed(data: seq<byte>)
    ensures Indexed(data, DeMasked(data))
    decreases |data|
  {
    if data != [] {
      var g := if |data| < 8 then |data| else 8;
      DeMaskedIndexed(data[g..]);
      IndexedCons(data, g, UnmaskGroup(data[0], data[1..g], 1), DeMasked(data[g..]));
    }
  }

  /**
   * Every output byte `j` comes from input index SourceIndex(j), which is
   * never a mask position, and is that byte de-masked with the mask byte
   * heading its group; the output has one byte fewer than the input per
   * started group of 8.
   */
  lemma DeMaskedIndex(data: seq<byte>)
    ensures |DeMasked(data)| == DeMaskedLength(|data|)
    ensures forall j :: 0 <= j < |DeMasked(data)| ==>
      SourceIndex(j) < |data| && SourceIndex(j) % 8 != 0 &&
      DeMasked(data)[j] == Unmasked(data, SourceIndex(j))
  {
    DeMaskedIndexed(data);
  }

  /** Two outputs indexed over the same input are equal. */
  lemma IndexedUnique(data: seq<byte>, out: seq<byte>, out': seq<byte>)
    requires Indexed(data, out) && Indexed(data, out')
    ensures out == out'
  {}

  /** The start of the group holding input index `i`. */
  lemma GroupStart(i: nat)
    ensures i - i % 8 <= i && (i - i % 8) % 8 == 0
  {}

  lemma MaskBitIgnored(m: nat, m': nat, k: nat)
    requires 0 < k && m / 2 == m' / 2
    ensures BitOf(m, k) == BitOf(m', k)
  {}

  lemma UnmaskedAgree(data: seq<byte>, other: seq<byte>, i: nat)
    requires |data| == |other| && i < |data| && i % 8 != 0 && data[i] == other[i]
    requires data[i - i % 8] / 2 == other[i - i % 8] / 2
    ensures Unmasked(data, i) == Unmasked(other, i)
  {
    MaskBitIgnored(data[i - i % 8] as nat, other[i - i % 8] as nat, i % 8);
  }

  /** Inputs differing only in bit 0 of their mask bytes de-mask alike: bit 0 is never consulted. */
  lemma MaskBitZeroIgnored(data: seq<byte>, other: seq<byte>)
    requires |data| == |other|
    requires forall i :: 0 <= i < |data| && i % 8 != 0 ==> data[i] == other[i]
    requires forall i :: 0 <= i < |data| && i % 8 == 0 ==> data[i] / 2 == other[i] / 2
    ensures DeMasked(data) == DeMasked(other)
  {
    DeMaskedIndexed(data);
    DeMaskedIndexed(other);
    IndexedMaskBit(data, other, DeMasked(data));
    IndexedUnique(other, DeMasked(data), DeMasked(other));
  }

  lemma IndexedMaskBit(data: seq<byte>, other: seq<byte>, out: seq<byte>)
    requires |data| == |other| && Indexed(data, out)
    requires forall i :: 0 <= i < |data| && i % 8 != 0 ==> data[i] == other[i]
    requires forall i :: 0 <= i < |data| && i % 8 == 0 ==> data[i] / 2 == other[i] / 2
    ensures Indexed(other, out)
  {
    forall j | 0 <= j < |out| ensures out[j] == Unmasked(other, SourceIndex(j)) {
      var i := SourceIndex(j);
      GroupStart(i);
      UnmaskedAgree(data, other, i);
    }
  }

  /** Whether the mask bit governing input index `i` is clear. */
  predicate MaskBitClear(data: seq<byte>, i: nat)
    requires i < |data|
  {
    !BitOf(data[i - i % 8] as nat, i % 8)
  }

  /**
   * When no input byte is 0 (as a zero-terminated read guarantees), the
   * decrement never wraps: each output byte is its source byte, minus one
   * exactly when its mask bit is clear, as integers.
   */
  lemma NoUnderflow(data: seq<byte>)
    requires NoZero(data)
    ensures forall j :: 0 <= j < |DeMasked(data)| ==>
      SourceIndex(j) < |data| &&
      DeMasked(data)[j] as int ==
        data[SourceIndex(j)] as int - (if MaskBitClear(data, SourceIndex(j)) then 1 else 0)
  {
    DeMaskedIndex(data);
    forall j | 0 <= j < |DeMasked(data)|
      ensures SourceIndex(j) < |data| &&
        DeMasked(data)[j] as int ==
          data[SourceIndex(j)] as int - (if MaskBitClear(data, SourceIndex(j)) then 1 else 0)
    {
      UnmaskedNoWrap(data, SourceIndex(j));
    }
  }

  lemma UnmaskedNoWrap(data: seq<byte>, i: nat)
    requires i < |data| && i % 8 != 0 && data[i] != 0
    ensures Unmasked(data, i) as int == data[i] as int - (if MaskBitClear(data, i) then 1 else 0)
  {}

  /** The loop state of DeMask after the first `a` input bytes. */
  ghost predicate DecodedPrefix(data: seq<byte>, decoded: seq<byte>, a: nat)
  {
    && a <= |data|
    && |decoded| == DeMaskedLength(a)
    && forall j :: 0 <= j < |decoded| ==>
      SourceIndex(j) < a && SourceIndex(j) % 8 != 0 && decoded[j] == Unmasked(data, SourceIndex(j))
  }

  lemma NextSourceIndex(a: nat)
    requires a % 8 != 0
    ensures SourceIndex(DeMaskedLength(a)) == a && DeMaskedLength(a + 1) == DeMaskedLength(a) + 1
  {
    var q, r := a / 8, a % 8;
    assert a == 8 * q + r;
    assert (a + 7) / 8 == q + 1;
    assert (a + 8) / 8 == q + 1;
    var j := 7 * q + r - 1;
    assert DeMaskedLength(a) == j;
    SourceIndexClosed(j);
    assert j / 7 == q && j % 7 == r - 1;
  }

  lemma DecodedSkip(data: seq<byte>, decoded: seq<byte>, a: nat)
    requires DecodedPrefix(data, decoded, a) && a < |data| && a % 8 == 0
    ensures DecodedPrefix(data, decoded, a + 1)
  {
    assert (a + 1 + 7) / 8 == (a + 7) / 8 + 1;
  }

  lemma DecodedAppend(data: seq<byte>, decoded: seq<byte>, a: nat)
    requires DecodedPrefix(data, decoded, a) && a < |data| && a % 8 != 0
    ensures DecodedPrefix(data, decoded + [Unmasked(data, a)], a + 1)
  {
    NextSourceIndex(a);
  }

  lemma DecodedComplete(data: seq<byte>, decoded: seq<byte>)
    requires DecodedPrefix(data, decoded, |data|)
    ensures decoded == DeMasked(data)
  {
    DeMaskedIndexed(data);
    IndexedUnique(data, decoded, DeMasked(data));
  }

  /** `decode_game_meta_data`: one pass over the input with a running mask byte. */
  method DeMask(data: seq<byte>) returns (decoded: seq<byte>)
    ensures decoded == DeMasked(data)
  {
    decoded := [];
    var mask: byte := 0;
    for a := 0 to |data|
      invariant DecodedPrefix(data, decoded, a)
      invariant a % 8 != 0 ==> mask == data[a - a % 8]
    {
      if a % 8 == 0 {
        mask := data[a];
        DecodedSkip(data, decoded, a);
      } else {
        DecodedAppend(data, decoded, a);
        if !BitOf(mask as nat, a % 8) {
          decoded := decoded + [if data[a] == 0 then 255 else data[a] - 1];
        } else {
          decoded := decoded + [data[a]];
        }
      }
    }
    DecodedComplete(data, decoded);
  }

  // ---------------------------------------------------------------------
  // Bit fields

  /**
   * Bit `k` of `bytes`, counting from the most significant bit of the first
   * byte (the order bytebuffer's `read_bit` uses).
   */
  predicate BitAt(bytes: seq<byte>, k: nat)
    requires k < 8 * |bytes|
  {
    BitOf(bytes[k / 8] as nat, 7 - k % 8)
  }

  function Pow2(n: nat): (r: nat)
    ensures r > 0
  {
    if n == 0 then 1 else 2 * Pow2(n - 1)
  }

  /** `n` bits from bit `off` as an unsigned number, the first bit read most significant. */
  function BitsAt(bytes: seq<byte>, off: nat, n: nat): (r: nat)
    requires off + n <= 8 * |bytes|
    ensures r < Pow2(n)
  {
    if n == 0 then 0 else 2 * BitsAt(bytes, off, n - 1) + (if BitAt(bytes, off + n - 1) then 1 else 0)
  }

  /** The bit-level reader of `read_mapmetadata`, over the three bytes its bit reads cover. */
  class BitReader {
    const bytes: seq<byte>
    var bit: nat

    ghost predicate Valid()
      reads this
    {
      bit <= 8 * |bytes|
    }

    constructor (bs: seq<byte>)
      ensures Valid() && bytes == bs && bit == 0
    {
      bytes := bs;
      bit := 0;
    }

    method ReadBit() returns (b: bool)
      requires Valid() && bit < 8 * |bytes|
      modifies this
      ensures Valid() && bit == old(bit) + 1 && b == BitAt(bytes, old(bit))
    {
      b := BitOf(bytes[bit / 8] as nat, 7 - bit % 8);
      bit := bit + 1;
    }

    method ReadBits(n: nat) returns (v: nat)
      requires Valid() && bit + n <= 8 * |bytes|
      modifies this
      ensures Valid() && bit == old(bit) + n && v == BitsAt(bytes, old(bit), n)
    {
      v := 0;
      for i := 0 to n
        invariant bit == old(bit) + i && v == BitsAt(bytes, old(bit), i)
      {
        var b := ReadBit();
        v := 2 * v + (if b then 1 else 0);
      }
    }
  }

  // ---------------------------------------------------------------------
  // The settings record

  datatype MapMetadata = MapMetadata(
    speed: byte,
    teamsTogether: bool,
    observerMode: nat,
    defaultVisibility: bool,
    alwaysVisible: bool,
    mapExplored: bool,
    hideTerrain: bool,
    fixedTeams: bool,
    referees: bool,
    randomRaces: bool,
    randomHero: bool,
    fullSharedUnitControl: bool,
    mapPath: seq<byte>,    // zero-terminated map path; its UTF-8 reading is not modelled
    creator: seq<byte>)  // zero-terminated creator name; likewise

  /** The speed and the bit fields, read from the flag bytes `f`, most significant bit first. */
  function FieldsOf(speed: byte, f: seq<byte>): MapMetadata
    requires |f| == 3
  {
    MapMetadata(
      speed,
      BitAt(f, 0), BitsAt(f, 1, 2), BitAt(f, 3), BitAt(f, 4), BitAt(f, 5), BitAt(f, 6),
      BitsAt(f, 8, 2) == 3,
      BitAt(f, 17), BitAt(f, 21), BitAt(f, 22), BitAt(f, 23),
      [], [])
  }

  /**
   * `read_mapmetadata` over the de-masked bytes `d`: speed (1 byte), 24 bits
   * of fields, 5 reserved bytes, a 4-byte checksum, then the map path and
   * the creator name.
   */
  function MapMetadataOf(d: seq<byte>): (r: Result<MapMetadata>)
    ensures r.Ok? <==>
      |d| >= 13 && ZeroTerminatedAt(d, 13).Ok? && ZeroTerminatedAt(d, ZeroTerminatedAt(d, 13).value.next).Ok?
    ensures r.Ok? ==>
      && r.value.speed == d[0]
      && Parsed(r.value.mapPath, 14 + |r.value.mapPath|) == ZeroTerminatedAt(d, 13).value
      && ZeroTerminatedAt(d, 14 + |r.value.mapPath|).value.value == r.value.creator
  {
    var speed :- U8At(d, 0);
    var flags :- BytesAt(d, speed.next, 3);
    var reserved :- BytesAt(d, flags.next, 5);
    var checksum :- BytesAt(d, reserved.next, 4);
    var mapPath :- ZeroTerminatedAt(d, checksum.next);
    var creator :- ZeroTerminatedAt(d, mapPath.next);
    Ok(FieldsOf(speed.value, flags.value).(mapPath := mapPath.value, creator := creator.value))
  }

  /**
   * Where each field sits in the de-masked bytes, naming bits of a byte
   * from the least significant (bit 7 is 0x80): the fields occupy bytes
   * 1..3, the reader taking each byte's most significant bit first. The
   * observer mode is bits 6-5 of byte 1 (bit 6 high), and `fixedTeams`
   * holds iff both top bits of byte 2 are set.
   */
  lemma FieldLayout(d: seq<byte>)
    requires MapMetadataOf(d).Ok?
    ensures var m := MapMetadataOf(d).value;
      && m.teamsTogether == BitOf(d[1] as nat, 7)
      && m.observerMode == 2 * (if BitOf(d[1] as nat, 6) then 1 else 0) + (if BitOf(d[1] as nat, 5) then 1 else 0)
      && m.defaultVisibility == BitOf(d[1] as nat, 4)
      && m.alwaysVisible == BitOf(d[1] as nat, 3)
      && m.mapExplored == BitOf(d[1] as nat, 2)
      && m.hideTerrain == BitOf(d[1] as nat, 1)
      && m.fixedTeams == (BitOf(d[2] as nat, 7) && BitOf(d[2] as nat, 6))
      && m.referees == BitOf(d[3] as nat, 6)
      && m.randomRaces == BitOf(d[3] as nat, 2)
      && m.randomHero == BitOf(d[3] as nat, 1)
      && m.fullSharedUnitControl == BitOf(d[3] as nat, 0)
  {
    var f := d[1..4];
    assert f[0] == d[1] && f[1] == d[2] && f[2] == d[3];
    assert BitsAt(f, 1, 1) == if BitAt(f, 1) then 1 else 0;
    assert BitsAt(f, 8, 1) == if BitAt(f, 8) then 1 else 0;
  }

  /**
   * The strings do not depend on the bytes before them: changing any of
   * bytes 0..12 (speed, flags, reserved bytes, checksum) changes neither
   * whether the decode succeeds nor the map path and creator.
   */
  lemma StringsIndependentOfFields(d: seq<byte>, e: seq<byte>)
    requires |d| == |e| && |d| >= 13 && d[13..] == e[13..]
    ensures MapMetadataOf(d).Ok? <==> MapMetadataOf(e).Ok?
    ensures MapMetadataOf(d).Ok? ==>
      MapMetadataOf(d).value.mapPath == MapMetadataOf(e).value.mapPath &&
      MapMetadataOf(d).value.creator == MapMetadataOf(e).value.creator
  {
    ZeroTerminatedFrom13(d, e, 13);
    if ZeroTerminatedAt(d, 13).Ok? {
      ZeroTerminatedFrom13(d, e, ZeroTerminatedAt(d, 13).value.next);
    }
  }

  lemma {:induction false} ZeroTerminatedFrom13(d: seq<byte>, e: seq<byte>, pos: nat)
    requires |d| == |e| && |d| >= 13 && d[13..] == e[13..] && pos >= 13
    ensures ZeroTerminatedAt(d, pos) == ZeroTerminatedAt(e, pos)
    decreases |d| - pos
  {
    if pos < |d| {
      assert d[pos] == d[13..][pos - 13] == e[13..][pos - 13] == e[pos];
      ZeroTerminatedFrom13(d, e, pos + 1);
    }
  }

  /** Bits 0-7 (lines 181-187): five flags and the 2-bit observer mode; bit 7 is skipped. */
  method ReadFirstFlagByte(bits: BitReader, m0: MapMetadata) returns (m: MapMetadata)
    requires bits.Valid() && bits.bit == 0 && |bits.bytes| == 3
    modifies bits
    ensures bits.Valid() && bits.bit == 8
    ensures m == m0.(teamsTogether := BitAt(bits.bytes, 0), observerMode := BitsAt(bits.bytes, 1, 2),
      defaultVisibility := BitAt(bits.bytes, 3), alwaysVisible := BitAt(bits.bytes, 4),
      mapExplored := BitAt(bits.bytes, 5), hideTerrain := BitAt(bits.bytes, 6))
  {
    var teamsTogether := bits.ReadBit();
    var observerMode := bits.ReadBits(2);
    var defaultVisibility := bits.ReadBit();
    var alwaysVisible := bits.ReadBit();
    var mapExplored := bits.ReadBit();
    var hideTerrain := bits.ReadBit();
    var _ := bits.ReadBit();
    m := m0.(teamsTogether := teamsTogether, observerMode := observerMode,
      defaultVisibility := defaultVisibility, alwaysVisible := alwaysVisible,
      mapExplored := mapExplored, hideTerrain := hideTerrain);
  }

  /** Bits 8-15 (lines 189-190): the fixed-teams pair, then six skipped bits. */
  method ReadSecondFlagByte(bits: BitReader, m0: MapMetadata) returns (m: MapMetadata)
    requires bits.Valid() && bits.bit == 8 && |bits.bytes| == 3
    modifies bits
    ensures bits.Valid() && bits.bit == 16
    ensures m == m0.(fixedTeams := BitsAt(bits.bytes, 8, 2) == 3)
  {
    var fixedTeamsBits := bits.ReadBits(2);
    var _ := bits.ReadBits(6);
    m := m0.(fixedTeams := fixedTeamsBits == 3);
  }

  /** Bits 16-23 (lines 192-197): referees and the three random/shared-control flags. */
  method ReadThirdFlagByte(bits: BitReader, m0: MapMetadata) returns (m: MapMetadata)
    requires bits.Valid() && bits.bit == 16 && |bits.bytes| == 3
    modifies bits
    ensures bits.Valid() && bits.bit == 24
    ensures m == m0.(referees := BitAt(bits.bytes, 17), randomRaces := BitAt(bits.bytes, 21),
      randomHero := BitAt(bits.bytes, 22), fullSharedUnitControl := BitAt(bits.bytes, 23))
  {
    var _ := bits.ReadBit();
    var referees := bits.ReadBit();
    var _ := bits.ReadBits(3);
    var randomRaces := bits.ReadBit();
    var randomHero := bits.ReadBit();
    var fullSharedUnitControl := bits.ReadBit();
    m := m0.(referees := referees, randomRaces := randomRaces,
      randomHero := randomHero, fullSharedUnitControl := fullSharedUnitControl);
  }

  /**
   * The speed byte and the 24 bits of fields (lines 181-197), with both
   * strings still empty; the bits the source skips are never looked at.
   */
  method ReadFields(speed: byte, flags: seq<byte>) returns (m: MapMetadata)
    requires |flags| == 3
    ensures m == FieldsOf(speed, flags)
  {
    var bits := new BitReader(flags);
    m := MapMetadata(speed, false, 0, false, false, false, false, false, false, false, false, false, [], []);
    m := ReadFirstFlagByte(bits, m);
    m := ReadSecondFlagByte(bits, m);
    m := ReadThirdFlagByte(bits, m);
  }

  /** `read_mapmetadata`, with its own cursor over the de-masked bytes. */
  method ReadMapMetadata(metadata: seq<byte>) returns (r: Result<MapMetadata>)
    ensures r == MapMetadataOf(metadata)
  {
    var a := new Cursor(metadata);
    var speed :- a.ReadU8();
    var flags :- a.ReadBytes(3);
    var fields := ReadFields(speed, flags);
    var _ :- a.ReadBytes(5);
    var _ :- a.ReadBytes(4);
    var mapPath :- a.ReadZeroTerminated();
    var creator :- a.ReadZeroTerminated();
    return Ok(fields.(mapPath := mapPath, creator := creator));
  }
}
