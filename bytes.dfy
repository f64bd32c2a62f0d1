/**
 * The byte cursor every decoding stage reads through: an in-memory byte
 * buffer, a read position, and little-endian reads of fixed-width integers,
 * byte spans and zero-terminated strings.
 *
 * Each read is specified twice: by a pure function over (buffer, position)
 * that says what is extracted and where the next read starts, and by a
 * method of `Cursor` that performs the read in place and is proved to agree
 * with that function. A read that would pass the end of the buffer is an
 * `UnexpectedEof` failure.
 */
module Bytes {

  /** An octet, as Rust's `u8`. */
  newtype byte = x: int | 0 <= x < 256

  /** The conditions that abort a decode. */
  datatype Error =
    | UnexpectedEof         // a read or a seek beyond the end of the buffer
    | DecompressionFailure  // the inflate codec rejected a data block

  datatype Result<+T> = Ok(value: T) | Err(error: Error) {
    predicate IsFailure() { Err? }
    function PropagateFailure<U>(): Result<U> requires Err? { Err(error) }
    function Extract(): T requires Ok? { value }
  }

  /** A decoded value together with the position just after it. */
  datatype Parsed<+T> = Parsed(value: T, next: nat)

  /** `s` with `prefix` put in front of its value; failures pass through. */
  function Prepend<T>(prefix: seq<T>, s: Result<Parsed<seq<T>>>): (r: Result<Parsed<seq<T>>>)
    ensures r.Ok? <==> s.Ok?
    ensures r.Ok? ==> r.value == Parsed(prefix + s.value.value, s.value.next)
  {
    match s
    case Ok(p) => Ok(Parsed(prefix + p.value, p.next))
    case Err(e) => Err(e)
  }

  lemma PrependEmpty<T>(s: Result<Parsed<seq<T>>>)
    ensures Prepend([], s) == s
  {
    if s.Ok? { assert [] + s.value.value == s.value.value; }
  }

  lemma PrependTwice<T>(a: seq<T>, b: seq<T>, s: Result<Parsed<seq<T>>>)
    ensures Prepend(a, Prepend(b, s)) == Prepend(a + b, s)
  {
    if s.Ok? { assert a + (b + s.value.value) == (a + b) + s.value.value; }
  }

  predicate NoZero(bs: seq<byte>) {
    forall i :: 0 <= i < |bs| ==> bs[i] != 0
  }

  // ---------------------------------------------------------------------
  // Little-endian integers

  function Pow256(n: nat): (r: nat)
    ensures r > 0
  {
    if n == 0 then 1 else 256 * Pow256(n - 1)
  }

  /** The unsigned value of `bs`, least significant byte first. */
  function LE(bs: seq<byte>): (r: nat)
    ensures r < Pow256(|bs|)
  {
    if |bs| == 0 then 0 else bs[0] as nat + 256 * LE(bs[1..])
  }

  /** The `n`-byte little-endian encoding of `v` (modulo 256^n). */
  function ToLE(v: nat, n: nat): (bs: seq<byte>)
    ensures |bs| == n
  {
    if n == 0 then [] else [(v % 256) as byte] + ToLE(v / 256, n - 1)
  }

  lemma DivMod256(v: nat, lo: nat, hi: nat)
    requires lo < 256 && v == lo + 256 * hi
    ensures v % 256 == lo && v / 256 == hi
  {}

  lemma DivBound256(v: nat, p: nat)
    requires v < 256 * p
    ensures v / 256 < p
  {}

  /** Decoding an encoded value gives the value back. */
  lemma {:induction false} LEOfToLE(v: nat, n: nat)
    requires v < Pow256(n)
    ensures LE(ToLE(v, n)) == v
  {
    if n > 0 {
      DivBound256(v, Pow256(n - 1));
      LEOfToLE(v / 256, n - 1);
      assert ToLE(v, n)[1..] == ToLE(v / 256, n - 1);
    }
  }

  /** Encoding a decoded value gives the bytes back: LE is injective per width. */
  lemma {:induction false} ToLEOfLE(bs: seq<byte>)
    ensures ToLE(LE(bs), |bs|) == bs
  {
    if |bs| > 0 {
      ToLEOfLE(bs[1..]);
      DivMod256(LE(bs), bs[0] as nat, LE(bs[1..]));
    }
  }

  /** Two's-complement reading of an `n`-byte unsigned value. */
  function Signed(u: nat, n: nat): (r: int)
    requires 0 < n && u < Pow256(n)
    ensures -(128 * Pow256(n - 1)) <= r < 128 * Pow256(n - 1)
    ensures r >= 0 <==> u < 128 * Pow256(n - 1)
    ensures r == u || r == u - Pow256(n)
  {
    if u < 128 * Pow256(n - 1) then u else u - Pow256(n)
  }

  // ---------------------------------------------------------------------
  // Reads as functions of (buffer, position)

  /** `n` raw bytes starting at `pos`. */
  function BytesAt(data: seq<byte>, pos: nat, n: nat): (r: Result<Parsed<seq<byte>>>)
    ensures r.Ok? <==> pos + n <= |data|
    ensures r.Ok? ==> r.value.next == pos + n && r.value.value == data[pos..pos + n]
  {
    if pos + n <= |data| then Ok(Parsed(data[pos..pos + n], pos + n)) else Err(UnexpectedEof)
  }

  function U8At(data: seq<byte>, pos: nat): (r: Result<Parsed<byte>>)
    ensures r.Ok? <==> pos < |data|
    ensures r.Ok? ==> r.value == Parsed(data[pos], pos + 1)
  {
    if pos < |data| then Ok(Parsed(data[pos], pos + 1)) else Err(UnexpectedEof)
  }

  /** An unsigned little-endian integer of `n` bytes. */
  function UIntAt(data: seq<byte>, pos: nat, n: nat): (r: Result<Parsed<nat>>)
    ensures r.Ok? <==> pos + n <= |data|
    ensures r.Ok? ==> r.value.next == pos + n && r.value.value == LE(data[pos..pos + n]) < Pow256(n)
  {
    var b :- BytesAt(data, pos, n);
    Ok(Parsed(LE(b.value), b.next))
  }

  /** A signed (two's-complement) little-endian integer of `n` bytes. */
  function SIntAt(data: seq<byte>, pos: nat, n: nat): (r: Result<Parsed<int>>)
    requires n > 0
    ensures r.Ok? <==> pos + n <= |data|
    ensures r.Ok? ==> r.value.next == pos + n
    ensures r.Ok? ==> -(Pow256(n) / 2) <= r.value.value < Pow256(n) / 2
    ensures r.Ok? ==> r.value.value == Signed(LE(data[pos..pos + n]), n)
  {
    var u :- UIntAt(data, pos, n);
    Ok(Parsed(Signed(u.value, n), u.next))
  }

  /**
   * `set_rpos(target)` as a checked seek: a target beyond the end of the
   * buffer is a failure rather than a silent stop at the end.
   */
  function SeekAt(data: seq<byte>, target: nat): (r: Result<Parsed<()>>)
    ensures r.Ok? <==> target <= |data|
    ensures r.Ok? ==> r.value.next == target
  {
    if target <= |data| then Ok(Parsed((), target)) else Err(UnexpectedEof)
  }

  /**
   * The bytes from `pos` up to, not including, the first zero byte; the
   * position after it is just past that zero. Fails when no zero byte
   * follows `pos`.
   */
  function ZeroTerminatedAt(data: seq<byte>, pos: nat): (r: Result<Parsed<seq<byte>>>)
    ensures r.Ok? ==> r.value.next == pos + |r.value.value| + 1 <= |data| && data[r.value.next - 1] == 0
    decreases |data| - pos
  {
    if pos >= |data| then Err(UnexpectedEof)
    else if data[pos] == 0 then Ok(Parsed([], pos + 1))
    else Prepend([data[pos]], ZeroTerminatedAt(data, pos + 1))
  }

  /** The string read is exactly the bytes before the terminator, none of them zero. */
  lemma {:induction false} ZeroTerminatedContent(data: seq<byte>, pos: nat)
    requires ZeroTerminatedAt(data, pos).Ok?
    ensures var s := ZeroTerminatedAt(data, pos).value.value;
      data[pos..pos + |s|] == s && NoZero(s)
    decreases |data| - pos
  {
    if data[pos] != 0 {
      ZeroTerminatedContent(data, pos + 1);
      var s := ZeroTerminatedAt(data, pos).value.value;
      assert s == [data[pos]] + ZeroTerminatedAt(data, pos + 1).value.value;
    }
  }

  /** The zero-terminated read succeeds exactly when a zero byte follows `pos`. */
  lemma {:induction false} ZeroTerminatedOk(data: seq<byte>, pos: nat)
    ensures ZeroTerminatedAt(data, pos).Ok? <==> exists i :: pos <= i < |data| && data[i] == 0
    decreases |data| - pos
  {
    if pos < |data| && data[pos] != 0 {
      ZeroTerminatedOk(data, pos + 1);
      if ZeroTerminatedAt(data, pos).Err? {
        forall i | pos <= i < |data| ensures data[i] != 0 {
          if i > pos {
            assert !(pos + 1 <= i < |data| && data[i] == 0);
          }
        }
      }
    }
  }

  /** The zero-terminated read depends only on the bytes up to its terminator. */
  lemma {:induction false} ZeroTerminatedPrefix(data: seq<byte>, pos: nat, cut: nat)
    requires cut <= |data|
    requires ZeroTerminatedAt(data, pos).Ok? && ZeroTerminatedAt(data, pos).value.next <= cut
    ensures ZeroTerminatedAt(data[..cut], pos) == ZeroTerminatedAt(data, pos)
    decreases |data| - pos
  {
    if data[pos] != 0 {
      ZeroTerminatedPrefix(data, pos + 1, cut);
    }
  }

  /** Cutting the buffer before the terminator makes the read fail. */
  lemma {:induction false} ZeroTerminatedTruncated(data: seq<byte>, pos: nat, cut: nat)
    requires cut <= |data|
    requires ZeroTerminatedAt(data, pos).Ok? && cut < ZeroTerminatedAt(data, pos).value.next
    ensures ZeroTerminatedAt(data[..cut], pos).Err?
  {
    var s := ZeroTerminatedAt(data, pos).value.value;
    ZeroTerminatedContent(data, pos);
    forall i | pos <= i < cut ensures data[..cut][i] != 0 {
      assert data[i] == s[i - pos];
    }
  }

  // ---------------------------------------------------------------------
  // The cursor

  /** A read position over an immutable byte buffer. */
  class Cursor {
    const data: seq<byte>
    var pos: nat

    ghost predicate Valid()
      reads this
    {
      pos <= |data|
    }

    constructor (bytes: seq<byte>)
      ensures Valid() && data == bytes && pos == 0
    {
      data := bytes;
      pos := 0;
    }

    /**
     * The read just performed returned `r` and left the cursor where the
     * specification `s` says; on failure only the error is promised.
     */
    ghost predicate Follows<T>(r: Result<T>, s: Result<Parsed<T>>)
      reads this
    {
      match s
      case Ok(p) => r == Ok(p.value) && pos == p.next
      case Err(e) => r == Err(e)
    }

    method ReadBytes(n: nat) returns (r: Result<seq<byte>>)
      requires Valid()
      modifies this
      ensures Valid() && Follows(r, BytesAt(data, old(pos), n))
    {
      if pos + n > |data| {
        return Err(UnexpectedEof);
      }
      r := Ok(data[pos..pos + n]);
      pos := pos + n;
    }

    method ReadU8() returns (r: Result<byte>)
      requires Valid()
      modifies this
      ensures Valid() && Follows(r, U8At(data, old(pos)))
    {
      if pos >= |data| {
        return Err(UnexpectedEof);
      }
      r := Ok(data[pos]);
      pos := pos + 1;
    }

    /** `read_u16`, `read_u32`, `read_u64` for n = 2, 4, 8. */
    method ReadUInt(n: nat) returns (r: Result<nat>)
      requires Valid()
      modifies this
      ensures Valid() && Follows(r, UIntAt(data, old(pos), n))
    {
      var b :- ReadBytes(n);
      return Ok(LE(b));
    }

    /** `read_i8`, `read_i16`, `read_i32` for n = 1, 2, 4. */
    method ReadSInt(n: nat) returns (r: Result<int>)
      requires Valid() && n > 0
      modifies this
      ensures Valid() && Follows(r, SIntAt(data, old(pos), n))
    {
      var u :- ReadUInt(n);
      return Ok(Signed(u, n));
    }

    /** `set_rpos`, checked: a target beyond the end fails instead of being clamped. */
    method Seek(target: nat) returns (r: Result<()>)
      requires Valid()
      modifies this
      ensures Valid() && Follows(r, SeekAt(data, target))
    {
      if target > |data| {
        return Err(UnexpectedEof);
      }
      pos := target;
      return Ok(());
    }

    /** `read_zero_terminated` / `read_data_zeroterminated` (lib.rs). */
    method ReadZeroTerminated() returns (r: Result<seq<byte>>)
      requires Valid()
      modifies this
      ensures Valid() && Follows(r, ZeroTerminatedAt(data, old(pos)))
    {
      ghost var start := pos;
      var buffer: seq<byte> := [];
      var b :- ReadU8();
      PrependEmpty(ZeroTerminatedAt(data, start));
      while b != 0
        invariant Valid() && start < pos && data[pos - 1] == b
        invariant ZeroTerminatedAt(data, start) == Prepend(buffer, ZeroTerminatedAt(data, pos - 1))
        decreases |data| - pos
      {
        PrependTwice(buffer, [b], ZeroTerminatedAt(data, pos));
        buffer := buffer + [b];
        b :- ReadU8();
      }
      assert buffer + [] == buffer;
      return Ok(buffer);
    }
  }
}
