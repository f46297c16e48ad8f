/**
 The overwriting wiper: sequential chunks of a keystream over the whole device, and the time allowed for
 it in 64-bit nanoseconds.
 */
module Overwrite {
  import opened Options

  type Byte = n: int | 0 <= n < 256
  type Uint64 = n: int | 0 <= n < 0x1_0000_0000_0000_0000

  const BUFFER := 0x40_0000

  // ---------------------------------------------------------------- the deadline

  const SECOND := 1_000_000_000
  const FIVE_MINUTES := 300 * SECOND
  const RATE := 209_715_200

  /** Two's complement wrap-around of a 64-bit signed value. */
  function Wrap64(n: int): int {
    (n + 0x8000_0000_0000_0000) % 0x1_0000_0000_0000_0000 - 0x8000_0000_0000_0000
  }

  /** Division truncated towards zero. */
  function Quotient(a: int, b: int): int
    requires b > 0
  {
    if a >= 0 then a / b else -(-a / b)
  }

  function Deadline(size: Uint64): int {
    var duration := Quotient(Wrap64(Wrap64(Wrap64(size) * 3) * SECOND), RATE);
    if duration < FIVE_MINUTES then FIVE_MINUTES else duration
  }

  /** The formula without wrap-around. */
  function Intended(size: Uint64): int {
    var duration := size * 3 * SECOND / RATE;
    if duration < FIVE_MINUTES then FIVE_MINUTES else duration
  }

  lemma WrappedIsSmall(n: int)
    ensures -0x8000_0000_0000_0000 <= Wrap64(n) < 0x8000_0000_0000_0000
    ensures Quotient(Wrap64(n), RATE) < FIVE_MINUTES
  {
  }

  /** The wrapped product is always too small to pass the floor. */
  lemma DeadlineIsFiveMinutes(size: Uint64)
    ensures Deadline(size) == FIVE_MINUTES
  {
    WrappedIsSmall(Wrap64(Wrap64(size) * 3) * SECOND);
  }

  /** So it is shorter than the rate calls for exactly on devices above 20,971,520,000 bytes. */
  lemma DeadlineFallsShortIff(size: Uint64)
    ensures Deadline(size) < Intended(size) <==> size > 20_971_520_000
  {
    DeadlineIsFiveMinutes(size);
  }

  // ---------------------------------------------------------------- the device

  /** A range of the device written by one call. */
  datatype Chunk = Chunk(offset: nat, length: nat)

  class Device {
    var contents: seq<Byte>
    var position: nat
    var writes: seq<Chunk>

    constructor (contents: seq<Byte>)
      ensures this.contents == contents && position == 0 && writes == []
    {
      this.contents, position, writes := contents, 0, [];
    }

    /** Writes at the current position; a call that fails has stored `stored` bytes of the data, one that succeeds all. */
    method Write(data: seq<Byte>, stored: Option<nat>) returns (ok: bool)
      requires position + |data| <= |contents|
      requires stored.Some? ==> stored.value <= |data|
      modifies this
      ensures ok == stored.None?
      ensures var n := stored.GetOr(|data|);
              && contents == old(contents)[..old(position)] + data[..n] + old(contents)[old(position) + n..]
              && position == old(position) + n
              && writes == old(writes) + [Chunk(old(position), n)]
    {
      var n := stored.GetOr(|data|);
      contents := contents[..position] + data[..n] + contents[position + n..];
      writes := writes + [Chunk(position, n)];
      position := position + n;
      return stored.None?;
    }
  }

  // ---------------------------------------------------------------- the wipe

  function Stream(key: nat -> Byte, from: nat, length: nat): (s: seq<Byte>)
    ensures |s| == length && forall k :: 0 <= k < length ==> s[k] == key(from + k)
  {
    seq(length, k requires 0 <= k < length => key(from + k))
  }

  function Piece(at: nat, size: nat): (n: nat)
    requires at < size
    ensures 0 < n && at + n <= size
  {
    if size - at < BUFFER then size - at else BUFFER
  }

  /** The chunks that cover a device from a position on. */
  function Tiles(at: nat, size: nat): seq<Chunk>
    requires at <= size
    decreases size - at
  {
    if at == size then [] else [Chunk(at, Piece(at, size))] + Tiles(at + Piece(at, size), size)
  }

  /** The part of the device before `at` is keystream, the rest is as it was. */
  predicate WipedUpTo(contents: seq<Byte>, before: seq<Byte>, key: nat -> Byte, at: nat) {
    && |contents| == |before| && at <= |before|
    && forall k :: 0 <= k < |before| ==> contents[k] == if k < at then key(k) else before[k]
  }

  lemma WriteExtends(contents: seq<Byte>, before: seq<Byte>, key: nat -> Byte, at: nat, data: seq<Byte>, n: nat)
    requires WipedUpTo(contents, before, key, at) && at + |data| <= |before| && data == Stream(key, at, |data|) && n <= |data|
    ensures WipedUpTo(contents[..at] + data[..n] + contents[at + n..], before, key, at + n)
  {
  }

  /** Which chunk, if any, ends the wipe early: a cancelled context, or a write that fails after some bytes. */
  datatype Trouble = Trouble(cancelled: set<nat>, broken: map<nat, nat>, sync: bool)

  function Least(a: nat, b: nat): nat {
    if a < b then a else b
  }

  /** Where the wipe that has reached `at` with chunk `n` ends. */
  function Progress(at: nat, size: nat, n: nat, t: Trouble): (end: nat)
    requires at <= size
    ensures at <= end <= size
    decreases size - at
  {
    if at == size || n in t.cancelled then at
    else if n in t.broken then at + Least(t.broken[n], Piece(at, size))
    else Progress(at + Piece(at, size), size, n + 1, t)
  }

  /** Whether the wipe that has reached `at` with chunk `n` meets no trouble any more. */
  function Smooth(at: nat, size: nat, n: nat, t: Trouble): bool
    requires at <= size
    decreases size - at
  {
    at == size || (n !in t.cancelled && n !in t.broken && Smooth(at + Piece(at, size), size, n + 1, t))
  }

  /** One chunk of the keystream, of which a failing write stores only a part. */
  method WriteChunk(device: Device, key: nat -> Byte, ghost before: seq<Byte>, length: nat, stored: Option<nat>) returns (ok: bool)
    requires device.position + length <= |device.contents| && (stored.Some? ==> stored.value <= length)
    requires WipedUpTo(device.contents, before, key, device.position)
    modifies device
    ensures ok == stored.None?
    ensures device.position == old(device.position) + stored.GetOr(length)
    ensures WipedUpTo(device.contents, before, key, device.position)
    ensures device.writes == old(device.writes) + [Chunk(old(device.position), stored.GetOr(length))]
  {
    var data := Stream(key, device.position, length);
    WriteExtends(device.contents, before, key, device.position, data, stored.GetOr(length));
    ok := device.Write(data, stored);
  }

  method Wipe(device: Device, key: nat -> Byte, t: Trouble) returns (ok: bool)
    requires device.position == 0 && device.writes == []
    modifies device
    ensures var size := |old(device.contents)|;
            && ok == (Smooth(0, size, 0, t) && t.sync)
            && WipedUpTo(device.contents, old(device.contents), key, Progress(0, size, 0, t))
            && (ok ==> device.writes == Tiles(0, size))
  {
    var size := |device.contents|;
    ghost var before := device.contents;
    var n: nat := 0;
    while device.position < size
      invariant Reaches(device, before, key, n, t)
      decreases size - device.position
    {
      if n in t.cancelled {
        return false;
      }
      var length := Piece(device.position, size);
      var stored := if n in t.broken then Some(Least(t.broken[n], length)) else None;
      OneMoreChunk(device.position, size, n, t);
      var accepted := WriteChunk(device, key, before, length, stored);
      if !accepted {
        return false;
      }
      n := n + 1;
    }
    ok := t.sync;
  }

  /** The wipe has written the first `n` chunks without trouble. */
  ghost predicate Reaches(device: Device, before: seq<Byte>, key: nat -> Byte, n: nat, t: Trouble)
    reads device
  {
    var at, size := device.position, |before|;
    && WipedUpTo(device.contents, before, key, at)
    && Progress(0, size, 0, t) == Progress(at, size, n, t)
    && Smooth(0, size, 0, t) == Smooth(at, size, n, t)
    && Tiles(0, size) == device.writes + Tiles(at, size)
  }

  /** What one more chunk means for where the wipe ends. */
  lemma OneMoreChunk(at: nat, size: nat, n: nat, t: Trouble)
    requires at < size && n !in t.cancelled
    ensures n !in t.broken ==> Progress(at, size, n, t) == Progress(at + Piece(at, size), size, n + 1, t)
    ensures n !in t.broken ==> Smooth(at, size, n, t) == Smooth(at + Piece(at, size), size, n + 1, t)
    ensures n in t.broken ==> Progress(at, size, n, t) == at + Least(t.broken[n], Piece(at, size)) && !Smooth(at, size, n, t)
    ensures Tiles(at, size) == [Chunk(at, Piece(at, size))] + Tiles(at + Piece(at, size), size)
  {
  }

  /** How many of the chunks contain a byte. */
  function Times(chunks: seq<Chunk>, b: nat): nat {
    if chunks == [] then 0
    else (if chunks[0].offset <= b < chunks[0].offset + chunks[0].length then 1 else 0) + Times(chunks[1..], b)
  }

  /** Every byte of the device is in exactly one chunk, and no chunk exceeds the buffer or the device. */
  lemma {:induction false} TilesCoverOnce(at: nat, size: nat, b: nat)
    requires at <= size
    ensures Times(Tiles(at, size), b) == if at <= b < size then 1 else 0
    ensures forall i :: 0 <= i < |Tiles(at, size)| ==> 0 < Tiles(at, size)[i].length <= BUFFER
    decreases size - at
  {
    if at < size {
      TilesCoverOnce(at + Piece(at, size), size, b);
    }
  }

  /** A wipe without trouble reaches the end of the device, where nothing of the old contents is left. */
  lemma {:induction false} SmoothReachesEnd(at: nat, size: nat, n: nat, t: Trouble)
    requires at <= size && Smooth(at, size, n, t)
    ensures Progress(at, size, n, t) == size
    decreases size - at
  {
    if at < size {
      SmoothReachesEnd(at + Piece(at, size), size, n + 1, t);
    }
  }

  /** It meets no trouble exactly when no chunk is cancelled or broken. */
  lemma {:induction false} SmoothIff(at: nat, size: nat, n: nat, t: Trouble)
    requires at <= size
    ensures Smooth(at, size, n, t) <==>
              forall i: nat :: n <= i < n + |Tiles(at, size)| ==> i !in t.cancelled && i !in t.broken
    decreases size - at
  {
    if at < size {
      SmoothIff(at + Piece(at, size), size, n + 1, t);
    }
  }
}
