/**
 Digests over a stream of bytes: whatever the pieces the message arrives in, the
 result is the compression function iterated over the padded message.
 */
module Digest {

  type Byte = x: int | 0 <= x < 256
  type Bytes = seq<Byte>

  /** The chaining state, a list of words. */
  type State = seq<nat>

  /** The compression function on blocks of 64 bytes. */
  type Compress = (State, Bytes) -> State

  const BLOCK := 64
  const U32: nat := 0x1_0000_0000
  const U64: nat := 0x1_0000_0000_0000_0000

  function Iterate(f: Compress, s: State, m: Bytes): State
    requires |m| % BLOCK == 0
  {
    if m == [] then s else f(Iterate(f, s, m[..|m| - BLOCK]), m[|m| - BLOCK..])
  }

  lemma IterateBlock(f: Compress, s: State, m: Bytes, k: nat)
    requires k % BLOCK == 0 && k + BLOCK <= |m|
    ensures Iterate(f, s, m[..k + BLOCK]) == f(Iterate(f, s, m[..k]), m[k..k + BLOCK])
  {
    var n := m[..k + BLOCK];
    assert n[..|n| - BLOCK] == m[..k] && n[|n| - BLOCK..] == m[k..k + BLOCK];
  }

  function Full(n: nat): (k: nat)
    ensures k % BLOCK == 0 && k <= n < k + BLOCK
  {
    n - n % BLOCK
  }

  /** The context after the bytes of `msg`: whole blocks are compressed, the rest is buffered. */
  ghost predicate Streamed(f: Compress, s: State, msg: Bytes, state: State, buf: Bytes) {
    && |buf| == BLOCK
    && state == Iterate(f, s, msg[..Full(|msg|)])
    && buf[..|msg| % BLOCK] == msg[Full(|msg|)..]
  }

  lemma StreamedAt(f: Compress, s: State, msg: Bytes, state: State, buf: Bytes, k: nat)
    requires k % BLOCK == 0 && k <= |msg| < k + BLOCK && |buf| == BLOCK
    requires state == Iterate(f, s, msg[..k]) && buf[..|msg| - k] == msg[k..]
    ensures Streamed(f, s, msg, state, buf)
  {
    hide Iterate;
    assert k == Full(|msg|) && |msg| % BLOCK == |msg| - k;
  }

  function Zeros(n: nat): (z: Bytes)
    ensures |z| == n && forall i :: 0 <= i < n ==> z[i] == 0
  {
    seq(n, _ => 0)
  }

  /** The bytes of a number, most significant first. */
  function BigEndian(x: nat, n: nat): (b: Bytes)
    ensures |b| == n
  {
    if n == 0 then [] else BigEndian(x / 256, n - 1) + [x % 256]
  }

  function LittleEndian(x: nat, n: nat): (b: Bytes)
    ensures |b| == n
  {
    if n == 0 then [] else [x % 256] + LittleEndian(x / 256, n - 1)
  }

  /** The number that bytes stand for, least significant first. */
  ghost function Number(b: Bytes): nat { if b == [] then 0 else b[0] + 256 * Number(b[1..]) }

  ghost function Power256(n: nat): nat { if n == 0 then 1 else 256 * Power256(n - 1) }

  /** Nothing of a number that fits is lost. */
  lemma {:induction false} LittleEndianIs(x: nat, n: nat)
    requires x < Power256(n)
    ensures Number(LittleEndian(x, n)) == x
  {
    if n > 0 {
      LittleEndianIs(x / 256, n - 1);
      assert LittleEndian(x, n)[1..] == LittleEndian(x / 256, n - 1);
    }
  }

  /** The two orders mirror each other. */
  lemma {:induction false} BigEndianIs(x: nat, n: nat, i: nat)
    requires i < n
    ensures BigEndian(x, n)[n - 1 - i] == LittleEndian(x, n)[i]
  {
    if i > 0 {
      BigEndianIs(x / 256, n - 1, i - 1);
    }
  }

  /** How many bytes the padding has before the length. */
  function PadLength(n: nat): (k: nat)
    ensures 0 < k <= BLOCK && (n + k + 8) % BLOCK == 0
  {
    if n % BLOCK < 56 then 56 - n % BLOCK else 120 - n % BLOCK
  }

  function Padding(n: nat): (p: Bytes)
    ensures |p| == PadLength(n)
  {
    [0x80] + Zeros(PadLength(n) - 1)
  }

  /** Section 5.1.1 of FIPS 180-4; sections 3.1 and 3.2 of RFC 1321 with the length the other way round. */
  function Padded(m: Bytes, big: bool): (p: Bytes)
    ensures |p| % BLOCK == 0 && m <= p
  {
    var bits := 8 * |m| % U64;
    m + Padding(|m|) + if big then BigEndian(bits, 8) else LittleEndian(bits, 8)
  }
}
