/**
 The contexts of MD5, SHA-1 and SHA-256: a byte or bit count, the chaining state
 and a buffer for the bytes that do not fill a block yet. `msg` is what has been
 fed in so far.
 */
module DigestContexts {
  import opened Lists
  import opened Digest

  lemma SpliceFront(buf: Bytes, at: nat, data: Bytes)
    requires at + |data| <= |buf|
    ensures Splice(buf, at, data)[..at + |data|] == buf[..at] + data
    ensures at + |data| == |buf| ==> Splice(buf, at, data) == buf[..at] + data
  {}

  /** The block that the new bytes complete. */
  lemma FirstBlock(f: Compress, s: State, msg: Bytes, data: Bytes, state: State, buf: Bytes)
    requires Streamed(f, s, msg, state, buf) && |data| >= BLOCK - |msg| % BLOCK
    ensures var p := |msg| % BLOCK; var k := Full(|msg|);
            f(state, Splice(buf, p, data[..BLOCK - p])) == Iterate(f, s, (msg + data)[..k + BLOCK])
  {
    hide Iterate, Splice;
    var p, k, m := |msg| % BLOCK, Full(|msg|), msg + data;
    SpliceFront(buf, p, data[..BLOCK - p]);
    IterateBlock(f, s, m, k);
    assert m[..k] == msg[..k];
    assert m[k..k + BLOCK] == msg[k..] + data[..BLOCK - p];
  }

  /** Bytes that complete no block are only buffered. */
  lemma NoBlock(f: Compress, s: State, msg: Bytes, data: Bytes, state: State, buf: Bytes)
    requires Streamed(f, s, msg, state, buf) && |data| < BLOCK - |msg| % BLOCK
    ensures Streamed(f, s, msg + data, state, Splice(buf, |msg| % BLOCK, data))
  {
    hide Iterate, Splice;
    var p, k, m := |msg| % BLOCK, Full(|msg|), msg + data;
    SpliceFront(buf, p, data);
    assert m[..k] == msg[..k] && m[k..] == msg[k..] + data;
    StreamedAt(f, s, m, state, Splice(buf, p, data), k);
  }

  /** A whole block of the new bytes, `done` of which are already compressed. */
  lemma NextBlock(f: Compress, s: State, msg: Bytes, data: Bytes, done: nat, state: State)
    requires done + BLOCK <= |data| && (|msg| + done) % BLOCK == 0
    requires state == Iterate(f, s, (msg + data)[..|msg| + done])
    ensures (|msg| + done + BLOCK) % BLOCK == 0
    ensures f(state, data[done..done + BLOCK]) == Iterate(f, s, (msg + data)[..|msg| + done + BLOCK])
  {
    hide Iterate;
    var m, k := msg + data, |msg| + done;
    IterateBlock(f, s, m, k);
    assert m[k..k + BLOCK] == data[done..done + BLOCK];
  }

  /** What is left is buffered from the start. */
  lemma Rest(f: Compress, s: State, msg: Bytes, data: Bytes, done: nat, state: State, buf: Bytes)
    requires done <= |data| < done + BLOCK && (|msg| + done) % BLOCK == 0 && |buf| == BLOCK
    requires state == Iterate(f, s, (msg + data)[..|msg| + done])
    ensures Streamed(f, s, msg + data, state, Splice(buf, 0, data[done..]))
  {
    hide Iterate, Splice;
    var m, k := msg + data, |msg| + done;
    SpliceFront(buf, 0, data[done..]);
    assert m[k..] == data[done..];
    StreamedAt(f, s, m, state, Splice(buf, 0, data[done..]), k);
  }

  lemma CountMod(n: nat)
    ensures n % U64 % BLOCK == n % BLOCK
  {
    assert U64 == BLOCK * 0x400_0000_0000_0000;
    var q := n / U64;
    assert n == U64 * q + n % U64;
    assert n - n % U64 == BLOCK * (0x400_0000_0000_0000 * q);
  }

  class Sha1 {
    const f: Compress
    const init: State
    var count: nat
    var state: State
    const buffer: array<Byte>
    ghost var msg: Bytes

    ghost predicate Valid()
      reads this, buffer
    {
      buffer.Length == BLOCK && count == |msg| % U64 && Streamed(f, init, msg, state, buffer[..])
    }

    constructor (f: Compress, init: State)
      ensures Valid() && msg == [] && fresh(buffer) && this.f == f && this.init == init
    {
      this.f, this.init, count, state, msg := f, init, 0, init, [];
      buffer := new Byte[BLOCK](_ => 0);
    }

    /** The first turn of the loop in sha1_update. `done` is an unsigned word and starts below zero when bytes are
        buffered. */
    method FirstTurn(data: Bytes, partial: nat) returns (done: nat)
      requires Valid() && partial == |msg| % BLOCK && 64 <= partial + |data| < U32
      modifies this`state, buffer
      ensures done == 64 - partial && (|msg| + done) % BLOCK == 0
      ensures state == Iterate(f, init, (msg + data)[..|msg| + done])
    {
      hide Streamed, Iterate, Splice;
      Wrapped(|msg|, partial);
      done := 0;
      if partial > 0 {
        done := U32 - partial;
        FirstBlock(f, init, msg, data, state, buffer[..]);
        Write(buffer, partial, data[..(done + 64) % U32]);
        state := f(state, buffer[..]);
      } else {
        EmptyBuffer(f, init, msg, data, state, buffer[..]);
        NextBlock(f, init, msg, data, 0, state);
        state := f(state, data[0..0 + 64]);
      }
      done := (done + 64) % U32;
    }

    method Turns(data: Bytes, from: nat) returns (done: nat)
      requires from <= |data| < U32 - |msg| % BLOCK && (|msg| + from) % BLOCK == 0
      requires state == Iterate(f, init, (msg + data)[..|msg| + from])
      modifies this`state
      ensures done <= |data| < done + BLOCK && (|msg| + done) % BLOCK == 0
      ensures state == Iterate(f, init, (msg + data)[..|msg| + done])
    {
      hide Iterate;
      done := from;
      NoWrap(|msg|, |data|, done);
      while (done + 63) % U32 < |data|
        invariant done <= |data| && (|msg| + done) % BLOCK == 0 && done + 63 < U32
        invariant state == Iterate(f, init, (msg + data)[..|msg| + done])
      {
        Small(done + 63);
        Small(done + 64);
        NextBlock(f, init, msg, data, done, state);
        state := f(state, data[done..done + 64]);
        done := (done + 64) % U32;
        NoWrap(|msg|, |data|, done);
      }
      Small(done + 63);
    }

    /** sha1_update */
    method Update(data: Bytes)
      requires Valid() && |msg| % BLOCK + |data| < U32
      modifies this`count, this`state, this`msg, buffer
      ensures Valid() && msg == old(msg) + data
    {
      hide Streamed, Iterate, Splice;
      CountMod(|msg|);
      var partial := count % BLOCK;
      if (partial + |data|) % U32 > 63 {
        var done := FirstTurn(data, partial);
        done := Turns(data, done);
        Rest(f, init, msg, data, done, state, buffer[..]);
        Write(buffer, 0, data[done..]);
      } else {
        NoBlock(f, init, msg, data, state, buffer[..]);
        Write(buffer, partial, data);
      }
      CountAdd(|msg|, |data|);
      count := (count + |data|) % U64;
      msg := msg + data;
    }

    /** sha1_final: padding and length are fed in like the message. */
    method Final() returns (digest: State)
      requires Valid()
      modifies this`count, this`state, this`msg, buffer
      ensures digest == Iterate(f, init, Padded(old(msg), true))
    {
      hide Streamed, Iterate, Splice;
      ghost var m := msg;
      CountMod(|msg|);
      BitCount(|msg|);
      var bits := count * 8 % U64;
      var index := count % BLOCK;
      var padlen := if index < 56 then 56 - index else 120 - index;
      var padding: Bytes := [0x80] + Zeros(63);
      assert padding[..padlen] == Padding(|msg|);
      Update(padding[..padlen]);
      Update(BigEndian(bits, 8));
      assert msg == Padded(m, true);
      StreamedWhole(f, init, msg, state, buffer[..]);
      digest := state;
    }
  }

  lemma BitCount(n: nat)
    ensures n % U64 * 8 % U64 == 8 * n % U64
  {
    var q, r := n / U64, n % U64;
    assert 8 * n == 8 * r + U64 * (8 * q);
    DropWords(8 * r, 8 * q);
  }

  lemma DropWords(x: nat, k: nat)
    ensures (x + U64 * k) % U64 == x % U64
  {}

  lemma StreamedWhole(f: Compress, s: State, msg: Bytes, state: State, buf: Bytes)
    requires Streamed(f, s, msg, state, buf) && |msg| % BLOCK == 0
    ensures state == Iterate(f, s, msg)
  {
    assert msg[..Full(|msg|)] == msg;
  }

  class Md5 {
    const f: Compress
    const init: State
    var byteCount: nat
    var hash: State
    const block: array<Byte>
    ghost var msg: Bytes

    ghost predicate Valid()
      reads this, block
    {
      block.Length == BLOCK && byteCount == |msg| % U64 && Streamed(f, init, msg, hash, block[..])
    }

    constructor (f: Compress, init: State)
      ensures Valid() && msg == [] && fresh(block) && this.f == f && this.init == init
    {
      this.f, this.init, byteCount, hash, msg := f, init, 0, init, [];
      block := new Byte[BLOCK](_ => 0);
    }

    /** The part of md5_update that compresses: the buffered block, the whole blocks, and the rest into the buffer. */
    method Blocks(data: Bytes, avail: nat)
      requires block.Length == BLOCK && Streamed(f, init, msg, hash, block[..])
      requires avail == BLOCK - |msg| % BLOCK && |data| >= avail
      modifies this`hash, block
      ensures Streamed(f, init, msg + data, hash, block[..])
    {
      hide Streamed, Iterate, Splice;
      Wrapped(|msg|, BLOCK - avail);
      FirstBlock(f, init, msg, data, hash, block[..]);
      Write(block, BLOCK - avail, data[..avail]);
      hash := f(hash, block[..]);
      var i := avail;
      while |data| - i >= BLOCK
        invariant i <= |data| && (|msg| + i) % BLOCK == 0 && hash == Iterate(f, init, (msg + data)[..|msg| + i])
      {
        NextBlock(f, init, msg, data, i, hash);
        SpliceWhole(block[..], data[i..i + BLOCK]);
        Write(block, 0, data[i..i + BLOCK]);
        hash := f(hash, block[..]);
        i := i + BLOCK;
      }
      Rest(f, init, msg, data, i, hash, block[..]);
      Write(block, 0, data[i..]);
    }

    /** md5_update */
    method Update(data: Bytes)
      requires Valid()
      modifies this`byteCount, this`hash, this`msg, block
      ensures Valid() && msg == old(msg) + data
    {
      hide Streamed, Splice;
      CountMod(|msg|);
      CountAdd(|msg|, |data|);
      var avail := BLOCK - byteCount % BLOCK;
      byteCount := (byteCount + |data|) % U64;
      if avail > |data| {
        NoBlock(f, init, msg, data, hash, block[..]);
        Write(block, BLOCK - avail, data);
      } else {
        Blocks(data, avail);
      }
      msg := msg + data;
    }

    /** md5_final: the padding is written into the block, which is compressed early when the length does not fit. */
    method Final() returns (digest: State)
      requires Valid()
      modifies this`hash, block
      ensures digest == Iterate(f, init, Padded(old(msg), false))
    {
      hide Streamed, Iterate, Splice, LittleEndian;
      CountMod(|msg|);
      BitCount(|msg|);
      var bits := byteCount * 8 % U64;
      var offset := byteCount % BLOCK;
      var padding := 56 - (offset + 1);
      if padding < 0 {
        TwoBlocks(f, init, msg, hash, block[..]);
        Write(block, offset, [0x80] + Zeros(63 - offset));
        hash := f(hash, block[..]);
        SpliceWhole(block[..], Zeros(56) + LittleEndian(bits, 8));
        Write(block, 0, Zeros(56) + LittleEndian(bits, 8));
      } else {
        OneBlock(f, init, msg, hash, block[..]);
        Write(block, offset, [0x80] + Zeros(padding) + LittleEndian(bits, 8));
      }
      hash := f(hash, block[..]);
      digest := hash;
    }
  }

  lemma SpliceWhole(buf: Bytes, data: Bytes)
    requires |data| == |buf|
    ensures Splice(buf, 0, data) == data
  {}

  lemma OneBlock(f: Compress, s: State, msg: Bytes, state: State, buf: Bytes)
    requires Streamed(f, s, msg, state, buf) && |msg| % BLOCK < 56
    ensures var p := |msg| % BLOCK; var e := LittleEndian(8 * |msg| % U64, 8);
            f(state, Splice(buf, p, [0x80] + Zeros(55 - p) + e)) == Iterate(f, s, Padded(msg, false))
  {
    hide LittleEndian, Streamed, Iterate, Splice;
    var p, k, m := |msg| % BLOCK, Full(|msg|), Padded(msg, false);
    var e := LittleEndian(8 * |msg| % U64, 8);
    var tail := [0x80] + Zeros(55 - p) + e;
    assert m == msg + tail;
    FirstBlock(f, s, msg, tail, state, buf);
    assert tail[..BLOCK - p] == tail && m[..k + BLOCK] == m;
  }

  lemma TwoBlocks(f: Compress, s: State, msg: Bytes, state: State, buf: Bytes)
    requires Streamed(f, s, msg, state, buf) && |msg| % BLOCK >= 56
    ensures var p := |msg| % BLOCK; var e := LittleEndian(8 * |msg| % U64, 8);
            f(f(state, Splice(buf, p, [0x80] + Zeros(63 - p))), Zeros(56) + e) == Iterate(f, s, Padded(msg, false))
  {
    hide LittleEndian, Streamed, Iterate, Splice;
    var p, k, m := |msg| % BLOCK, Full(|msg|), Padded(msg, false);
    var e := LittleEndian(8 * |msg| % U64, 8);
    var t1, t2 := [0x80] + Zeros(63 - p), Zeros(56) + e;
    assert Padding(|msg|) == t1 + Zeros(56);
    assert m == msg + (t1 + t2);
    FirstBlock(f, s, msg, t1 + t2, state, buf);
    assert (t1 + t2)[..BLOCK - p] == t1;
    IterateBlock(f, s, m, k + BLOCK);
    assert m[k + BLOCK..k + BLOCK + BLOCK] == t2 && m[..k + BLOCK + BLOCK] == m;
  }

  lemma Wrapped(n: nat, partial: nat)
    requires partial == n % BLOCK
    ensures partial > 0 ==> (U32 - partial + 64) % U32 == 64 - partial
    ensures 64 % U32 == 64 && (n + (64 - partial)) % BLOCK == 0 && Full(n) + BLOCK == n + (64 - partial)
  {}

  lemma Small(x: nat)
    ensures x < U32 ==> x % U32 == x
  {}

  /** Below the limit the loop's test does not wrap. */
  lemma NoWrap(n: nat, len: nat, done: nat)
    requires done <= len < U32 - n % BLOCK && (n + done) % BLOCK == 0
    ensures done + 63 < U32
  {
    assert (n % BLOCK + done) % BLOCK == 0;
  }

  /** The test for a whole block is right exactly when the sum does not wrap; it can only wrap for a single update of
      almost 4 GiB. */
  lemma TestExact(partial: nat, len: nat)
    requires partial < BLOCK && len < U32
    ensures ((partial + len) % U32 > 63 <==> partial + len > 63) <==> partial + len < U32
  {}

  lemma CountAdd(n: nat, k: nat)
    ensures (n % U64 + k) % U64 == (n + k) % U64
  {}

  lemma EmptyBuffer(f: Compress, s: State, msg: Bytes, data: Bytes, state: State, buf: Bytes)
    requires Streamed(f, s, msg, state, buf) && |msg| % BLOCK == 0
    ensures state == Iterate(f, s, (msg + data)[..|msg| + 0])
  {
    assert (msg + data)[..|msg|] == msg[..Full(|msg|)];
  }

  /** The bit count is kept in two words. */
  class Sha256 {
    const f: Compress
    const init: State
    var count0: nat
    var count1: nat
    var state: State
    const buf: array<Byte>
    ghost var msg: Bytes

    ghost predicate Valid()
      reads this, buf
    {
      && buf.Length == BLOCK && Streamed(f, init, msg, state, buf[..])
      && Counts(count0, count1, |msg|)
    }

    constructor (f: Compress, init: State)
      ensures Valid() && msg == [] && fresh(buf) && this.f == f && this.init == init
    {
      this.f, this.init, count0, count1, state, msg := f, init, 0, 0, init, [];
      buf := new Byte[BLOCK](_ => 0);
    }

    /** The part of sha256_update that compresses. The index is an unsigned word. */
    method Blocks(data: Bytes, index: nat)
      requires buf.Length == BLOCK && Streamed(f, init, msg, state, buf[..])
      requires index == |msg| % BLOCK && |data| >= BLOCK - index && index + |data| < U32
      modifies this`state, buf
      ensures Streamed(f, init, msg + data, state, buf[..])
    {
      hide Streamed, Iterate, Splice;
      var partLen := 64 - index;
      Wrapped(|msg|, index);
      FirstBlock(f, init, msg, data, state, buf[..]);
      Write(buf, index, data[..partLen]);
      state := f(state, buf[..]);
      var i: nat := partLen;
      NoWrap(|msg|, |data|, i);
      while (i + 63) % U32 < |data|
        invariant i <= |data| && (|msg| + i) % BLOCK == 0 && i + 63 < U32
        invariant state == Iterate(f, init, (msg + data)[..|msg| + i])
      {
        Small(i + 63);
        Small(i + 64);
        NextBlock(f, init, msg, data, i, state);
        state := f(state, data[i..i + 64]);
        i := (i + 64) % U32;
        NoWrap(|msg|, |data|, i);
      }
      Small(i + 63);
      Rest(f, init, msg, data, i, state, buf[..]);
      Write(buf, 0, data[i..]);
    }

    /** sha256_update, where the loop's test does not wrap. The bytes are always
        taken in; the context stays in order exactly when the bits are counted right. */
    method Update(data: Bytes)
      requires Valid() && |msg| % BLOCK + |data| < U32
      modifies this`count0, this`count1, this`state, this`msg, buf
      ensures msg == old(msg) + data && Streamed(f, init, msg, state, buf[..])
      ensures Valid() <==> CountedRight(old(count0), |data|)
    {
      hide Streamed, Splice, Counts, CountedRight;
      IndexOfCount(count0, count1, |msg|);
      CountBits(count0, count1, |msg|, |data|);
      var index := count0 / 8 % BLOCK;
      var bits := |data| * 8 % U32;
      count0 := (count0 + bits) % U32;
      if count0 < bits {
        count1 := (count1 + 1 + |data| / 0x2000_0000) % U32;
      }
      if |data| >= 64 - index {
        Blocks(data, index);
      } else {
        NoBlock(f, init, msg, data, state, buf[..]);
        Write(buf, index, data);
      }
      msg := msg + data;
    }

    /** sha256_final */
    method Final() returns (digest: State)
      requires Valid()
      modifies this`count0, this`count1, this`state, this`msg, buf
      ensures digest == Iterate(f, init, Padded(old(msg), true))
    {
      hide Streamed, Iterate, Splice, BigEndian, Counts;
      ghost var m := msg;
      IndexOfCount(count0, count1, |msg|);
      CountBytes(count0, count1, |msg|);
      var bits := BigEndian(count1, 4) + BigEndian(count0, 4);
      var index := count0 / 8 % BLOCK;
      var padLen := if index < 56 then 56 - index else 120 - index;
      var padding: Bytes := [0x80] + Zeros(63);
      assert padding[..padLen] == Padding(|msg|);
      Counted(count0, padLen);
      Update(padding[..padLen]);
      Counted(count0, 8);
      Update(bits);
      assert msg == Padded(m, true);
      StreamedWhole(f, init, msg, state, buf[..]);
      digest := state;
    }
  }

  ghost predicate Counts(count0: nat, count1: nat, n: nat) {
    count0 < U32 && count1 < U32 && U32 * count1 + count0 == 8 * n % U64
  }

  lemma IndexOfCount(count0: nat, count1: nat, n: nat)
    requires Counts(count0, count1, n)
    ensures count0 / 8 % BLOCK == n % BLOCK
  {
    var q := 8 * n / U64;
    assert 8 * n == U64 * q + U32 * count1 + count0;
    assert n == 0x2000_0000_0000_0000 * q + 0x2000_0000 * count1 + count0 / 8;
    assert n - count0 / 8 == BLOCK * (0x80_0000_0000_0000 * q + 0x80_0000 * count1);
  }

  /** When sha256_update counts the bits of `len` bytes right: if there are fewer
      than 2^29 bytes, or the low word wraps, since only then is the high word touched. */
  predicate CountedRight(count0: nat, len: nat) {
    len < 0x2000_0000 || count0 + len * 8 % U32 >= U32
  }

  /** The two words hold the count of bits afterwards exactly when `CountedRight` says so. */
  lemma CountBits(count0: nat, count1: nat, n: nat, len: nat)
    requires Counts(count0, count1, n) && len < U32
    ensures var bits := len * 8 % U32; var low := (count0 + bits) % U32;
            Counts(low, if low < bits then (count1 + 1 + len / 0x2000_0000) % U32 else count1, n + len)
            <==> CountedRight(count0, len)
  {
    hide Counts, CountedRight;
    CountsBound(count0, count1, n);
    var bits, top := len * 8 % U32, len / 0x2000_0000;
    TopBits(len);
    if count0 + bits < U32 {
      Small(count0 + bits);
      NoCarry(count0, count1, n, len, bits, top);
    } else {
      LowWord(count0 + bits);
      if count1 + 1 + top < U32 {
        Small(count1 + 1 + top);
      } else {
        LowWord(count1 + 1 + top);
      }
      Carry(count0, count1, n, len, bits, top);
    }
  }

  lemma CountsBound(count0: nat, count1: nat, n: nat)
    requires Counts(count0, count1, n)
    ensures count0 < U32 && count1 < U32
  {}

  lemma TopBits(len: nat)
    requires len < U32
    ensures 8 * len == U32 * (len / 0x2000_0000) + len * 8 % U32 && len / 0x2000_0000 < 8
    ensures len / 0x2000_0000 == 0 <==> len < 0x2000_0000
  {}

  lemma NoCarry(count0: nat, count1: nat, n: nat, len: nat, bits: nat, top: nat)
    requires Counts(count0, count1, n) && bits == len * 8 % U32 && count0 + bits < U32
    requires 8 * len == U32 * top + bits && top < 8 && (top == 0 <==> len < 0x2000_0000)
    ensures Counts(count0 + bits, count1, n + len) <==> CountedRight(count0, len)
  {
    AddMod(8 * n, 8 * len);
  }

  lemma Carry(count0: nat, count1: nat, n: nat, len: nat, bits: nat, top: nat)
    requires Counts(count0, count1, n) && bits == len * 8 % U32 && U32 <= count0 + bits < U32 + U32
    requires 8 * len == U32 * top + bits && top < 8
    ensures var high := count1 + 1 + top;
            Counts(count0 + bits - U32, if high < U32 then high else high - U32, n + len) && CountedRight(count0, len)
  {
    AddMod(8 * n, 8 * len);
  }

  /** An empty context that is fed 2^29 bytes at once counts none of their bits. */
  lemma CountLost()
    ensures Counts(0, 0, 0) && !Counts((0 + 0x2000_0000 * 8 % U32) % U32, 0, 0x2000_0000)
    ensures !CountedRight(0, 0x2000_0000)
  {}

  /** The loop's test is right at every turn exactly when the whole does not reach
      2^32 bytes; otherwise the last turn wraps and the loop goes on past the data. */
  lemma LoopTestExact(n: nat, len: nat)
    requires len < U32 && len >= BLOCK - n % BLOCK
    ensures (forall i: nat {:trigger Turn(n, len, i)} :: Turn(n, len, i) ==> ((i + 63) % U32 < len <==> i + 63 < len))
            <==> n % BLOCK + len < U32
  {
    var p := n % BLOCK;
    if p + len < U32 {
      forall i: nat | Turn(n, len, i) ensures (i + 63) % U32 < len <==> i + 63 < len {
        NoWrap(n, len, i);
        Small(i + 63);
      }
    } else {
      var i: nat := U32 - p;
      LastTurn(n);
      assert Turn(n, len, i);
      LowWord(i + 63);
    }
  }

  predicate Turn(n: nat, len: nat, i: nat) {
    i <= len && (n + i) % BLOCK == 0
  }

  lemma LastTurn(n: nat)
    ensures (n + (U32 - n % BLOCK)) % BLOCK == 0
  {}

  lemma Counted(count0: nat, len: nat)
    requires len < 0x2000_0000
    ensures CountedRight(count0, len)
  {}

  lemma LowWord(x: nat)
    requires U32 <= x < U32 + U32
    ensures x % U32 == x - U32
  {}

  lemma AddMod(x: nat, b: nat)
    requires b < U64
    ensures (x + b) % U64 == if x % U64 + b < U64 then x % U64 + b else x % U64 + b - U64
  {}

  lemma NextByte(a: nat, l: nat)
    ensures (256 * a + l) / 256 == a + l / 256 && (256 * a + l) % 256 == l % 256
  {}

  lemma BigEndianStep(a: nat, l: nat, n: nat)
    requires n > 0
    ensures BigEndian(256 * a + l, n) == BigEndian(a + l / 256, n - 1) + [l % 256]
  {
    NextByte(a, l);
  }

  lemma BigEndianNone(x: nat)
    ensures BigEndian(x, 0) == []
  {}

  lemma FourBytes(l: nat)
    requires l < U32
    ensures l / 256 < 16777216 && l / 256 / 256 < 65536 && l / 256 / 256 / 256 < 256 && l / 256 / 256 / 256 / 256 == 0
  {}

  lemma BigEndianFour(h: nat, l: nat, n: nat)
    requires l < U32
    ensures var l1 := l / 256; var l2 := l1 / 256; var l3 := l2 / 256;
      BigEndian(U32 * h + l, n + 4) == BigEndian(h, n) + [l3 % 256] + [l2 % 256] + [l1 % 256] + [l % 256]
  {
    hide BigEndian;
    FourBytes(l);
    var l1 := l / 256;
    var l2 := l1 / 256;
    var l3 := l2 / 256;
    BigEndianStep(16777216 * h, l, n + 4);
    BigEndianStep(65536 * h, l1, n + 3);
    BigEndianStep(256 * h, l2, n + 2);
    BigEndianStep(h, l3, n + 1);
    assert BigEndian(256 * h + l3, n + 1) == BigEndian(h, n) + [l3 % 256];
  }

  lemma BigEndianSplit(h: nat, l: nat)
    requires l < U32
    ensures BigEndian(U32 * h + l, 8) == BigEndian(h, 4) + BigEndian(l, 4)
  {
    hide BigEndian;
    BigEndianFour(h, l, 4);
    BigEndianFour(0, l, 0);
    BigEndianNone(0);
  }

  lemma CountBytes(count0: nat, count1: nat, n: nat)
    requires Counts(count0, count1, n)
    ensures BigEndian(count1, 4) + BigEndian(count0, 4) == BigEndian(8 * n % U64, 8)
  {
    hide BigEndian;
    BigEndianSplit(count1, count0);
  }
}
