/**
 The buffer that the block cipher walk allocates for a block that is not
 contiguous and for a misaligned chaining value: the spots in it and whether they
 fit. Addresses are numbers.
 */
module Spots {
  import opened Multiples

  /** ALIGN */
  function Align(x: nat, a: nat): (r: nat)
    requires a > 0
    ensures x <= r < x + a && r % a == 0
  {
    MulMod((x + a - 1) / a, a, 0);
    a * ((x + a - 1) / a)
  }

  lemma AlignUnique(x: nat, a: nat, r: nat)
    requires a > 0 && x <= r < x + a && r % a == 0
    ensures Align(x, a) == r
  {
    var s := Align(x, a);
    if s < r {
      MultipleGap(s, r, a);
    } else if r < s {
      MultipleGap(r, s, a);
    }
  }

  /** The start of the page of an address. */
  function Page(x: nat, page: nat): (p: nat)
    requires page > 0
    ensures p <= x < p + page && p % page == 0
  {
    MulMod(x / page, page, 0);
    page * (x / page)
  }

  ghost predicate Straddles(start: nat, len: nat, page: nat)
    requires len > 0 && page > 0
  {
    Page(start, page) != Page(start + len - 1, page)
  }

  lemma PageUnique(x: nat, page: nat, p: nat)
    requires page > 0 && p <= x < p + page && p % page == 0
    ensures Page(x, page) == p
  {
    var q := Page(x, page);
    if q < p {
      MultipleGap(q, p, page);
    } else if p < q {
      MultipleGap(p, q, page);
    }
  }

  /** blkcipher_get_spot */
  function Spot(start: nat, len: nat, page: nat): nat
    requires len > 0 && page > 0
  {
    var endPage := Page(start + len - 1, page);
    if start > endPage then start else endPage
  }

  /** The first place from `start` on at which `len` bytes do not straddle a page. */
  lemma SpotFirst(start: nat, len: nat, page: nat)
    requires 0 < len <= page
    ensures var s := Spot(start, len, page);
      && start <= s < start + len && !Straddles(s, len, page)
      && (s == start || s % page == 0)
      && forall t: nat :: start <= t && !Straddles(t, len, page) ==> s <= t
  {
    var e, s := Page(start + len - 1, page), Spot(start, len, page);
    PageUnique(s, page, e);
    PageUnique(s + len - 1, page, e);
    forall t: nat | start <= t && !Straddles(t, len, page)
      ensures s <= t
    {
      if t < s {
        assert Page(t + len - 1, page) >= e by { PageOrder(start + len - 1, t + len - 1, page); }
      }
    }
  }

  lemma PageOrder(x: nat, y: nat, page: nat)
    requires page > 0 && x <= y
    ensures Page(x, page) <= Page(y, page)
  {
    var p, q := Page(x, page), Page(y, page);
    if q < p { MultipleGap(q, p, page); }
  }

  /** A place that needs no move, and one that is moved to the next page. */
  lemma SpotStays(start: nat, len: nat, page: nat, p: nat)
    requires len > 0 && page > 0 && p % page == 0 && p <= start && start + len <= p + page
    ensures Spot(start, len, page) == start
  {
    PageUnique(start + len - 1, page, p);
  }

  lemma SpotMoves(start: nat, len: nat, page: nat, p: nat)
    requires page > 0 && p % page == 0 && start <= p < start + len <= p + page
    ensures Spot(start, len, page) == p
  {
    PageUnique(start + len - 1, page, p);
  }

  /** What algorithms are registered with: the alignment divides the block size, both sizes are at most an eighth
      of a page, and alignments and page sizes are powers of two. `ctx` is what kmalloc aligns to. */
  ghost predicate Registered(align: nat, ctx: nat, bs: nat, iv: nat, page: nat) {
    && align > 0 && ctx > 0 && bs > 0 && iv > 0 && 8 * bs <= page && 8 * iv <= page
    && bs % align == 0 && page % align == 0 && page % ctx == 0
    && (if align >= ctx then align % ctx == 0 else ctx % align == 0)
  }

  /** The room for aligning the start: alignmask & ~(ctx - 1). */
  function Pad(align: nat, ctx: nat): nat { if align > ctx then align - ctx else 0 }

  /** The coarser of the two alignments, which an aligned start has. */
  function Coarse(align: nat, ctx: nat): nat { if align > ctx then align else ctx }

  /** Where the aligned start lies. */
  lemma Aligned(buf: nat, align: nat, ctx: nat, bs: nat, iv: nat, page: nat)
    requires Registered(align, ctx, bs, iv, page) && buf % ctx == 0
    ensures var a := Align(buf, align);
      buf <= a <= buf + Pad(align, ctx) && a % align == 0 && a % Coarse(align, ctx) == 0
    ensures page % Coarse(align, ctx) == 0
  {
    var a := Align(buf, align);
    if align >= ctx {
      MultipleOf(a, align, ctx);
      MultipleSum(a, buf, ctx);
      if a - buf > align - ctx {
        MultipleGap(a - buf, align, ctx);
      }
    } else {
      MultipleOf(buf, ctx, align);
      AlignUnique(buf, align, buf);
    }
  }

  /** The two areas of a slow block and the chaining value behind them, as blkcipher_copy_iv places it. */
  function DstSpot(buf: nat, align: nat, bs: nat, page: nat): nat
    requires align > 0 && bs > 0 && page > 0
  {
    Spot(Align(buf, align), bs, page)
  }

  function SrcSpot(buf: nat, align: nat, bs: nat, page: nat): nat
    requires align > 0 && bs > 0 && page > 0
  {
    Spot(DstSpot(buf, align, bs, page) + bs, bs, page)
  }

  function IvSpot(buf: nat, align: nat, bs: nat, iv: nat, page: nat): nat
    requires align > 0 && bs > 0 && iv > 0 && page > 0
  {
    Spot(SrcSpot(buf, align, bs, page) + bs, iv, page)
  }

  /** How far a spot is moved, if its start has the alignment. */
  lemma SpotMove(start: nat, len: nat, page: nat, align: nat)
    requires 0 < len <= page && align > 0 && start % align == 0 && page % align == 0
    ensures var s := Spot(start, len, page);
      s % align == 0 && start <= s < start + len && (s == start || s % page == 0)
    ensures len % align == 0 ==> Spot(start, len, page) + align <= start + len
  {
    var s := Spot(start, len, page);
    SpotFirst(start, len, page);
    if s != start { MultipleOf(s, page, align); }
    if len % align == 0 {
      MultipleSum(start, len, align);
      MultipleGap(s, start + len, align);
    }
  }

  /** At most one of three spots that follow each other is moved to another page. */
  lemma Behind(p: nat, len: nat, start: nat, page: nat)
    requires page > 0 && p % page == 0 && p <= start && start + len <= p + page && len > 0
    ensures Spot(start, len, page) == start
  {
    SpotStays(start, len, page, p);
  }

  /** The areas of a slow block do not meet, do not straddle a page and fit. */
  lemma SlowSpotsFit(buf: nat, align: nat, ctx: nat, bs: nat, iv: nat, page: nat)
    requires Registered(align, ctx, bs, iv, page) && buf % ctx == 0
    ensures var dst, src := DstSpot(buf, align, bs, page), SrcSpot(buf, align, bs, page);
      && buf <= dst && dst + bs <= src && src + bs <= buf + (3 * bs - align + Pad(align, ctx))
      && !Straddles(dst, bs, page) && !Straddles(src, bs, page) && dst % align == 0 && src % align == 0
  {
    hide Spot, Straddles, Align;
    var a, dst, src := Align(buf, align), DstSpot(buf, align, bs, page), SrcSpot(buf, align, bs, page);
    Aligned(buf, align, ctx, bs, iv, page);
    SpotFirst(a, bs, page);
    SpotMove(a, bs, page, align);
    MultipleSum(dst, bs, align);
    SpotFirst(dst + bs, bs, page);
    SpotMove(dst + bs, bs, page, align);
    if dst != a { Behind(dst, bs, dst + bs, page); }
  }

  /** A whole page serves as well: the areas lie at its start. */
  lemma PageSpotsFit(buf: nat, align: nat, ctx: nat, bs: nat, iv: nat, page: nat)
    requires Registered(align, ctx, bs, iv, page) && buf % page == 0
    ensures DstSpot(buf, align, bs, page) == buf && SrcSpot(buf, align, bs, page) == buf + bs
    ensures buf + bs + bs <= buf + page
  {
    hide Spot, Align;
    MultipleOf(buf, page, align);
    AlignUnique(buf, align, buf);
    Behind(buf, bs, buf, page);
    Behind(buf, bs, buf + bs, page);
  }

  /** The size that blkcipher_copy_iv allocates. */
  function IvSize(align: nat, ctx: nat, bs: nat, iv: nat): int {
    2 * bs + iv + (if bs > iv then bs else iv) - align + Pad(align, ctx)
  }

  /** The chaining value fits behind the two areas. */
  ghost predicate IvFits(buf: nat, align: nat, ctx: nat, bs: nat, iv: nat, page: nat)
    requires Registered(align, ctx, bs, iv, page)
  {
    IvSpot(buf, align, bs, iv, page) + iv <= buf + IvSize(align, ctx, bs, iv)
  }

  /** A move to the next page that the size has no room for. */
  ghost predicate TooFar(d: nat, align: nat, ctx: nat, bs: nat, iv: nat)
    requires align > 0 && ctx > 0
  {
    (if bs > iv then bs else iv) < d + align && d < iv && (d + 2 * bs) % Coarse(align, ctx) == 0
  }

  lemma IvSpotPlace(buf: nat, align: nat, ctx: nat, bs: nat, iv: nat, page: nat) returns (d: nat)
    requires Registered(align, ctx, bs, iv, page) && buf % ctx == 0
    ensures var src, at := SrcSpot(buf, align, bs, page), IvSpot(buf, align, bs, iv, page);
      src + bs <= at && !Straddles(at, iv, page)
    ensures IvFits(buf, align, ctx, bs, iv, page) || TooFar(d, align, ctx, bs, iv)
  {
    hide Spot, Straddles, Align;
    var a, dst, src := Align(buf, align), DstSpot(buf, align, bs, page), SrcSpot(buf, align, bs, page);
    var at := IvSpot(buf, align, bs, iv, page);
    Aligned(buf, align, ctx, bs, iv, page);
    SpotMove(a, bs, page, align);
    MultipleSum(dst, bs, align);
    SpotMove(dst + bs, bs, page, align);
    SpotFirst(src + bs, iv, page);
    d := at - (src + bs);
    if dst != a {
      Behind(dst, bs, dst + bs, page);
      Behind(dst, iv, src + bs, page);
    } else if src != dst + bs {
      Behind(src, iv, src + bs, page);
    } else if at != src + bs {
      MultipleOf(at, page, Coarse(align, ctx));
      MultipleSum(at, a, Coarse(align, ctx));
      assert d + 2 * bs == at - a;
    }
  }

  lemma PageCoarse(align: nat, ctx: nat, bs: nat, iv: nat, page: nat)
    requires Registered(align, ctx, bs, iv, page)
    ensures page % Coarse(align, ctx) == 0 && (page + page) % Coarse(align, ctx) == 0 && (page + page) % page == 0
  {
    MultipleSum(page, page, Coarse(align, ctx));
    MultipleSum(page, page, page);
  }

  /** A buffer that is aligned up to a given start, with all of the padding used. */
  lemma BufferFor(a: nat, align: nat, ctx: nat, bs: nat, iv: nat, page: nat) returns (buf: nat)
    requires Registered(align, ctx, bs, iv, page) && a % Coarse(align, ctx) == 0 && a >= Pad(align, ctx)
    ensures buf == a - Pad(align, ctx) && buf % ctx == 0 && Align(buf, align) == a
  {
    hide Align;
    buf := a - Pad(align, ctx);
    if align > ctx {
      MultipleOf(a, align, ctx);
      MultipleSum(align, ctx, ctx) by { MulMod(1, ctx, 0); }
      MultipleSum(a, align - ctx, ctx);
    } else if align < ctx {
      MultipleOf(a, ctx, align);
    }
    AlignUnique(buf, align, a);
  }

  /** A buffer in which the chaining value is moved by `d`. */
  lemma TooFarBuffer(d: nat, align: nat, ctx: nat, bs: nat, iv: nat, page: nat) returns (buf: nat)
    requires Registered(align, ctx, bs, iv, page) && TooFar(d, align, ctx, bs, iv)
    ensures buf % ctx == 0 && !IvFits(buf, align, ctx, bs, iv, page)
  {
    hide Spot, Align;
    var a: nat := page + page - (d + 2 * bs);
    PageCoarse(align, ctx, bs, iv, page);
    MultipleSum(page + page, d + 2 * bs, Coarse(align, ctx));
    PadSmall(align, ctx, bs, iv, page);
    buf := BufferFor(a, align, ctx, bs, iv, page);
    Behind(page, bs, a, page) by { MulMod(1, page, 0); }
    Behind(page, bs, a + bs, page) by { MulMod(1, page, 0); }
    SpotMoves(a + bs + bs, iv, page, page + page);
  }

  lemma PadSmall(align: nat, ctx: nat, bs: nat, iv: nat, page: nat)
    requires Registered(align, ctx, bs, iv, page)
    ensures Pad(align, ctx) < page
  {
    if align > bs { MulMod(0, align, bs); }
  }

  /** The chaining value fits wherever kmalloc puts the buffer, exactly when no move is too far. */
  lemma IvFitsExact(align: nat, ctx: nat, bs: nat, iv: nat, page: nat)
    requires Registered(align, ctx, bs, iv, page)
    ensures (forall buf: nat :: buf % ctx == 0 ==> IvFits(buf, align, ctx, bs, iv, page))
            <==> forall d: nat :: !TooFar(d, align, ctx, bs, iv)
  {
    hide IvFits, TooFar;
    if d: nat :| TooFar(d, align, ctx, bs, iv) {
      var buf := TooFarBuffer(d, align, ctx, bs, iv, page);
    } else {
      forall buf: nat | buf % ctx == 0
        ensures IvFits(buf, align, ctx, bs, iv, page)
      {
        var d := IvSpotPlace(buf, align, ctx, bs, iv, page);
      }
    }
  }

  /** No move is too far when the chaining value is at most a block, as in cbc, pcbc and lrw, or aligned
      itself. */
  lemma NeverTooFar(d: nat, align: nat, ctx: nat, bs: nat, iv: nat, page: nat)
    requires Registered(align, ctx, bs, iv, page) && (iv <= bs || iv % align == 0)
    ensures !TooFar(d, align, ctx, bs, iv)
  {
    if TooFar(d, align, ctx, bs, iv) {
      if align < ctx { MultipleOf(d + 2 * bs, ctx, align); }
      MultipleSum(bs, bs, align);
      MultipleSum(d + 2 * bs, 2 * bs, align);
      MultipleGap(d, if iv <= bs then bs else iv, align);
    }
  }

  /** A chaining value of 6 bytes beside blocks of 4 that are aligned to 4. */
  lemma TooFarExample()
    ensures Registered(4, 4, 4, 6, 4096) && TooFar(4, 4, 4, 4, 6)
  {}
}
