/** The renderer's hole filler: an in-place, row-major sweep over an RGB byte image that
    gives every black pixel the average colour of its non-black neighbours. The image has
    NI columns and NJ rows of three bytes each; image row J is stored bottom-up, at memory
    row NJ - 1 - J. */
module Interpolation {
  import opened Types
  import GridIndex

  newtype byte = x: int | 0 <= x < 256

  /** One pixel's three channels, widened to int. */
  datatype Rgb = Rgb(r: int, g: int, b: int)

  const BlackPixel: Rgb := Rgb(0, 0, 0)

  /** A pixel with some non-zero channel. */
  predicate Lit(c: Rgb) {
    c.r != 0 || c.g != 0 || c.b != 0
  }

  predicate ByteChannels(c: Rgb) {
    0 <= c.r < 256 && 0 <= c.g < 256 && 0 <= c.b < 256
  }

  /** An image of NI columns and NJ rows, three bytes per pixel. */
  predicate Sized(img: seq<byte>, NI: int, NJ: int) {
    NI >= 0 && NJ >= 0 && |img| == NI * NJ * 3
  }

  // ---------------------------------------------------------------- pixels

  /** Pixel (I, R) of an NI x NJ image is pixel number I + R NI, and its three bytes lie
      inside the image. */
  lemma PixelInRange(NI: int, NJ: int, I: int, R: int)
    requires 0 <= I < NI && 0 <= R < NJ
    ensures 0 <= I + R * NI < NI * NJ
    ensures (I + R * NI) * 3 + 2 < NI * NJ * 3
  {
    GridIndex.MulMonotone(0, R, NI);
    GridIndex.MulMonotone(R, NJ - 1, NI);
    assert (NJ - 1) * NI == NI * NJ - NI;
  }

  /** Distinct pixels have distinct pixel numbers. */
  lemma PixelInjective(NI: int, I: int, R: int, I': int, R': int)
    requires 0 <= I < NI && 0 <= I' < NI
    requires I + R * NI == I' + R' * NI
    ensures I == I' && R == R'
  {
    assert R * NI == NI * R && R' * NI == NI * R';
    GridIndex.Radix(I, R, I', R', NI);
  }

  /** The pixel in column I of memory row R. */
  function Pixel(img: seq<byte>, NI: int, NJ: int, I: int, R: int): (c: Rgb)
    requires Sized(img, NI, NJ) && 0 <= I < NI && 0 <= R < NJ
    ensures ByteChannels(c)
  {
    PixelInRange(NI, NJ, I, R);
    var k := (I + R * NI) * 3;
    Rgb(img[k] as int, img[k + 1] as int, img[k + 2] as int)
  }

  /** The image with pixel (I, R) set to c: that pixel reads back as c and every other
      pixel is as before. */
  function Put(img: seq<byte>, NI: int, NJ: int, I: int, R: int, c: Rgb): (res: seq<byte>)
    requires Sized(img, NI, NJ) && 0 <= I < NI && 0 <= R < NJ && ByteChannels(c)
    ensures Sized(res, NI, NJ)
    ensures Pixel(res, NI, NJ, I, R) == c
    ensures forall I', R' :: 0 <= I' < NI && 0 <= R' < NJ && (I' != I || R' != R) ==>
              Pixel(res, NI, NJ, I', R') == Pixel(img, NI, NJ, I', R')
  {
    PixelInRange(NI, NJ, I, R);
    var k := (I + R * NI) * 3;
    var res := img[k := c.r as byte][k + 1 := c.g as byte][k + 2 := c.b as byte];
    assert forall I', R' :: 0 <= I' < NI && 0 <= R' < NJ && (I' != I || R' != R) ==>
             Pixel(res, NI, NJ, I', R') == Pixel(img, NI, NJ, I', R') by {
      forall I', R' | 0 <= I' < NI && 0 <= R' < NJ && (I' != I || R' != R)
        ensures Pixel(res, NI, NJ, I', R') == Pixel(img, NI, NJ, I', R')
      {
        PixelInRange(NI, NJ, I', R');
        if I + R * NI == I' + R' * NI {
          PixelInjective(NI, I, R, I', R');
        }
      }
    }
    res
  }

  // ----------------------------------------------------------- neighbours

  /** The memory row of image row J. */
  function Row(NJ: int, J: int): int {
    NJ - 1 - J
  }

  /** The memory row of the neighbour below image row J (image row J + 1), read when
      J < NJ - 1: the row just under Row(J) in memory, present exactly when Row(J) > 0. */
  function DownRow(NJ: int, J: int): (row: Option<int>)
    requires 0 <= J < NJ
    ensures row.Some? <==> Row(NJ, J) > 0
    ensures row.Some? ==> row.value == Row(NJ, J) - 1 && 0 <= row.value < NJ
  {
    if J < NJ - 1 then Some(NJ - 2 - J) else None
  }

  /** The memory row of the neighbour above image row J (image row J - 1), read when
      J > 0: the row just over Row(J) in memory, present exactly when Row(J) < NJ - 1. */
  function UpRow(NJ: int, J: int): (row: Option<int>)
    requires 0 <= J < NJ
    ensures row.Some? <==> Row(NJ, J) < NJ - 1
    ensures row.Some? ==> row.value == Row(NJ, J) + 1 && 0 <= row.value < NJ
  {
    if J > 0 then Some(NJ - J) else None
  }

  /** The source's "down" read: guarded by J < NJ - 1 but reading memory row NJ - J, the
      row over Row(J); in image row 0 of a taller image that is row NJ, past the end. */
  function DownRowAsWritten(NJ: int, J: int): (row: Option<int>)
    requires 0 <= J < NJ
    ensures row.Some? ==> row.value == Row(NJ, J) + 1
    ensures row.Some? && J == 0 ==> row.value == NJ
  {
    if J < NJ - 1 then Some(NJ - J) else None
  }

  /** The source's "up" read: guarded by J > 0 but reading memory row NJ - 2 - J, the row
      under Row(J); in the last image row that is row -1, before the start. */
  function UpRowAsWritten(NJ: int, J: int): (row: Option<int>)
    requires 0 <= J < NJ
    ensures row.Some? ==> row.value == Row(NJ, J) - 1
    ensures row.Some? && J == NJ - 1 ==> row.value == -1
  {
    if J > 0 then Some(NJ - 2 - J) else None
  }

  /** In a two-row image the source reads row 2 while filling image row 0 and row -1 while
      filling image row 1; both lie outside rows 0 and 1. */
  lemma VerticalReadDefect()
    ensures DownRowAsWritten(2, 0) == Some(2) && UpRowAsWritten(2, 1) == Some(-1)
  {
  }

  /** Away from the first and last image rows the source reads the same two rows as the
      corrected guards, in the other order. */
  lemma AsWrittenInterior(NJ: int, J: int)
    requires 0 < J < NJ - 1
    ensures DownRowAsWritten(NJ, J) == UpRow(NJ, J) && UpRowAsWritten(NJ, J) == DownRow(NJ, J)
  {
  }

  /** The pixel of memory row `row` in column I, or black when there is no such row. */
  function VerticalNeighbour(img: seq<byte>, NI: int, NJ: int, I: int, row: Option<int>): (c: Rgb)
    requires Sized(img, NI, NJ) && 0 <= I < NI
    requires row.Some? ==> 0 <= row.value < NJ
    ensures ByteChannels(c)
  {
    if row.Some? then Pixel(img, NI, NJ, I, row.value) else BlackPixel
  }

  /** The four neighbours of pixel (I, J) as read, left, right, down and up; a neighbour
      outside the image counts as black. */
  function Neighbours(img: seq<byte>, NI: int, NJ: int, I: int, J: int): (ns: seq<Rgb>)
    requires Sized(img, NI, NJ) && 0 <= I < NI && 0 <= J < NJ
    ensures |ns| == 4 && forall k :: 0 <= k < 4 ==> ByteChannels(ns[k])
  {
    var R := Row(NJ, J);
    [ if I > 0 then Pixel(img, NI, NJ, I - 1, R) else BlackPixel,
      if I < NI - 1 then Pixel(img, NI, NJ, I + 1, R) else BlackPixel,
      VerticalNeighbour(img, NI, NJ, I, DownRow(NJ, J)),
      VerticalNeighbour(img, NI, NJ, I, UpRow(NJ, J)) ]
  }

  // -------------------------------------------------------------- average

  function LitCount(c: Rgb): int {
    if Lit(c) then 1 else 0
  }

  /** The number of lit pixels among four. */
  function Nnz(a: Rgb, b: Rgb, c: Rgb, d: Rgb): (n: int)
    ensures 0 <= n <= 4
    ensures n == 0 <==> !Lit(a) && !Lit(b) && !Lit(c) && !Lit(d)
  {
    LitCount(a) + LitCount(b) + LitCount(c) + LitCount(d)
  }

  /** A black pixel adds nothing to a channel sum, so four byte channels of which only n
      are lit sum to at most 255 n. */
  lemma ChannelSumBound(a: Rgb, b: Rgb, c: Rgb, d: Rgb)
    requires ByteChannels(a) && ByteChannels(b) && ByteChannels(c) && ByteChannels(d)
    ensures var n := Nnz(a, b, c, d);
            0 <= a.r + b.r + c.r + d.r <= 255 * n
            && 0 <= a.g + b.g + c.g + d.g <= 255 * n
            && 0 <= a.b + b.b + c.b + d.b <= 255 * n
  {
  }

  /** m is the floor of s / n. */
  predicate FloorMean(m: int, s: int, n: int) {
    m * n <= s < (m + 1) * n
  }

  /** C's integer division of a non-negative sum by a positive count: the floor of the
      mean, which lies in 0..255 when the sum is at most 255 times the count. */
  function Mean(s: int, n: int): (m: int)
    requires 0 <= s <= 255 * n && n >= 1
    ensures FloorMean(m, s, n)
    ensures 0 <= m <= 255
  {
    var m := s / n;
    assert s == m * n + s % n;
    m
  }

  /** The colour the source writes into a black pixel with the given neighbours: none
      when all four are black, otherwise the per-channel floor of the sum over the nnz
      lit ones, 1 <= nnz <= 4, a colour of bytes. */
  function Average(a: Rgb, b: Rgb, c: Rgb, d: Rgb): (avg: Option<Rgb>)
    requires ByteChannels(a) && ByteChannels(b) && ByteChannels(c) && ByteChannels(d)
    ensures avg.None? <==> !Lit(a) && !Lit(b) && !Lit(c) && !Lit(d)
    ensures avg.Some? ==>
              var n := Nnz(a, b, c, d);
              1 <= n <= 4 && ByteChannels(avg.value)
              && FloorMean(avg.value.r, a.r + b.r + c.r + d.r, n)
              && FloorMean(avg.value.g, a.g + b.g + c.g + d.g, n)
              && FloorMean(avg.value.b, a.b + b.b + c.b + d.b, n)
  {
    var n := Nnz(a, b, c, d);
    if n == 0 then None
    else
      ChannelSumBound(a, b, c, d);
      Some(Rgb(Mean(a.r + b.r + c.r + d.r, n), Mean(a.g + b.g + c.g + d.g, n),
               Mean(a.b + b.b + c.b + d.b, n)))
  }

  // ---------------------------------------------------------------- sweep

  /** The colour pixel (I, J) has after its turn: unchanged when lit or when all its
      neighbours are black, otherwise the average of the lit neighbours. */
  function NewPixel(img: seq<byte>, NI: int, NJ: int, I: int, J: int): (c: Rgb)
    requires Sized(img, NI, NJ) && 0 <= I < NI && 0 <= J < NJ
    ensures ByteChannels(c)
    ensures Lit(Pixel(img, NI, NJ, I, Row(NJ, J))) ==> c == Pixel(img, NI, NJ, I, Row(NJ, J))
    ensures var ns := Neighbours(img, NI, NJ, I, J);
            !Lit(ns[0]) && !Lit(ns[1]) && !Lit(ns[2]) && !Lit(ns[3]) ==>
              c == Pixel(img, NI, NJ, I, Row(NJ, J))
    ensures var ns := Neighbours(img, NI, NJ, I, J);
            !Lit(Pixel(img, NI, NJ, I, Row(NJ, J))) && (Lit(ns[0]) || Lit(ns[1]) || Lit(ns[2]) || Lit(ns[3])) ==>
              Some(c) == Average(ns[0], ns[1], ns[2], ns[3])
  {
    var own := Pixel(img, NI, NJ, I, Row(NJ, J));
    var ns := Neighbours(img, NI, NJ, I, J);
    if Lit(own) then own
    else
      match Average(ns[0], ns[1], ns[2], ns[3])
      case None => own
      case Some(c) => c
  }

  /** One turn of the sweep at pixel (I, J): the pixel takes its new colour, written only
      when it was black and has a lit neighbour; every other pixel is as before. */
  function PixelStep(img: seq<byte>, NI: int, NJ: int, I: int, J: int): (res: seq<byte>)
    requires Sized(img, NI, NJ) && 0 <= I < NI && 0 <= J < NJ
    ensures Sized(res, NI, NJ)
    ensures Pixel(res, NI, NJ, I, Row(NJ, J)) == NewPixel(img, NI, NJ, I, J)
  {
    var R := Row(NJ, J);
    var ns := Neighbours(img, NI, NJ, I, J);
    if Lit(Pixel(img, NI, NJ, I, R)) then img
    else
      match Average(ns[0], ns[1], ns[2], ns[3])
      case None => img
      case Some(c) => Put(img, NI, NJ, I, R, c)
  }

  /** A turn changes no pixel but its own. */
  lemma PixelStepFrame(img: seq<byte>, NI: int, NJ: int, I: int, J: int, I': int, R': int)
    requires Sized(img, NI, NJ) && 0 <= I < NI && 0 <= J < NJ
    requires 0 <= I' < NI && 0 <= R' < NJ && (I' != I || R' != Row(NJ, J))
    ensures Pixel(PixelStep(img, NI, NJ, I, J), NI, NJ, I', R') == Pixel(img, NI, NJ, I', R')
  {
  }

  /** A turn at a lit pixel writes nothing. */
  lemma PixelStepLit(img: seq<byte>, NI: int, NJ: int, I: int, J: int)
    requires Sized(img, NI, NJ) && 0 <= I < NI && 0 <= J < NJ
    requires Lit(Pixel(img, NI, NJ, I, Row(NJ, J)))
    ensures PixelStep(img, NI, NJ, I, J) == img
  {
  }

  /** A turn at a pixel whose neighbours are all black writes nothing. */
  lemma PixelStepIdle(img: seq<byte>, NI: int, NJ: int, I: int, J: int, a: Rgb, b: Rgb, c: Rgb, d: Rgb)
    requires Sized(img, NI, NJ) && 0 <= I < NI && 0 <= J < NJ
    requires Neighbours(img, NI, NJ, I, J) == [a, b, c, d]
    requires !Lit(a) && !Lit(b) && !Lit(c) && !Lit(d)
    ensures PixelStep(img, NI, NJ, I, J) == img
  {
  }

  /** A turn at a black pixel with a lit neighbour writes the average into that pixel. */
  lemma PixelStepWrites(img: seq<byte>, NI: int, NJ: int, I: int, J: int)
    requires Sized(img, NI, NJ) && 0 <= I < NI && 0 <= J < NJ
    requires !Lit(Pixel(img, NI, NJ, I, Row(NJ, J)))
    requires var ns := Neighbours(img, NI, NJ, I, J);
             Lit(ns[0]) || Lit(ns[1]) || Lit(ns[2]) || Lit(ns[3])
    ensures var ns := Neighbours(img, NI, NJ, I, J);
            PixelStep(img, NI, NJ, I, J) == Put(img, NI, NJ, I, Row(NJ, J), Average(ns[0], ns[1], ns[2], ns[3]).value)
  {
  }

  /** The image after the first n turns of image row J, columns 0 to n - 1 in order. */
  function SweepRow(img: seq<byte>, NI: int, NJ: int, J: int, n: int): (res: seq<byte>)
    requires Sized(img, NI, NJ) && 0 <= J < NJ && 0 <= n <= NI
    ensures Sized(res, NI, NJ)
    decreases n
  {
    if n == 0 then img else PixelStep(SweepRow(img, NI, NJ, J, n - 1), NI, NJ, n - 1, J)
  }

  /** The image after the whole of image rows 0 to m - 1, in order. */
  function Sweep(img: seq<byte>, NI: int, NJ: int, m: int): (res: seq<byte>)
    requires Sized(img, NI, NJ) && 0 <= m <= NJ
    ensures Sized(res, NI, NJ)
    decreases m
  {
    if m == 0 then img else SweepRow(Sweep(img, NI, NJ, m - 1), NI, NJ, m - 1, NI)
  }

  /** The image after the whole sweep. */
  function Interpolated(img: seq<byte>, NI: int, NJ: int): (res: seq<byte>)
    requires Sized(img, NI, NJ)
    ensures Sized(res, NI, NJ)
  {
    Sweep(img, NI, NJ, NJ)
  }

  /** The image as it stands when the sweep reaches pixel (I, J). */
  function Before(img: seq<byte>, NI: int, NJ: int, I: int, J: int): (res: seq<byte>)
    requires Sized(img, NI, NJ) && 0 <= I < NI && 0 <= J < NJ
    ensures Sized(res, NI, NJ)
  {
    SweepRow(Sweep(img, NI, NJ, J), NI, NJ, J, I)
  }

  // ---------------------------------------------------------- frame lemmas

  /** The first n turns of row J touch only its first n pixels. */
  lemma {:induction false} SweepRowFrame(img: seq<byte>, NI: int, NJ: int, J: int, n: int, I: int, R: int)
    requires Sized(img, NI, NJ) && 0 <= J < NJ && 0 <= n <= NI
    requires 0 <= I < NI && 0 <= R < NJ && (R != Row(NJ, J) || I >= n)
    ensures Pixel(SweepRow(img, NI, NJ, J, n), NI, NJ, I, R) == Pixel(img, NI, NJ, I, R)
    decreases n
  {
    if n > 0 {
      SweepRowFrame(img, NI, NJ, J, n - 1, I, R);
      PixelStepFrame(SweepRow(img, NI, NJ, J, n - 1), NI, NJ, n - 1, J, I, R);
    }
  }

  /** A pixel of row J keeps, through the rest of the row, the colour its own turn gave it. */
  lemma {:induction false} SweepRowLater(img: seq<byte>, NI: int, NJ: int, J: int, m: int, n: int, I: int)
    requires Sized(img, NI, NJ) && 0 <= J < NJ && 0 <= I < m <= n <= NI
    ensures Pixel(SweepRow(img, NI, NJ, J, n), NI, NJ, I, Row(NJ, J))
            == Pixel(SweepRow(img, NI, NJ, J, m), NI, NJ, I, Row(NJ, J))
    decreases n
  {
    if n > m {
      SweepRowLater(img, NI, NJ, J, m, n - 1, I);
      PixelStepFrame(SweepRow(img, NI, NJ, J, n - 1), NI, NJ, n - 1, J, I, Row(NJ, J));
    }
  }

  /** The first m rows touch only image rows 0 to m - 1. */
  lemma {:induction false} SweepFrame(img: seq<byte>, NI: int, NJ: int, m: int, I: int, J: int)
    requires Sized(img, NI, NJ) && 0 <= m <= J < NJ && 0 <= I < NI
    ensures Pixel(Sweep(img, NI, NJ, m), NI, NJ, I, Row(NJ, J)) == Pixel(img, NI, NJ, I, Row(NJ, J))
    decreases m
  {
    if m > 0 {
      SweepFrame(img, NI, NJ, m - 1, I, J);
      SweepRowFrame(Sweep(img, NI, NJ, m - 1), NI, NJ, m - 1, NI, I, Row(NJ, J));
    }
  }

  /** A pixel of image row J keeps, through the later rows, the colour its row gave it. */
  lemma {:induction false} SweepLater(img: seq<byte>, NI: int, NJ: int, m: int, n: int, I: int, J: int)
    requires Sized(img, NI, NJ) && 0 <= J < m <= n <= NJ && 0 <= I < NI
    ensures Pixel(Sweep(img, NI, NJ, n), NI, NJ, I, Row(NJ, J))
            == Pixel(Sweep(img, NI, NJ, m), NI, NJ, I, Row(NJ, J))
    decreases n
  {
    if n > m {
      SweepLater(img, NI, NJ, m, n - 1, I, J);
      SweepRowFrame(Sweep(img, NI, NJ, n - 1), NI, NJ, n - 1, NI, I, Row(NJ, J));
    }
  }

  // ---------------------------------------------------------- properties

  /** Each pixel ends up with the colour its own turn gives it, computed from the image
      as the sweep left it: the pixel itself still has its original colour then. */
  lemma FinalPixel(img: seq<byte>, NI: int, NJ: int, I: int, J: int)
    requires Sized(img, NI, NJ) && 0 <= I < NI && 0 <= J < NJ
    ensures Pixel(Before(img, NI, NJ, I, J), NI, NJ, I, Row(NJ, J)) == Pixel(img, NI, NJ, I, Row(NJ, J))
    ensures Pixel(Interpolated(img, NI, NJ), NI, NJ, I, Row(NJ, J)) == NewPixel(Before(img, NI, NJ, I, J), NI, NJ, I, J)
  {
    var s := Sweep(img, NI, NJ, J);
    SweepFrame(img, NI, NJ, J, I, J);
    SweepRowFrame(s, NI, NJ, J, I, I, Row(NJ, J));
    SweepRowLater(s, NI, NJ, J, I + 1, NI, I);
    SweepLater(img, NI, NJ, J + 1, NJ, I, J);
  }

  /** A pixel with a non-zero channel is never modified. */
  lemma LitPixelKept(img: seq<byte>, NI: int, NJ: int, I: int, J: int)
    requires Sized(img, NI, NJ) && 0 <= I < NI && 0 <= J < NJ
    requires Lit(Pixel(img, NI, NJ, I, Row(NJ, J)))
    ensures Pixel(Interpolated(img, NI, NJ), NI, NJ, I, Row(NJ, J)) == Pixel(img, NI, NJ, I, Row(NJ, J))
  {
    FinalPixel(img, NI, NJ, I, J);
  }

  /** A black pixel whose neighbours, as the sweep finds them, are all black stays black;
      a black pixel with some lit neighbour gets their floor average. */
  lemma BlackPixelFilled(img: seq<byte>, NI: int, NJ: int, I: int, J: int)
    requires Sized(img, NI, NJ) && 0 <= I < NI && 0 <= J < NJ
    requires !Lit(Pixel(img, NI, NJ, I, Row(NJ, J)))
    ensures var ns := Neighbours(Before(img, NI, NJ, I, J), NI, NJ, I, J);
            var final := Pixel(Interpolated(img, NI, NJ), NI, NJ, I, Row(NJ, J));
            (!Lit(ns[0]) && !Lit(ns[1]) && !Lit(ns[2]) && !Lit(ns[3]) ==> final == BlackPixel)
            && (Lit(ns[0]) || Lit(ns[1]) || Lit(ns[2]) || Lit(ns[3]) ==>
                  Some(final) == Average(ns[0], ns[1], ns[2], ns[3]))
  {
    FinalPixel(img, NI, NJ, I, J);
  }

  /** The sweep is in place and row-major: when pixel (I, J) takes its turn, its left
      neighbour and the neighbour in the image row above already hold their final colours,
      while its right neighbour and the one in the image row below still hold their
      original ones. */
  lemma {:induction false} SweepOrder(img: seq<byte>, NI: int, NJ: int, I: int, J: int)
    requires Sized(img, NI, NJ) && 0 <= I < NI && 0 <= J < NJ
    ensures var before := Before(img, NI, NJ, I, J);
            var final := Interpolated(img, NI, NJ);
            var R := Row(NJ, J);
            (I > 0 ==> Pixel(before, NI, NJ, I - 1, R) == Pixel(final, NI, NJ, I - 1, R))
            && (J > 0 ==> Pixel(before, NI, NJ, I, R + 1) == Pixel(final, NI, NJ, I, R + 1))
            && (I < NI - 1 ==> Pixel(before, NI, NJ, I + 1, R) == Pixel(img, NI, NJ, I + 1, R))
            && (J < NJ - 1 ==> Pixel(before, NI, NJ, I, R - 1) == Pixel(img, NI, NJ, I, R - 1))
  {
    var s := Sweep(img, NI, NJ, J);
    var R := Row(NJ, J);
    if I > 0 {
      SweepRowLater(s, NI, NJ, J, I, NI, I - 1);
      SweepLater(img, NI, NJ, J + 1, NJ, I - 1, J);
    }
    if J > 0 {
      assert R + 1 == Row(NJ, J - 1);
      SweepRowFrame(s, NI, NJ, J, I, I, R + 1);
      SweepRowFrame(s, NI, NJ, J, NI, I, R + 1);
      SweepLater(img, NI, NJ, J, NJ, I, J - 1);
    }
    if I < NI - 1 {
      SweepFrame(img, NI, NJ, J, I + 1, J);
      SweepRowFrame(s, NI, NJ, J, I, I + 1, R);
    }
    if J < NJ - 1 {
      assert R - 1 == Row(NJ, J + 1);
      SweepFrame(img, NI, NJ, J, I, J + 1);
      SweepRowFrame(s, NI, NJ, J, I, I, R - 1);
    }
  }

  // -------------------------------------------------------------- methods

  /** Fills pixel (I, J) in place when it is black and has a lit neighbour. */
  method InterpolatePixel(img: array<byte>, NI: int, NJ: int, I: int, J: int)
    requires Sized(img[..], NI, NJ) && 0 <= I < NI && 0 <= J < NJ
    modifies img
    ensures img[..] == PixelStep(old(img[..]), NI, NJ, I, J)
  {
    var R := NJ - 1 - J;
    var pixels := img[..];
    if Lit(Pixel(pixels, NI, NJ, I, R)) {
      PixelStepLit(pixels, NI, NJ, I, J);
      return;
    }
    var left, right, down, up := Gather(pixels, NI, NJ, I, J);
    var nnz := CountLit(left, right, down, up);
    if nnz == 0 {
      PixelStepIdle(pixels, NI, NJ, I, J, left, right, down, up);
      return;
    }
    PixelStepWrites(pixels, NI, NJ, I, J);
    Fill(img, NI, NJ, I, R, left, right, down, up, nnz);
  }

  /** The source's pixel turn, with its vertical reads: they stay inside the image only
      for pixels that are not black in the first and last image rows of a taller image,
      and then the turn is the corrected one. */
  method InterpolatePixelAsWritten(img: array<byte>, NI: int, NJ: int, I: int, J: int)
    requires Sized(img[..], NI, NJ) && 0 <= I < NI && 0 <= J < NJ
    requires NJ >= 2 && (J == 0 || J == NJ - 1) ==> Lit(Pixel(img[..], NI, NJ, I, Row(NJ, J)))
    modifies img
    ensures img[..] == PixelStep(old(img[..]), NI, NJ, I, J)
  {
    var R := NJ - 1 - J;
    var pixels := img[..];
    if Lit(Pixel(pixels, NI, NJ, I, R)) {
      PixelStepLit(pixels, NI, NJ, I, J);
      return;
    }
    var left, right, down, up := GatherAsWritten(pixels, NI, NJ, I, J);
    var nnz := CountLit(left, right, down, up);
    if nnz == 0 {
      PixelStepIdle(pixels, NI, NJ, I, J, left, right, up, down);
      return;
    }
    PixelStepWrites(pixels, NI, NJ, I, J);
    Fill(img, NI, NJ, I, R, left, right, up, down, nnz);
  }

  /** Reads the left, right, down and up neighbours of pixel (I, J), black where the
      guard fails: the neighbours of the pixel. */
  method Gather(pixels: seq<byte>, NI: int, NJ: int, I: int, J: int) returns (left: Rgb, right: Rgb, down: Rgb, up: Rgb)
    requires Sized(pixels, NI, NJ) && 0 <= I < NI && 0 <= J < NJ
    ensures [left, right, down, up] == Neighbours(pixels, NI, NJ, I, J)
  {
    var R := NJ - 1 - J;
    left, right, down, up := BlackPixel, BlackPixel, BlackPixel, BlackPixel;
    if I > 0 {
      left := Pixel(pixels, NI, NJ, I - 1, R);
    }
    if I < NI - 1 {
      right := Pixel(pixels, NI, NJ, I + 1, R);
    }
    if J < NJ - 1 {
      down := Pixel(pixels, NI, NJ, I, NJ - 2 - J);
    }
    if J > 0 {
      up := Pixel(pixels, NI, NJ, I, NJ - J);
    }
  }

  /** The source's reads, with its vertical guards: inside the image only when pixel
      (I, J) is not in the first or last image row of a taller image, and then the
      neighbours of the pixel with down and up exchanged. */
  method GatherAsWritten(pixels: seq<byte>, NI: int, NJ: int, I: int, J: int) returns (left: Rgb, right: Rgb, down: Rgb, up: Rgb)
    requires Sized(pixels, NI, NJ) && 0 <= I < NI && 0 <= J < NJ
    requires NJ >= 2 ==> 0 < J < NJ - 1
    ensures [left, right, up, down] == Neighbours(pixels, NI, NJ, I, J)
  {
    var R := NJ - 1 - J;
    left, right, down, up := BlackPixel, BlackPixel, BlackPixel, BlackPixel;
    if I > 0 {
      left := Pixel(pixels, NI, NJ, I - 1, R);
    }
    if I < NI - 1 {
      right := Pixel(pixels, NI, NJ, I + 1, R);
    }
    if J < NJ - 1 {
      down := Pixel(pixels, NI, NJ, I, NJ - J);
    }
    if J > 0 {
      up := Pixel(pixels, NI, NJ, I, NJ - 2 - J);
    }
  }

  /** The number of lit neighbours as the source keeps it: four, less one for each
      black neighbour. */
  method CountLit(left: Rgb, right: Rgb, down: Rgb, up: Rgb) returns (nnz: int)
    ensures nnz == Nnz(left, right, down, up)
  {
    nnz := 4;
    if !Lit(left) { nnz := nnz - 1; }
    if !Lit(right) { nnz := nnz - 1; }
    if !Lit(up) { nnz := nnz - 1; }
    if !Lit(down) { nnz := nnz - 1; }
  }

  /** Writes into pixel (I, R) the per-channel sum of the four neighbours divided by the
      number nnz of lit ones: their average. */
  method Fill(img: array<byte>, NI: int, NJ: int, I: int, R: int, a: Rgb, b: Rgb, c: Rgb, d: Rgb, nnz: int)
    requires Sized(img[..], NI, NJ) && 0 <= I < NI && 0 <= R < NJ
    requires ByteChannels(a) && ByteChannels(b) && ByteChannels(c) && ByteChannels(d)
    requires nnz == Nnz(a, b, c, d) && nnz != 0
    modifies img
    ensures Average(a, b, c, d).Some?
    ensures img[..] == Put(old(img[..]), NI, NJ, I, R, Average(a, b, c, d).value)
  {
    ChannelSumBound(a, b, c, d);
    var avg := Rgb(Mean(a.r + b.r + c.r + d.r, nnz), Mean(a.g + b.g + c.g + d.g, nnz),
                   Mean(a.b + b.b + c.b + d.b, nnz));
    assert Some(avg) == Average(a, b, c, d);
    WritePixel(img, NI, NJ, I, R, avg);
  }

  /** Stores colour c into pixel (I, R), one channel after another. */
  method WritePixel(img: array<byte>, NI: int, NJ: int, I: int, R: int, c: Rgb)
    requires Sized(img[..], NI, NJ) && 0 <= I < NI && 0 <= R < NJ && ByteChannels(c)
    modifies img
    ensures img[..] == Put(old(img[..]), NI, NJ, I, R, c)
  {
    PixelInRange(NI, NJ, I, R);
    var k := (I + R * NI) * 3;
    img[k] := c.r as byte;
    img[k + 1] := c.g as byte;
    img[k + 2] := c.b as byte;
  }

  /** One image row, left to right. */
  method InterpolateRow(img: array<byte>, NI: int, NJ: int, J: int)
    requires Sized(img[..], NI, NJ) && 0 <= J < NJ
    modifies img
    ensures img[..] == SweepRow(old(img[..]), NI, NJ, J, NI)
  {
    ghost var start := img[..];
    var I := 0;
    while I < NI
      invariant 0 <= I <= NI
      invariant img[..] == SweepRow(start, NI, NJ, J, I)
    {
      InterpolatePixel(img, NI, NJ, I, J);
      I := I + 1;
    }
  }

  /** The whole image, row by row, in place. */
  method Interpolate(img: array<byte>, NI: int, NJ: int)
    requires Sized(img[..], NI, NJ)
    modifies img
    ensures img[..] == Interpolated(old(img[..]), NI, NJ)
  {
    ghost var start := img[..];
    var J := 0;
    while J < NJ
      invariant 0 <= J <= NJ
      invariant img[..] == Sweep(start, NI, NJ, J)
    {
      InterpolateRow(img, NI, NJ, J);
      J := J + 1;
    }
  }
}
