/** The circular window: it holds what has been output since the last flush, and before that place
    what was flushed last. */
module InflateWindow {
  import opened InflateFormat

  const WSIZE := 0x8000
  const TWO_TO_THE_32 := 0x1_0000_0000

  /** Bytes from w on are the last ones that were flushed. */
  predicate WindowOk(slide: seq<Byte>, w: nat, out: Output) {
    && |slide| == WSIZE && w <= WSIZE
    && |out| % WSIZE == 0
    && (|out| > 0 ==> forall i :: w <= i < WSIZE ==> slide[i] == out[|out| - WSIZE + i])
  }

  /** Everything that has been output so far. */
  function History(slide: seq<Byte>, w: nat, out: Output): Output
    requires w <= |slide|
  {
    out + slide[..w]
  }

  /** The byte a given distance back is found in the window, round its end if need be. */
  lemma ByteBack(slide: seq<Byte>, w: nat, out: Output, distance: nat)
    requires WindowOk(slide, w, out) && w < WSIZE
    requires 0 < distance <= WSIZE && distance <= |History(slide, w, out)|
    ensures var h := History(slide, w, out);
            slide[(w - distance) % WSIZE] == h[|h| - distance]
  {
  }

  /** Writing one byte at the current position. */
  lemma WriteByte(slide: seq<Byte>, w: nat, out: Output, c: Byte)
    requires WindowOk(slide, w, out) && w < WSIZE
    ensures WindowOk(slide[w := c], w + 1, out)
    ensures History(slide[w := c], w + 1, out) == History(slide, w, out) + [c]
  {
    assert slide[w := c][..w + 1] == slide[..w] + [c];
  }

  /** Writing several bytes at the current position. */
  lemma WriteBytes(slide: seq<Byte>, slide': seq<Byte>, w: nat, out: Output, run: seq<Byte>)
    requires WindowOk(slide, w, out) && w + |run| <= WSIZE
    requires slide' == slide[..w] + run + slide[w + |run|..]
    ensures WindowOk(slide', w + |run|, out)
    ensures History(slide', w + |run|, out) == History(slide, w, out) + run
  {
    assert slide'[..w + |run|] == slide[..w] + run;
  }

  lemma FlushWindow(slide: seq<Byte>, out: Output)
    requires WindowOk(slide, WSIZE, out)
    ensures WindowOk(slide, 0, out + slide)
    ensures History(slide, 0, out + slide) == History(slide, WSIZE, out)
  {
    assert slide[..WSIZE] == slide;
  }

  /** Copying a run of bytes, each from `distance` back, is the beginning of copying a match. */
  lemma {:induction false} CopyRun(h: Output, distance: nat, run: seq<Byte>, n: nat)
    requires 0 < distance <= |h|
    requires forall i :: 0 <= i < |run| ==> run[i] == (h + run)[|h| + i - distance]
    ensures CopyMatch(h, distance, |run| + n) == CopyMatch(h + run, distance, n)
    decreases |run|
  {
    if run == [] {
      assert h + run == h;
    } else {
      var h' := h + [run[0]];
      assert (h + run)[|h| - distance] == h[|h| - distance];
      assert h' + run[1..] == h + run;
      forall i | 0 <= i < |run| - 1 ensures run[1..][i] == (h' + run[1..])[|h'| + i - distance] {
        assert run[i + 1] == (h + run)[|h| + (i + 1) - distance];
      }
      CopyRun(h', distance, run[1..], n);
    }
  }

  /** The bytes from d on are the ones a match asks for, as long as the source does not run into
      the bytes that are being written, nor round the end of the window. */
  lemma SourceRun(slide: seq<Byte>, w: nat, out: Output, distance: nat, d: nat, e: nat, n: nat)
    requires WindowOk(slide, w, out) && w < WSIZE
    requires 0 < distance <= WSIZE && distance <= |History(slide, w, out)|
    requires d == (w - distance) % WSIZE && d + e <= WSIZE && w + e <= WSIZE && (d > w || w - d >= e)
    ensures var h := History(slide, w, out);
            CopyMatch(h, distance, e + n) == CopyMatch(h + slide[d..d + e], distance, n)
  {
    var h := History(slide, w, out);
    var run := slide[d..d + e];
    forall i | 0 <= i < |run| ensures run[i] == (h + run)[|h| + i - distance] {
      RunByte(slide, w, out, distance, d, i);
    }
    CopyRun(h, distance, run, n);
  }

  lemma RunByte(slide: seq<Byte>, w: nat, out: Output, distance: nat, d: nat, i: nat)
    requires WindowOk(slide, w, out) && w < WSIZE
    requires 0 < distance <= WSIZE && distance <= |History(slide, w, out)|
    requires d == (w - distance) % WSIZE && d + i < WSIZE && w + i < WSIZE && (d > w || w - d > i)
    ensures i < distance
    ensures var h := History(slide, w, out);
            slide[d + i] == h[|h| + i - distance]
  {
    if d <= w { assert distance == w - d; } else { assert distance == w - d + WSIZE; }
  }

  // ---- A match being copied ----

  predicate InReach(h: Output, distance: nat) { 0 < distance <= WSIZE && distance <= |h| }

  /** Of a match of `total` bytes that began at output h0, `left` bytes are still to be copied. */
  predicate Copying(h0: Output, h: Output, distance: nat, left: nat, total: nat) {
    && left <= total && |h| == |h0| + total - left
    && (InReach(h0, distance) ==> CopyMatch(h, distance, left) == CopyMatch(h0, distance, total))
  }

  lemma SameLap(x: int, i: nat)
    requires x % WSIZE + i < WSIZE
    ensures (x + i) % WSIZE == x % WSIZE + i
  {
  }

  lemma CopyingByte(h0: Output, slide: seq<Byte>, w: nat, out: Output, distance: nat, left: nat, total: nat)
    requires WindowOk(slide, w, out) && w < WSIZE && 0 < left
    requires Copying(h0, History(slide, w, out), distance, left, total)
    ensures Copying(h0, History(slide, w, out) + [slide[(w - distance) % WSIZE]], distance, left - 1, total)
  {
    if InReach(h0, distance) { ByteBack(slide, w, out, distance); }
  }

  lemma CopyingRun(h0: Output, slide: seq<Byte>, w: nat, out: Output, distance: nat, d: nat, e: nat, left: nat, total: nat)
    requires WindowOk(slide, w, out) && w < WSIZE && e <= left
    requires d == (w - distance) % WSIZE && d + e <= WSIZE && w + e <= WSIZE && (d > w || w - d >= e)
    requires Copying(h0, History(slide, w, out), distance, left, total)
    ensures Copying(h0, History(slide, w, out) + slide[d..d + e], distance, left - e, total)
  {
    if InReach(h0, distance) { SourceRun(slide, w, out, distance, d, e, left - e); }
  }

  /** The source index d is `distance` behind w, but for laps of the window. */
  predicate InStep(d: nat, w: nat, distance: nat) { (d - (w - distance)) % WSIZE == 0 }

  /** Source and destination move together, round the end of the window as well. */
  lemma KeepsStep(d: nat, w: nat, distance: nat, e: nat)
    requires InStep(d, w, distance)
    ensures InStep(d + e, w + e, distance)
    ensures w + e == WSIZE ==> InStep(d + e, 0, distance)
  {
  }

  /** Unsigned arithmetic wraps at a multiple of the window size. */
  lemma StartsInStep(w: nat, distance: nat)
    ensures InStep((w - distance) % TWO_TO_THE_32, w, distance)
  {
    var x := w - distance;
    assert x % TWO_TO_THE_32 - x == -(x / TWO_TO_THE_32) * (TWO_TO_THE_32 / WSIZE) * WSIZE;
  }

  /** Where the source stands after the index has been reduced to the window. */
  lemma Reduced(d: nat, w: nat, distance: nat)
    requires InStep(d, w, distance)
    ensures d % WSIZE < WSIZE && d % WSIZE == (w - distance) % WSIZE && InStep(d % WSIZE, w, distance)
  {
  }

  /** The unsigned comparison that decides whether a run may be copied at once. */
  lemma UnsignedGap(w: nat, d: nat, e: nat)
    requires w < WSIZE && d < WSIZE && e <= WSIZE
    ensures (w - d) % TWO_TO_THE_32 >= e <==> d > w || w - d >= e
  {
  }
}
