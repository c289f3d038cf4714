/** The decompressor of Common/Inflate.c, without its zlib variant. */
module Inflate {
  import opened Arithmetic
  import opened InflateBits
  import opened InflateHuffman
  import opened InflateTables
  import opened InflateHuft
  import opened InflateFormat
  import opened InflateWindow
  import opened InflateBuffer

  // Tables for literal and length codes 257 to 287 and for distance codes; 99 is invalid.
  const CPLENS: seq<nat> := LENGTH_BASE + [0, 0]
  const CPLEXT: seq<nat> := LENGTH_EXTRA + [INVALID_CODE, INVALID_CODE]
  const CPDIST: seq<nat> := DISTANCE_BASE
  const CPDEXT: seq<nat> := DISTANCE_EXTRA

  function Literals(lens: SentLengths): (a: Alphabet)
    requires 0 < |lens| <= 288
    ensures a.Valid()
  {
    Alphabet(lens, 257, CPLENS, CPLEXT)
  }

  function Distances(lens: SentLengths): (a: Alphabet)
    requires 0 < |lens| <= 30
    ensures a.Valid()
  {
    DistanceTables();
    Alphabet(lens, 0, CPDIST, CPDEXT)
  }

  lemma DistanceTables()
    ensures |CPDIST| == |CPDEXT| == 30 && forall i :: 0 <= i < 30 ==> CPDEXT[i] < END_OF_BLOCK
  {
    assert |DISTANCE_BASE| == 30;
    var s := DISTANCE_EXTRA;
    assert |s| == 30;
    assert forall i :: 0 <= i < 10 ==> s[i] <= 4;
    assert forall i :: 10 <= i < 20 ==> s[i] <= 9;
    assert forall i :: 20 <= i < 30 ==> s[i] <= 13;
  }

  function CodeLengths(lens: SentLengths): (a: Alphabet)
    requires |lens| == 19
    ensures a.Valid()
  {
    Alphabet(lens, 19, [], [])
  }

  /** What the program supports among the codes of the format: no more than 30 distance codes, and a distance
      code without any bits only beside the least number of literal and length codes, whether length codes occur or not. */
  predicate Supported(codes: Codes) { |codes.dist| <= 30 && !(AllZero(codes.dist) && |codes.lit| > 257) }

  predicate BlockSupported(str: Stream, kind: nat, p: nat) {
    kind == 2 && ReadDynamicCodes(str, p).Got? ==> Supported(ReadDynamicCodes(str, p).value)
  }

  /** All blocks from bit p on are supported. */
  predicate AllSupported(str: Stream, p: nat, out: Output)
    decreases str.bits - p
  {
    match ReadBits(str, p, 1)
    case Invalid => true
    case Got(last, p1) =>
      match ReadBits(str, p1, 2)
      case Invalid => true
      case Got(kind, p2) =>
        && BlockSupported(str, kind, p2)
        && match ReadBlock(str, kind, p2, out)
           case Invalid => true
           case Got(out', p3) => last != 1 && p3 <= str.bits ==> AllSupported(str, p3, out')
  }

  /** How many bits a look-up may ask for beyond the code it finds. */
  const LOOKAHEAD := 16

  function Max(a: nat, b: nat): nat { if a >= b then a else b }

  class Inflater {
    /** The bytes at the input pointer.  NEXTBYTE can read one more than the given length. */
    var memory: seq<Byte>
    /** redirSlide. */
    const slide: array<Byte>
    /** What a table entry holds that has not been written. */
    const garbage: Huft

    var inptr: nat
    var incnt: int
    var bb: nat
    var bk: nat
    var wp: nat
    /** What has been copied to the output pointer; its length is outCounter. */
    var out: Output
    var fixedTl: Tables
    var fixedTd: Tables
    var fixedBl: nat
    var fixedBd: nat

    constructor (garbage: Huft)
      ensures this.garbage == garbage && fresh(slide) && slide.Length == WSIZE && FixedReady()
    {
      this.garbage := garbage;
      memory := [];
      slide := new Byte[WSIZE](_ => 0);
      inptr, incnt, bb, bk, wp, out := 0, 0, 0, 0, 0, [];
      fixedTl, fixedTd, fixedBl, fixedBd := [], [], 0, 0;
    }

    ghost function Input(): Stream
      reads this`memory
    {
      Stream(Value(memory), 8 * |memory|)
    }

    /** The buffer b of k bits holds the next bits of the stream, from bit p on. */
    ghost predicate Reads(p: nat, b: nat, k: nat)
      reads this`memory, this`inptr, this`incnt
    {
      && incnt == |memory| - 1 - inptr
      && inptr <= |memory|
      && p + k == 8 * inptr
      && b == Low(Input().From(p), k)
    }

    /** NEEDBITS; not ok means that it has returned from the decoder. */
    method NeedBits(n: nat, b0: nat, k0: nat, ghost p: nat) returns (ok: bool, b: nat, k: nat)
      requires Reads(p, b0, k0)
      modifies this`inptr, this`incnt
      ensures ok ==> Reads(p, b, k) && n <= k
      ensures ok <==> p + n <= Input().bits
      ensures k <= Max(k0, n + 7)
    {
      b, k := b0, k0;
      while k < n
        invariant Reads(p, b, k) && k <= Max(k0, n + 7)
        decreases n - k
      {
        if incnt < 0 {
          incnt := incnt - 1;
          return false, b, k;
        }
        ByteOfValue(memory, inptr);
        DropDrop(Value(memory), p, k);
        AddByte(Input().From(p), k, memory[inptr]);
        b := b + memory[inptr] * Pow2(k);
        k := k + 8;
        incnt := incnt - 1;
        inptr := inptr + 1;
      }
      ok := true;
    }

    /** DUMPBITS keeps the buffer in step with the stream. */
    lemma Dumped(p: nat, b: nat, k: nat, n: nat)
      requires Reads(p, b, k) && n <= k
      ensures Reads(p + n, Drop(b, n), k - n)
    {
      DumpLow(Input().From(p), k, n);
      DropDrop(Value(memory), p, n);
    }

    /** NEEDBITS, the low bits, DUMPBITS. */
    method GetBits(n: nat, b0: nat, k0: nat, ghost p: nat) returns (ok: bool, v: nat, b: nat, k: nat)
      requires Reads(p, b0, k0)
      modifies this`inptr, this`incnt
      ensures ok <==> ReadBits(Input(), p, n).Got?
      ensures ok ==> Reads(p + n, b, k) && ReadBits(Input(), p, n) == Got(v, p + n)
    {
      hide Pow2;
      ok, b, k := NeedBits(n, b0, k0, p);
      if !ok { return false, 0, b, k; }
      v := Low(b, n);
      PeekLow(Input().From(p), k, n);
      Dumped(p, b, k, n);
      b, k := Drop(b, n), k - n;
    }

    /** On the way through the tables: n bits have led to table t, and en is the entry that the next ones select. */
    ghost predicate OnTheWay(alpha: Alphabet, tables: Tables, bl: nat, places: seq<Place>, g: nat, p: nat, t: nat, n: nat, en: Huft, b: nat, k: nat)
      reads this
    {
      var x := Input().From(p);
      && Finished(alpha, tables, bl, places, g) && t < |tables| && t < |places| && Walked(tables, places, t, x, n)
      && Reads(p + n, b, k) && places[t].bits <= k && n + places[t].bits <= LOOKAHEAD
      && Leads(alpha, tables, places, t, x, n, en)
      && Low(Drop(x, n), places[t].bits) < |tables[t]| && en == tables[t][Low(Drop(x, n), places[t].bits)]
      && Requested(tables, 0, bl, x) == n + Requested(tables, t, places[t].bits, Drop(x, n))
    }

    /** One step of the walk, by a link to another table. */
    method FollowLink(ghost alpha: Alphabet, tables: Tables, ghost bl: nat, ghost places: seq<Place>, ghost g: nat, ghost p: nat,
                      ghost t: nat, ghost n: nat, en: Huft, b0: nat, k0: nat)
      returns (ok: bool, t': nat, ghost n': nat, en': Huft, b: nat, k: nat)
      requires OnTheWay(alpha, tables, bl, places, g, p, t, n, en, b0, k0) && en.e > LITERAL && en.e != INVALID_CODE
      modifies this`inptr, this`incnt
      ensures ok ==> OnTheWay(alpha, tables, bl, places, g, p, t', n', en', b, k) && t < t' < |tables|
      ensures ok ==> n' == n + places[t].bits && n' + k <= Max(n + k0, n' + places[t'].bits + 7)
      ensures p + LOOKAHEAD <= Input().bits ==> ok
    {
      hide Requested; hide Finished; hide Pow2; hide CanOccur; hide Decode; hide Low; hide Drop; hide Walked;
      ghost var x := Input().From(p);
      AsksOn(tables, t, places[t].bits, x, n, en);
      Dumped(p + n, b0, k0, en.b);
      b, k := Drop(b0, en.b), k0 - en.b;
      n' := n + en.b;
      var e := en.e - 16;
      ok, b, k := NeedBits(e, b, k, p + n');
      t', en' := en.v, en;
      if !ok { return; }
      DropDrop(Value(memory), p, n');
      PlacesMatch(alpha, tables, bl, places, g);
      Selects(alpha, tables, bl, places, g, t', x, n', b, k);
      en' := tables[t'][Low(b, e)];
    }

    /** The look-up of a symbol: walks the tables as far as the bits lead, and does not read on when
        it has the bits that the tables on this path ask for. */
    method LookUp(ghost alpha: Alphabet, tables: Tables, bl: nat, b0: nat, k0: nat, ghost p: nat)
      returns (ok: bool, en: Huft, b: nat, k: nat, ghost n: nat)
      requires Usable(alpha, tables, bl) && Reads(p, b0, k0)
      modifies this`inptr, this`incnt
      ensures ok ==> en.e <= LITERAL && 0 < n && Found(alpha, Input().From(p), en.(b := n)) && Reads(p + n, b, k)
      ensures p + LOOKAHEAD <= Input().bits && CanOccur(alpha, Decode(alpha.lens, Input().From(p))) ==> ok
      ensures ok ==> n + k <= Max(k0, Requested(tables, 0, bl, Input().From(p)) + 7)
    {
      hide Requested; hide Finished; hide Found; hide Pow2; hide CanOccur; hide Decode; hide Low; hide Drop; hide Walked;
      ghost var places: seq<Place>, g: nat :| Finished(alpha, tables, bl, places, g);
      ghost var x := Input().From(p);
      n := 0;
      WalkStarts(alpha, tables, bl, places, g, x);
      en := garbage;
      ok, b, k := NeedBits(bl, b0, k0, p);
      if !ok { return; }
      ghost var t := 0;
      DropDrop(Value(memory), p, n);
      Selects(alpha, tables, bl, places, g, t, x, n, b, k);
      en := tables[0][Low(b, bl)];
      while en.e > LITERAL
        invariant OnTheWay(alpha, tables, bl, places, g, p, t, n, en, b, k)
        invariant n + k <= Max(k0, n + places[t].bits + 7)
        decreases |tables| - t
      {
        if en.e == INVALID_CODE {
          return false, en, b, k, n;
        }
        var next;
        ok, next, n, en, b, k := FollowLink(alpha, tables, bl, places, g, p, t, n, en, b, k);
        if !ok { return; }
        t := next;
      }
      AsksNoMore(tables, t, places[t].bits, x, n, en);
      Dumped(p + n, b, k, en.b);
      b, k := Drop(b, en.b), k - en.b;
      n := n + en.b;
    }

    // ---- Output ----

    ghost predicate WindowReady(w: nat)
      reads slide, this`out
    {
      slide.Length == WSIZE && w < WSIZE && WindowOk(slide[..], w, out)
    }

    /** The whole output so far. */
    ghost function Done(w: nat): Output
      reads slide, this`out
    {
      if w <= slide.Length then History(slide[..], w, out) else out
    }

    /** FLUSH at the end of the window. */
    method FlushIfFull(w0: nat) returns (w: nat)
      requires slide.Length == WSIZE && WindowOk(slide[..], w0, out)
      modifies this`out
      ensures w == (if w0 == WSIZE then 0 else w0)
      ensures WindowReady(w) && Done(w) == old(Done(w0))
    {
      w := w0;
      if w == WSIZE {
        FlushWindow(slide[..], out);
        out := out + slide[..w];
        assert slide[..WSIZE] == slide[..];
        w := 0;
      }
    }

    method PutByte(c: Byte, w0: nat) returns (w: nat)
      requires WindowReady(w0)
      modifies slide, this`out
      ensures WindowReady(w) && Done(w) == old(Done(w0)) + [c]
    {
      ghost var before := slide[..];
      WriteByte(before, w0, out, c);
      slide[w0] := c;
      assert slide[..] == before[w0 := c];
      w := FlushIfFull(w0 + 1);
    }

    /** Copies e bytes within the window.  The source may overlap what is written only where it
        lies behind it, so that every byte is read before it is overwritten. */
    method CopyRunForward(w0: nat, d: nat, e: nat)
      requires slide.Length == WSIZE && WindowOk(slide[..], w0, out)
      requires w0 + e <= WSIZE && d + e <= WSIZE
      modifies slide
      ensures WindowOk(slide[..], w0 + e, out)
      ensures History(slide[..], w0 + e, out) == old(History(slide[..], w0, out)) + old(slide[d..d + e])
    {
      ghost var before := slide[..];
      forall i | 0 <= i < e {
        slide[w0 + i] := slide[d + i];
      }
      assert slide[..] == before[..w0] + before[d..d + e] + before[w0 + e..];
      WriteBytes(before, slide[..], w0, out, before[d..d + e]);
    }

    /** Copies e bytes one by one, so that bytes that have just been written are copied again. */
    method CopyRunSlowly(w0: nat, d0: nat, e: nat, ghost h0: Output, ghost distance: nat, ghost left: nat, ghost total: nat)
      requires WindowReady(w0) && e <= left && w0 + e <= WSIZE && d0 + e <= WSIZE && d0 == (w0 - distance) % WSIZE
      requires Copying(h0, Done(w0), distance, left, total)
      modifies slide
      ensures WindowOk(slide[..], w0 + e, out)
      ensures Copying(h0, History(slide[..], w0 + e, out), distance, left - e, total)
    {
      hide Copying; hide WindowOk; hide History;
      var i := 0;
      while i < e
        invariant i <= e && WindowOk(slide[..], w0 + i, out)
        invariant Copying(h0, History(slide[..], w0 + i, out), distance, left - i, total)
      {
        ghost var before := slide[..];
        var w, d := w0 + i, d0 + i;
        SameLap(w0 - distance, i);
        CopyingByte(h0, before, w, out, distance, left - i, total);
        WriteByte(before, w, out, before[d]);
        slide[w] := slide[d];
        assert slide[..] == before[w := before[d]];
        i := i + 1;
      }
    }

    /** Copies a match of n0 bytes from window index d0 on.  d0 has wrapped around if the match
        began before the current lap of the window. */
    method CopyBytes(n0: nat, d0: nat, w0: nat, ghost distance: nat) returns (w: nat)
      requires WindowReady(w0) && d0 == (w0 - distance) % TWO_TO_THE_32
      modifies slide, this`out
      ensures WindowReady(w)
      ensures InReach(old(Done(w0)), distance) ==> Done(w) == CopyMatch(old(Done(w0)), distance, n0)
    {
      hide Copying; hide WindowOk; hide History; hide InStep; hide InReach; hide CopyMatch;
      ghost var h0 := Done(w0);
      var n: nat, d: nat := n0, d0;
      w := w0;
      StartsInStep(w0, distance);
      NothingCopied(h0, distance, n0);
      while n > 0
        invariant n <= n0 && WindowReady(w) && InStep(d, w, distance)
        invariant Copying(h0, Done(w), distance, n, n0)
      {
        Reduced(d, w, distance);
        d := d % WSIZE;
        var e := WSIZE - if d > w then d else w;
        if e > n { e := n; }
        UnsignedGap(w, d, e);
        if (w - d) % TWO_TO_THE_32 >= e {
          CopyingRun(h0, slide[..], w, out, distance, d, e, n, n0);
          CopyRunForward(w, d, e);
        } else {
          CopyRunSlowly(w, d, e, h0, distance, n, n0);
        }
        n := n - e;
        KeepsStep(d, w, distance, e);
        w, d := w + e, d + e;
        w := FlushIfFull(w);
      }
      EverythingCopied(h0, Done(w), distance, n0);
    }

    // ---- Compressed data ----

    /** The result of the format is one that the decoder has enough input to reach. */
    ghost predicate Expected<T>(r: Result<T>)
      reads this`memory
    {
      r.Got? && r.p + LOOKAHEAD <= Input().bits
    }

    /** The distance of a match. */
    method GetDistance(ghost dist: SentLengths, td: Tables, bd: nat, b0: nat, k0: nat, ghost p0: nat)
      returns (ok: bool, distance: nat, b: nat, k: nat, ghost p: nat)
      requires Reads(p0, b0, k0) && 0 < |dist| <= 30 && Usable(Distances(dist), td, bd)
      modifies this`inptr, this`incnt
      ensures ok ==> Reads(p, b, k) && p0 < p && distance <= WSIZE
      ensures Expected(ReadDistance(Input(), dist, p0)) ==> ok && ReadDistance(Input(), dist, p0) == Got(distance, p)
    {
      hide Usable; hide Decode; hide Found; hide Pow2; hide Low; hide Drop; hide ReadSymbol; hide CanOccur; hide ReadExtra;
      ghost var str := Input();
      ghost var expected := ReadDistance(str, dist, p0);
      ghost var n;
      var de, extra;
      p, distance := p0, 0;
      if expected.Got? { ReadableCanOccur(dist, str, p0); }
      ok, de, b, k, n := LookUp(Distances(dist), td, bd, b0, k0, p0);
      if !ok { return; }
      FoundDistance(dist, str, p0, de.(b := n));
      ghost var d := ReadSymbol(str, dist, p0).value;
      p := p0 + n;
      if expected.Got? { ExtraParts(str, DISTANCE_BASE, DISTANCE_EXTRA, d, p); }
      ok, extra, b, k := GetBits(de.e, b, k, p);
      if !ok { return; }
      DistanceFits(d, extra);
      p := p + de.e;
      distance := de.v + extra;
    }

    /** A match after its length symbol: extra bits, distance, copy. */
    method InflateMatch(ghost dist: SentLengths, td: Tables, bd: nat, en: Huft, b0: nat, k0: nat, w0: nat,
                        ghost symbol: nat, ghost p0: nat)
      returns (ok: bool, b: nat, k: nat, w: nat, ghost p: nat)
      requires Reads(p0, b0, k0) && WindowReady(w0)
      requires 0 < |dist| <= 30 && Usable(Distances(dist), td, bd)
      requires symbol > 256 && LiteralEntry(symbol, en.e, en.v)
      modifies this`inptr, this`incnt, this`out, slide
      ensures ok ==> Reads(p, b, k) && WindowReady(w) && p0 < p
      ensures Expected(ReadMatch(Input(), dist, symbol, p0, old(Done(w0)))) ==>
                ok && ReadMatch(Input(), dist, symbol, p0, old(Done(w0))) == Got(Done(w), p)
    {
      hide Usable; hide Pow2; hide Low; hide Drop; hide WindowOk; hide History; hide CopyMatch; hide ReadDistance; hide ReadExtra;
      ghost var str := Input();
      if ReadMatch(str, dist, symbol, p0, Done(w0)).Got? { ExtraParts(str, LENGTH_BASE, LENGTH_EXTRA, symbol - 257, p0); }
      var extra, length, distance;
      w, p := w0, p0;
      ok, extra, b, k := GetBits(en.e, b0, k0, p0);
      if !ok { return; }
      length := en.v + extra;
      ok, distance, b, k, p := GetDistance(dist, td, bd, b, k, p0 + en.e);
      if !ok { return; }
      w := CopyBytes(length, (w0 - distance) % TWO_TO_THE_32, w0, distance);
    }

    /** inflate_codes: the compressed data of a block.  Returns zero if it all goes well. */
    method InflateCodes(ghost lit: SentLengths, ghost dist: SentLengths, tl: Tables, td: Tables, bl: nat, bd: nat, ghost p0: nat)
      returns (r: nat, ghost p: nat)
      requires Reads(p0, bb, bk) && WindowReady(wp)
      requires 0 < |lit| <= 288 && Usable(Literals(lit), tl, bl)
      requires 0 < |dist| <= 30 && (Usable(Distances(dist), td, bd) || |lit| <= 257)
      modifies this`inptr, this`incnt, this`bb, this`bk, this`wp, this`out, slide
      ensures r == 0 ==> Reads(p, bb, bk) && WindowReady(wp) && p0 < p
      ensures Expected(ReadCodes(Input(), lit, dist, p0, old(Done(wp)))) ==>
                r == 0 && ReadCodes(Input(), lit, dist, p0, old(Done(wp))) == Got(Done(wp), p)
    {
      hide Usable; hide Decode; hide Found; hide Pow2; hide Low; hide Drop; hide WindowOk; hide History; hide ReadSymbol; hide ReadMatch; hide CanOccur; hide ReadCodes; hide LiteralEntry;
      ghost var str := Input();
      ghost var expected := ReadCodes(str, lit, dist, p0, Done(wp));
      var b, k, w := bb, bk, wp;
      var ok, en;
      ghost var n;
      p := p0;
      while true
        invariant Reads(p, b, k) && WindowReady(w) && p0 <= p <= str.bits
        invariant Expected(expected) ==> ReadCodes(str, lit, dist, p, Done(w)) == expected
        decreases str.bits - p
      {
        if Expected(expected) { ReadableLiteral(lit, str, p, dist, Done(w)); }
        ok, en, b, k, n := LookUp(Literals(lit), tl, bl, b, k, p);
        if !ok { return 1, p; }
        ghost var symbol := FoundLiteral(lit, str, p, en.(b := n));
        EntryKind(symbol, en.e, en.v);
        if Expected(expected) { CodesStep(str, lit, dist, p, Done(w)); }
        p := p + n;
        if en.e == LITERAL {
          w := PutByte(en.v % 256, w);
        } else if en.e == END_OF_BLOCK {
          break;
        } else {
          ok, b, k, w, p := InflateMatch(dist, td, bd, en, b, k, w, symbol, p);
          if !ok { return 1, p; }
        }
      }
      wp, bb, bk := w, b, k;
      r := 0;
    }

    // ---- Blocks ----

    /** inflate_stored. */
    method InflateStored(ghost p0: nat) returns (r: nat, ghost p: nat)
      requires Reads(p0, bb, bk) && WindowReady(wp)
      modifies this`inptr, this`incnt, this`bb, this`bk, this`wp, this`out, slide
      ensures r == 0 ==> Reads(p, bb, bk) && WindowReady(wp) && p0 <= p
      ensures Expected(ReadStored(Input(), p0, old(Done(wp)))) ==>
                r == 0 && ReadStored(Input(), p0, old(Done(wp))) == Got(Done(wp), p)
    {
      hide Pow2; hide Low; hide Drop; hide WindowOk; hide History; hide Reads; hide ReadStored; hide ReadBits; hide ReadBytes;
      ghost var str := Input();
      ghost var expected := ReadStored(str, p0, Done(wp));
      var b, k, w := bb, bk, wp;
      var ok, n, m;
      var odd := k % 8;
      StoredParts(str, p0, Done(w));
      ByteBoundary(p0, b, k);
      Dumped(p0, b, k, odd);
      b, k, p := Drop(b, odd), k - odd, p0 + odd;
      ok, n, b, k := GetBits(16, b, k, p);
      if !ok { return 1, p; }
      p := p + 16;
      ok, m, b, k := GetBits(16, b, k, p);
      // The length is followed by its complement.
      if !ok || n + m != 0xffff { return 1, p; }
      p := p + 16;
      while n > 0
        invariant Reads(p, b, k) && WindowReady(w) && p0 <= p && 0 <= n
        invariant expected.Got? ==> ReadBytes(str, p, n, Done(w)) == expected
      {
        BytesStep(str, p, n, Done(w));
        ok, m, b, k := GetBits(8, b, k, p);
        if !ok { return 1, p; }
        p := p + 8;
        w := PutByte(m % 256, w);
        n := n - 1;
      }
      BytesEnd(str, p, Done(w));
      wp, bb, bk := w, b, k;
      r := 0;
    }

    lemma ByteBoundary(p: nat, b: nat, k: nat)
      requires Reads(p, b, k)
      ensures k % 8 <= k && p + k % 8 == Align(p)
    {
    }

    /** The tables for blocks with fixed codes, once they are there, are the right ones. */
    ghost predicate FixedReady()
      reads this`fixedTl, this`fixedTd, this`fixedBl, this`fixedBd
    {
      fixedTl != [] ==>
        && Usable(Literals(FixedLiterals()), fixedTl, fixedBl)
        && Usable(Distances(FixedDistances()), fixedTd, fixedBd)
    }

    /** inflate_fixed. */
    method InflateFixed(ghost p0: nat) returns (r: nat, ghost p: nat)
      requires Reads(p0, bb, bk) && WindowReady(wp) && FixedReady()
      modifies this`inptr, this`incnt, this`bb, this`bk, this`wp, this`out, slide, this`fixedTl, this`fixedTd, this`fixedBl, this`fixedBd
      ensures FixedReady() && (r == 0 ==> Reads(p, bb, bk) && WindowReady(wp) && p0 <= p)
      ensures var expected := ReadCodes(Input(), FixedLiterals(), FixedDistances(), p0, old(Done(wp)));
              Expected(expected) ==> r == 0 && expected == Got(Done(wp), p)
    {
      hide Usable; hide Pow2; hide WindowOk; hide History; hide Complete; hide Oversubscribed; hide ReadCodes; hide FixedLiterals; hide FixedDistances;
      p := p0;
      if fixedTl == [] {
        FixedLiteralsComplete();
        FixedDistancesFit();
        var i, l := 0, seq(288, _ => 0);
        while i < 144
          invariant i <= 144 && |l| == 288 && forall j :: 0 <= j < i ==> l[j] == FixedLength(j)
        {
          l := l[i := 8];
          i := i + 1;
        }
        while i < 256
          invariant 144 <= i <= 256 && |l| == 288 && forall j :: 0 <= j < i ==> l[j] == FixedLength(j)
        {
          l := l[i := 9];
          i := i + 1;
        }
        while i < 280
          invariant 256 <= i <= 280 && |l| == 288 && forall j :: 0 <= j < i ==> l[j] == FixedLength(j)
        {
          l := l[i := 7];
          i := i + 1;
        }
        while i < 288
          invariant 280 <= i <= 288 && |l| == 288 && forall j :: 0 <= j < i ==> l[j] == FixedLength(j)
        {
          l := l[i := 8];
          i := i + 1;
        }
        AreFixedLiterals(l);
        r, fixedTl, fixedBl := HuftBuild(Literals(l), 7, garbage);
        // These lengths are complete, so there is no failure to pass on.
        assert r == 0;
        l := [];
        while |l| < 30
          invariant |l| <= 30 && forall j :: 0 <= j < |l| ==> l[j] == 5
        {
          l := l + [5];
        }
        AreFixedDistances(l);
        r, fixedTd, fixedBd := HuftBuild(Distances(l), 5, garbage);
        assert r <= 1;
      }
      NotEmpty(Literals(FixedLiterals()), fixedTl, fixedBl);
      r, p := InflateCodes(FixedLiterals(), FixedDistances(), fixedTl, fixedTd, fixedBl, fixedBd, p0);
    }

    // ---- Blocks with dynamic codes ----

    /** The lengths of the codes for code lengths. */
    method ReadBorder(nb: nat, b0: nat, k0: nat, ghost p0: nat) returns (ok: bool, ll: CodeLengthLengths, b: nat, k: nat, ghost p: nat)
      requires Reads(p0, b0, k0) && nb <= 19
      modifies this`inptr, this`incnt
      ensures ok <==> ReadCodeLengthLengths(Input(), p0, nb, 0, NoLengths()).Got?
      ensures ok ==> Reads(p, b, k) && p0 <= p && ReadCodeLengthLengths(Input(), p0, nb, 0, NoLengths()) == Got(ll, p)
    {
      hide Pow2; hide Low; hide Drop; hide Reads; hide ReadCodeLengthLengths; hide ReadBits;
      ghost var str := Input();
      var v;
      b, k, p := b0, k0, p0;
      ll := NoLengths();
      var j := 0;
      while j < nb
        invariant 0 <= j <= nb && Reads(p, b, k) && p0 <= p
        invariant ReadCodeLengthLengths(str, p0, nb, 0, NoLengths()) == ReadCodeLengthLengths(str, p, nb, j, ll)
      {
        NextBorder(str, p, nb, j, ll);
        ok, v, b, k := GetBits(3, b, k, p);
        if !ok { return; }
        p := p + 3;
        ll := ll[BORDER[j] := v % 8];
        j := j + 1;
      }
      while j < 19
        invariant nb <= j <= 19 && Reads(p, b, k)
        invariant ReadCodeLengthLengths(str, p0, nb, 0, NoLengths()) == ReadCodeLengthLengths(str, p, nb, j, ll)
      {
        NextBorder(str, p, nb, j, ll);
        ll := ll[BORDER[j] := 0];
        j := j + 1;
      }
      LastBorder(str, p, nb, ll);
      ok := true;
    }

    method AppendRun(ll0: SentLengths, l: nat, j0: nat) returns (ll: SentLengths)
      requires l < 16
      ensures ll == ll0 + Repeated(l, j0)
    {
      ll := ll0;
      var j := j0;
      while j > 0
        invariant 0 <= j <= j0 && ll == ll0 + Repeated(l, j0 - j)
      {
        j := j - 1;
        ll := ll + [l];
      }
    }

    /** One code length, or a run of equal ones.  The last length is repeated, which is zero at first. */
    method ReadOneRun(ghost clens: SentLengths, tl: Tables, bl: nat, n: nat, ll0: SentLengths, b0: nat, k0: nat, ghost p0: nat)
      returns (ok: bool, ll: SentLengths, b: nat, k: nat, ghost p: nat)
      requires Reads(p0, b0, k0) && |clens| == 19 && Usable(CodeLengths(clens), tl, bl) && SingleLevel(tl) && |ll0| < n
      modifies this`inptr, this`incnt
      ensures ok ==> Reads(p, b, k) && p0 <= p && |ll0| < |ll| <= n
      ensures Expected(ReadLengths(Input(), clens, p0, n, ll0)) ==>
                ok && ReadLengths(Input(), clens, p0, n, ll0) == ReadLengths(Input(), clens, p, n, ll)
    {
      hide Usable; hide Pow2; hide Low; hide Drop; hide ReadRun; hide ReadBits; hide ReadSymbol; hide CodeLengths; hide ReadLengths;
      ghost var str := Input();
      BaseBound(CodeLengths(clens), tl, bl);
      if ReadLengths(str, clens, p0, n, ll0).Got? { RunComesNext(str, clens, p0, n, ll0); }
      ll, p := ll0, p0;
      ok, b, k := NeedBits(bl, b0, k0, p0);
      if !ok { return; }
      SingleEntry(clens, tl, bl, str, p0, b, k);
      var td := tl[0][Low(b, bl)];
      Dumped(p0, b, k, td.b);
      b, k, p := Drop(b, td.b), k - td.b, p0 + td.b;
      RunIs(str, clens, p0, ll0, td.v, p);
      if td.v < 16 {
        ll := ll + [td.v];
      } else {
        var v;
        var bits := if td.v == 16 then 2 else if td.v == 17 then 3 else 7;
        ok, v, b, k := GetBits(bits, b, k, p);
        if !ok { return; }
        p := p + bits;
        var j := if td.v < 18 then 3 + v else 11 + v;
        if |ll| + j > n { return false, ll, b, k, p; }
        ll := AppendRun(ll, if td.v == 16 && ll != [] then ll[|ll| - 1] else 0, j);
      }
    }

    /** The lengths of the literal, length and distance codes. */
    method ReadCodeLengths(ghost clens: SentLengths, tl: Tables, bl: nat, n: nat, b0: nat, k0: nat, ghost p0: nat)
      returns (ok: bool, ll: SentLengths, b: nat, k: nat, ghost p: nat)
      requires Reads(p0, b0, k0) && |clens| == 19 && Usable(CodeLengths(clens), tl, bl) && SingleLevel(tl)
      modifies this`inptr, this`incnt
      ensures ok ==> Reads(p, b, k) && p0 <= p && |ll| == n
      ensures Expected(ReadLengths(Input(), clens, p0, n, [])) ==> ok && ReadLengths(Input(), clens, p0, n, []) == Got(ll, p)
    {
      hide Usable; hide Reads;
      ghost var expected := ReadLengths(Input(), clens, p0, n, []);
      b, k, p, ll, ok := b0, k0, p0, [], true;
      while |ll| < n
        invariant Reads(p, b, k) && p0 <= p && |ll| <= n && ok
        invariant Expected(expected) ==> ReadLengths(Input(), clens, p, n, ll) == expected
        decreases n - |ll|
      {
        ok, ll, b, k, p := ReadOneRun(clens, tl, bl, n, ll, b, k, p);
        if !ok { return; }
      }
    }

    /** The sizes at the beginning of a dynamic block. */
    method GetSizes(b0: nat, k0: nat, ghost p0: nat) returns (ok: bool, sizes: Sizes, b: nat, k: nat, ghost p: nat)
      requires Reads(p0, b0, k0)
      modifies this`inptr, this`incnt
      ensures ok <==> ReadSizes(Input(), p0).Got? && ReadSizes(Input(), p0).value.nd <= 30
      ensures ok ==> Reads(p, b, k) && p0 <= p && ReadSizes(Input(), p0) == Got(sizes, p)
      ensures ok ==> 257 <= sizes.nl <= 286 && 1 <= sizes.nd <= 30 && sizes.nb <= 19
    {
      hide Reads; hide Drop;
      assert Pow2(4) == 16;
      var nl, nd, nb;
      p, sizes := p0, Sizes(0, 0, 0);
      ok, nl, b, k := GetBits(5, b0, k0, p);
      if !ok { return; }
      ok, nd, b, k := GetBits(5, b, k, p + 5);
      if !ok { return; }
      ok, nb, b, k := GetBits(4, b, k, p + 10);
      if !ok { return; }
      p := p + 14;
      sizes := Sizes(257 + nl, 1 + nd, 4 + nb);
      if sizes.nl > 286 || sizes.nd > 30 { return false, sizes, b, k, p; }
    }

    /** huft_build as a block uses it: what is not acceptable is not used. */
    method BuildCode(alpha: Alphabet, m: nat) returns (r: nat, tables: Tables, bl: nat)
      requires alpha.Valid()
      ensures r == 0 && bl != 0 <==> Acceptable(alpha.lens)
      ensures r == 0 && bl == 0 <==> AllZero(alpha.lens)
      ensures r == 0 && bl != 0 ==> Usable(alpha, tables, bl)
      ensures r == 0 && bl != 0 && |alpha.lens| <= 256 && (forall s :: 0 <= s < |alpha.lens| ==> alpha.lens[s] <= m) ==> SingleLevel(tables)
    {
      hide Usable; hide Oversubscribed; hide Complete;
      r, tables, bl := HuftBuild(alpha, m, garbage);
    }

    /** inflate_dynamic from where it has read the code lengths. */
    method InflateWithCodes(codes: Codes, ghost p0: nat) returns (r: nat, ghost p: nat)
      requires Reads(p0, bb, bk) && WindowReady(wp) && 257 <= |codes.lit| <= 286 && 1 <= |codes.dist| <= 30
      modifies this`inptr, this`incnt, this`bb, this`bk, this`wp, this`out, slide
      ensures r == 0 ==> Reads(p, bb, bk) && WindowReady(wp) && p0 <= p
      ensures var expected := ReadCodes(Input(), codes.lit, codes.dist, p0, old(Done(wp)));
              AcceptableCodes(codes) && Expected(expected) ==>
                (r == 0 <==> Supported(codes)) && (r == 0 ==> expected == Got(Done(wp), p))
    {
      hide Usable; hide Reads; hide WindowOk; hide History; hide ReadCodes; hide Acceptable; hide AllZero; hide SingleLevel;
      var tl, bl, td, bd;
      p := p0;
      r, tl, bl := BuildCode(Literals(codes.lit), 9);
      if bl == 0 { r := 1; }
      if r != 0 { return; }
      r, td, bd := BuildCode(Distances(codes.dist), 6);
      if bd == 0 && |codes.lit| > 257 { return 1, p; }
      if r != 0 { return; }
      r, p := InflateCodes(codes.lit, codes.dist, tl, td, bl, bd, p0);
    }

    /** inflate_dynamic. */
    method InflateDynamic(ghost p0: nat) returns (r: nat, ghost p: nat)
      requires Reads(p0, bb, bk) && WindowReady(wp)
      modifies this`inptr, this`incnt, this`bb, this`bk, this`wp, this`out, slide
      ensures r == 0 ==> Reads(p, bb, bk) && WindowReady(wp) && p0 <= p
      ensures var expected := ReadBlock(Input(), 2, p0, old(Done(wp)));
              Expected(expected) ==> (r == 0 <==> BlockSupported(Input(), 2, p0)) && (r == 0 ==> expected == Got(Done(wp), p))
    {
      hide Usable; hide Reads; hide WindowOk; hide History; hide ReadSizes; hide ReadCodeLengthLengths; hide ReadLengths; hide ReadCodes;
      hide Acceptable; hide AcceptableCodes; hide AllZero; hide SingleLevel; hide BlockSupported;
      ghost var str := Input();
      ghost var expected := ReadBlock(str, 2, p0, Done(wp));
      if expected.Got? {
        ghost var sizes', p1, clens, p2, lens, p3, codes := DynamicParts(str, p0, Done(wp));
      }
      var ok, sizes, cl, tl, bl, ll, b, k;
      p := p0;
      ok, sizes, b, k, p := GetSizes(bb, bk, p0);
      if !ok { return 1, p; }
      ok, cl, b, k, p := ReadBorder(sizes.nb, b, k, p);
      if !ok { return 1, p; }
      r, tl, bl := BuildCode(CodeLengths(cl), 7);
      if bl == 0 { r := 1; }
      if r != 0 { return; }
      ok, ll, b, k, p := ReadCodeLengths(cl, tl, bl, sizes.nl + sizes.nd, b, k, p);
      if !ok { return 1, p; }
      bb, bk := b, k;
      r, p := InflateWithCodes(SplitCodes(ll, sizes.nl), p);
    }

    /** inflate_block: the header of a block, and the block. */
    method InflateBlock(ghost p0: nat) returns (r: nat, e: nat, ghost p: nat)
      requires Reads(p0, bb, bk) && WindowReady(wp) && FixedReady()
      modifies this`inptr, this`incnt, this`bb, this`bk, this`wp, this`out, slide, this`fixedTl, this`fixedTd, this`fixedBl, this`fixedBd
      ensures FixedReady() && (r == 0 ==> Reads(p, bb, bk) && WindowReady(wp) && p0 < p && e < 2)
      ensures var last := ReadBits(Input(), p0, 1);
              var kind := ReadBits(Input(), p0 + 1, 2);
              var expected := if kind.Got? then ReadBlock(Input(), kind.value, p0 + 3, old(Done(wp))) else Invalid;
              last.Got? && Expected(expected) ==>
                && (r == 0 <==> BlockSupported(Input(), kind.value, p0 + 3))
                && (r == 0 ==> e == last.value && expected == Got(Done(wp), p))
    {
      hide Usable; hide Reads; hide WindowOk; hide History; hide ReadStored; hide ReadDynamicCodes; hide ReadCodes; hide Supported;
      hide ReadBits; hide Pow2;
      var ok, t, b, k;
      OneBitBound(Input(), p0);
      p := p0;
      ok, e, b, k := GetBits(1, bb, bk, p);
      if !ok { return 1, e, p; }
      p := p + 1;
      ok, t, b, k := GetBits(2, b, k, p);
      if !ok { return 1, e, p; }
      p := p + 2;
      bb, bk := b, k;
      if t == 2 {
        r, p := InflateDynamic(p);
      } else if t == 0 {
        r, p := InflateStored(p);
      } else if t == 1 {
        r, p := InflateFixed(p);
      } else {
        r := 2;
      }
    }

    /** inflate: blocks up to the last one. */
    method InflateBlocks() returns (r: nat)
      requires Reads(0, 0, 0) && slide.Length == WSIZE && out == [] && FixedReady()
      modifies this`inptr, this`incnt, this`bb, this`bk, this`wp, this`out, slide, this`fixedTl, this`fixedTd, this`fixedBl, this`fixedBd
      ensures FixedReady()
      ensures Expected(ReadBlocks(Input(), 0, [])) ==>
                (r == 0 <==> AllSupported(Input(), 0, [])) && (r == 0 ==> out == ReadBlocks(Input(), 0, []).value)
    {
      hide Usable; hide Reads; hide WindowOk; hide History; hide ReadBlock; hide ReadBlocks; hide ReadBits; hide AllSupported; hide BlockSupported;
      ghost var str := Input();
      ghost var expected := ReadBlocks(str, 0, []);
      wp, bk, bb := 0, 0, 0;
      ghost var p: nat := 0;
      FreshWindow(slide[..]);
      var e := 0;
      while true
        invariant Reads(p, bb, bk) && WindowReady(wp) && FixedReady() && p <= str.bits + 1
        invariant Input() == str
        invariant Expected(expected) ==> ReadBlocks(str, p, Done(wp)) == expected
        invariant Expected(expected) ==> (AllSupported(str, p, Done(wp)) <==> AllSupported(str, 0, []))
        decreases str.bits + 1 - p
      {
        if Expected(expected) { BlocksStep(str, p, Done(wp)); }
        r, e, p := InflateBlock(p);
        if r != 0 { return; }
        WithinInput(p, bb, bk);
        if e != 0 { break; }
      }
      HistoryIs(slide[..], wp, out);
      out := out + slide[..wp];
      r := 0;
    }

    lemma WithinInput(p: nat, b: nat, k: nat)
      requires Reads(p, b, k)
      ensures p <= Input().bits
    {
    }

    /** Decompresses data of a given length; one more byte can be read after it.  Returns the size
        of the output, or zero if decompression fails.  What the format makes of the data comes out exactly if the
        program supports all blocks. */
    method DecompressDeflatedData(input: seq<Byte>, inLength: nat) returns (size: nat)
      requires |input| == inLength + 1 && slide.Length == WSIZE && FixedReady()
      modifies this, slide
      ensures FixedReady()
      ensures size == 0 || size == |out|
      ensures var expected := ReadBlocks(Stream(Value(input), 8 * |input|), 0, []);
              expected.Got? && expected.p + LOOKAHEAD <= 8 * |input| ==>
                if AllSupported(Stream(Value(input), 8 * |input|), 0, []) then out == expected.value && size == |out| else size == 0
    {
      hide Usable; hide ReadBlocks; hide AllSupported;
      memory, inptr, incnt, out := input, 0, inLength, [];
      BufferEmpty();
      var r := InflateBlocks();
      if r != 0 { return 0; }
      size := |out|;
    }

    lemma BufferEmpty()
      requires inptr == 0 && incnt == |memory| - 1
      ensures Reads(0, 0, 0)
    {
      LowZero(Input().From(0));
    }
  }

  lemma HistoryIs(slide: seq<Byte>, w: nat, out: Output)
    requires w <= |slide|
    ensures History(slide, w, out) == out + slide[..w]
  {
  }

  /** The next block of a stream that the format accepts. */
  lemma BlocksStep(str: Stream, p: nat, out: Output)
    requires ReadBlocks(str, p, out).Got?
    ensures ReadBits(str, p, 1).Got? && ReadBits(str, p + 1, 2).Got?
    ensures var block := ReadBlock(str, ReadBits(str, p + 1, 2).value, p + 3, out);
            && block.Got? && block.p <= ReadBlocks(str, p, out).p
            && ReadBlocks(str, p, out) == (if ReadBits(str, p, 1).value == 1 then block else ReadBlocks(str, block.p, block.value))
            && (AllSupported(str, p, out) <==>
                && BlockSupported(str, ReadBits(str, p + 1, 2).value, p + 3)
                && (ReadBits(str, p, 1).value != 1 ==> AllSupported(str, block.p, block.value)))
  {
    hide ReadBlock; hide BlockSupported; hide Low; hide Drop;
  }

  lemma FreshWindow(slide: seq<Byte>)
    requires |slide| == WSIZE
    ensures WindowOk(slide, 0, []) && History(slide, 0, []) == []
  {
  }

  /** The parts of a dynamic block that the format accepts. */
  lemma DynamicParts(str: Stream, p: nat, out: Output)
    returns (sizes: Sizes, p1: nat, clens: CodeLengthLengths, p2: nat, lens: SentLengths, p3: nat, codes: Codes)
    requires ReadBlock(str, 2, p, out).Got?
    ensures ReadSizes(str, p) == Got(sizes, p1)
    ensures ReadCodeLengthLengths(str, p1, sizes.nb, 0, NoLengths()) == Got(clens, p2) && Acceptable(clens)
    ensures ReadLengths(str, clens, p2, sizes.nl + sizes.nd, []) == Got(lens, p3)
    ensures sizes.nl <= |lens| && codes == SplitCodes(lens, sizes.nl) && AcceptableCodes(codes)
    ensures ReadBlock(str, 2, p, out) == ReadCodes(str, codes.lit, codes.dist, p3, out)
    ensures |codes.dist| == sizes.nd && (BlockSupported(str, 2, p) <==> Supported(codes))
    ensures p1 <= p2 <= p3 <= ReadBlock(str, 2, p, out).p
  {
    hide ReadSizes; hide ReadCodeLengthLengths; hide ReadLengths; hide ReadCodes; hide Acceptable; hide AcceptableCodes;
    var r := ReadSizes(str, p);
    sizes, p1 := r.value, r.p;
    var s := ReadCodeLengthLengths(str, p1, sizes.nb, 0, NoLengths());
    clens, p2 := s.value, s.p;
    var t := ReadLengths(str, clens, p2, sizes.nl + sizes.nd, []);
    lens, p3 := t.value, t.p;
    codes := SplitCodes(lens, sizes.nl);
  }

  lemma BaseBound(alpha: Alphabet, tables: Tables, bl: nat)
    requires Usable(alpha, tables, bl)
    ensures 0 < bl <= LOOKAHEAD
  {
    var places: seq<Place>, g: nat :| Finished(alpha, tables, bl, places, g);
    WalkStarts(alpha, tables, bl, places, g, 0);
    assert PlaceOk(g, EndOfBlockLength(alpha.lens), places[0], tables[0]);
  }

  /** The single look-up that reads a code length symbol. */
  lemma SingleEntry(clens: SentLengths, tl: Tables, bl: nat, str: Stream, p: nat, b: nat, k: nat)
    requires |clens| == 19 && Usable(CodeLengths(clens), tl, bl) && SingleLevel(tl)
    requires b == Low(str.From(p), k) && bl <= k
    ensures Low(b, bl) < |tl[0]|
    ensures var en := tl[0][Low(b, bl)];
            && 0 < en.b <= bl
            && (ReadSymbol(str, clens, p).Got? ==> ReadSymbol(str, clens, p) == Got(en.v, p + en.b))
  {
    hide Pow2; hide Low; hide Drop; hide Decode; hide Finished; hide Walked;
    var alpha := CodeLengths(clens);
    var x := str.From(p);
    var places: seq<Place>, g: nat :| Finished(alpha, tl, bl, places, g);
    WalkStarts(alpha, tl, bl, places, g, x);
    DropZero(x);
    Selects(alpha, tl, bl, places, g, 0, x, 0, b, k);
  }

  /** What one symbol of the code length code stands for. */
  lemma RunIs(str: Stream, clens: SentLengths, p: nat, ll: SentLengths, j: nat, q: nat)
    requires ReadSymbol(str, clens, p).Got? ==> ReadSymbol(str, clens, p) == Got(j, q)
    requires |clens| == 19
    ensures ReadRun(str, clens, p, ll).Got? ==>
              var r := ReadRun(str, clens, p, ll);
              if j < 16 then r == Got([j], q)
              else
                var bits := if j == 16 then 2 else if j == 17 then 3 else 7;
                var v := ReadBits(str, q, bits);
                && v.Got? && v.p == q + bits && j <= 18 && (j == 16 ==> ll != [])
                && r == Got(Repeated(if j == 16 then ll[|ll| - 1] else 0, if j == 18 then 11 + v.value else 3 + v.value), v.p)
  {
    hide Low; hide Drop; hide Decode; hide ReadSymbol;
    SymbolBound(str, clens, p);
  }

  lemma SymbolBound(str: Stream, lens: Lengths, p: nat)
    ensures ReadSymbol(str, lens, p).Got? ==> ReadSymbol(str, lens, p).value < |lens|
  {
  }

  lemma RunComesNext(str: Stream, clens: SentLengths, p: nat, n: nat, ll: SentLengths)
    requires |ll| < n && ReadLengths(str, clens, p, n, ll).Got?
    ensures ReadRun(str, clens, p, ll).Got?
    ensures var r := ReadRun(str, clens, p, ll);
            |ll| + |r.value| <= n && ReadLengths(str, clens, p, n, ll) == ReadLengths(str, clens, r.p, n, ll + r.value)
    ensures p < ReadRun(str, clens, p, ll).p <= str.bits
  {
    hide ReadRun;
  }

  lemma NextBorder(str: Stream, p: nat, nb: nat, j: nat, ll: CodeLengthLengths)
    requires j < 19
    ensures BORDER[j] < 19
    ensures j >= nb ==> ReadCodeLengthLengths(str, p, nb, j, ll) == ReadCodeLengthLengths(str, p, nb, j + 1, ll[BORDER[j] := 0])
    ensures j < nb && ReadBits(str, p, 3).Got? ==>
              ReadBits(str, p, 3).p == p + 3 &&
              ReadCodeLengthLengths(str, p, nb, j, ll)
              == ReadCodeLengthLengths(str, p + 3, nb, j + 1, ll[BORDER[j] := ReadBits(str, p, 3).value % 8])
    ensures j < nb && ReadBits(str, p, 3).Invalid? ==> ReadCodeLengthLengths(str, p, nb, j, ll).Invalid?
  {
  }

  lemma LastBorder(str: Stream, p: nat, nb: nat, ll: CodeLengthLengths)
    ensures ReadCodeLengthLengths(str, p, nb, 19, ll) == Got(ll, p)
  {
  }

  lemma NotEmpty(alpha: Alphabet, tables: Tables, bl: nat)
    requires Usable(alpha, tables, bl)
    ensures tables != []
  {
  }

  lemma AreFixedLiterals(l: seq<nat>)
    requires |l| == 288 && forall j :: 0 <= j < 288 ==> l[j] == FixedLength(j)
    ensures l == FixedLiterals()
  {
  }

  lemma AreFixedDistances(l: seq<nat>)
    requires |l| == 30 && forall j :: 0 <= j < 30 ==> l[j] == 5
    ensures l == FixedDistances()
  {
  }

  function Clamp(n: nat, low: nat, high: nat): nat
    requires low <= high
  {
    if n < low then 0 else if n < high then n - low else high - low
  }

  lemma {:induction false} CountFixedLiterals(n: nat, k: nat)
    requires n <= 288
    ensures CountUpTo(FixedLiterals(), n, k)
         == if k == 7 then Clamp(n, 256, 280) else if k == 8 then Clamp(n, 0, 144) + Clamp(n, 280, 288)
            else if k == 9 then Clamp(n, 144, 256) else 0
  {
    if n > 0 { CountFixedLiterals(n - 1, k); }
  }

  lemma {:induction false} CountFixedDistances(n: nat, k: nat)
    requires n <= 30
    ensures CountUpTo(FixedDistances(), n, k) == if k == 5 then n else 0
  {
    if n > 0 { CountFixedDistances(n - 1, k); }
  }

  lemma {:induction false} NoCodesUpTo(lens: Lengths, k: nat)
    requires forall j :: 1 <= j < k ==> Count(lens, j) == 0
    ensures FirstCode(lens, k) == 0
  {
    if k > 0 { NoCodesUpTo(lens, k - 1); }
  }

  lemma FixedLiteralsComplete()
    ensures !AllZero(FixedLiterals()) && !Oversubscribed(FixedLiterals()) && Complete(FixedLiterals())
  {
    hide FixedLiterals; hide CountUpTo; hide FirstCode;
    var l := FixedLiterals();
    forall k | 1 <= k <= BMAX ensures Count(l, k) == if k == 7 then 24 else if k == 8 then 152 else if k == 9 then 112 else 0 {
      CountFixedLiterals(288, k);
    }
    NoCodesUpTo(l, 7);
    NextFirstCode(l, 7);
    NextFirstCode(l, 8);
    assert EndCode(l, 9) == 512;
    EndCodeGrows(l, 9, BMAX);
    assert Pow2(BMAX) == 512 * Pow2(BMAX - 9) by { assert Pow2(9) == 512; Pow2Add(9, BMAX - 9); }
    if AllZero(l) { CountZeros(l, 288); CountFixedLiterals(288, 0); }
  }

  lemma FixedDistancesFit()
    ensures !AllZero(FixedDistances()) && !Oversubscribed(FixedDistances())
  {
    hide CountUpTo; hide FirstCode;
    var l := FixedDistances();
    forall k | 1 <= k <= BMAX ensures Count(l, k) == if k == 5 then 30 else 0 { CountFixedDistances(30, k); }
    NoCodesUpTo(l, 5);
    EndCodeGrows(l, 5, BMAX);
    assert l[0] == 5;
    assert Pow2(BMAX) == 32 * Pow2(BMAX - 5) by { assert Pow2(5) == 32; Pow2Add(5, BMAX - 5); }
  }

  lemma NextFirstCode(lens: Lengths, k: nat)
    ensures FirstCode(lens, k + 1) == 2 * EndCode(lens, k)
  {
  }

  /** The entry of a literal or length symbol that may occur. */
  predicate LiteralEntry(s: nat, e: int, v: int) {
    && (e == LITERAL <==> s < 256)
    && (e == LITERAL ==> v == s)
    && (e == END_OF_BLOCK <==> s == 256)
    && (s > 256 ==> s - 257 < |LENGTH_BASE| && e == LENGTH_EXTRA[s - 257] && v == LENGTH_BASE[s - 257])
  }

  lemma EntryKind(s: nat, e: int, v: int)
    requires LiteralEntry(s, e, v)
    ensures if e == LITERAL then s < 256 && v % 256 == s else if e == END_OF_BLOCK then s == 256 else s > 256
  {
  }

  lemma MeaningOfLiteral(lit: SentLengths, s: nat)
    requires 0 < |lit| <= 288 && s < |lit|
    ensures var (e, v) := Literals(lit).Meaning(s);
            e == INVALID_CODE || LiteralEntry(s, e, v)
  {
    if s > 256 { CopyTables(s - 257); }
  }

  /** What a found entry of the literal and length tables says. */
  lemma FoundLiteral(lit: SentLengths, str: Stream, p: nat, en: Huft) returns (s: nat)
    requires 0 < |lit| <= 288 && Found(Literals(lit), str.From(p), en) && en.e <= LITERAL && 0 < en.b
    ensures p + en.b <= str.bits ==> ReadSymbol(str, lit, p) == Got(s, p + en.b)
    ensures s < |lit| && LiteralEntry(s, en.e, en.v)
  {
    hide Decode; hide Low; hide Drop; hide Pow2; hide LiteralEntry; hide Alphabet.Meaning; hide Alphabet.Valid;
    s := Decode(lit, str.From(p)).s;
    MeaningOfLiteral(lit, s);
  }

  lemma CopyTables(i: nat)
    requires i < |CPLENS| == |CPLEXT|
    ensures CPLEXT[i] == INVALID_CODE || (i < |LENGTH_BASE| && CPLEXT[i] == LENGTH_EXTRA[i] <= 5 && CPLENS[i] == LENGTH_BASE[i])
  {
  }

  lemma OneBitBound(str: Stream, p: nat)
    ensures ReadBits(str, p, 1).Got? ==> ReadBits(str, p, 1).value < 2 && ReadBits(str, p, 1).p == p + 1
  {
    assert Pow2(1) == 2;
  }

  /** The parts of a stored block. */
  lemma StoredParts(str: Stream, p: nat, out: Output)
    ensures ReadStored(str, p, out).Got? ==>
              var len, nlen := ReadBits(str, Align(p), 16), ReadBits(str, Align(p) + 16, 16);
              && len.Got? && nlen.Got? && len.value + nlen.value == 0xffff
              && ReadStored(str, p, out) == ReadBytes(str, Align(p) + 32, len.value, out)
  {
    hide Low; hide Drop; hide Pow2; hide ReadBytes;
  }

  lemma BytesStep(str: Stream, p: nat, n: nat, out: Output)
    requires n > 0
    ensures ReadBytes(str, p, n, out).Got? ==>
              var v := ReadBits(str, p, 8);
              v.Got? && ReadBytes(str, p, n, out) == ReadBytes(str, p + 8, n - 1, out + [v.value % 256])
  {
    hide Low; hide Drop; hide Pow2;
  }

  lemma BytesEnd(str: Stream, p: nat, out: Output)
    ensures ReadBytes(str, p, 0, out) == Got(out, p)
  {
  }

  /** The next symbol of the compressed data. */
  lemma CodesStep(str: Stream, lit: SentLengths, dist: SentLengths, p: nat, out: Output)
    requires ReadCodes(str, lit, dist, p, out).Got?
    ensures var symbol := ReadSymbol(str, lit, p);
            && symbol.Got?
            && ReadCodes(str, lit, dist, p, out) ==
               if symbol.value < 256 then ReadCodes(str, lit, dist, symbol.p, out + [symbol.value])
               else if symbol.value == 256 then Got(out, symbol.p)
               else
                 var m := ReadMatch(str, dist, symbol.value, symbol.p, out);
                 if m.Got? then ReadCodes(str, lit, dist, m.p, m.value) else Invalid
  {
    hide Low; hide Drop; hide Pow2; hide ReadMatch; hide ReadSymbol;
  }

  /** While the format can be decoded, the next symbol is one that may occur. */
  lemma ReadableLiteral(lit: SentLengths, str: Stream, p: nat, dist: SentLengths, out: Output)
    requires 0 < |lit| <= 288 && ReadCodes(str, lit, dist, p, out).Got?
    ensures CanOccur(Literals(lit), Decode(lit, str.From(p)))
    ensures p < ReadCodes(str, lit, dist, p, out).p
  {
    hide Low; hide Drop; hide Pow2; hide ReadDistance; hide CopyMatch; hide Decode; hide ReadExtra; hide Alphabet.Meaning;
    var s := ReadSymbol(str, lit, p).value;
    if s > 256 { ExtraParts(str, LENGTH_BASE, LENGTH_EXTRA, s - 257, ReadSymbol(str, lit, p).p); }
    ValidLiteral(lit, s);
  }

  lemma ValidLiteral(lit: SentLengths, s: nat)
    requires 0 < |lit| <= 288 && s < |lit| && (s > 256 ==> s - 257 < |LENGTH_BASE|)
    ensures Literals(lit).Meaning(s).0 != INVALID_CODE
  {
    if s > 256 { CopyTables(s - 257); }
  }

  /** What a found entry of the distance tables says. */
  lemma FoundDistance(dist: SentLengths, str: Stream, p: nat, en: Huft)
    requires 0 < |dist| <= 30 && Found(Distances(dist), str.From(p), en) && en.e <= LITERAL && 0 < en.b
    ensures p + en.b <= str.bits ==>
              ReadSymbol(str, dist, p).Got? && ReadSymbol(str, dist, p).p == p + en.b
              && var d := ReadSymbol(str, dist, p).value; d < 30 && en.e == DISTANCE_EXTRA[d] && en.v == DISTANCE_BASE[d]
  {
  }

  lemma ExtraParts(str: Stream, base: seq<nat>, extra: seq<nat>, symbol: nat, p: nat)
    requires ReadExtra(str, base, extra, symbol, p).Got?
    ensures symbol < |base| && symbol < |extra| && ReadBits(str, p, extra[symbol]).Got?
    ensures ReadExtra(str, base, extra, symbol, p)
         == Got(base[symbol] + ReadBits(str, p, extra[symbol]).value, p + extra[symbol])
  {
  }

  lemma ReadableCanOccur(dist: SentLengths, str: Stream, p: nat)
    requires 0 < |dist| <= 30 && ReadSymbol(str, dist, p).Got?
    ensures CanOccur(Distances(dist), Decode(dist, str.From(p)))
  {
  }

  /** No distance exceeds the window. */
  lemma DistanceFits(d: nat, v: nat)
    requires d < 30 && v < Pow2(DISTANCE_EXTRA[d])
    ensures DISTANCE_BASE[d] + v <= WSIZE
  {
    assert Pow2(4) == 16;
    assert Pow2(8) == 256;
    assert Pow2(12) == 4096;
  }

  lemma NothingCopied(h: Output, distance: nat, n: nat)
    ensures Copying(h, h, distance, n, n)
  {
  }

  lemma EverythingCopied(h0: Output, h: Output, distance: nat, n: nat)
    requires Copying(h0, h, distance, 0, n)
    ensures InReach(h0, distance) ==> h == CopyMatch(h0, distance, n)
  {
  }

  // ---- Look-ups ----

  predicate CanOccur(alpha: Alphabet, d: Decoded)
    requires alpha.Valid()
  {
    d.Symbol? && d.s < |alpha.lens| && alpha.Meaning(d.s).0 != INVALID_CODE
  }

  /** The first n bits of the window x lead to table t. */
  predicate Walked(tables: Tables, places: seq<Place>, t: nat, x: nat, n: nat) {
    && |places| == |tables| && t < |tables|
    && places[t].w == n && Low(x, n) == places[t].prefix
  }

  /** Where an entry of table t leads that the window x selects. */
  predicate Leads(alpha: Alphabet, tables: Tables, places: seq<Place>, t: nat, x: nat, n: nat, en: Huft)
    requires alpha.Valid() && |places| == |tables| && t < |tables|
  {
    if IsLink(en) then
      && t < en.v < |tables| && en.b == places[t].bits && en.e == 16 + places[en.v].bits
      && n + en.b + places[en.v].bits <= LOOKAHEAD
      && Walked(tables, places, en.v, x, n + en.b)
    else
      && Found(alpha, x, en.(b := n + en.b))
      && 0 < en.b <= places[t].bits
      && (en.e == INVALID_CODE ==> !CanOccur(alpha, Decode(alpha.lens, x)))
  }

  lemma AsksOn(tables: Tables, t: nat, bits: nat, x: nat, n: nat, en: Huft)
    requires t < |tables| && Low(Drop(x, n), bits) < |tables[t]| && en == tables[t][Low(Drop(x, n), bits)]
    requires IsLink(en) && t < en.v && en.b == bits
    ensures Requested(tables, t, bits, Drop(x, n)) == bits + Requested(tables, en.v, en.e - 16, Drop(x, n + bits))
  {
    hide Low; hide Drop;
    DropDrop(x, n, bits);
  }

  lemma PlacesMatch(alpha: Alphabet, tables: Tables, bl: nat, places: seq<Place>, g: nat)
    requires Finished(alpha, tables, bl, places, g)
    ensures |places| == |tables|
  {
  }

  lemma AsksNoMore(tables: Tables, t: nat, bits: nat, x: nat, n: nat, en: Huft)
    requires t < |tables| && Low(Drop(x, n), bits) < |tables[t]| && en == tables[t][Low(Drop(x, n), bits)] && !IsLink(en)
    ensures Requested(tables, t, bits, Drop(x, n)) == bits
  {
    hide Low; hide Drop;
  }

  lemma WalkStarts(alpha: Alphabet, tables: Tables, bl: nat, places: seq<Place>, g: nat, x: nat)
    requires Finished(alpha, tables, bl, places, g)
    ensures alpha.Valid() && |places| == |tables| > 0 && places[0].bits == bl <= LOOKAHEAD
    ensures Walked(tables, places, 0, x, 0)
  {
    LowZero(x);
    assert PlaceOk(g, EndOfBlockLength(alpha.lens), places[0], tables[0]);
  }

  lemma Selects(alpha: Alphabet, tables: Tables, bl: nat, places: seq<Place>, g: nat, t: nat, x: nat, n: nat, b: nat, k: nat)
    requires Finished(alpha, tables, bl, places, g) && Walked(tables, places, t, x, n)
    requires b == Low(Drop(x, n), k) && places[t].bits <= k
    ensures Low(b, places[t].bits) < |tables[t]|
    ensures Low(b, places[t].bits) == Low(Drop(x, n), places[t].bits)
    ensures Leads(alpha, tables, places, t, x, n, tables[t][Low(b, places[t].bits)])
  {
    hide Pow2; hide IsLeaf; hide RightBefore; hide Low; hide Drop; hide Place.Pattern; hide Longest; hide Leads; hide IsLinkTo;
    var el := EndOfBlockLength(alpha.lens);
    var pl := places[t];
    PeekLow(Drop(x, n), k, pl.bits);
    var j := Low(b, pl.bits);
    assert PlaceOk(g, el, pl, tables[t]);
    PatternOf(pl, x);
    AllBefore(alpha, g, el, places, tables, t, j);
    if IsLink(tables[t][j]) {
      LinkLeads(alpha, g, el, tables, places, t, j, x, tables[t][j]);
    } else {
      LeafLeads(alpha, g, tables, places, t, j, x, tables[t][j]);
    }
  }

  lemma LinkLeads(alpha: Alphabet, g: nat, el: nat, tables: Tables, places: seq<Place>, t: nat, j: nat, x: nat, en: Huft)
    requires alpha.Valid() && PlacesOk(g, el, places, tables) && t < |tables| && IsLink(en) && IsLinkTo(places, t, j, en)
    requires places[t].Pattern(j) == Low(x, places[t].Depth())
    ensures Leads(alpha, tables, places, t, x, places[t].w, en)
  {
    hide Pow2; hide Low; hide Place.Pattern; hide Found; hide CanOccur;
    assert PlaceOk(g, el, places[en.v], tables[en.v]);
  }

  lemma LeafLeads(alpha: Alphabet, g: nat, tables: Tables, places: seq<Place>, t: nat, j: nat, x: nat, en: Huft)
    requires alpha.Valid() && |places| == |tables| && t < |tables| && !IsLink(en) && Longest(alpha.lens, g)
    requires 0 < places[t].bits && places[t].Depth() <= g && IsLeaf(alpha, g, places[t], j, en)
    requires places[t].Pattern(j) == Low(x, places[t].Depth())
    ensures Leads(alpha, tables, places, t, x, places[t].w, en)
  {
    hide Pow2; hide Low; hide Place.Pattern; hide IsLeaf; hide Found; hide CanOccur; hide Longest;
    LeafFound(alpha, g, places[t], j, en, x);
    LeafDepth(alpha, g, places[t], j, en);
    if en.e == INVALID_CODE { InvalidCannotOccur(alpha, x, en.(b := places[t].w + en.b)); }
  }

  lemma InvalidCannotOccur(alpha: Alphabet, x: nat, r: Huft)
    requires alpha.Valid() && Found(alpha, x, r) && r.e == INVALID_CODE
    ensures !CanOccur(alpha, Decode(alpha.lens, x))
  {
  }
}
