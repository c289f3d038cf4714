/** FormatFat of Common/Fat.c: which sectors of a new FAT volume are written, in which order and under which key. */
module FormatFat {
  import opened CryptoModes
  import opened CryptoSpec
  import opened FormatWriter
  import Laws = CryptoLaws
  import Fat
  import FatLayout

  /** The layout of the volume, the contents of boot sector and FSInfo sector, and both keys. */
  datatype Volume = Volume(
    ss: nat, sectors: nat, sizeFat: nat, reserved: nat, fatLength: nat, rootSectors: nat,
    boot: Bytes, fsInfo: Bytes, realKey: CryptoInfo, temporaryKey: CryptoInfo)
  {
    /** Everything before the data area, with its first cluster if that is the root directory. */
    function Meta(): nat { reserved + 2 * fatLength + rootSectors }

    predicate Valid() {
      && ValidSectorSize(ss) && |boot| == |fsInfo| == ss
      && (sizeFat == 12 || sizeFat == 16 || sizeFat == 32)
      && (if sizeFat == 32 then reserved >= 32 else reserved == 2)
      && rootSectors > 0 && Meta() <= sectors
    }
  }

  function Zeros(n: nat): (s: Bytes)
    ensures |s| == n
  {
    seq(n, _ => 0)
  }

  /** A sector of zeros with the trail signature. */
  function TrailSector(ss: nat): (s: Bytes)
    requires ss >= 512
    ensures |s| == ss
  {
    Zeros(ss)[510 := 0x55][511 := 0xaa]
  }

  /** The first entries of a FAT. */
  function FatSignature(sizeFat: nat): (s: Bytes)
    ensures |s| <= 12
  {
    if sizeFat == 32 then [0xf8, 0xff, 0xff, 0x0f, 0xff, 0xff, 0xff, 0x0f, 0xff, 0xff, 0xff, 0x0f]
    else if sizeFat == 16 then [0xf8, 0xff, 0xff, 0xff]
    else [0xf8, 0xff, 0xff, 0x00]
  }

  function FatHead(ss: nat, sizeFat: nat): (s: Bytes)
    requires ss >= 512
    ensures |s| == ss
  {
    var sig := FatSignature(sizeFat);
    sig + Zeros(ss - |sig|)
  }

  /** What sector number i of the new volume holds before it is encrypted. */
  function SectorAt(v: Volume, i: nat): (s: Bytes)
    requires v.Valid()
    ensures |s| == v.ss
  {
    if i == 0 then v.boot
    else if v.sizeFat == 32 && (i == 1 || i == 7) then v.fsInfo
    else if v.sizeFat == 32 && i == 6 then v.boot
    else if v.sizeFat == 32 && i < 6 then TrailSector(v.ss)
    else if i == v.reserved && v.fatLength > 0 then FatHead(v.ss, v.sizeFat)
    else if i == v.reserved + v.fatLength && v.fatLength > 0 then FatHead(v.ss, v.sizeFat)
    else Zeros(v.ss)
  }

  /** Entry i of a FAT, in the low bits of the first bytes first; FAT32 uses 28 of its 32 bits. */
  function EntryAt(s: Bytes, sizeFat: nat, i: nat): nat
    requires |s| >= 512 && i < 3
  {
    if sizeFat == 12 then
      if i % 2 == 0 then s[3 * i / 2] as nat + 256 * (s[3 * i / 2 + 1] as nat % 16)
      else s[3 * i / 2] as nat / 16 + 16 * s[3 * i / 2 + 1] as nat
    else if sizeFat == 16 then s[2 * i] as nat + 256 * s[2 * i + 1] as nat
    else s[4 * i] as nat + 256 * s[4 * i + 1] as nat + 0x1_0000 * s[4 * i + 2] as nat + 0x100_0000 * (s[4 * i + 3] as nat % 16)
  }

  /** Main result on the FATs: both begin with the media descriptor 0xF8 and an end mark, FAT32 also with an end mark for
      the root directory in cluster 2; all other entries are free. */
  lemma FirstEntries(v: Volume, x: nat)
    requires v.Valid() && x < 2 && v.fatLength > 0
    ensures var s := SectorAt(v, v.reserved + x * v.fatLength);
            && |s| >= 512
            && (v.sizeFat == 12 ==> EntryAt(s, 12, 0) == 0xFF8 && EntryAt(s, 12, 1) == 0xFFF && EntryAt(s, 12, 2) == 0)
            && (v.sizeFat == 16 ==> EntryAt(s, 16, 0) == 0xFFF8 && EntryAt(s, 16, 1) == 0xFFFF && EntryAt(s, 16, 2) == 0)
            && (v.sizeFat == 32 ==> EntryAt(s, 32, 0) == 0xFFFFFF8 && EntryAt(s, 32, 1) == 0xFFFFFFF && EntryAt(s, 32, 2) == 0xFFFFFFF)
            && forall i :: (if v.sizeFat == 32 then 12 else 4) <= i < |s| ==> s[i] == 0
  {
    var s := SectorAt(v, v.reserved + x * v.fatLength);
    assert s == FatHead(v.ss, v.sizeFat);
  }

  /** The reserved sectors of FAT32: boot sector and FSInfo twice, six sectors apart, and the signature 55 AA at the end
      of the first 512 bytes of those between. */
  lemma ReservedSectors(v: Volume)
    requires v.Valid() && v.sizeFat == 32
    ensures SectorAt(v, 0) == SectorAt(v, 6) == v.boot && SectorAt(v, 1) == SectorAt(v, 7) == v.fsInfo
    ensures forall i, k :: 2 <= i < 6 && 0 <= k < v.ss ==> SectorAt(v, i)[k] == if k == 510 then 0x55 else if k == 511 then 0xaa else 0
    ensures forall i, k :: 8 <= i < v.reserved && 0 <= k < v.ss ==> SectorAt(v, i)[k] == 0
  {
  }

  /** All metadata is under the real key, the filling of the data area is not. */
  function KeyAt(v: Volume, i: nat): CryptoInfo { if i < v.Meta() then v.realKey else v.temporaryKey }

  function ItemAt(v: Volume, i: nat): Item
    requires v.Valid()
  {
    Item(KeyAt(v, i), SectorAt(v, i))
  }

  /** The first n sectors have gone to the writer, and what is pending there is under this key. */
  ghost predicate SoFar(w: Writer, v: Volume, n: nat, key: CryptoInfo)
    requires v.Valid()
    reads w, w.dev, w.write_buf
  {
    && w.Valid() && w.ss == v.ss && w.write_buf_cnt < FormatWriteBufferSize && w.PendingUnder(key)
    && UnitsFit(w.first, v.sectors, v.ss) && ValidInfo(w.ciphers, v.realKey) && ValidInfo(w.ciphers, v.temporaryKey)
    && |w.items| == n && forall i :: 0 <= i < n ==> w.items[i] == ItemAt(v, i)
  }

  /** WriteSector for the next sector of the layout. */
  method Put(w: Writer, ghost v: Volume, ghost n: nat, sector: Bytes, key: CryptoInfo, aborted: bool, parallel: bool) returns (ok: bool)
    requires v.Valid() && n < v.sectors && SoFar(w, v, n, key) && sector == SectorAt(v, n) && key == KeyAt(v, n)
    modifies w, w.dev, w.write_buf
    ensures ok ==> SoFar(w, v, n + 1, key)
  {
    hide ValidInfo; hide UnitsFit; hide SectorAt; hide Writer.Valid;
    FewerUnitsFit(w.first, v.sectors, n + 1, v.ss) by { WriterSize(w); }
    WriterSize(w);
    ok := w.WriteSector(sector, key, aborted, parallel);
  }

  lemma WriterSize(w: Writer)
    requires w.Valid()
    ensures ValidSectorSize(w.ss)
  {
  }

  /** Zeros up to sector number `end`. */
  method PutZeros(w: Writer, v: Volume, n: nat, end: nat, key: CryptoInfo, aborted: nat -> bool, parallel: bool) returns (ok: bool)
    requires v.Valid() && n <= end <= v.sectors && SoFar(w, v, n, key)
    requires forall i: nat :: n <= i < end ==> SectorAt(v, i) == Zeros(v.ss) && KeyAt(v, i) == key
    modifies w, w.dev, w.write_buf
    ensures ok ==> SoFar(w, v, end, key)
  {
    hide SoFar; hide SectorAt; hide KeyAt; hide Zeros;
    var i := n;
    while i < end
      invariant n <= i <= end && SoFar(w, v, i, key)
    {
      ok := Put(w, v, i, Zeros(v.ss), key, aborted(i), parallel);
      if !ok { return; }
      i := i + 1;
    }
    ok := true;
  }

  /** Boot sector, and what FAT32 adds to it, as far as the end of the reserved sectors. */
  method PutReserved(w: Writer, v: Volume, aborted: nat -> bool, parallel: bool) returns (ok: bool)
    requires v.Valid() && SoFar(w, v, 0, v.realKey)
    modifies w, w.dev, w.write_buf
    ensures ok ==> SoFar(w, v, v.reserved, v.realKey)
  {
    hide SoFar; hide Zeros; hide TrailSector; hide FatHead;
    ok := Put(w, v, 0, v.boot, v.realKey, aborted(0), parallel);
    if !ok { return; }
    var n: nat := 1;
    if v.sizeFat == 32 {
      ok := Put(w, v, 1, v.fsInfo, v.realKey, aborted(1), parallel);
      if !ok { return; }
      n := 2;
      while n < 6
        invariant 2 <= n <= 6 && SoFar(w, v, n, v.realKey)
      {
        ok := Put(w, v, n, TrailSector(v.ss), v.realKey, aborted(n), parallel);
        if !ok { return; }
        n := n + 1;
      }
      ok := Put(w, v, 6, v.boot, v.realKey, aborted(6), parallel);
      if !ok { return; }
      ok := Put(w, v, 7, v.fsInfo, v.realKey, aborted(7), parallel);
      if !ok { return; }
      n := 8;
    }
    ok := PutZeros(w, v, n, v.reserved, v.realKey, aborted, parallel);
  }

  /** Both FATs. */
  method PutFats(w: Writer, v: Volume, aborted: nat -> bool, parallel: bool) returns (ok: bool)
    requires v.Valid() && SoFar(w, v, v.reserved, v.realKey)
    modifies w, w.dev, w.write_buf
    ensures ok ==> SoFar(w, v, v.reserved + 2 * v.fatLength, v.realKey)
  {
    hide SoFar; hide Zeros; hide FatHead;
    var x := 1;
    while x <= 2
      invariant 1 <= x <= 3 && SoFar(w, v, v.reserved + (x - 1) * v.fatLength, v.realKey)
    {
      var at: nat := v.reserved + (x - 1) * v.fatLength;
      assert x == 1 ==> at == v.reserved;
      assert x == 2 ==> at == v.reserved + v.fatLength;
      if v.fatLength > 0 {
        ok := Put(w, v, at, FatHead(v.ss, v.sizeFat), v.realKey, aborted(at), parallel);
        if !ok { return; }
        ok := PutZeros(w, v, at + 1, at + v.fatLength, v.realKey, aborted, parallel);
        if !ok { return; }
      }
      x := x + 1;
    }
    ok := true;
  }

  /** FormatFat after the seek.  `keyReady` is whether a temporary key could be made and set up, `aborted(i)` what the
      progress bar answers after sector i. */
  method FormatFat(w: Writer, v: Volume, keyReady: bool, aborted: nat -> bool, quickFormat: bool, parallel: bool) returns (ok: bool)
    requires v.Valid() && SoFar(w, v, 0, v.realKey)
    modifies w, w.dev, w.write_buf
    ensures ok ==> w.Valid() && |w.items| == (if quickFormat then v.reserved + 2 * v.fatLength + v.rootSectors else v.sectors)
    ensures ok ==> forall i :: 0 <= i < |w.items| ==>
                                 && w.items[i].sector == SectorAt(v, i)
                                 && w.items[i].key == if i < v.reserved + 2 * v.fatLength + v.rootSectors then v.realKey else v.temporaryKey
    ensures ok ==> w.dev.Valid() && Concat(w.dev.sent) == Encrypted(w.ciphers, w.ss, w.first, w.items)
    ensures ok && !w.dev.WriteThreadRunning ==> w.dev.content == Encrypted(w.ciphers, w.ss, w.first, w.items)
  {
    hide SoFar; hide ItemAt; hide Writer.Valid; hide Zeros; hide FatHead; hide TrailSector; hide Encrypted; hide ValidInfo; hide UnitsFit;
    ok := PutReserved(w, v, aborted, parallel);
    if !ok { return; }
    ok := PutFats(w, v, aborted, parallel);
    if !ok { return; }
    ok := PutZeros(w, v, v.reserved + 2 * v.fatLength, v.Meta(), v.realKey, aborted, parallel);
    if !ok { return; }
    if !quickFormat {
      ok := Empty(w, v, v.Meta(), v.realKey, v.temporaryKey, parallel);
      if !ok { return; }
      if !keyReady { return false; }
      ok := PutZeros(w, v, v.Meta(), v.sectors, v.temporaryKey, aborted, parallel);
      if !ok { return; }
      ok := Empty(w, v, v.sectors, v.temporaryKey, v.temporaryKey, parallel);
    } else {
      ok := Empty(w, v, v.Meta(), v.realKey, v.realKey, parallel);
    }
    if ok { Written(w, v, if quickFormat then v.Meta() else v.sectors, if quickFormat then v.realKey else v.temporaryKey); }
  }

  lemma Written(w: Writer, v: Volume, n: nat, key: CryptoInfo)
    requires v.Valid() && SoFar(w, v, n, key) && w.write_buf_cnt == 0
    ensures w.Valid() && |w.items| == n
    ensures forall i :: 0 <= i < n ==>
                          && w.items[i].sector == SectorAt(v, i)
                          && w.items[i].key == if i < v.reserved + 2 * v.fatLength + v.rootSectors then v.realKey else v.temporaryKey
    ensures v.Meta() == v.reserved + 2 * v.fatLength + v.rootSectors
    ensures w.dev.Valid() && Concat(w.dev.sent) == Encrypted(w.ciphers, w.ss, w.first, w.items)
  {
    hide Encrypted; hide SectorAt;
    assert w.items[..n] == w.items;
  }

  /** A flush, after which another key may be used. */
  method Empty(w: Writer, ghost v: Volume, ghost n: nat, key: CryptoInfo, ghost next: CryptoInfo, parallel: bool) returns (ok: bool)
    requires v.Valid() && n <= v.sectors && SoFar(w, v, n, key) && (key == v.realKey || key == v.temporaryKey)
    modifies w, w.dev, w.write_buf
    ensures ok ==> SoFar(w, v, n, next) && w.write_buf_cnt == 0
  {
    hide ValidInfo; hide UnitsFit; hide ItemAt; hide Encrypted;
    FewerUnitsFit(w.first, v.sectors, n, v.ss);
    ok := w.Flush(key, parallel);
  }

  /** The layout that GetFatParams computes is one FormatFat can follow. */
  lemma LayoutFits(n: nat, ss: nat, cs: nat, sizeFat: nat, reserved: nat, fatLength: nat, sizeRootDir: nat, boot: Bytes, fsInfo: Bytes,
                   realKey: CryptoInfo, temporaryKey: CryptoInfo)
    requires ValidSectorSize(ss) && 1 <= cs <= 128 && Fat.Placed(n, ss, cs, sizeFat, reserved, fatLength)
    requires sizeRootDir == (if sizeFat == 32 then cs * ss else 512 * 32) && |boot| == |fsInfo| == ss
    ensures Volume(ss, n, sizeFat, reserved, fatLength, sizeRootDir / ss, boot, fsInfo, realKey, temporaryKey).Valid()
    ensures n - reserved - sizeRootDir / ss - fatLength * 2 >= 0
  {
    hide Fat.FatSectors; hide FatLayout.Whole; hide Fat.FirstCount; hide Fat.Aligned;
    RootIs(ss, cs);
  }

  lemma RootIs(ss: nat, cs: nat)
    requires ValidSectorSize(ss) && cs > 0
    ensures (cs * ss) / ss == cs && 512 * 32 / ss == Fat.Root(ss) > 0
  {
    if ss == 512 { } else if ss == 1024 { } else if ss == 2048 { } else { }
  }
}
